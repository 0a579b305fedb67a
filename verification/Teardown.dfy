/**
 Giving a whole page table back: freewalk and uvmfree of kernel/vm.c.
 */
module Teardown {
  import opened PageTable
  import opened Vm

  function Lift(prefix: int, d: int): (p: int) {
    if d == 0 then prefix else if d == 1 then prefix / 512 else prefix / 262144
  }

  /** Table x is table o or below it. */
  predicate Under(x: Owner, o: Owner) {
    x.Node? && o.Node? && x.root == o.root && 0 <= x.level <= o.level <= 2 &&
      Lift(x.prefix, o.level - x.level) == o.prefix
  }

  /** For a table x below o, the entry of o through which it is reached. */
  function Branch(x: Owner, o: Owner): (k: int)
    requires x.Node? && o.Node? && 0 <= x.level < o.level <= 2
    ensures 0 <= k < ENTRIES
  {
    Lift(x.prefix, o.level - 1 - x.level) % 512
  }

  lemma UnderChild(x: Owner, o: Owner, k: int)
    requires o.Node? && 0 < o.level <= 2 && 0 <= k < ENTRIES && x.Node? && 0 <= x.prefix
    ensures Under(x, Child(o, k)) <==> Under(x, o) && x.level < o.level && Branch(x, o) == k
  {
  }

  lemma UnderParent(x: Owner, o: Owner)
    requires Under(x, o) && x.level < o.level && 0 <= x.prefix
    ensures Under(Parent(x), o)
  {
  }

  /** No page of the tree is mapped any more. */
  ghost predicate NoLeaves(t: Trees, root: int) {
    forall f, k :: t.Sized() && t.IsFrame(f) && IsBottom(t.owner[f], root) && 0 <= k < ENTRIES ==>
      !PageTable.Valid(t.tables[f][k])
  }

  predicate IsBottom(o: Owner, root: int) { o.Node? && o.root == root && o.level == 0 }

  /** Everything from table o down is free, and nothing else changed. */
  ghost predicate Pruned(t: Trees, t': Trees, o: Owner) {
    && t.Sized() && t'.Sized() && |t.owner| == |t'.owner| && t.up == t'.up
    && (forall g :: t.IsFrame(g) ==> t'.owner[g] == if Under(t.owner[g], o) then Free else t.owner[g])
    && (forall g :: t.IsFrame(g) && !Under(t.owner[g], o) ==> t'.tables[g] == t.tables[g])
  }

  lemma NoLeafOwners(low: int, t: Trees, root: int, g: int)
    requires TreesOk(low, t) && NoLeaves(t, root) && t.IsFrame(g)
    ensures !(t.owner[g].Leaf? && t.owner[g].root == root)
  {
    assert UpOk(t, g);
  }

  /** After freewalk of a table, only the entry that pointed to it is wrong. */
  lemma PrunedOk(low: int, t: Trees, t': Trees, f: int, o: Owner)
    requires TreesOk(low, t) && t.IsFrame(f) && o.Node? && t.owner[f] == o && NoLeaves(t, o.root) && Pruned(t, t', o)
    ensures o.level < 2 ==> TreesOkBut(low, t', t.up[f], Index(o))
    ensures o.level == 2 ==> TreesOk(low, t')
    ensures NoLeaves(t', o.root)
  {
    assert UpOk(t, f);
    forall g, k | t'.IsFrame(g) && 0 <= k < ENTRIES && (o.level < 2 ==> !(g == t.up[f] && k == Index(o)))
      ensures DownOk(t', g, k)
    {
      assert DownOk(t, g, k) && UpOk(t, g);
      if t'.owner[g].Node? && PageTable.Valid(t.tables[g][k]) && Under(Child(t.owner[g], k), o) {
        ChildParent(t.owner[g], k);
        OnlyEntry(t.owner[g], k, o);
        NodeUnique(low, t, g, t.up[f]);
      }
    }
    forall g | t'.IsFrame(g)
      ensures UpOk(t', g)
    {
      assert UpOk(t, g);
      NoLeafOwners(low, t, o.root, g);
      if t'.owner[g].Node? && t'.owner[g].level < 2 && Under(Parent(t.owner[g]), o) {
        UnderParent2(t.owner[g], o);
      }
    }
  }

  lemma OnlyEntry(n: Owner, k: int, o: Owner)
    requires n.Node? && 0 <= n.level <= 2 && 0 <= n.prefix && 0 <= k < ENTRIES && !Under(n, o) && Under(Child(n, k), o)
    ensures Child(n, k) == o
  {
  }

  lemma UnderParent2(x: Owner, o: Owner)
    requires x.Node? && 0 <= x.prefix && 0 <= x.level && Under(Parent(x), o)
    ensures Under(x, o)
  {
  }

  // ---------------------------------------------------------------- one branch after the other

  /** Is table x in one of the first k branches of table o? */
  predicate Cut(x: Owner, o: Owner, k: int) {
    Under(x, o) && x.level < o.level && Branch(x, o) < k
  }

  /** freewalk's loop has freed the first k branches of table o, which is frame f. */
  ghost predicate CutTo(t: Trees, t': Trees, f: int, o: Owner, k: int) {
    && t.Sized() && t'.Sized() && |t.owner| == |t'.owner| && t.up == t'.up && t.IsFrame(f)
    && (forall g :: t.IsFrame(g) ==> t'.owner[g] == if Cut(t.owner[g], o, k) then Free else t.owner[g])
    && (forall g :: t.IsFrame(g) && g != f && !Cut(t.owner[g], o, k) ==> t'.tables[g] == t.tables[g])
    && (forall j :: 0 <= k <= j < ENTRIES ==> t'.tables[f][j] == t.tables[f][j])
  }

  /** No table hangs below an invalid entry. */
  lemma {:induction false} NoBranch(low: int, t: Trees, f: int, o: Owner, k: int, g: int)
    requires TreesOk(low, t) && t.IsFrame(f) && o.Node? && t.owner[f] == o && 0 < o.level <= 2 && 0 <= k < ENTRIES
    requires !PageTable.Valid(t.tables[f][k]) && t.IsFrame(g)
    ensures !Under(t.owner[g], Child(o, k))
    decreases if t.owner[g].Node? then 2 - t.owner[g].level else 0
  {
    assert UpOk(t, g) && UpOk(t, f);
    if Under(t.owner[g], Child(o, k)) {
      if t.owner[g].level == o.level - 1 {
        ChildParent(o, k);
        NodeUnique(low, t, t.up[g], f);
      } else {
        UnderParent(t.owner[g], Child(o, k));
        NoBranch(low, t, f, o, k, t.up[g]);
      }
    }
  }

  lemma SkipBranch(low: int, t: Trees, t1: Trees, f: int, o: Owner, k: int)
    requires TreesOk(low, t) && TreesOk(low, t1) && t.IsFrame(f) && o.Node? && t.owner[f] == o && 0 <= o.level <= 2
    requires 0 <= k < ENTRIES
    requires t1.IsFrame(f) && t1.owner[f] == o && CutTo(t, t1, f, o, k) && !PageTable.Valid(t1.tables[f][k])
    ensures CutTo(t, t1, f, o, k + 1)
  {
    forall g | t.IsFrame(g)
      ensures Cut(t.owner[g], o, k + 1) == Cut(t.owner[g], o, k)
    {
      assert UpOk(t, g);
      if o.level > 0 && t.owner[g].Node? {
        NoBranch(low, t1, f, o, k, g);
        UnderChild(t.owner[g], o, k);
      }
    }
  }

  /** Freeing branch k and clearing its entry leaves a tree. */
  lemma CutBranchTree(low: int, t1: Trees, t2: Trees, f: int, o: Owner, k: int, c: int)
    requires TreesOk(low, t1) && o.Node? && 0 < o.level <= 2 && 0 <= k < ENTRIES
    requires t1.IsFrame(f) && t1.owner[f] == o && NoLeaves(t1, o.root)
    requires t1.IsFrame(c) && t1.owner[c] == Child(o, k) && Pruned(t1, t2, Child(o, k))
    ensures TreesOk(low, WithEntry(t2, f, k, 0)) && !Under(o, Child(o, k))
  {
    var t' := WithEntry(t2, f, k, 0);
    PrunedOk(low, t1, t2, c, Child(o, k));
    assert UpOk(t1, c) && UpOk(t1, f);
    ChildParent(o, k);
    NodeUnique(low, t1, t1.up[c], f);
    assert !Under(o, Child(o, k));
    forall g, j | t'.IsFrame(g) && 0 <= j < ENTRIES
      ensures DownOk(t', g, j)
    {
      assert !(g == f && j == k) ==> DownOk(t2, g, j);
    }
    forall g | t'.IsFrame(g)
      ensures UpOk(t', g)
    {
      ClearedUp(low, t1, t2, f, o, k, g);
    }
  }

  lemma CutMore(low: int, t: Trees, o: Owner, k: int, g: int)
    requires TreesOk(low, t) && o.Node? && 0 < o.level <= 2 && 0 <= k < ENTRIES && t.IsFrame(g)
    ensures Cut(t.owner[g], o, k + 1) <==> Cut(t.owner[g], o, k) || Under(t.owner[g], Child(o, k))
  {
    assert UpOk(t, g);
    if t.owner[g].Node? {
      UnderChild(t.owner[g], o, k);
    }
  }

  /** Freeing branch k and clearing its entry. */
  lemma CutBranch(low: int, t: Trees, t1: Trees, t2: Trees, f: int, o: Owner, k: int, c: int)
    requires TreesOk(low, t) && TreesOk(low, t1) && t.IsFrame(f) && o.Node? && t.owner[f] == o && 0 < o.level <= 2
    requires 0 <= k < ENTRIES
    requires t1.IsFrame(f) && t1.owner[f] == o && NoLeaves(t1, o.root) && CutTo(t, t1, f, o, k)
    requires t1.IsFrame(c) && t1.owner[c] == Child(o, k) && Pruned(t1, t2, Child(o, k))
    ensures var t' := WithEntry(t2, f, k, 0);
            TreesOk(low, t') && NoLeaves(t', o.root) && t'.owner[f] == o && CutTo(t, t', f, o, k + 1)
  {
    CutBranchTree(low, t1, t2, f, o, k, c);
    forall g | t.IsFrame(g)
      ensures Cut(t.owner[g], o, k + 1) <==> Cut(t.owner[g], o, k) || Under(t.owner[g], Child(o, k))
    {
      CutMore(low, t, o, k, g);
    }
  }

  lemma ClearedUp(low: int, t1: Trees, t2: Trees, f: int, o: Owner, k: int, g: int)
    requires TreesOk(low, t1) && o.Node? && 0 < o.level <= 2 && 0 <= k < ENTRIES && t1.IsFrame(f) && t1.owner[f] == o
    requires t1.IsFrame(g)
    requires Pruned(t1, t2, Child(o, k)) && UpOk(t2, g) && !Under(o, Child(o, k))
    ensures UpOk(WithEntry(t2, f, k, 0), g)
  {
    var x := t2.owner[g];
    if x.Leaf? || (x.Node? && x.level < 2) {
      assert UpOk(t1, g) && UpOk(t1, f);
      if t2.up[g] == f && Index(x) == k {
        assert false;
      }
    }
  }

  /** The last step: the table itself. */
  lemma CutAll(low: int, t: Trees, t1: Trees, f: int, o: Owner)
    requires TreesOk(low, t) && t.IsFrame(f) && o.Node? && t.owner[f] == o && 0 <= o.level <= 2
    requires CutTo(t, t1, f, o, ENTRIES)
    ensures Pruned(t, t1.(owner := t1.owner[f := Free]), o)
  {
    forall g | t.IsFrame(g)
      ensures Under(t.owner[g], o) <==> g == f || Cut(t.owner[g], o, ENTRIES)
    {
      if Under(t.owner[g], o) && t.owner[g].level == o.level {
        NodeUnique(low, t, g, f);
      }
    }
  }

  /** freewalk: give back table f and every table below it.  A mapped page would be a panic in the source. */
  method Freewalk(m: Memory, f: int, ghost o: Owner)
    requires m.Valid() && m.T().IsFrame(f) && o.Node? && m.owner[f] == o && 0 <= o.level <= 2 && NoLeaves(m.T(), o.root)
    modifies m
    ensures FreeOk(m.owner, m.freelist, m.at) && |m.pages| == |m.owner| && Pruned(old(m.T()), m.T(), o)
    ensures forall h :: 0 <= h < |m.owner| && !m.owner[h].Free? ==> m.pages[h] == old(m.pages)[h]
    decreases o.level, 1
  {
    ghost var t := m.T();
    var i := 0;
    while i < ENTRIES
      invariant 0 <= i <= ENTRIES && m.Valid() && m.T().IsFrame(f) && m.owner[f] == o && NoLeaves(m.T(), o.root)
      invariant CutTo(t, m.T(), f, o, i)
      invariant forall h :: 0 <= h < |m.owner| && !m.owner[h].Free? ==> m.pages[h] == old(m.pages)[h]
    {
      FreeBranch(m, f, o, i, t);
      i := i + 1;
    }
    CutAll(m.low, t, m.T(), f, o);
    ghost var t' := m.T().(owner := m.owner[f := Free]);
    m.Kfree(f);
    assert m.T() == t';
  }

  /** freewalk's loop body, for entry i of table f. */
  method FreeBranch(m: Memory, f: int, ghost o: Owner, i: int, ghost t: Trees)
    requires m.Valid() && m.T().IsFrame(f) && o.Node? && m.owner[f] == o && 0 <= o.level <= 2 && NoLeaves(m.T(), o.root)
    requires TreesOk(m.low, t) && t.IsFrame(f) && t.owner[f] == o && 0 <= i < ENTRIES && CutTo(t, m.T(), f, o, i)
    modifies m
    ensures m.Valid() && m.T().IsFrame(f) && m.owner[f] == o && NoLeaves(m.T(), o.root) && CutTo(t, m.T(), f, o, i + 1)
    ensures forall h :: 0 <= h < |m.owner| && !m.owner[h].Free? ==> m.pages[h] == old(m.pages)[h]
    decreases o.level, 0
  {
    ghost var t1 := m.T();
    assert DownOk(t1, f, i);
    var pte := m.tables[f][i];
    if PageTable.Valid(pte) && !IsLeaf(pte) {
      var child := Frame(pte);
      Freewalk(m, child, Child(o, i));
      CutBranch(m.low, t, t1, m.T(), f, o, i, child);
      ghost var t' := WithEntry(m.T(), f, i, 0);
      m.tables := m.tables[f := m.tables[f][i := 0]];
      assert m.T() == t';
    } else {
      SkipBranch(m.low, t, t1, f, o, i);
    }
  }
}
