/**
 Physical pages and user address spaces: kernel/kalloc.c and kernel/vm.c over the trees of
 PageTable.
 */
module Vm {
  import opened Basics
  import opened PageTable

  type Page = p: seq<int> | |p| == PGSIZE witness seq(PGSIZE, _ => 0)

  function Filled(x: int): (p: Page) { seq(PGSIZE, _ => x) }

  // ---------------------------------------------------------------- the free list

  /** The free frames are those on the free list, each once, at the position `at` gives. */
  ghost predicate FreeOk(owner: seq<Owner>, freelist: seq<int>, at: seq<int>) {
    && |at| == |owner|
    && (forall i :: 0 <= i < |freelist| ==>
         0 <= freelist[i] < |owner| && owner[freelist[i]].Free? && at[freelist[i]] == i)
    && (forall f :: 0 <= f < |owner| && owner[f].Free? ==> 0 <= at[f] < |freelist| && freelist[at[f]] == f)
  }

  lemma Popped(owner: seq<Owner>, freelist: seq<int>, at: seq<int>, o: Owner)
    requires FreeOk(owner, freelist, at) && |freelist| > 0 && !o.Free?
    ensures FreeOk(owner[freelist[|freelist| - 1] := o], freelist[..|freelist| - 1], at)
  {
  }

  lemma Pushed(owner: seq<Owner>, freelist: seq<int>, at: seq<int>, f: int)
    requires FreeOk(owner, freelist, at) && 0 <= f < |owner| && !owner[f].Free?
    ensures FreeOk(owner[f := Free], freelist + [f], at[f := |freelist|])
  {
  }

  lemma Reowned(low: int, t: Trees, f: int, o: Owner)
    requires TreesOk(low, t) && t.IsFrame(f) && (t.owner[f].Free? || t.owner[f].Loose?)
    requires o.Free? || o.Loose? || o.Kernel?
    ensures TreesOk(low, t.(owner := t.owner[f := o]))
  {
    var r := t.(owner := t.owner[f := o]);
    forall f', k' | r.IsFrame(f') && 0 <= k' < ENTRIES
      ensures DownOk(r, f', k')
    {
      assert DownOk(t, f', k');
    }
    forall f' | r.IsFrame(f')
      ensures UpOk(r, f')
    {
      assert UpOk(t, f');
    }
  }

  // ---------------------------------------------------------------- what an operation keeps

  /** All translations are the same. */
  ghost predicate SameMap(t: Trees, t': Trees) {
    && SameRoots(t, t')
    && forall r, v :: t.IsRoot(r) && 0 <= v < MAXPAGE ==> Translate(t'.tables, r, v) == Translate(t.tables, r, v)
  }

  ghost predicate SameRoots(t: Trees, t': Trees) {
    forall r :: t.IsRoot(r) ==> t'.IsRoot(r)
  }

  /** Only free frames changed hands, and they became tables of the tree. */
  ghost predicate Grown(t: Trees, t': Trees, root: int) {
    && |t.owner| == |t'.owner|
    && forall f :: t.IsFrame(f) ==> t'.owner[f] == t.owner[f] || NewTable(t, t', root, f)
  }

  ghost predicate NewTable(t: Trees, t': Trees, root: int, f: int) {
    && t.IsFrame(f) && t'.IsFrame(f)
    && t.owner[f].Free? && t'.owner[f].Node? && t'.owner[f].root == root && t'.owner[f].level < 2
  }

  /** One level of walk that needs a new table. */
  lemma WalkStep(low: int, t: Trees, f: int, k: int, g: int, root: int)
    requires TreesOk(low, t) && t.IsFrame(f) && t.IsFrame(g) && 0 <= k < ENTRIES && !Valid(t.tables[f][k])
    requires t.owner[f].Node? && t.owner[f].level > 0 && t.owner[f].root == root && t.owner[g].Free?
    requires Placed(Child(t.owner[f], k))
    ensures var t' := Linked(t.(owner := t.owner[g := Loose]), f, k, g);
            TreesOk(low, t') && SameMap(t, t') && Grown(t, t', root) && NewTable(t, t', root, g)
  {
    var t1 := t.(owner := t.owner[g := Loose]);
    Reowned(low, t, g, Loose);
    LinkTable(low, t1, f, k, g);
    assert UpOk(t, f);
    forall r, v | t.IsRoot(r) && 0 <= v < MAXPAGE
      ensures Translate(Linked(t1, f, k, g).tables, r, v) == Translate(t.tables, r, v)
    {
      LinkKeepsMap(low, t1, f, k, g, r, v);
    }
  }

  lemma SameMapTrans(t: Trees, t1: Trees, t2: Trees, root: int)
    requires SameMap(t, t1) && SameMap(t1, t2) && Grown(t, t1, root) && Grown(t1, t2, root)
    ensures SameMap(t, t2) && Grown(t, t2, root)
  {
    forall f | t.IsFrame(f)
      ensures t2.owner[f] == t.owner[f] || NewTable(t, t2, root, f)
    {
      assert t1.owner[f] == t.owner[f] || NewTable(t, t1, root, f);
    }
    forall r, v | t.IsRoot(r) && 0 <= v < MAXPAGE
      ensures Translate(t2.tables, r, v) == Translate(t.tables, r, v)
    {
      assert Translate(t1.tables, r, v) == Translate(t.tables, r, v);
    }
  }

  /** The table of a page at each level. */
  function Place(root: int, level: int, v: int): (o: Owner) {
    Node(root, level, if level == 0 then v / 512 else if level == 1 then v / 262144 else 0)
  }

  /** The entry of page v in its level-0 table is what the page translates to. */
  lemma EntryIs(low: int, t: Trees, root: int, v: int, f: int)
    requires TreesOk(low, t) && t.IsRoot(root) && 0 <= v < MAXPAGE && t.IsFrame(f) && t.owner[f] == Place(root, 0, v)
    ensures var e := t.tables[f][Px(0, v)];
            Translate(t.tables, root, v) == if PageTable.Valid(e) then Some(e) else None
  {
    Prefixes(v);
    assert UpOk(t, f);
    assert UpOk(t, t.up[f]);
    assert (v / 512) / 512 == v / 262144;
  }

  /** Different pages, of one tree or of two, have different entries. */
  lemma DistinctEntries(low: int, t: Trees, root: int, v: int, f: int, root': int, v': int, f': int)
    requires TreesOk(low, t) && 0 <= v < MAXPAGE && 0 <= v' < MAXPAGE && t.IsFrame(f) && t.IsFrame(f')
    requires t.owner[f] == Place(root, 0, v) && t.owner[f'] == Place(root', 0, v')
    ensures f == f' && Px(0, v) == Px(0, v') <==> root == root' && v == v'
  {
    if root == root' && v == v' {
      NodeUnique(low, t, f, f');
    }
    Prefixes(v);
    Prefixes(v');
  }

  /** Pages v0 to v0+n of the tree map the frames from g0 on; nothing else is mapped differently. */
  ghost predicate MapsTo(t: Trees, t': Trees, root: int, v0: int, n: int, g0: int, perm: int) {
    && SameRoots(t, t')
    && forall r, v :: t.IsRoot(r) && 0 <= v < MAXPAGE ==>
         Translate(t'.tables, r, v)
         == if r == root && v0 <= v < v0 + n then Some(MakePte(g0 + (v - v0), perm)) else Translate(t.tables, r, v)
  }

  /** Of those frames, the loose ones now are the memory of their pages. */
  ghost predicate Given(t: Trees, t': Trees, root: int, v0: int, n: int, g0: int) {
    && |t.owner| == |t'.owner|
    && forall f :: t.IsFrame(f) ==>
       t'.owner[f] == GivenOwner(t.owner[f], f, root, v0, n, g0) || NewTable(t, t', root, f)
  }

  function GivenOwner(o: Owner, f: int, root: int, v0: int, n: int, g0: int): (r: Owner) {
    if o.Loose? && g0 <= f < g0 + n then Leaf(root, v0 + (f - g0)) else o
  }

  /** mappages' round for one page. */
  lemma {:induction false} MapRound(low: int, t: Trees, t1: Trees, f: int, g: int, perm: int, root: int, v: int)
    requires TreesOk(low, t1) && SameMap(t, t1) && Grown(t, t1, root) && t.IsRoot(root) && t1.IsFrame(f)
    requires 0 <= v < MAXPAGE
    requires t1.owner[f] == Place(root, 0, v) && Translate(t.tables, root, v) == None
    requires 0 < g && t.IsFrame(g) && (t.owner[g].Loose? || t.owner[g].Kernel?) && Perm(perm) && IsLeaf(perm)
    ensures var t' := Mapped(t1, f, g, perm, root, v);
            !PageTable.Valid(t1.tables[f][Px(0, v)]) && TreesOk(low, t') && MapsTo(t, t', root, v, 1, g, perm) &&
              Given(t, t', root, v, 1, g)
  {
    EntryIs(low, t1, root, v, f);
    assert Translate(t1.tables, root, v) == Translate(t.tables, root, v);
    MapPage(low, t1, f, g, perm, root, v);
    MadePte(g, perm);
    var t' := Mapped(t1, f, g, perm, root, v);
    forall r, v' | t.IsRoot(r) && 0 <= v' < MAXPAGE
      ensures Translate(t'.tables, r, v') ==
        if r == root && v == v' then Some(MakePte(g, perm)) else Translate(t.tables, r, v')
    {
      assert Translate(t1.tables, r, v') == Translate(t.tables, r, v');
      WriteLeaf(low, t1, f, MakePte(g, perm), root, v, r, v');
    }
    forall f' | t.IsFrame(f')
      ensures t'.owner[f'] == GivenOwner(t.owner[f'], f', root, v, 1, g) || NewTable(t, t', root, f')
    {
      assert t1.owner[f'] == t.owner[f'] || NewTable(t, t1, root, f');
    }
  }

  lemma MapsStep(t: Trees, t1: Trees, t2: Trees, root: int, v0: int, n: int, g0: int, perm: int)
    requires 0 <= n && 0 <= v0 && v0 + n < MAXPAGE
    requires MapsTo(t, t1, root, v0, n, g0, perm) && Given(t, t1, root, v0, n, g0)
    requires MapsTo(t1, t2, root, v0 + n, 1, g0 + n, perm) && Given(t1, t2, root, v0 + n, 1, g0 + n)
    ensures MapsTo(t, t2, root, v0, n + 1, g0, perm) && Given(t, t2, root, v0, n + 1, g0)
  {
    forall r, v | t.IsRoot(r) && 0 <= v < MAXPAGE
      ensures Translate(t2.tables, r, v)
              == if r == root && v0 <= v < v0 + (n +
                1) then Some(MakePte(g0 + (v - v0), perm)) else Translate(t.tables, r, v)
    {
      var e := Translate(t1.tables, r, v);
    }
    forall f | t.IsFrame(f)
      ensures t2.owner[f] == GivenOwner(t.owner[f], f, root, v0, n + 1, g0) || NewTable(t, t2, root, f)
    {
      assert t1.owner[f] == GivenOwner(t.owner[f], f, root, v0, n, g0) || NewTable(t, t1, root, f);
    }
  }

  /** A failed round adds nothing but tables. */
  lemma MapsStop(t: Trees, t1: Trees, t2: Trees, root: int, v0: int, n: int, g0: int, perm: int)
    requires MapsTo(t, t1, root, v0, n, g0, perm) && Given(t, t1, root, v0, n, g0) && SameMap(t1, t2)
    requires Grown(t1, t2, root)
    ensures MapsTo(t, t2, root, v0, n, g0, perm) && Given(t, t2, root, v0, n, g0)
  {
    forall r, v | t.IsRoot(r) && 0 <= v < MAXPAGE
      ensures Translate(t2.tables, r, v)
              == if r == root && v0 <= v < v0 + n then Some(MakePte(g0 + (v - v0), perm)) else Translate(t.tables, r, v)
    {
      assert t1.IsRoot(r);
      assert Translate(t2.tables, r, v) == Translate(t1.tables, r, v);
    }
    forall f | t.IsFrame(f)
      ensures t2.owner[f] == GivenOwner(t.owner[f], f, root, v0, n, g0) || NewTable(t, t2, root, f)
    {
      assert t1.owner[f] == GivenOwner(t.owner[f], f, root, v0, n, g0) || NewTable(t, t1, root, f);
    }
  }

  /** Pages v0 to v0+n of the tree are not mapped; nothing else is mapped differently. */
  ghost predicate Unmaps(t: Trees, t': Trees, root: int, v0: int, n: int) {
    && SameRoots(t, t')
    && forall r, v :: t.IsRoot(r) && 0 <= v < MAXPAGE ==>
         Translate(t'.tables, r, v) == if r == root && v0 <= v < v0 + n then None else Translate(t.tables, r, v)
  }

  /** The memory of those pages changed hands, and no other frame did. */
  ghost predicate Taken(t: Trees, t': Trees, root: int, v0: int, n: int, o: Owner) {
    && |t.owner| == |t'.owner|
    && forall f :: t.IsFrame(f) ==> t'.owner[f] == TakenOwner(t.owner[f], root, v0, n, o)
  }

  function TakenOwner(x: Owner, root: int, v0: int, n: int, o: Owner): (r: Owner) {
    if x.Leaf? && x.root == root && v0 <= x.v < v0 + n then o else x
  }

  /** uvmunmap's round for one page. */
  lemma UnmapRound(low: int, t: Trees, f: int, root: int, v: int, o: Owner)
    requires TreesOk(low, t) && t.IsRoot(root) && t.IsFrame(f) && 0 <= v < MAXPAGE && t.owner[f] == Place(root, 0, v)
    requires PageTable.Valid(t.tables[f][Px(0, v)]) && (o.Free? || o.Loose?)
    ensures var t' := Unmapped(t, f, root, v, o);
            TreesOk(low, t') && Unmaps(t, t', root, v, 1) && Taken(t, t', root, v, 1, o)
  {
    UnmapPage(low, t, f, root, v, o);
    var t' := Unmapped(t, f, root, v, o);
    forall r, v' | t.IsRoot(r) && 0 <= v' < MAXPAGE
      ensures Translate(t'.tables, r, v') == if r == root && v == v' then None else Translate(t.tables, r, v')
    {
      WriteLeaf(low, t, f, 0, root, v, r, v');
    }
    forall g | t.IsFrame(g)
      ensures t'.owner[g] == TakenOwner(t.owner[g], root, v, 1, o)
    {
      assert UpOk(t, g);
      if t.owner[g] == Leaf(root, v) {
        NodeUnique(low, t, t.up[g], f);
      }
    }
  }

  lemma UnmapReady(low: int, t: Trees, f: int, root: int, v: int, o: Owner)
    requires TreesOk(low, t) && t.IsRoot(root) && t.IsFrame(f) && 0 <= v < MAXPAGE && t.owner[f] == Place(root, 0, v)
    requires Translate(t.tables, root, v).Some? && (o.Free? || o.Loose?)
    ensures var g := Frame(t.tables[f][Px(0, v)]);
            t.IsFrame(g) && (!t.owner[g].Kernel? ==> low <= g) &&
              (OwnsPage(t, root, v) <==> t.owner[g] == Leaf(root, v))
    ensures var t' := Unmapped(t, f, root, v, o);
            TreesOk(low, t') && Unmaps(t, t', root, v, 1) && Taken(t, t', root, v, 1, o)
  {
    EntryIs(low, t, root, v, f);
    Path(low, t, root, v);
    UnmapRound(low, t, f, root, v, o);
  }

  lemma UnmapsStep(t: Trees, t1: Trees, t2: Trees, root: int, v0: int, n: int, a: int, o: Owner)
    requires 0 <= n && 0 <= v0 && a == v0 + n < MAXPAGE && (o.Free? || o.Loose?)
    requires Unmaps(t, t1, root, v0, n) && Taken(t, t1, root, v0, n, o)
    requires Unmaps(t1, t2, root, a, 1) && Taken(t1, t2, root, a, 1, o)
    ensures Unmaps(t, t2, root, v0, n + 1) && Taken(t, t2, root, v0, n + 1, o)
  {
    forall r, v | t.IsRoot(r) && 0 <= v < MAXPAGE
      ensures Translate(t2.tables, r, v) ==
        if r == root && v0 <= v < v0 + (n + 1) then None else Translate(t.tables, r, v)
    {
      assert t1.IsRoot(r);
      var e := Translate(t1.tables, r, v);
    }
    forall f | t.IsFrame(f)
      ensures t2.owner[f] == TakenOwner(t.owner[f], root, v0, n + 1, o)
    {
      assert t1.owner[f] == TakenOwner(t.owner[f], root, v0, n, o);
    }
  }

  // ---------------------------------------------------------------- memory

  lemma TreesSized(low: int, t: Trees)
    requires TreesOk(low, t)
    ensures t.Sized() && 0 < low
  {
  }

  lemma DownAt(low: int, t: Trees, f: int, k: int)
    requires TreesOk(low, t) && t.IsFrame(f) && t.owner[f].Node? && 0 <= k < ENTRIES
    ensures DownOk(t, f, k) && t.Sized() && 0 < low
  {
  }

  lemma UnmapsNone(t: Trees, root: int, v0: int, o: Owner)
    ensures Unmaps(t, t, root, v0, 0) && Taken(t, t, root, v0, 0, o)
  {
  }

  class Memory {
    const low: int                 // the first frame the allocator manages
    var tables: seq<Table>
    var pages: seq<Page>
    var freelist: seq<int>         // the next frame to hand out is the last one
    ghost var owner: seq<Owner>
    ghost var up: seq<int>
    ghost var at: seq<int>

    ghost function T(): (t: Trees)
      reads this
    {
      Trees(tables, owner, up)
    }

    ghost predicate Valid()
      reads this
    {
      TreesOk(low, T()) && FreeOk(owner, freelist, at) && |pages| == |owner|
    }

    /** kinit: of `frames` page frames, those from `low` on are free. */
    constructor (low: int, frames: int)
      requires 0 < low <= frames
      ensures Valid() && this.low == low && |owner| == frames
      ensures forall f :: 0 <= f < frames ==> owner[f] == if f < low then Kernel else Free
    {
      this.low := low;
      tables, pages := seq(frames, _ => ZeroTable()), seq(frames, _ => Filled(0));
      owner, up, at := seq(frames, _ => Kernel), seq(frames, _ => 0), seq(frames, _ => 0);
      freelist := [];
      new;
      var p := low;
      while p < frames
        invariant low <= p <= frames && |owner| == |pages| == |tables| == |up| == frames && FreeOk(owner, freelist, at)
        invariant forall f :: 0 <= f < frames ==> owner[f] == if low <= f < p then Free else Kernel
      {
        Kfree(p);
        p := p + 1;
      }
    }

    /** kalloc: the first frame of the free list, or 0. */
    method Kalloc() returns (f: int)
      requires Valid()
      modifies this`pages, this`freelist, this`owner
      ensures Valid()
      ensures f == 0 <==> old(freelist) == []
      ensures f == 0 ==> owner == old(owner) && pages == old(pages) && freelist == []
      ensures f != 0 ==> low <= f < |owner| && old(owner)[f].Free? && owner == old(owner)[f := Loose]
      ensures f != 0 ==> pages == old(pages)[f := Filled(5)] && |freelist| == |old(freelist)| - 1
    {
      if |freelist| == 0 {
        return 0;
      }
      f := freelist[|freelist| - 1];
      Popped(owner, freelist, at, Loose);
      Reowned(low, T(), f, Loose);
      ghost var t := T().(owner := owner[f := Loose]);
      freelist := freelist[..|freelist| - 1];
      owner := owner[f := Loose];
      pages := pages[f := Filled(5)];
      assert T() == t;
    }

    /** kfree. */
    method Kfree(f: int)
      requires FreeOk(owner, freelist, at) && |pages| == |owner| && 0 < low <= f < |owner| && !owner[f].Free?
      modifies this`pages, this`freelist, this`owner, this`at
      ensures FreeOk(owner, freelist, at) && |pages| == |owner|
      ensures owner == old(owner)[f := Free] && pages == old(pages)[f := Filled(1)] && |freelist| == |old(freelist)| + 1
    {
      Pushed(owner, freelist, at, f);
      pages := pages[f := Filled(1)];
      at := at[f := |freelist|];
      freelist := freelist + [f];
      owner := owner[f := Free];
    }

    /** walk: the level-0 table that holds page v's entry, or 0. */
    method Walk(root: int, v: int, alloc: bool) returns (f: int)
      requires Valid() && T().IsRoot(root) && 0 <= v < MAXPAGE
      modifies this`tables, this`pages, this`freelist, this`owner, this`up
      ensures Valid() && SameMap(old(T()), T()) && Grown(old(T()), T(), root)
      ensures !alloc ==> tables == old(tables) && owner == old(owner) && up == old(up) && pages == old(pages)
      ensures !alloc ==> freelist == old(freelist)
      ensures forall g :: 0 <= g < |owner| && !old(owner)[g].Free? ==> pages[g] == old(pages)[g]
      ensures f != 0 ==> T().IsFrame(f) && owner[f] == Place(root, 0, v)
      ensures f == 0 ==> Translate(tables, root, v) == None && (alloc ==> freelist == [] && |old(freelist)| <= 1)
      ensures |old(freelist)| - 2 <= |freelist| <= |old(freelist)|
    {
      f := root;
      var level := 2;
      while level > 0
        invariant 0 <= level <= 2 && T().IsRoot(root)
        invariant T().IsFrame(f) && owner[f] == Place(root, level, v)
        invariant Valid() && SameMap(old(T()), T()) && Grown(old(T()), T(), root)
        invariant !alloc ==> tables == old(tables) && owner == old(owner) && up == old(up) && pages == old(pages)
        invariant !alloc ==> freelist == old(freelist)
        invariant forall g :: 0 <= g < |owner| && !old(owner)[g].Free? ==> pages[g] == old(pages)[g]
        invariant |old(freelist)| - (2 - level) <= |freelist| <= |old(freelist)|
      {
        ghost var t := T();
        f := Descend(root, v, level, f, alloc);
        SameMapTrans(old(T()), t, T(), root);
        if f == 0 {
          return;
        }
        level := level - 1;
      }
    }

    /** One level of walk: from the table at `level` to the one below it, made if need be. */
    method Descend(root: int, v: int, level: int, f0: int, alloc: bool) returns (f: int)
      requires Valid() && T().IsRoot(root) && 0 <= v < MAXPAGE && 0 < level <= 2
      requires T().IsFrame(f0) && owner[f0] == Place(root, level, v)
      modifies this`tables, this`pages, this`freelist, this`owner, this`up
      ensures Valid() && SameMap(old(T()), T()) && Grown(old(T()), T(), root)
      ensures !alloc ==> tables == old(tables) && owner == old(owner) && up == old(up) && pages == old(pages)
      ensures !alloc ==> freelist == old(freelist)
      ensures forall g :: 0 <= g < |owner| && !old(owner)[g].Free? ==> pages[g] == old(pages)[g]
      ensures f != 0 ==> T().IsFrame(f) && owner[f] == Place(root, level - 1, v)
      ensures f == 0 ==> Translate(tables, root, v) == None && (alloc ==> freelist == old(freelist) == [])
      ensures |old(freelist)| - 1 <= |freelist| <= |old(freelist)|
    {
      hide TreesOk, Translate;
      var k := Px(level, v);
      Prefixes(v);
      DownAt(low, T(), f0, k);
      if PageTable.Valid(tables[f0][k]) {
        f := Frame(tables[f0][k]);
        return;
      }
      if !alloc {
        Blocked(low, T(), root, v, level, f0);
        return 0;
      }
      ghost var t := T();
      f := Kalloc();
      if f == 0 {
        Blocked(low, T(), root, v, level, f0);
        return;
      }
      WalkStep(low, t, f0, k, f, root);
      ghost var t' := Linked(T(), f0, k, f);
      Popping(owner, freelist, at, f, Child(owner[f0], k));
      tables := tables[f := ZeroTable()];
      tables := tables[f0 := tables[f0][k := MakePte(f, 0)]];
      owner := owner[f := Child(owner[f0], k)];
      up := up[f := f0];
      assert T() == t';
    }

    /** mappages' loop body. */
    method MapOne(root: int, v: int, g: int, perm: int) returns (ok: bool)
      requires Valid() && T().IsRoot(root) && 0 <= v < MAXPAGE && Translate(tables, root, v) == None
      requires 0 < g && T().IsFrame(g) && (owner[g].Loose? || owner[g].Kernel?) && Perm(perm) && IsLeaf(perm)
      modifies this`tables, this`pages, this`freelist, this`owner, this`up
      ensures Valid()
      ensures forall h :: 0 <= h < |owner| && !old(owner)[h].Free? ==> pages[h] == old(pages)[h]
      ensures ok ==> MapsTo(old(T()), T(), root, v, 1, g, perm) && Given(old(T()), T(), root, v, 1, g)
      ensures !ok ==> SameMap(old(T()), T()) && Grown(old(T()), T(), root) && freelist == [] && |old(freelist)| <= 1
      ensures |old(freelist)| - 2 <= |freelist| <= |old(freelist)|
    {
      var f := Walk(root, v, true);
      if f == 0 {
        return false;
      }
      Attach(root, v, f, g, perm, old(T()));
      ok := true;
    }

    /** The end of mappages' loop body: fill in the entry of page v in table f. */
    method Attach(root: int, v: int, f: int, g: int, perm: int, ghost t: Trees)
      requires Valid() && 0 <= v < MAXPAGE && T().IsFrame(f) && owner[f] == Place(root, 0, v)
      requires SameMap(t, T()) && Grown(t, T(), root) && t.IsRoot(root) && Translate(t.tables, root, v) == None
      requires 0 < g && t.IsFrame(g) && (t.owner[g].Loose? || t.owner[g].Kernel?) && Perm(perm) && IsLeaf(perm)
      modifies this`tables, this`owner, this`up
      ensures Valid() && MapsTo(t, T(), root, v, 1, g, perm) && Given(t, T(), root, v, 1, g)
    {
      MapRound(low, t, T(), f, g, perm, root, v);
      ghost var t' := Mapped(T(), f, g, perm, root, v);
      tables := tables[f := tables[f][Px(0, v) := MakePte(g, perm)]];
      if owner[g].Loose? {
        Popping(owner, freelist, at, g, Leaf(root, v));
        owner := owner[g := Leaf(root, v)];
        up := up[g := f];
      }
      assert T() == t';
    }

    /**
     mappages: map `n` pages from v0 on to the frames from g0 on.  The pages must be unmapped, as the
     source panics otherwise.  If a table cannot be had, the first `m` pages stay mapped.
     */
    method Mappages(root: int, v0: int, n: int, g0: int, perm: int) returns (ok: bool, ghost m: int)
      requires Valid() && T().IsRoot(root) && 0 < n && 0 <= v0 && v0 + n <= MAXPAGE
      requires forall v :: v0 <= v < v0 + n ==> Translate(tables, root, v) == None
      requires 0 < g0 && g0 + n <= |owner| && Perm(perm) && IsLeaf(perm)
      requires forall g :: g0 <= g < g0 + n ==> owner[g].Loose? || owner[g].Kernel?
      modifies this`tables, this`pages, this`freelist, this`owner, this`up
      ensures Valid() && 0 <= m <= n && (ok <==> m == n)
      ensures if ok then |old(freelist)| - 2 * n <= |freelist| <= |old(freelist)| else |old(freelist)| < 2 * n
      ensures MapsTo(old(T()), T(), root, v0, m, g0, perm) && Given(old(T()), T(), root, v0, m, g0)
      ensures forall h :: 0 <= h < |owner| && !old(owner)[h].Free? ==> pages[h] == old(pages)[h]
    {
      m := 0;
      var a, g := v0, g0;
      while true
        invariant 0 <= m < n && a == v0 + m && g == g0 + m
        invariant Valid() && MapsTo(old(T()), T(), root, v0, m, g0, perm) && Given(old(T()), T(), root, v0, m, g0)
        invariant forall h :: 0 <= h < |owner| && !old(owner)[h].Free? ==> pages[h] == old(pages)[h]
        invariant |old(freelist)| - 2 * m <= |freelist| <= |old(freelist)|
        decreases n - m
      {
        hide TreesOk, FreeOk;
        ghost var t1 := T();
        assert old(T()).IsRoot(root) && Translate(tables, root, a) == None;
        ok := MapOne(root, a, g, perm);
        if !ok {
          MapsStop(old(T()), t1, T(), root, v0, m, g0, perm);
          return;
        }
        MapsStep(old(T()), t1, T(), root, v0, m, g0, perm);
        m := m + 1;
        if a == v0 + n - 1 {
          return;
        }
        a, g := a + 1, g + 1;
      }
    }

    /** uvmunmap's loop body. */
    method UnmapOne(root: int, v: int, doFree: bool)
      requires Valid() && T().IsRoot(root) && 0 <= v < MAXPAGE && Translate(tables, root, v).Some?
      requires doFree ==> OwnsPage(T(), root, v)
      modifies this`tables, this`pages, this`freelist, this`owner, this`up, this`at
      ensures Valid() && Unmaps(old(T()), T(), root, v, 1)
      ensures Taken(old(T()), T(), root, v, 1, if doFree then Free else Loose)
      ensures forall h :: 0 <= h < |owner| && !owner[h].Free? ==> pages[h] == old(pages)[h]
    {
      var f := Walk(root, v, false);
      Detach(root, v, f, doFree);
    }

    /** The end of uvmunmap's loop body: free the page if asked to, and clear its entry in table f. */
    method Detach(root: int, v: int, f: int, doFree: bool)
      requires Valid() && T().IsRoot(root) && 0 <= v < MAXPAGE && Translate(tables, root, v).Some?
      requires T().IsFrame(f) && owner[f] == Place(root, 0, v) && (doFree ==> OwnsPage(T(), root, v))
      modifies this`tables, this`pages, this`freelist, this`owner, this`at
      ensures Valid() && Unmaps(old(T()), T(), root, v, 1)
      ensures Taken(old(T()), T(), root, v, 1, if doFree then Free else Loose)
      ensures forall h :: 0 <= h < |owner| && !owner[h].Free? ==> pages[h] == old(pages)[h]
    {
      ghost var o := if doFree then Free else Loose;
      UnmapReady(low, T(), f, root, v, o);
      ghost var t' := Unmapped(T(), f, root, v, o);
      if doFree {
        Kfree(Frame(tables[f][Px(0, v)]));
      } else {
        ghost var g := Frame(tables[f][Px(0, v)]);
        if owner[g] == Leaf(root, v) {
          Popping(owner, freelist, at, g, Loose);
          owner := owner[g := Loose];
        }
      }
      tables := tables[f := tables[f][Px(0, v) := 0]];
      assert T() == t';
    }

    /** uvmunmap: the pages must be mapped, as the source panics otherwise. */
    method Uvmunmap(root: int, v0: int, n: int, doFree: bool)
      requires Valid() && T().IsRoot(root) && 0 <= n && 0 <= v0 && v0 + n <= MAXPAGE
      requires InUse(T(), root, v0, v0 + n, doFree)
      modifies this`tables, this`pages, this`freelist, this`owner, this`up, this`at
      ensures Valid() && Unmaps(old(T()), T(), root, v0, n)
      ensures Taken(old(T()), T(), root, v0, n, if doFree then Free else Loose)
      ensures forall h :: 0 <= h < |owner| && !owner[h].Free? ==> pages[h] == old(pages)[h]
    {
      hide TreesOk, OwnsPage, Translate;
      ghost var o := if doFree then Free else Loose;
      ghost var i := 0;
      UnmapsNone(T(), root, v0, o);
      var a, end := v0, v0 + n;
      while a < end
        invariant 0 <= i <= n && a == v0 + i && InUse(T(), root, a, end, doFree)
        invariant Valid() && Unmaps(old(T()), T(), root, v0, i) && Taken(old(T()), T(), root, v0, i, o)
        invariant forall h :: 0 <= h < |owner| && !owner[h].Free? ==> pages[h] == old(pages)[h]
      {
        ghost var t1 := T();
        UnmapOne(root, a, doFree);
        UnmapsStep(old(T()), t1, T(), root, v0, i, a, o);
        StillInUse(t1, T(), root, a, end, doFree, o);
        a := a + 1;
        i := i + 1;
      }
    }
  }

  /** Pages a to b are mapped, and to memory of their own if it is to be freed. */
  ghost predicate InUse(t: Trees, root: int, a: int, b: int, own: bool) {
    forall v :: a <= v < b ==> Translate(t.tables, root, v).Some? && (own ==> OwnsPage(t, root, v))
  }

  lemma StillInUse(t: Trees, t': Trees, root: int, a: int, b: int, own: bool, o: Owner)
    requires t.IsRoot(root) && 0 <= a < b <= MAXPAGE && InUse(t, root, a, b, own)
    requires Unmaps(t, t', root, a, 1) && Taken(t, t', root, a, 1, o)
    ensures InUse(t', root, a + 1, b, own)
  {
    forall v | a + 1 <= v < b
      ensures Translate(t'.tables, root, v).Some? && (own ==> OwnsPage(t', root, v))
    {
      assert Translate(t'.tables, root, v) == Translate(t.tables, root, v);
    }
  }

  /** The memory that page v maps is the page's own. */
  ghost predicate OwnsPage(t: Trees, root: int, v: int) {
    var e := Translate(t.tables, root, v);
    e.Some? && t.IsFrame(Frame(e.value)) && t.owner[Frame(e.value)] == Leaf(root, v)
  }

  lemma Popping(owner: seq<Owner>, freelist: seq<int>, at: seq<int>, f: int, o: Owner)
    requires FreeOk(owner, freelist, at) && 0 <= f < |owner| && !owner[f].Free? && !o.Free?
    ensures FreeOk(owner[f := o], freelist, at)
  {
  }

  /** A missing table on the way means that the page is not mapped. */
  lemma Blocked(low: int, t: Trees, root: int, v: int, level: int, f: int)
    requires TreesOk(low, t) && t.IsRoot(root) && 0 <= v < MAXPAGE && 0 < level <= 2
    requires t.IsFrame(f) && t.owner[f] == Place(root, level, v) && !PageTable.Valid(t.tables[f][Px(level, v)])
    ensures Translate(t.tables, root, v) == None
  {
    Path(low, t, root, v);
    if level == 2 {
      NodeUnique(low, t, f, root);
    } else if PageTable.Valid(t.tables[root][Px(2, v)]) {
      NodeUnique(low, t, f, Frame(t.tables[root][Px(2, v)]));
    }
  }
}
