/**
 Sv39 page tables (section 4.4 of the RISC-V Privileged Architecture, version 1.12) as kernel/vm.c
 keeps them: three levels of 512 entries, every table in a physical page of its own.

 Physical memory is a sequence of page frames.  `tables[f]` is frame f read as 512 entries.  The
 ghost `owner` says what every frame is used for and `up` where the entry that points to it is;
 they describe the trees, the source keeps neither.
 */
module PageTable {
  import opened Basics

  const ENTRIES := 512
  const PGSIZE := 4096
  const MAXPAGE := 0x400_0000              // MAXVA / PGSIZE
  const TRAMPOLINE := MAXPAGE - 1          // page numbers
  const TRAPFRAME := MAXPAGE - 2

  // permission bits of an entry
  const PTE_R := 2
  const PTE_W := 4
  const PTE_X := 8
  const PTE_U := 16

  type Table = t: seq<int> | |t| == ENTRIES witness seq(ENTRIES, _ => 0)


  // ---------------------------------------------------------------- entries

  predicate Valid(e: int) { e % 2 == 1 }

  /** R, W or X is set, so the entry maps a page. */
  predicate IsLeaf(e: int) { (e / 2) % 8 != 0 }

  predicate IsUser(e: int) { (e / 16) % 2 == 1 }

  predicate IsReadable(e: int) { (e / 2) % 2 == 1 }

  predicate IsWritable(e: int) { (e / 4) % 2 == 1 }

  predicate IsExecutable(e: int) { (e / 8) % 2 == 1 }

  function Frame(e: int): (f: int) { e / 1024 }

  function Flags(e: int): (p: int) { e % 1024 }

  /** PA2PTE of a page frame, with permissions and PTE_V. */
  function MakePte(f: int, perm: int): (e: int) {
    f * 1024 + OrValid(perm)
  }

  function OrValid(perm: int): (q: int) { if perm % 2 == 1 then perm else perm + 1 }

  predicate Perm(perm: int) { 0 <= perm < 1024 }

  lemma LowBits(f: int, q: int)
    ensures (f * 1024 + q) / 2 == f * 512 + q / 2 && (f * 1024 + q) / 4 == f * 256 + q / 4
    ensures (f * 1024 + q) / 8 == f * 128 + q / 8 && (f * 1024 + q) / 16 == f * 64 + q / 16
  {
  }

  lemma LowField8(f: int, q: int)
    ensures (f * 8 + q) % 8 == q % 8
  {
  }

  lemma LowField2(f: int, q: int)
    ensures (f * 2 + q) % 2 == q % 2
  {
  }

  lemma OrValidBits(perm: int)
    requires Perm(perm)
    ensures var q := OrValid(perm);
            && q % 2 == 1 && 0 <= q < 1024 && q / 2 == perm / 2 && q / 4 == perm / 4 && q / 8 == perm / 8
            && q / 16 == perm / 16
  {
  }

  /** The frame and the permission bits of an entry can be read back. */
  lemma MadePte(f: int, perm: int)
    requires Perm(perm)
    ensures var e := MakePte(f, perm);
            && Valid(e) && Frame(e) == f
            && IsLeaf(e) == IsLeaf(perm) && IsUser(e) == IsUser(perm) && IsWritable(e) == IsWritable(perm)
            && IsReadable(e) == IsReadable(perm) && IsExecutable(e) == IsExecutable(perm)
  {
    OrValidBits(perm);
    var q := OrValid(perm);
    LowBits(f, q);
    LowField8(f * 64, q / 2);
    LowField2(f * 256, q / 2);
    LowField2(f * 64, q / 8);
    LowField2(f * 128, q / 4);
    LowField2(f * 32, q / 16);
  }

  // ---------------------------------------------------------------- the translation

  /** The entry that a page number selects in a table of the given level. */
  function Px(level: int, v: int): (k: int)
    requires 0 <= level <= 2
    ensures 0 <= k < ENTRIES
  {
    (if level == 0 then v else if level == 1 then v / 512 else v / 262144) % 512
  }

  /** Following the tables from a root: the valid leaf entry of page number v, if there is one. */
  function Translate(tables: seq<Table>, root: int, v: int): (e: Option<int>) {
    if !(0 <= root < |tables|) then None else
    var e2 := tables[root][Px(2, v)];
    if !Valid(e2) || !(0 <= Frame(e2) < |tables|) then None else
    var e1 := tables[Frame(e2)][Px(1, v)];
    if !Valid(e1) || !(0 <= Frame(e1) < |tables|) then None else
    var e0 := tables[Frame(e1)][Px(0, v)];
    if Valid(e0) then Some(e0) else None
  }

  // ---------------------------------------------------------------- who owns a frame

  /**
   Node: the table of tree `root` at `level` whose pages agree with `prefix` above that level.
   Leaf: the memory of page v of tree `root`.  Loose: handed out by kalloc and not in a tree.
   Kernel: the kernel's own, which trees may map but never free.
   */
  datatype Owner = Free | Loose | Kernel | Node(root: int, level: int, prefix: int) | Leaf(root: int, v: int)

  datatype Trees = Trees(tables: seq<Table>, owner: seq<Owner>, up: seq<int>)
  {
    predicate IsFrame(f: int) { 0 <= f < |owner| }

    predicate IsRoot(r: int) { IsFrame(r) && owner[r] == Node(r, 2, 0) }

    predicate Sized() { |tables| == |owner| == |up| }
  }

  /** What points to a frame with this owner. */
  function Parent(o: Owner): (r: Owner)
    requires o.Node? || o.Leaf?
  {
    if o.Leaf? then Node(o.root, 0, o.v / 512) else Node(o.root, o.level + 1, o.prefix / 512)
  }

  function Index(o: Owner): (k: int)
    requires o.Node? || o.Leaf?
    ensures 0 <= k < ENTRIES
  {
    (if o.Leaf? then o.v else o.prefix) % 512
  }

  function Child(o: Owner, k: int): (r: Owner)
    requires o.Node?
  {
    if o.level == 0 then Leaf(o.root, o.prefix * 512 + k) else Node(o.root, o.level - 1, o.prefix * 512 + k)
  }

  /** A valid entry k of a table points to the table below, or to a page of memory. */
  ghost predicate EntryOk(owner: seq<Owner>, o: Owner, k: int, e: int)
    requires o.Node?
  {
    Valid(e) ==>
      && 0 < Frame(e) < |owner| && IsLeaf(e) == (o.level == 0)
      && (owner[Frame(e)] == Child(o, k) || (o.level == 0 && owner[Frame(e)].Kernel?))
  }

  ghost predicate DownOk(t: Trees, f: int, k: int)
    requires t.Sized() && t.IsFrame(f) && 0 <= k < ENTRIES
  {
    t.owner[f].Node? ==> EntryOk(t.owner, t.owner[f], k, t.tables[f][k])
  }

  /** The places that page numbers below MAXPAGE lead to. */
  predicate Placed(o: Owner)
    requires o.Node? || o.Leaf?
  {
    if o.Leaf? then 0 <= o.v < MAXPAGE
    else
      0 <= o.level <= 2 &&
      0 <= o.prefix < (if o.level == 0 then MAXPAGE / 512 else if o.level == 1 then MAXPAGE / 262144 else 1)
  }

  /** A table below the root and a page of memory are pointed to from where `up` says. */
  ghost predicate UpOk(t: Trees, f: int)
    requires t.Sized() && t.IsFrame(f)
  {
    var o := t.owner[f];
    && (o.Node? || o.Leaf? ==> Placed(o)) && (o.Node? && o.level == 2 ==> f == o.root)
    && (o.Leaf? || (o.Node? && o.level < 2) ==>
          && t.IsFrame(t.up[f]) && t.owner[t.up[f]] == Parent(o)
          && Valid(t.tables[t.up[f]][Index(o)]) && Frame(t.tables[t.up[f]][Index(o)]) == f)
  }

  /** Every tree is well formed, except perhaps entry xk of frame x; frames below `low` are the kernel's for good. */
  ghost predicate TreesOkBut(low: int, t: Trees, x: int, xk: int) {
    && t.Sized() && 0 < low
    && (forall f, k :: t.IsFrame(f) && 0 <= k < ENTRIES && !(f == x && k == xk) ==> DownOk(t, f, k))
    && (forall f :: t.IsFrame(f) ==> UpOk(t, f))
    && (forall f :: t.IsFrame(f) && !t.owner[f].Kernel? ==> low <= f)
  }

  ghost predicate TreesOk(low: int, t: Trees) {
    TreesOkBut(low, t, -1, 0)
  }

  // ---------------------------------------------------------------- the flat map

  lemma Prefixes(v: int)
    requires 0 <= v < MAXPAGE
    ensures Px(2, v) == v / 262144 && (v / 262144) * 512 + Px(1, v) == v / 512 && (v / 512) * 512 + Px(0, v) == v
  {
  }

  /** The entries a translation passes are those of the tables with the page's prefixes. */
  lemma Path(low: int, t: Trees, root: int, v: int)
    requires TreesOk(low, t) && t.IsRoot(root) && 0 <= v < MAXPAGE
    ensures var e2 := t.tables[root][Px(2, v)];
            Valid(e2) ==>
              && t.IsFrame(Frame(e2)) && t.owner[Frame(e2)] == Node(root, 1, v / 262144)
              && var e1 := t.tables[Frame(e2)][Px(1, v)];
                 Valid(e1) ==>
                   && t.IsFrame(Frame(e1)) && t.owner[Frame(e1)] == Node(root, 0, v / 512)
                   && var e0 := t.tables[Frame(e1)][Px(0, v)];
                      Valid(e0) ==>
                        t.IsFrame(Frame(e0)) && IsLeaf(e0) &&
                        (t.owner[Frame(e0)] == Leaf(root, v) || t.owner[Frame(e0)].Kernel?)
  {
    Prefixes(v);
    assert DownOk(t, root, Px(2, v));
    var e2 := t.tables[root][Px(2, v)];
    if Valid(e2) {
      assert DownOk(t, Frame(e2), Px(1, v));
      var e1 := t.tables[Frame(e2)][Px(1, v)];
      if Valid(e1) {
        assert DownOk(t, Frame(e1), Px(0, v));
      }
    }
  }

  /** There is one table for each place in a tree. */
  lemma {:induction false} NodeUnique(low: int, t: Trees, f: int, g: int)
    requires TreesOk(low, t) && t.IsFrame(f) && t.IsFrame(g) && t.owner[f].Node? && t.owner[f] == t.owner[g]
    ensures f == g
    decreases 2 - t.owner[f].level
  {
    assert UpOk(t, f) && UpOk(t, g);
    if t.owner[f].level < 2 {
      NodeUnique(low, t, t.up[f], t.up[g]);
    }
  }

  /** A page's memory is mapped by its own tree, at its own page. */
  lemma LeafMapped(low: int, t: Trees, f: int)
    requires TreesOk(low, t) && t.IsFrame(f) && t.owner[f].Leaf?
    ensures var e := Translate(t.tables, t.owner[f].root, t.owner[f].v);
            e.Some? && Frame(e.value) == f && t.IsRoot(t.owner[f].root)
  {
    var root, v := t.owner[f].root, t.owner[f].v;
    var f0 := t.up[f];
    assert UpOk(t, f) && UpOk(t, f0);
    var f1 := t.up[f0];
    assert UpOk(t, f1);
    Prefixes(v);
    assert (v / 512) / 512 == v / 262144;
  }

  // ---------------------------------------------------------------- changing an entry of a level-0 table

  function WithEntry(t: Trees, f: int, k: int, e: int): (r: Trees)
    requires t.Sized() && t.IsFrame(f) && 0 <= k < ENTRIES
  {
    t.(tables := t.tables[f := t.tables[f][k := e]])
  }

  /** Writing the entry of page v changes the translation of page v of that tree, and nothing else. */
  lemma WriteLeaf(low: int, t: Trees, f: int, e: int, root: int, v: int, root': int, v': int)
    requires TreesOk(low, t) && t.IsFrame(f) && 0 <= v < MAXPAGE && t.owner[f] == Node(root, 0, v / 512)
    requires t.IsRoot(root) && t.IsRoot(root') && 0 <= v' < MAXPAGE
    ensures Translate(WithEntry(t, f, Px(0, v), e).tables, root', v')
         == if root == root' && v == v' then (if Valid(e) then Some(e) else None) else Translate(t.tables, root', v')
  {
    Path(low, t, root', v');
    Prefixes(v);
    Prefixes(v');
    if root == root' && v == v' {
      assert UpOk(t, f);
      assert UpOk(t, t.up[f]);
      assert (v / 512) / 512 == v / 262144;
    }
  }

  /** mappages' write: a loose frame becomes the memory of page v; a frame of the kernel stays the kernel's. */
  function Mapped(t: Trees, f: int, g: int, perm: int, root: int, v: int): (r: Trees)
    requires t.Sized() && t.IsFrame(f) && t.IsFrame(g)
  {
    var r := WithEntry(t, f, Px(0, v), MakePte(g, perm));
    if t.owner[g].Loose? then r.(owner := t.owner[g := Leaf(root, v)], up := t.up[g := f]) else r
  }

  lemma MapPage(low: int, t: Trees, f: int, g: int, perm: int, root: int, v: int)
    requires TreesOk(low, t) && t.IsFrame(f) && 0 <= v < MAXPAGE && t.owner[f] == Node(root, 0, v / 512)
    requires !Valid(t.tables[f][Px(0, v)]) && 0 < g && t.IsFrame(g) && (t.owner[g].Loose? || t.owner[g].Kernel?)
    requires Perm(perm) && IsLeaf(perm)
    ensures TreesOk(low, Mapped(t, f, g, perm, root, v))
  {
    MadePte(g, perm);
    Prefixes(v);
    var r := Mapped(t, f, g, perm, root, v);
    forall f', k' | r.IsFrame(f') && 0 <= k' < ENTRIES
      ensures DownOk(r, f', k')
    {
      assert DownOk(t, f', k');
    }
    forall f' | r.IsFrame(f')
      ensures UpOk(r, f')
    {
      assert UpOk(t, f');
    }
  }

  /** uvmunmap's write: the memory of page v is taken out of the tree and becomes `o`. */
  function Unmapped(t: Trees, f: int, root: int, v: int, o: Owner): (r: Trees)
    requires t.Sized() && t.IsFrame(f)
  {
    var g := Frame(t.tables[f][Px(0, v)]);
    var r := WithEntry(t, f, Px(0, v), 0);
    if t.IsFrame(g) && t.owner[g] == Leaf(root, v) then r.(owner := t.owner[g := o]) else r
  }

  lemma UnmapPage(low: int, t: Trees, f: int, root: int, v: int, o: Owner)
    requires TreesOk(low, t) && t.IsFrame(f) && 0 <= v < MAXPAGE && t.owner[f] == Node(root, 0, v / 512)
    requires Valid(t.tables[f][Px(0, v)]) && (o.Free? || o.Loose?)
    ensures TreesOk(low, Unmapped(t, f, root, v, o))
  {
    var r := Unmapped(t, f, root, v, o);
    assert DownOk(t, f, Px(0, v));
    forall f', k' | r.IsFrame(f') && 0 <= k' < ENTRIES
      ensures DownOk(r, f', k')
    {
      UnmapDown(low, t, f, root, v, o, f', k');
    }
    forall f' | r.IsFrame(f')
      ensures UpOk(r, f')
    {
      assert UpOk(t, f');
      UnmapUp(t, f, root, v, o, f');
    }
  }

  lemma UnmapDown(low: int, t: Trees, f: int, root: int, v: int, o: Owner, f': int, k': int)
    requires TreesOk(low, t) && t.IsFrame(f) && 0 <= v < MAXPAGE && t.owner[f] == Node(root, 0, v / 512)
    requires Valid(t.tables[f][Px(0, v)]) && (o.Free? || o.Loose?) && t.IsFrame(f') && 0 <= k' < ENTRIES
    ensures DownOk(Unmapped(t, f, root, v, o), f', k')
  {
    Prefixes(v);
    var g := Frame(t.tables[f][Px(0, v)]);
    assert DownOk(t, f, Px(0, v));
    assert DownOk(t, f', k');
    if t.owner[f'].Node? && t.owner[g] == Child(t.owner[f'], k') {
      ChildParent(t.owner[f'], k');
      NodeUnique(low, t, f, f');
    }
  }

  lemma UnmapUp(t: Trees, f: int, root: int, v: int, o: Owner, f': int)
    requires t.Sized() && t.IsFrame(f) && 0 <= v < MAXPAGE && t.owner[f] == Node(root, 0, v / 512)
    requires DownOk(t, f, Px(0, v)) && Valid(t.tables[f][Px(0, v)]) && (o.Free? || o.Loose?) && t.IsFrame(f')
    requires UpOk(t, f')
    ensures UpOk(Unmapped(t, f, root, v, o), f')
  {
    Prefixes(v);
    if t.owner[f'].Leaf? && t.up[f'] == f && Index(t.owner[f']) == Px(0, v) {
      assert t.owner[f'] == Leaf(root, v);
    }
  }

  lemma ChildParent(o: Owner, k: int)
    requires o.Node? && 0 <= k < ENTRIES
    ensures Parent(Child(o, k)) == o && Index(Child(o, k)) == k
  {
  }

  // ---------------------------------------------------------------- growing a tree

  function ZeroTable(): (t: Table) { seq(ENTRIES, _ => 0) }

  /** walk's new table: frame g, zeroed, below entry k of frame f. */
  function Linked(t: Trees, f: int, k: int, g: int): (r: Trees)
    requires t.Sized() && t.IsFrame(f) && t.IsFrame(g) && t.owner[f].Node? && 0 <= k < ENTRIES
  {
    LinkedBy(t, f, k, g, MakePte(g, 0))
  }

  function LinkedBy(t: Trees, f: int, k: int, g: int, e: int): (r: Trees)
    requires t.Sized() && t.IsFrame(f) && t.IsFrame(g) && t.owner[f].Node? && 0 <= k < ENTRIES
  {
    Trees(t.tables[g := ZeroTable()][f := t.tables[f][k := e]], t.owner[g := Child(t.owner[f], k)], t.up[g := f])
  }

  lemma LinkTable(low: int, t: Trees, f: int, k: int, g: int)
    requires TreesOk(low, t) && t.IsFrame(f) && t.IsFrame(g) && t.owner[f].Node? && t.owner[f].level > 0
    requires 0 <= k < ENTRIES
    requires Placed(Child(t.owner[f], k))
    requires !Valid(t.tables[f][k]) && t.owner[g].Loose?
    ensures TreesOk(low, Linked(t, f, k, g))
  {
    hide DownOk, UpOk;
    var e := MakePte(g, 0);
    MadePte(g, 0);
    var r := LinkedBy(t, f, k, g, e);
    forall f', k' | r.IsFrame(f') && 0 <= k' < ENTRIES
      ensures DownOk(r, f', k')
    {
      assert DownOk(t, f', k');
      LinkDown(t, f, k, g, e, f', k');
    }
    forall f' | r.IsFrame(f')
      ensures UpOk(r, f')
    {
      assert UpOk(t, f') && UpOk(t, f);
      LinkUp(t, f, k, g, e, f');
    }
  }

  lemma LinkDown(t: Trees, f: int, k: int, g: int, e: int, f': int, k': int)
    requires t.Sized() && t.IsFrame(f) && t.IsFrame(g) && t.owner[f].Node? && t.owner[f].level > 0 && 0 <= k < ENTRIES
    requires t.owner[g].Loose? && 0 < g && Frame(e) == g && !IsLeaf(e) && t.IsFrame(f') && 0 <= k' < ENTRIES
    requires DownOk(t, f', k')
    ensures DownOk(LinkedBy(t, f, k, g, e), f', k')
  {
  }

  lemma LinkUp(t: Trees, f: int, k: int, g: int, e: int, f': int)
    requires t.Sized() && t.IsFrame(f) && t.IsFrame(g) && t.owner[f].Node? && t.owner[f].level > 0 && 0 <= k < ENTRIES
    requires t.owner[g].Loose? && Frame(e) == g && Valid(e) && !Valid(t.tables[f][k]) && Placed(Child(t.owner[f], k))
    requires t.IsFrame(f') && UpOk(t, f') && UpOk(t, f)
    ensures UpOk(LinkedBy(t, f, k, g, e), f')
  {
    ChildParent(t.owner[f], k);
  }

  /** A new, empty table changes no translation. */
  lemma LinkKeepsMap(low: int, t: Trees, f: int, k: int, g: int, root: int, v: int)
    requires TreesOk(low, t) && t.IsFrame(f) && t.IsFrame(g) && t.owner[f].Node? && t.owner[f].level > 0
    requires 0 <= k < ENTRIES
    requires !Valid(t.tables[f][k]) && t.owner[g].Loose? && t.IsRoot(root) && 0 <= v < MAXPAGE
    ensures Translate(Linked(t, f, k, g).tables, root, v) == Translate(t.tables, root, v)
  {
    MadePte(g, 0);
    Path(low, t, root, v);
    Prefixes(v);
    assert UpOk(t, f);
  }
}
