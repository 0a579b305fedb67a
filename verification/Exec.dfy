/**
 Making and giving back whole address spaces: uvmfree (kernel/vm.c), proc_pagetable and
 proc_freepagetable (kernel/proc.c), and exec's commit or rollback (kernel/exec.c).
 */
module Exec {
  import opened Basics
  import opened PageTable
  import opened Vm
  import opened AddressSpace
  import opened Teardown
  import opened UserCopy
  import opened ElfImage
  import opened Loader
  import opened ExecImage

  predicate Belongs(o: Owner, root: int) { (o.Node? || o.Leaf?) && o.root == root }

  /** All other trees translate as before. */
  ghost predicate OthersSame(t: Trees, t': Trees, root: int) {
    && (forall r :: t.IsRoot(r) && r != root ==> t'.IsRoot(r))
    && (forall r, v :: t.IsRoot(r) && r != root && 0 <= v < MAXPAGE ==>
         Translate(t'.tables, r, v) == Translate(t.tables, r, v))
  }

  /** Every frame of the tree is free, and no other frame changed hands. */
  ghost predicate Gone(t: Trees, t': Trees, root: int) {
    && |t.owner| == |t'.owner|
    && (forall f :: t.IsFrame(f) ==> t'.owner[f] == if Belongs(t.owner[f], root) then Free else t.owner[f])
    && OthersSame(t, t', root)
  }

  /** Nothing is mapped, so the bottom tables are empty. */
  lemma NothingMapped(low: int, t: Trees, root: int)
    requires TreesOk(low, t) && t.IsRoot(root) && forall v :: 0 <= v < MAXPAGE ==> Translate(t.tables, root, v) == None
    ensures NoLeaves(t, root)
  {
    forall f, k | t.IsFrame(f) && IsBottom(t.owner[f], root) && 0 <= k < ENTRIES
      ensures !PageTable.Valid(t.tables[f][k])
    {
      assert UpOk(t, f);
      var v := t.owner[f].prefix * 512 + k;
      assert v / 512 == t.owner[f].prefix && Px(0, v) == k;
      EntryIs(low, t, root, v, f);
    }
  }

  /** Pruning a whole tree: all its frames are free, other trees are untouched. */
  lemma PrunedTree(low: int, t: Trees, t': Trees, root: int)
    requires TreesOk(low, t) && t.IsRoot(root) && NoLeaves(t, root) && Pruned(t, t', Node(root, 2, 0))
    ensures TreesOk(low, t') && Gone(t, t', root)
  {
    PrunedOk(low, t, t', root, Node(root, 2, 0));
    forall f | t.IsFrame(f)
      ensures Under(t.owner[f], Node(root, 2, 0)) <==> Belongs(t.owner[f], root)
    {
      assert UpOk(t, f);
      NoLeafOwners(low, t, root, f);
    }
    forall r, v | t.IsRoot(r) && r != root && 0 <= v < MAXPAGE
      ensures Translate(t'.tables, r, v) == Translate(t.tables, r, v)
    {
      Path(low, t, r, v);
    }
  }

  /** Apart from the trapframe and the trampoline, only the first n pages are mapped. */
  ghost predicate OnlyUser(t: Trees, root: int, n: int) {
    UserSpace(t, root, n) && Translate(t.tables, root, TRAPFRAME) == None &&
      Translate(t.tables, root, TRAMPOLINE) == None
  }

  lemma UserUnmapped(low: int, t: Trees, t1: Trees, root: int, n: int)
    requires TreesOk(low, t) && OnlyUser(t, root, n) && Unmaps(t, t1, root, 0, n) && Taken(t, t1, root, 0, n, Free)
    requires TreesOk(low, t1)
    ensures t1.IsRoot(root) && NoLeaves(t1, root)
    ensures forall f :: t.IsFrame(f) ==>
      t1.owner[f] == if t.owner[f].Leaf? && t.owner[f].root == root then Free else t.owner[f]
  {
    forall v | 0 <= v < MAXPAGE
      ensures Translate(t1.tables, root, v) == None
    {
      var e := Translate(t1.tables, root, v);
    }
    NothingMapped(low, t1, root);
    forall f | t.IsFrame(f) && t.owner[f].Leaf? && t.owner[f].root == root
      ensures 0 <= t.owner[f].v < n
    {
      LeafMapped(low, t, f);
      assert UpOk(t, f);
    }
  }

  lemma GoneBoth(t: Trees, t1: Trees, t2: Trees, root: int, n: int)
    requires |t.owner| == |t1.owner| && Unmaps(t, t1, root, 0, n) && Gone(t1, t2, root)
    requires forall f :: t.IsFrame(f) ==>
      t1.owner[f] == if t.owner[f].Leaf? && t.owner[f].root == root then Free else t.owner[f]
    ensures Gone(t, t2, root)
  {
    forall r, v | t.IsRoot(r) && r != root && 0 <= v < MAXPAGE
      ensures Translate(t2.tables, r, v) == Translate(t.tables, r, v)
    {
      assert t1.IsRoot(r);
      assert Translate(t1.tables, r, v) == Translate(t.tables, r, v);
    }
  }

  /** uvmfree: give back an address space of n pages with its tables. */
  method Uvmfree(m: Memory, root: int, sz: int)
    requires m.Valid() && 0 <= sz && OnlyUser(m.T(), root, PageCount(sz))
    modifies m
    ensures m.Valid() && Gone(old(m.T()), m.T(), root)
    ensures forall h :: 0 <= h < |m.owner| && !m.owner[h].Free? ==> m.pages[h] == old(m.pages)[h]
  {
    ghost var t := m.T();
    var n := PageCount(sz);
    if sz > 0 {
      AllInUse(t, root, 0, n);
      m.Uvmunmap(root, 0, n, true);
    }
    ghost var t1 := m.T();
    UserUnmapped(m.low, t, t1, root, n);
    Freewalk(m, root, Node(root, 2, 0));
    PrunedTree(m.low, t1, m.T(), root);
    GoneBoth(t, t1, m.T(), root, n);
  }

  // ---------------------------------------------------------------- a tree under construction

  /** Tree `root` was built out of frames that were free; all older trees translate as before. */
  ghost predicate Built(t: Trees, t': Trees, root: int) {
    && |t.owner| == |t'.owner| && t.IsFrame(root) && t.owner[root].Free? && SameMap(t, t')
    && forall f :: t.IsFrame(f) ==> t'.owner[f] == t.owner[f] || (t.owner[f].Free? && Belongs(t'.owner[f], root))
  }

  /** Giving the whole new tree back leaves memory exactly as it was. */
  lemma BuiltGone(t: Trees, t1: Trees, t2: Trees, root: int)
    requires Built(t, t1, root) && Gone(t1, t2, root) && t.Sized() && t2.Sized()
    requires forall f :: t.IsFrame(f) ==> !Belongs(t.owner[f], root)
    ensures t2.owner == t.owner && SameMap(t, t2)
  {
    forall f | t.IsFrame(f)
      ensures t2.owner[f] == t.owner[f]
    {
    }
    forall r | t.IsRoot(r)
      ensures t2.IsRoot(r)
    {
      assert t1.IsRoot(r);
    }
    forall r, v | t.IsRoot(r) && 0 <= v < MAXPAGE
      ensures Translate(t2.tables, r, v) == Translate(t.tables, r, v)
    {
      assert t1.IsRoot(r);
      assert Translate(t1.tables, r, v) == Translate(t.tables, r, v);
    }
  }

  /** A free frame is not the root of anything. */
  lemma FreeRoot(low: int, t: Trees, root: int)
    requires TreesOk(low, t) && t.IsFrame(root) && t.owner[root].Free?
    ensures forall f :: t.IsFrame(f) ==> !Belongs(t.owner[f], root)
  {
    forall f | t.IsFrame(f) && Belongs(t.owner[f], root)
      ensures false
    {
      RootAbove(low, t, f);
    }
  }

  lemma {:induction false} RootAbove(low: int, t: Trees, f: int)
    requires TreesOk(low, t) && t.IsFrame(f) && (t.owner[f].Node? || t.owner[f].Leaf?)
    ensures t.IsRoot(t.owner[f].root)
    decreases if t.owner[f].Leaf? then 3 else 2 - t.owner[f].level
  {
    assert UpOk(t, f);
    if t.owner[f].Leaf? {
      LeafMapped(low, t, f);
    } else if t.owner[f].level < 2 {
      assert UpOk(t, t.up[f]);
      RootAbove(low, t, t.up[f]);
    }
  }

  lemma BuiltSame(t: Trees, t1: Trees, t2: Trees, root: int)
    requires Built(t, t1, root) && SameMap(t1, t2) && Grown(t1, t2, root)
    ensures Built(t, t2, root)
  {
    forall f | t.IsFrame(f)
      ensures t2.owner[f] == t.owner[f] || (t.owner[f].Free? && Belongs(t2.owner[f], root))
    {
      assert t2.owner[f] == t1.owner[f] || NewTable(t1, t2, root, f);
    }
    forall r, v | t.IsRoot(r) && 0 <= v < MAXPAGE
      ensures Translate(t2.tables, r, v) == Translate(t.tables, r, v)
    {
      assert t1.IsRoot(r);
      assert Translate(t1.tables, r, v) == Translate(t.tables, r, v);
    }
  }

  lemma BuiltExtended(t: Trees, t1: Trees, t2: Trees, root: int, a: int, b: int)
    requires Built(t, t1, root) && Extended(t1, t2, root, a, b)
    ensures Built(t, t2, root)
  {
    forall f | t.IsFrame(f)
      ensures t2.owner[f] == t.owner[f] || (t.owner[f].Free? && Belongs(t2.owner[f], root))
    {
      assert t2.owner[f] == t1.owner[f] || NewTable(t1, t2, root, f) || NewPage(t1, t2, root, a, b, f);
    }
    forall r, v | t.IsRoot(r) && 0 <= v < MAXPAGE
      ensures Translate(t2.tables, r, v) == Translate(t.tables, r, v)
    {
      assert t1.IsRoot(r);
      assert Translate(t1.tables, r, v) == Translate(t.tables, r, v);
    }
  }

  lemma BuiltMapped(t: Trees, t1: Trees, t2: Trees, root: int, v0: int, n: int, g: int, perm: int)
    requires Built(t, t1, root) && 0 <= n <= 1 && t1.IsFrame(g) && t1.owner[g].Kernel?
    requires MapsTo(t1, t2, root, v0, n, g, perm) && Given(t1, t2, root, v0, n, g)
    ensures Built(t, t2, root)
  {
    forall f | t.IsFrame(f)
      ensures t2.owner[f] == t.owner[f] || (t.owner[f].Free? && Belongs(t2.owner[f], root))
    {
      assert t2.owner[f] == GivenOwner(t1.owner[f], f, root, v0, n, g) || NewTable(t1, t2, root, f);
    }
    forall r, v | t.IsRoot(r) && 0 <= v < MAXPAGE
      ensures Translate(t2.tables, r, v) == Translate(t.tables, r, v)
    {
      assert t1.IsRoot(r);
      assert Translate(t1.tables, r, v) == Translate(t.tables, r, v);
    }
  }

  // ---------------------------------------------------------------- uvmcreate

  function Rooted(t: Trees, g: int): (r: Trees)
    requires t.Sized() && t.IsFrame(g)
  {
    Trees(t.tables[g := ZeroTable()], t.owner[g := Node(g, 2, 0)], t.up)
  }

  lemma NewRoot(low: int, t: Trees, g: int)
    requires TreesOk(low, t) && t.IsFrame(g) && t.owner[g].Free?
    ensures var t' := Rooted(t, g);
            && TreesOk(low, t') && Built(t, t', g) && t'.IsRoot(g)
            && forall v :: 0 <= v < MAXPAGE ==> Translate(t'.tables, g, v) == None
  {
    var t' := Rooted(t, g);
    forall f, k | t'.IsFrame(f) && 0 <= k < ENTRIES
      ensures DownOk(t', f, k)
    {
      assert DownOk(t, f, k);
    }
    forall f | t'.IsFrame(f)
      ensures UpOk(t', f)
    {
      assert UpOk(t, f);
    }
    forall r, v | t.IsRoot(r) && 0 <= v < MAXPAGE
      ensures Translate(t'.tables, r, v) == Translate(t.tables, r, v)
    {
      Path(low, t, r, v);
    }
  }

  /** uvmcreate: an empty page table, or 0. */
  method Uvmcreate(m: Memory) returns (root: int)
    requires m.Valid()
    modifies m
    ensures m.Valid() && SamePages(old(m.owner), old(m.pages), m.pages)
    ensures root == 0 ==> m.T() == old(m.T()) && old(m.freelist) == []
    ensures root != 0 ==> Built(old(m.T()), m.T(), root) && OnlyUser(m.T(), root, 0)
    ensures root != 0 ==> |m.freelist| == |old(m.freelist)| - 1
  {
    ghost var t := m.T();
    root := m.Kalloc();
    if root == 0 {
      return;
    }
    NewRoot(m.low, t, root);
    Popping(m.owner, m.freelist, m.at, root, Node(root, 2, 0));
    ghost var t' := Rooted(t, root);
    m.tables := m.tables[root := ZeroTable()];
    m.owner := m.owner[root := Node(root, 2, 0)];
    assert m.owner == t.owner[root := Node(root, 2, 0)];
    assert m.T() == t';
  }

  // ---------------------------------------------------------------- a process's page table

  ghost predicate KernelPage(t: Trees, root: int, v: int) {
    var e := Translate(t.tables, root, v);
    e.Some? && t.IsFrame(Frame(e.value)) && t.owner[Frame(e.value)].Kernel? && !IsUser(e.value)
  }

  /**
   The first n pages are the process's own, and the trapframe and trampoline pages are the kernel's and
   closed to user code.
   */
  ghost predicate ProcSpace(t: Trees, root: int, n: int) {
    UserSpace(t, root, n) && KernelPage(t, root, TRAPFRAME) && KernelPage(t, root, TRAMPOLINE)
  }

  /** Unmapping a page of the kernel's changes no owner. */
  lemma KernelUnmapped(low: int, t: Trees, t1: Trees, root: int, v: int)
    requires TreesOk(low, t) && t1.Sized() && t.IsRoot(root) && KernelPage(t, root, v) && 0 <= v < MAXPAGE
    requires Unmaps(t, t1, root, v, 1) && Taken(t, t1, root, v, 1, Loose)
    ensures t1.owner == t.owner
  {
    forall f | t.IsFrame(f)
      ensures t1.owner[f] == t.owner[f]
    {
      if t.owner[f] == Leaf(root, v) {
        LeafMapped(low, t, f);
      }
    }
  }

  /** What is left of a process's address space when page v, one of the kernel's, is unmapped. */
  lemma SpaceWithout(t: Trees, t1: Trees, root: int, n: int, v: int)
    requires UserSpace(t, root, n) && TRAPFRAME <= v < MAXPAGE && Unmaps(t, t1, root, v, 1) && t1.owner == t.owner
    ensures UserSpace(t1, root, n) && Translate(t1.tables, root, v) == None
    ensures forall v' :: TRAPFRAME <= v' < MAXPAGE && v' != v ==>
      Translate(t1.tables, root, v') == Translate(t.tables, root, v')
  {
    forall v' | 0 <= v' < n
      ensures OwnsPage(t1, root, v')
    {
      assert OwnsPage(t, root, v');
      assert Translate(t1.tables, root, v') == Translate(t.tables, root, v');
    }
    forall v' | n <= v' < TRAPFRAME
      ensures Translate(t1.tables, root, v') == None
    {
      assert Translate(t1.tables, root, v') == Translate(t.tables, root, v');
    }
  }

  lemma GoneAfter(t: Trees, t1: Trees, t2: Trees, root: int, v: int)
    requires Unmaps(t, t1, root, v, 1) && t1.owner == t.owner && Gone(t1, t2, root)
    ensures Gone(t, t2, root)
  {
    forall r, v' | t.IsRoot(r) && r != root && 0 <= v' < MAXPAGE
      ensures Translate(t2.tables, r, v') == Translate(t.tables, r, v')
    {
      assert t1.IsRoot(r);
      assert Translate(t1.tables, r, v') == Translate(t.tables, r, v');
    }
  }

  /** proc_freepagetable: every frame of the process's tree is free again. */
  method ProcFreepagetable(m: Memory, root: int, sz: int)
    requires m.Valid() && 0 <= sz && ProcSpace(m.T(), root, PageCount(sz))
    modifies m
    ensures m.Valid() && Gone(old(m.T()), m.T(), root)
    ensures forall h :: 0 <= h < |m.owner| && !m.owner[h].Free? ==> m.pages[h] == old(m.pages)[h]
  {
    ghost var t, n := m.T(), PageCount(sz);
    m.Uvmunmap(root, TRAMPOLINE, 1, false);
    ghost var t1 := m.T();
    KernelUnmapped(m.low, t, t1, root, TRAMPOLINE);
    SpaceWithout(t, t1, root, n, TRAMPOLINE);
    m.Uvmunmap(root, TRAPFRAME, 1, false);
    ghost var t2 := m.T();
    KernelUnmapped(m.low, t1, t2, root, TRAPFRAME);
    SpaceWithout(t1, t2, root, n, TRAPFRAME);
    Uvmfree(m, root, sz);
    GoneAfter(t1, t2, m.T(), root, TRAPFRAME);
    GoneAfter(t, t1, m.T(), root, TRAMPOLINE);
  }

  lemma BuiltUnmapped(t: Trees, t1: Trees, t2: Trees, root: int, v: int)
    requires Built(t, t1, root) && Unmaps(t1, t2, root, v, 1) && t2.owner == t1.owner
    ensures Built(t, t2, root)
  {
    forall r, v' | t.IsRoot(r) && 0 <= v' < MAXPAGE
      ensures Translate(t2.tables, r, v') == Translate(t.tables, r, v')
    {
      assert t1.IsRoot(r);
      assert Translate(t1.tables, r, v') == Translate(t.tables, r, v');
    }
  }

  /** An empty user part after mapping, or failing to map, page v of the kernel's. */
  lemma StillEmpty(t: Trees, t1: Trees, root: int, v: int, n: int, g: int, perm: int)
    requires t.IsRoot(root) && UserSpace(t, root, 0) && TRAPFRAME <= v < MAXPAGE && 0 <= n <= 1
    requires MapsTo(t, t1, root, v, n, g, perm)
    ensures UserSpace(t1, root, 0)
    ensures Translate(t1.tables, root, v) == (if n == 1 then Some(MakePte(g, perm)) else Translate(t.tables, root, v))
    ensures forall v' :: TRAPFRAME <= v' < MAXPAGE && v' != v ==>
      Translate(t1.tables, root, v') == Translate(t.tables, root, v')
  {
    forall v' | 0 <= v' < TRAPFRAME
      ensures Translate(t1.tables, root, v') == None
    {
      assert Translate(t1.tables, root, v') == Translate(t.tables, root, v');
    }
  }

  /** Nothing changed hands and nothing is mapped differently. */
  ghost predicate Restored(t: Trees, t': Trees) {
    t'.owner == t.owner && SameMap(t, t')
  }

  /**
   proc_pagetable: a page table with only the trampoline and the trapframe mapped, or, for want of
   frames, 0 with nothing changed.
   */
  method ProcPagetable(m: Memory, trampoline: int, trapframe: int) returns (root: int)
    requires m.Valid() && 0 < trampoline && 0 < trapframe && m.T().IsFrame(trampoline) && m.T().IsFrame(trapframe)
    requires m.owner[trampoline].Kernel? && m.owner[trapframe].Kernel?
    modifies m
    ensures m.Valid() && SamePages(old(m.owner), old(m.pages), m.pages)
    ensures root == 0 ==> Restored(old(m.T()), m.T()) && |old(m.freelist)| < 5
    ensures root != 0 ==> Built(old(m.T()), m.T(), root) && ProcSpace(m.T(), root, 0)
    ensures root != 0 ==> TopIs(m.T(), root, trampoline, trapframe) && |m.freelist| >= |old(m.freelist)| - 5
  {
    ghost var t := m.T();
    root := Uvmcreate(m);
    if root == 0 {
      return;
    }
    var ok := MapKernelPage(m, root, TRAMPOLINE, trampoline, PTE_R + PTE_X, t, old(m.pages));
    if !ok {
      Discard(m, root, t, old(m.pages));
      return 0;
    }
    ok := MapKernelPage(m, root, TRAPFRAME, trapframe, PTE_R + PTE_W, t, old(m.pages));
    if !ok {
      ghost var t3, p3 := m.T(), m.pages;
      m.Uvmunmap(root, TRAMPOLINE, 1, false);
      KernelUnmapped(m.low, t3, m.T(), root, TRAMPOLINE);
      SpaceWithout(t3, m.T(), root, 0, TRAMPOLINE);
      BuiltUnmapped(t, t3, m.T(), root, TRAMPOLINE);
      PagesKept(t, m.T(), old(m.pages), p3, m.pages, root);
      Discard(m, root, t, old(m.pages));
      return 0;
    }
  }

  /** The top two pages map the trampoline, to be executed, and the trapframe, to be read and written. */
  ghost predicate TopIs(t: Trees, root: int, trampoline: int, trapframe: int) {
    && Translate(t.tables, root, TRAMPOLINE) == Some(MakePte(trampoline, PTE_R + PTE_X))
    && Translate(t.tables, root, TRAPFRAME) == Some(MakePte(trapframe, PTE_R + PTE_W))
  }

  ghost predicate SameTop(t: Trees, t': Trees, root: int) {
    && Translate(t'.tables, root, TRAMPOLINE) == Translate(t.tables, root, TRAMPOLINE)
    && Translate(t'.tables, root, TRAPFRAME) == Translate(t.tables, root, TRAPFRAME)
  }

  ghost predicate KernelKept(t: Trees, t': Trees) {
    |t.owner| == |t'.owner| && forall f :: t.IsFrame(f) && t.owner[f].Kernel? ==> t'.owner[f].Kernel?
  }

  /** One of proc_pagetable's two mappings, in the tree built since (t, p). */
  method MapKernelPage(m: Memory, root: int, v: int, g: int, perm: int, ghost t: Trees,
          ghost p: seq<Page>) returns (ok: bool)
    requires m.Valid() && Built(t, m.T(), root) && UserSpace(m.T(), root, 0) && TRAPFRAME <= v < MAXPAGE
    requires Translate(m.tables, root, v) == None && 0 < g && m.T().IsFrame(g) && m.owner[g].Kernel? && Perm(perm)
    requires IsLeaf(perm) && !IsUser(perm)
    requires SamePages(t.owner, p, m.pages)
    modifies m
    ensures m.Valid() && Built(t, m.T(), root) && UserSpace(m.T(), root, 0) && SamePages(t.owner, p, m.pages)
    ensures if ok then KernelPage(m.T(), root, v) else Translate(m.tables, root, v) == None
    ensures ok ==> Translate(m.tables, root, v) == Some(MakePte(g, perm))
    ensures if ok then |m.freelist| >= |old(m.freelist)| - 2 else |old(m.freelist)| < 2
    ensures forall v' :: TRAPFRAME <= v' < MAXPAGE && v' != v ==>
      Translate(m.tables, root, v') == Translate(old(m.tables), root, v')
    ensures KernelKept(old(m.T()), m.T())
  {
    ghost var t1, p1 := m.T(), m.pages;
    ghost var n;
    ok, n := m.Mappages(root, v, 1, g, perm);
    BuiltMapped(t, t1, m.T(), root, v, n, g, perm);
    StillEmpty(t1, m.T(), root, v, n, g, perm);
    PagesChain(t, t1, p, p1, m.pages, root);
    MadePte(g, perm);
  }

  lemma PagesChain(t: Trees, t1: Trees, p: seq<Page>, p1: seq<Page>, p2: seq<Page>, root: int)
    requires Built(t, t1, root) && SamePages(t.owner, p, p1)
    requires |p2| == |t1.owner| && forall f :: 0 <= f < |t1.owner| && !t1.owner[f].Free? ==> p2[f] == p1[f]
    ensures SamePages(t.owner, p, p2)
  {
  }

  lemma PagesKept(t: Trees, t2: Trees, p: seq<Page>, p1: seq<Page>, p2: seq<Page>, root: int)
    requires Built(t, t2, root) && SamePages(t.owner, p, p1)
    requires |p2| == |t2.owner| && forall f :: 0 <= f < |t2.owner| && !t2.owner[f].Free? ==> p2[f] == p1[f]
    ensures SamePages(t.owner, p, p2)
  {
  }

  /** uvmfree of a new tree without pages: memory is as it was before the tree. */
  method Discard(m: Memory, root: int, ghost t: Trees, ghost p: seq<Page>)
    requires m.Valid() && TreesOk(m.low, t) && Built(t, m.T(), root) && OnlyUser(m.T(), root, 0)
    requires SamePages(t.owner, p, m.pages)
    modifies m
    ensures m.Valid() && Restored(t, m.T()) && SamePages(t.owner, p, m.pages)
  {
    FreeRoot(m.low, t, root);
    ghost var t1 := m.T();
    Uvmfree(m, root, 0);
    BuiltGone(t, t1, m.T(), root);
  }

  // ---------------------------------------------------------------- uvmclear

  function WithoutUser(e: int): (r: int) { if IsUser(e) then e - PTE_U else e }

  lemma ClearedUser(e: int)
    ensures var r := WithoutUser(e);
            Frame(r) == Frame(e) && PageTable.Valid(r) == PageTable.Valid(e) && IsLeaf(r) == IsLeaf(e) && !IsUser(r)
  {
    if IsUser(e) {
      var a, b := e / 32, e % 16;
      UserBit(e);
      SameFrame(a, b);
      Halves(a, b);
      SameLeaf(a, b / 2);
    }
  }

  lemma UserBit(e: int)
    requires (e / 16) % 2 == 1
    ensures e == 32 * (e / 32) + 16 + e % 16
  {
  }

  lemma SameFrame(a: int, b: int)
    requires 0 <= b < 16
    ensures (32 * a + 16 + b) / 1024 == (32 * a + b) / 1024
  {
    var d, c := a / 32, a % 32;
    assert 32 * a + 16 + b == 1024 * d + (32 * c + 16 + b);
  }

  lemma SameLeaf(a: int, b: int)
    ensures (16 * a + 8 + b) % 8 == (16 * a + b) % 8
  {
  }

  lemma Halves(a: int, b: int)
    requires 0 <= b < 16
    ensures (32 * a + 16 + b) / 2 == 16 * a + 8 + b / 2 && (32 * a + b) / 2 == 16 * a + b / 2
    ensures (32 * a + b) / 16 == 2 * a
  {
  }

  lemma ClearRound(low: int, t: Trees, f: int, root: int, v: int)
    requires TreesOk(low, t) && t.IsRoot(root) && t.IsFrame(f) && 0 <= v < MAXPAGE && t.owner[f] == Place(root, 0, v)
    ensures var e := t.tables[f][Px(0, v)];
            var t' := WithEntry(t, f, Px(0, v), WithoutUser(e));
            && TreesOk(low, t') && SameRoots(t, t')
            && (forall r, v' :: t.IsRoot(r) && 0 <= v' < MAXPAGE && !(r == root && v == v') ==>
                  Translate(t'.tables, r, v') == Translate(t.tables, r, v'))
            && Translate(t'.tables, root, v) == (if PageTable.Valid(e) then Some(WithoutUser(e)) else None)
            && Translate(t.tables, root, v) == (if PageTable.Valid(e) then Some(e) else None)
  {
    var e := t.tables[f][Px(0, v)];
    var t' := WithEntry(t, f, Px(0, v), WithoutUser(e));
    ClearedUser(e);
    EntryIs(low, t, root, v, f);
    forall g, k | t'.IsFrame(g) && 0 <= k < ENTRIES
      ensures DownOk(t', g, k)
    {
      assert DownOk(t, g, k);
    }
    forall g | t'.IsFrame(g)
      ensures UpOk(t', g)
    {
      assert UpOk(t, g);
    }
    forall r, v' | t.IsRoot(r) && 0 <= v' < MAXPAGE
      ensures !(r == root && v == v') ==> Translate(t'.tables, r, v') == Translate(t.tables, r, v')
    {
      WriteLeaf(low, t, f, WithoutUser(e), root, v, r, v');
    }
    WriteLeaf(low, t, f, WithoutUser(e), root, v, root, v);
  }

  lemma ClearKeeps(t: Trees, t': Trees, root: int, v: int, n: int)
    requires ProcSpace(t, root, n) && 0 <= v < n && t'.owner == t.owner && SameRoots(t, t')
    requires forall r, v' :: t.IsRoot(r) && 0 <= v' < MAXPAGE && !(r == root && v == v') ==>
      Translate(t'.tables, r, v') == Translate(t.tables, r, v')
    requires Translate(t.tables, root, v).Some? ==>
      Translate(t'.tables, root, v) == Some(WithoutUser(Translate(t.tables, root, v).value))
    ensures ProcSpace(t', root, n)
  {
    forall v' | 0 <= v' < n
      ensures OwnsPage(t', root, v')
    {
      assert OwnsPage(t, root, v');
      if v' == v {
        ClearedUser(Translate(t.tables, root, v).value);
      }
    }
  }

  /** uvmclear: user code may not use page v any more. */
  method Uvmclear(m: Memory, root: int, v: int, n: int)
    requires m.Valid() && ProcSpace(m.T(), root, n) && 0 <= v < n
    modifies m`tables, m`pages, m`freelist, m`owner, m`up
    ensures m.Valid() && ProcSpace(m.T(), root, n) && m.owner == old(m.owner) && m.pages == old(m.pages)
    ensures SameRoots(old(m.T()), m.T())
    ensures forall r, v' :: old(m.T()).IsRoot(r) && 0 <= v' < MAXPAGE && !(r == root && v == v') ==>
              Translate(m.tables, r, v') == Translate(old(m.tables), r, v')
    ensures Translate(m.tables, root, v).Some? && !IsUser(Translate(m.tables, root, v).value)
  {
    assert OwnsPage(m.T(), root, v);
    var f := m.Walk(root, v, false);
    ghost var t := m.T();
    ClearRound(m.low, t, f, root, v);
    var e := m.tables[f][Px(0, v)];
    ClearedUser(e);
    ghost var t' := WithEntry(t, f, Px(0, v), WithoutUser(e));
    m.tables := m.tables[f := m.tables[f][Px(0, v) := WithoutUser(e)]];
    assert m.T() == t';
    ClearKeeps(t, t', root, v, n);
  }

  lemma BuiltCleared(t: Trees, t1: Trees, t2: Trees, root: int, v: int)
    requires Built(t, t1, root) && t2.owner == t1.owner && SameRoots(t1, t2)
    requires forall r, v' :: t1.IsRoot(r) && 0 <= v' < MAXPAGE && !(r == root && v == v') ==>
      Translate(t2.tables, r, v') == Translate(t1.tables, r, v')
    ensures Built(t, t2, root)
  {
    forall r, v' | t.IsRoot(r) && 0 <= v' < MAXPAGE
      ensures Translate(t2.tables, r, v') == Translate(t.tables, r, v')
    {
      assert t1.IsRoot(r);
      assert Translate(t1.tables, r, v') == Translate(t.tables, r, v');
    }
  }

  // ---------------------------------------------------------------- exec

  const USERSTACK := 1
  const PHYSFRAMES := 0x8_8000    // PHYSTOP / PGSIZE

  function Max(a: int, b: int): (m: int) { if a < b then b else a }

  lemma SpaceExtended(t: Trees, t1: Trees, root: int, n: int, n': int)
    requires ProcSpace(t, root, n) && UserSpace(t1, root, n') && n <= n' && Extended(t, t1, root, n, n')
    ensures ProcSpace(t1, root, n') && SameTop(t, t1, root)
  {
    assert Translate(t1.tables, root, TRAPFRAME) == Translate(t.tables, root, TRAPFRAME);
    assert Translate(t1.tables, root, TRAMPOLINE) == Translate(t.tables, root, TRAMPOLINE);
  }

  lemma ProcSpaceKept(t: Trees, t1: Trees, root: int, n: int)
    requires ProcSpace(t, root, n) && SameMap(t, t1) && Grown(t, t1, root)
    ensures ProcSpace(t1, root, n) && SameTop(t, t1, root)
  {
    SpaceKept(t, t1, root, n, root);
    assert Translate(t1.tables, root, TRAPFRAME) == Translate(t.tables, root, TRAPFRAME);
    assert Translate(t1.tables, root, TRAMPOLINE) == Translate(t.tables, root, TRAMPOLINE);
  }

  /** The new pages of a tree that grew. */
  ghost predicate GrewTo(t: Trees, p: seq<Page>, t': Trees, p': seq<Page>, root: int, n: int, n': int, xperm: int) {
    && n <= n' && Extended(t, t', root, n, n') && SamePages(t.owner, p, p')
    && ZeroPages(t', p', root, n, n', UserPerm(xperm))
  }

  lemma MorePages(sz: int, newsz: int)
    ensures sz <= newsz ==> PageCount(sz) <= PageCount(newsz)
  {
  }

  lemma GrewNone(t: Trees, p: seq<Page>, root: int, n: int, xperm: int)
    requires |p| == |t.owner|
    ensures GrewTo(t, p, t, p, root, n, n, xperm)
  {
  }

  /** uvmalloc on the tree built since (t, p). */
  method GrowNew(m: Memory, root: int, sz: int, newsz: int, xperm: int, ghost t: Trees,
          ghost p: seq<Page>) returns (sz': int)
    requires m.Valid() && Built(t, m.T(), root) && 0 <= sz && ProcSpace(m.T(), root, PageCount(sz))
    requires SamePages(t.owner, p, m.pages) && |m.owner| <= TRAPFRAME && XPerm(xperm)
    modifies m
    ensures m.Valid() && Built(t, m.T(), root) && SamePages(t.owner, p, m.pages) && SameTop(old(m.T()), m.T(), root)
    ensures |m.owner| == |old(m.owner)| && (sz' == 0 || sz' == Max(sz, newsz))
    ensures ProcSpace(m.T(), root, PageCount(if sz' == 0 then sz else sz'))
    ensures sz' != 0 ==>
      GrewTo(old(m.T()), old(m.pages), m.T(), m.pages, root, PageCount(sz), PageCount(sz'), xperm)
    ensures sz' != 0 ==> |m.freelist| >= |old(m.freelist)| - 3 * (PageCount(sz') - PageCount(sz))
    ensures sz' == 0 && Max(sz, newsz) > 0 ==> |old(m.freelist)| < 3 * (PageCount(Max(sz, newsz)) - PageCount(sz))
  {
    hide TreesOk, FreeOk;
    ghost var t1, p1 := m.T(), m.pages;
    GrewNone(t1, p1, root, PageCount(sz), xperm);
    MorePages(sz, newsz);
    var ok;
    sz', ok := Uvmalloc(m, root, sz, newsz, xperm);
    if !ok {
      BuiltSame(t, t1, m.T(), root);
      ProcSpaceKept(t1, m.T(), root, PageCount(sz));
    } else if sz <= newsz {
      BuiltExtended(t, t1, m.T(), root, PageCount(sz), PageCount(newsz));
      SpaceExtended(t1, m.T(), root, PageCount(sz), PageCount(newsz));
    }
    PagesChain(t, t1, p, p1, m.pages, root);
  }

  /** exec's bad path: the new image is given up, and memory is as exec found it. */
  method Abandon(m: Memory, root: int, sz: int, ghost t: Trees, ghost p: seq<Page>)
    requires m.Valid() && TreesOk(m.low, t) && Built(t, m.T(), root) && 0 <= sz && ProcSpace(m.T(), root, PageCount(sz))
    requires SamePages(t.owner, p, m.pages)
    modifies m
    ensures m.Valid() && Restored(t, m.T()) && SamePages(t.owner, p, m.pages)
  {
    FreeRoot(m.low, t, root);
    ghost var t1, p1 := m.T(), m.pages;
    ProcFreepagetable(m, root, sz);
    BuiltGone(t, t1, m.T(), root);
  }

  /** Frames of other owners kept their contents, and so did those in use before the tree was built. */
  lemma PagesBelow(t: Trees, t1: Trees, p: seq<Page>, p1: seq<Page>, p2: seq<Page>, root: int)
    requires Built(t, t1, root) && SamePages(t.owner, p, p1) && |p2| == |t1.owner| && TreeIsNew(t, root)
    requires forall f :: t1.IsFrame(f) && !(t1.owner[f].Leaf? && t1.owner[f].root == root) ==> p2[f] == p1[f]
    ensures SamePages(t.owner, p, p2)
  {
  }

  ghost predicate TreeIsNew(t: Trees, root: int) { forall f :: t.IsFrame(f) ==> !Belongs(t.owner[f], root) }

  /** A page within memory: the sizes exec computes stay below 32 bits. */
  lemma SizeFits(m: Memory, root: int, sz: int)
    requires m.Valid() && ProcSpace(m.T(), root, PageCount(sz)) && 0 <= sz && |m.owner| <= PHYSFRAMES
    ensures sz < U32 && PageCount(sz) < PHYSFRAMES
  {
    Fits(m.low, m.T(), root, PageCount(sz));
  }

  /** One header that is to be loaded. */
  method LoadOne(m: Memory, root: int, file: seq<int>, k: nat, sz: int, ghost t: Trees,
          ghost p: seq<Page>) returns (ok: bool, sz': int)
    requires m.Valid() && Built(t, m.T(), root) && SamePages(t.owner, p, m.pages) && TreeIsNew(t, root)
    requires |m.owner| <= PHYSFRAMES && |file| < 0x8000_0000
    requires Good(file, k) && SizeAfter(file, k) == Upto(sz) && 0 <= sz && ProcSpace(m.T(), root, PageCount(sz))
    requires IsImage(m.T(), m.pages, root, file, k, PageCount(sz)) && Readable(file, k) && PhAt(file, k).load
    modifies m
    ensures m.Valid() && Built(t, m.T(), root) && SamePages(t.owner, p, m.pages) && SameTop(old(m.T()), m.T(), root)
    ensures 0 <= sz' && ProcSpace(m.T(), root, PageCount(sz'))
    ensures ok ==> SizeAfter(file, k + 1) == Upto(sz') && IsImage(m.T(), m.pages, root, file, k + 1, PageCount(sz'))
    ensures ok ==> |m.freelist| >= |old(m.freelist)| - 3 * (PageCount(sz') - PageCount(sz))
    ensures !ok && SizeAfter(file, k + 1).Upto? ==>
      |old(m.freelist)| < 3 * (PageCount(SizeAfter(file, k + 1).sz) - PageCount(sz))
  {
    hide TreesOk, FreeOk, IsImage, ProcSpace, Built, SamePages, IsGrown, Overlaid, ZeroPages, Extended, SizeAfter, PhAt;
    hide IsBytes, HasHeader, Readable, UserPages;
    var ph := PhAt(file, k);
    SaneRange(file, k);
    SizeNext(file, k, sz);
    if !Sane(ph) {
      return false, sz;
    }
    ghost var t0, p0 := m.T(), m.pages;
    RootOf(t0, root, PageCount(sz));
    var sz1 := GrowNew(m, root, sz, ph.vaddr + ph.memsz, Flags2Perm(ph.flags), t, p);
    if sz1 == 0 {
      return false, sz;
    }
    sz' := sz1;
    SizeFits(m, root, sz');
    ghost var t1, p1, n, n' := m.T(), m.pages, PageCount(sz), PageCount(sz');
    RootOf(t1, root, n');
    ImageGrown(t0, p0, t1, p1, root, file, k, sz, n, n', Flags2Perm(ph.flags));
    GrownUser(t1, p1, root, file, k, n, n', Flags2Perm(ph.flags));
    PagesOf(sz', n', 0);
    ghost var w;
    ok, w := LoadSeg(m, root, n', file, ph);
    OverlaidElsewhere(t1, p1, m.pages, root, n', ph.vaddr, w);
    PagesBelow(t, t1, p, p1, m.pages, root);
    if ok {
      ImageLoaded(t1, p1, m.pages, root, file, k, sz, n', w);
    }
  }

  lemma OverlaidElsewhere(t: Trees, p: seq<Page>, p': seq<Page>, root: int, n: int, from: int, w: seq<int>)
    requires Overlaid(t, p, p', root, n, from, w)
    ensures |p'| == |t.owner|
    ensures forall f :: t.IsFrame(f) && !(t.owner[f].Leaf? && t.owner[f].root == root) ==> p'[f] == p[f]
  {
  }

  lemma RootOf(t: Trees, root: int, n: int)
    requires ProcSpace(t, root, n)
    ensures t.IsRoot(root) && 0 <= n <= TRAPFRAME
  {
  }

  lemma SizeNext(file: seq<int>, k: nat, sz: int)
    requires Good(file, k) && SizeAfter(file, k) == Upto(sz) && Readable(file, k) && PhAt(file, k).load
    ensures var ph := PhAt(file, k); var s := Max(sz, ph.vaddr + ph.memsz);
      SizeAfter(file, k + 1) == if !Sane(ph) || s == 0 || !InFile(file, ph) then Bad else Upto(s)
  {
    hide PhAt, Readable, IsBytes, HasHeader;
  }

  lemma ImageNone(t: Trees, p: seq<Page>, root: int, file: seq<int>)
    requires IsBytes(file) && HasHeader(file)
    ensures Good(file, 0) && IsImage(t, p, root, file, 0, 0)
  {
  }

  /** If memory was short of what header k needs, it is short of what the whole file needs. */
  lemma ShortOf(file: seq<int>, j: nat, k: nat, before: int, free: int, sz: int)
    requires IsBytes(file) && HasHeader(file) && j <= k && SizeAfter(file, j).Upto?
    requires free >= before - 3 * PageCount(sz) && free < 3 * (PageCount(SizeAfter(file, j).sz) - PageCount(sz))
    ensures SizeAfter(file, k).Upto? ==> before < 3 * PageCount(SizeAfter(file, k).sz)
  {
    if SizeAfter(file, k).Upto? {
      SizesGrow(file, j, k);
      MorePages(SizeAfter(file, j).sz, SizeAfter(file, k).sz);
    }
  }

  /** A header that cannot be handled makes the file bad. */
  lemma {:induction false} BadStays(file: seq<int>, j: nat, k: nat)
    requires HasHeader(file) && j <= k && SizeAfter(file, j).Bad?
    ensures SizeAfter(file, k).Bad?
    decreases k
  {
    hide PhAt, Readable, Num, Sane, InFile, HasHeader;
    if j < k {
      BadStays(file, j, k - 1);
    }
  }

  /** exec's loop over the program headers. */
  method LoadSegments(m: Memory, root: int, file: seq<int>, ghost t: Trees,
          ghost p: seq<Page>) returns (ok: bool, sz: int)
    requires m.Valid() && Built(t, m.T(), root) && ProcSpace(m.T(), root, 0) && SamePages(t.owner, p, m.pages)
    requires TreeIsNew(t, root) && |m.owner| <= PHYSFRAMES && |file| < 0x8000_0000 && IsBytes(file) && HasHeader(file)
    modifies m
    ensures m.Valid() && Built(t, m.T(), root) && SamePages(t.owner, p, m.pages) && SameTop(old(m.T()), m.T(), root)
    ensures 0 <= sz && ProcSpace(m.T(), root, PageCount(sz)) && 0 <= Phnum(file)
    ensures ok ==> SizeAfter(file, Phnum(file)) == Upto(sz)
    ensures ok ==> IsImage(m.T(), m.pages, root, file, Phnum(file), PageCount(sz))
    ensures ok ==> |m.freelist| >= |old(m.freelist)| - 3 * PageCount(sz)
    ensures !ok && SizeAfter(file, Phnum(file)).Upto? ==>
      |old(m.freelist)| < 3 * PageCount(SizeAfter(file, Phnum(file)).sz)
  {
    hide TreesOk, FreeOk, IsImage, ProcSpace, Built, SamePages, SizeAfter, PhAt, IsBytes, Readable, TreeIsNew, Num;
    sz := 0;
    NumRange(file, 56, 2);
    SameSize(t, m.T(), root);
    ImageNone(m.T(), m.pages, root, file);
    assert SizeAfter(file, 0) == Upto(0) by { NoHeaders(file); }
    var i, off := 0, Phoff(file) % U32;
    while i < Phnum(file)
      invariant 0 <= i <= Phnum(file) && off == PhPos(file, i)
      invariant m.Valid() && Built(t, m.T(), root) && SamePages(t.owner, p, m.pages) && SameTop(old(m.T()), m.T(), root)
      invariant 0 <= sz && ProcSpace(m.T(), root, PageCount(sz)) && |m.owner| == |t.owner| <= PHYSFRAMES
      invariant Good(file, i) && SizeAfter(file, i) == Upto(sz) && IsImage(m.T(), m.pages, root, file, i, PageCount(sz))
      invariant |m.freelist| >= |old(m.freelist)| - 3 * PageCount(sz)
    {
      ghost var free := |m.freelist|;
      if off + PROGHDR > |file| {
        NotReadable(file, i);
        BadStays(file, i + 1, Phnum(file));
        return false, sz;
      }
      ReadAs(file, i, off);
      if Decode(file, off).load {
        ghost var sz0 := sz;
        ok, sz := LoadOne(m, root, file, i, sz, t, p);
        SameSize(t, m.T(), root);
        if !ok {
          if SizeAfter(file, i + 1).Upto? {
            ShortOf(file, i + 1, Phnum(file), |old(m.freelist)|, free, sz0);
          } else {
            BadStays(file, i + 1, Phnum(file));
          }
          return;
        }
      } else {
        ImageSkipped(m.T(), m.pages, root, file, i, sz, PageCount(sz));
      }
      NextPos(file, i);
      i, off := i + 1, (off + PROGHDR) % U32;
    }
    ok := true;
  }

  lemma NoHeaders(file: seq<int>)
    requires HasHeader(file)
    ensures SizeAfter(file, 0) == Upto(0)
  {
  }

  lemma NotReadable(file: seq<int>, i: nat)
    requires HasHeader(file) && PhPos(file, i) + PROGHDR > |file|
    ensures SizeAfter(file, i + 1).Bad?
  {
  }

  lemma ReadAs(file: seq<int>, i: nat, off: int)
    requires HasHeader(file) && off == PhPos(file, i) && off + PROGHDR <= |file|
    ensures Readable(file, i) && PhAt(file, i) == Decode(file, off)
  {
  }

  lemma SameSize(t: Trees, t': Trees, root: int)
    requires Built(t, t', root)
    ensures |t.owner| == |t'.owner|
  {
  }

  // ---------------------------------------------------------------- the stack

  /** An image below what grew, was closed to the user, or was written to by pushing arguments. */
  lemma ImageExtended(t: Trees, p: seq<Page>, t': Trees, p': seq<Page>, root: int, file: seq<int>, k: nat, n: int,
          n': int)
    requires IsImage(t, p, root, file, k, n) && t.IsRoot(root) && 0 <= n <= n' <= MAXPAGE
    requires Extended(t, t', root, n, n') && SamePages(t.owner, p, p')
    ensures IsImage(t', p', root, file, k, n)
  {
    hide PageOk, ByteOk;
    assert |t'.owner| == |t.owner|;
    forall v | 0 <= v < n
      ensures PageOk(t', root, file, k, v)
    {
      OldPageOk(t, t', root, file, k, n, n', v);
    }
    forall a | In(a, n)
      ensures ByteOk(t', p', root, file, k, a)
    {
      OldByteOk(t, p, t', p', root, file, k, n, n', a);
    }
  }

  /** The same translations and memory for the first n pages mean the same image. */
  lemma ImageSame(t: Trees, p: seq<Page>, t': Trees, p': seq<Page>, root: int, file: seq<int>, k: nat, n: int)
    requires IsImage(t, p, root, file, k, n) && |t.owner| == |t'.owner| == |p'|
    requires forall v :: 0 <= v < n ==> SamePage(t, t', root, v)
    requires forall a :: In(a, n) ==> SameByte(t, p, p', root, a)
    ensures IsImage(t', p', root, file, k, n)
  {
    hide Good, PermAt, ByteOf;
    forall v | 0 <= v < n
      ensures PageOk(t', root, file, k, v)
    {
      assert PageOk(t, root, file, k, v) && SamePage(t, t', root, v);
    }
    forall a | In(a, n)
      ensures ByteOk(t', p', root, file, k, a)
    {
      PageOf(a, n);
      assert ByteOk(t, p, root, file, k, a) && SameByte(t, p, p', root, a) && SamePage(t, t', root, a / PGSIZE);
    }
  }

  ghost predicate SamePage(t: Trees, t': Trees, root: int, v: int) {
    && Translate(t'.tables, root, v) == Translate(t.tables, root, v)
    && (OwnsPage(t, root, v) ==> OwnsPage(t', root, v))
  }

  ghost predicate SameByte(t: Trees, p: seq<Page>, p': seq<Page>, root: int, a: int) {
    OwnsPage(t, root, a / PGSIZE) && |p| == |p'| == |t.owner| ==> Held(t, p', root, a) == Held(t, p, root, a)
  }

  lemma UserOwnedSpace(t: Trees, root: int, n: int)
    requires ProcSpace(t, root, n)
    ensures UserOwned(t, root)
  {
    forall v | UserPage(t, root, v)
      ensures OwnsPage(t, root, v)
    {
      assert v == TRAPFRAME || v == TRAMPOLINE ==> KernelPage(t, root, v);
    }
  }

  /** The page below top can be written. */
  lemma StackWritable(t: Trees, root: int, n: int, top: int)
    requires WritablePage(t, root, n) && top == (n + 1) * PGSIZE
    ensures AllWritable(t, root, top - PGSIZE, PGSIZE)
  {
    forall a | Within(a, top - PGSIZE, PGSIZE)
      ensures CanWrite(t, root, a)
    {
      assert a / PGSIZE == n;
    }
  }

  /** Page n is closed to user code; the rest of the tree and all memory are as before. */
  ghost predicate Guarded(t: Trees, t': Trees, root: int, n: int) {
    && t'.owner == t.owner && SameRoots(t, t')
    && (forall r, v :: t.IsRoot(r) && 0 <= v < MAXPAGE && !(r == root && v == n) ==>
          Translate(t'.tables, r, v) == Translate(t.tables, r, v))
    && Translate(t'.tables, root, n).Some? && !IsUser(Translate(t'.tables, root, n).value)
  }

  /** The new stack: a guard page, and above it a page that user code can write. */
  ghost predicate HasStack(t: Trees, root: int, n: int) {
    && OwnsPage(t, root, n) && !UserPage(t, root, n)
    && PermIs(t, root, n + 1, UserPerm(PTE_W)) && WritablePage(t, root, n + 1)
  }

  lemma StackGuarded(t: Trees, p: seq<Page>, t1: Trees, p1: seq<Page>, t2: Trees, root: int, file: seq<int>, k: nat,
          n: int)
    requires IsImage(t, p, root, file, k, n) && t.IsRoot(root) && 0 <= n && n + 2 <= TRAPFRAME
    requires GrewTo(t, p, t1, p1, root, n, n + 2, PTE_W) && t1.IsRoot(root) && ProcSpace(t2, root, n + 2)
    requires Guarded(t1, t2, root, n)
    ensures IsImage(t2, p1, root, file, k, n) && HasStack(t2, root, n) && SameTop(t1, t2, root)
  {
    hide IsImage, PageHolds;
    var n' := n + 2;
    ImageExtended(t, p, t1, p1, root, file, k, n, n');
    forall v | 0 <= v < n
      ensures SamePage(t1, t2, root, v)
    {
    }
    forall a | In(a, n)
      ensures SameByte(t1, p1, p1, root, a)
    {
    }
    ImageSame(t1, p1, t2, p1, root, file, k, n);
    StackPage(t1, p1, t2, root, n);
  }

  lemma StackPage(t1: Trees, p1: seq<Page>, t2: Trees, root: int, n: int)
    requires ZeroPages(t1, p1, root, n, n + 2, UserPerm(PTE_W)) && t1.IsRoot(root) && ProcSpace(t2, root, n + 2)
    requires Guarded(t1, t2, root, n) && 0 <= n && n + 2 <= TRAPFRAME
    ensures HasStack(t2, root, n)
  {
    var top := n + 1;
    assert PageHolds(t1, p1, root, top, Filled(0), UserPerm(PTE_W));
    assert Translate(t2.tables, root, top) == Translate(t1.tables, root, top);
    UserPageOf(t2, root, top, PTE_W);
    assert OwnsPage(t2, root, n);
  }

  lemma ImagePushed(t: Trees, p: seq<Page>, p': seq<Page>, root: int, file: seq<int>, k: nat, n: int, lo: int, hi: int)
    requires IsImage(t, p, root, file, k, n) && Kept(t, p, p', root, lo, hi) && n * PGSIZE <= lo && n <= MAXPAGE
    ensures IsImage(t, p', root, file, k, n)
  {
    hide ByteOf;
    forall v | 0 <= v < n
      ensures SamePage(t, t, root, v)
    {
    }
    forall a | In(a, n)
      ensures SameByte(t, p, p', root, a)
    {
      PageOf(a, n);
      assert PageOk(t, root, file, k, a / PGSIZE);
      PermsOk(file, k, a / PGSIZE);
      UserPageOf(t, root, a / PGSIZE, PermAt(file, k, a / PGSIZE));
      assert Load(t, p', root, a) == Load(t, p, root, a);
    }
    ImageSame(t, p, t, p', root, file, k, n);
  }

  /** What main finds: its arguments, and the array of pointers to them at sp. */
  ghost predicate Arguments(t: Trees, p: seq<Page>, root: int, argv: seq<seq<int>>, top: int) {
    && Strings(t, p, root, argv, top, |argv|)
    && Loaded(t, p, root, ArgvAt(argv, top), Pointers(argv, top, |argv|) + Le(0, 8))
  }

  lemma KeptElsewhere(t: Trees, p: seq<Page>, p': seq<Page>, root: int, lo: int, hi: int)
    requires Kept(t, p, p', root, lo, hi)
    ensures |p'| == |t.owner|
    ensures forall f :: t.IsFrame(f) && !(t.owner[f].Leaf? && t.owner[f].root == root) ==> p'[f] == p[f]
  {
  }

  /** Two more pages for the stack, the lower one closed to user code. */
  method MakeStack(m: Memory, root: int, sz0: int, ghost file: seq<int>, ghost k: nat, ghost t: Trees,
          ghost p: seq<Page>) returns (ok: bool, sz: int)
    requires m.Valid() && Built(t, m.T(), root) && SamePages(t.owner, p, m.pages) && 0 <= sz0
    requires ProcSpace(m.T(), root, PageCount(sz0)) && |m.owner| <= PHYSFRAMES
    requires IsImage(m.T(), m.pages, root, file, k, PageCount(sz0))
    modifies m
    ensures m.Valid() && Built(t, m.T(), root) && SamePages(t.owner, p, m.pages) && SameTop(old(m.T()), m.T(), root)
    ensures 0 <= sz && ProcSpace(m.T(), root, PageCount(sz))
    ensures ok ==> sz == (PageCount(sz0) + USERSTACK + 1) * PGSIZE && PageCount(sz) == PageCount(sz0) + 2
    ensures ok ==> HasStack(m.T(), root, PageCount(sz0))
    ensures ok ==> IsImage(m.T(), m.pages, root, file, k, PageCount(sz0))
    ensures !ok ==> |old(m.freelist)| < 6
  {
    hide TreesOk, FreeOk, IsImage, ProcSpace, Built, SamePages, GrewTo, HasStack;
    var n := PageCount(sz0);
    sz := n * PGSIZE;
    assert PageCount(sz) == n;
    ghost var t0, p0 := m.T(), m.pages;
    RootOf(t0, root, n);
    var sz1 := GrowNew(m, root, sz, sz + (USERSTACK + 1) * PGSIZE, PTE_W, t, p);
    assert PageCount(sz + (USERSTACK + 1) * PGSIZE) == n + 2;
    if sz1 == 0 {
      return false, sz;
    }
    sz := sz1;
    ghost var t1, p1 := m.T(), m.pages;
    RootOf(t1, root, n + 2);
    Uvmclear(m, root, n, n + 2);
    BuiltCleared(t, t1, m.T(), root, n);
    StackGuarded(t0, p0, t1, p1, m.T(), root, file, k, n);
    ok := true;
  }

  /** The user stack, its guard page, and the arguments. */
  method AddStack(m: Memory, root: int, sz0: int, argv: seq<seq<int>>, ghost file: seq<int>, ghost k: nat,
          ghost t: Trees, ghost p: seq<Page>) returns (ok: bool, sz: int, sp: int)
    requires m.Valid() && Built(t, m.T(), root) && SamePages(t.owner, p, m.pages) && 0 <= sz0 && TreeIsNew(t, root)
    requires ProcSpace(m.T(), root, PageCount(sz0)) && |m.owner| <= PHYSFRAMES && |argv| != MAXARG
    requires IsImage(m.T(), m.pages, root, file, k, PageCount(sz0))
    modifies m
    ensures m.Valid() && Built(t, m.T(), root) && SamePages(t.owner, p, m.pages) && SameTop(old(m.T()), m.T(), root)
    ensures 0 <= sz && ProcSpace(m.T(), root, PageCount(sz))
    ensures ok ==> sz == (PageCount(sz0) + USERSTACK + 1) * PGSIZE && Fit(argv, sz, sz - PGSIZE)
    ensures ok ==> HasStack(m.T(), root, PageCount(sz0)) && sp == ArgvAt(argv, sz)
    ensures ok ==> IsImage(m.T(), m.pages, root, file, k, PageCount(sz0))
    ensures ok ==> Arguments(m.T(), m.pages, root, argv, sz)
    ensures !ok ==> |old(m.freelist)| < 6 || !StackFits(argv, PageCount(sz0))
  {
    hide TreesOk, FreeOk, IsImage, ProcSpace, Built, SamePages, HasStack, Kept, Loaded, Strings, TreeIsNew, UserOwned;
    var n := PageCount(sz0);
    sp := 0;
    ok, sz := MakeStack(m, root, sz0, file, k, t, p);
    if !ok {
      return;
    }
    ghost var t1, p1 := m.T(), m.pages;
    RootOf(t1, root, n + 2);
    UserOwnedSpace(t1, root, n + 2);
    StackTop(t1, root, n, sz);
    ok, sp := PushArgs(m, root, sz, argv);
    KeptElsewhere(t1, p1, m.pages, root, sz - PGSIZE, sz);
    PagesBelow(t, t1, p, p1, m.pages, root);
    ImagePushed(t1, p1, m.pages, root, file, k, n, sz - PGSIZE, sz);
  }

  lemma StackTop(t: Trees, root: int, n: int, top: int)
    requires HasStack(t, root, n) && 0 <= n && top == (n + 2) * PGSIZE
    ensures AllWritable(t, root, top - PGSIZE, PGSIZE) && top >= PGSIZE && n * PGSIZE <= top - PGSIZE
  {
    StackWritable(t, root, n + 1, top);
  }

  /** The arguments fit the page above the guard page of an image of n pages. */
  predicate StackFits(argv: seq<seq<int>>, n: int) {
    var top := (n + USERSTACK + 1) * PGSIZE;
    Fit(argv, top, top - PGSIZE)
  }

  // ---------------------------------------------------------------- commit

  /** After a successful exec: the old image's frames are free, the new tree took frames that were free. */
  ghost predicate Replaced(t: Trees, t': Trees, before: int, after: int) {
    && |t.owner| == |t'.owner|
    && (forall f :: t.IsFrame(f) ==>
          if Belongs(t.owner[f], before) then t'.owner[f].Free?
          else t'.owner[f] == t.owner[f] || (t.owner[f].Free? && Belongs(t'.owner[f], after)))
    && OthersSame(t, t', before)
  }

  lemma Swapped(low: int, t: Trees, t1: Trees, t2: Trees, before: int, after: int, n: int)
    requires TreesOk(low, t) && t.IsRoot(before) && Built(t, t1, after) && ProcSpace(t1, after, n)
    requires Gone(t1, t2, before)
    ensures Replaced(t, t2, before, after) && ProcSpace(t2, after, n) && after != before && t1.IsRoot(after)
  {
    FreeRoot(low, t, after);
    forall r, v | t.IsRoot(r) && r != before && 0 <= v < MAXPAGE
      ensures Translate(t2.tables, r, v) == Translate(t.tables, r, v)
    {
      assert t1.IsRoot(r);
      assert Translate(t1.tables, r, v) == Translate(t.tables, r, v);
    }
    forall f | t.IsFrame(f)
      ensures if Belongs(t.owner[f], before) then t2.owner[f].Free?
              else t2.owner[f] == t.owner[f] || (t.owner[f].Free? && Belongs(t2.owner[f], after))
    {
      assert t1.owner[f] == t.owner[f] || (t.owner[f].Free? && Belongs(t1.owner[f], after));
    }
    SpaceSpared(t1, t2, before, after, n);
  }

  lemma SpaceSpared(t1: Trees, t2: Trees, before: int, after: int, n: int)
    requires ProcSpace(t1, after, n) && Gone(t1, t2, before) && before != after
    ensures ProcSpace(t2, after, n)
  {
    forall v | 0 <= v < n
      ensures OwnsPage(t2, after, v)
    {
      assert OwnsPage(t1, after, v);
      assert Translate(t2.tables, after, v) == Translate(t1.tables, after, v);
    }
    forall v | n <= v < MAXPAGE
      ensures Translate(t2.tables, after, v) == Translate(t1.tables, after, v)
    {
    }
  }

  /** The space before exec is a space of the memory that exec built the new tree in. */
  lemma OldSpaceKept(t: Trees, t1: Trees, before: int, after: int, n: int)
    requires ProcSpace(t, before, n) && Built(t, t1, after)
    ensures ProcSpace(t1, before, n)
  {
    forall v | 0 <= v < n
      ensures OwnsPage(t1, before, v)
    {
      assert OwnsPage(t, before, v);
      assert Translate(t1.tables, before, v) == Translate(t.tables, before, v);
    }
    forall v | n <= v < MAXPAGE
      ensures Translate(t1.tables, before, v) == Translate(t.tables, before, v)
    {
    }
  }

  /** Memory in use kept its contents when the other tree went. */
  ghost predicate Spared(t: Trees, p: seq<Page>, t': Trees, p': seq<Page>, root: int) {
    && |t.owner| == |t'.owner| == |p| == |p'|
    && (forall v :: 0 <= v < MAXPAGE ==> Translate(t'.tables, root, v) == Translate(t.tables, root, v))
    && (forall f :: t.IsFrame(f) && Belongs(t.owner[f], root) ==> t'.owner[f] == t.owner[f] && p'[f] == p[f])
  }

  lemma TreeSpared(t: Trees, p: seq<Page>, t': Trees, p': seq<Page>, before: int, after: int)
    requires Gone(t, t', before) && before != after && t.IsRoot(after) && |p| == |p'| == |t.owner|
    requires forall h :: 0 <= h < |t'.owner| && !t'.owner[h].Free? ==> p'[h] == p[h]
    ensures Spared(t, p, t', p', after)
  {
    forall f | t.IsFrame(f) && Belongs(t.owner[f], after)
      ensures t'.owner[f] == t.owner[f] && p'[f] == p[f]
    {
    }
  }

  lemma SparedPage(t: Trees, p: seq<Page>, t': Trees, p': seq<Page>, root: int, v: int)
    requires Spared(t, p, t', p', root) && 0 <= v < MAXPAGE && OwnsPage(t, root, v)
    ensures OwnsPage(t', root, v) && Translate(t'.tables, root, v) == Translate(t.tables, root, v)
    ensures var f := Frame(Translate(t.tables, root, v).value); p'[f] == p[f]
  {
  }

  lemma ImageSpared(t: Trees, p: seq<Page>, t': Trees, p': seq<Page>, root: int, file: seq<int>, k: nat, n: int)
    requires Spared(t, p, t', p', root) && IsImage(t, p, root, file, k, n) && n <= MAXPAGE
    ensures IsImage(t', p', root, file, k, n)
  {
    forall v | 0 <= v < n
      ensures SamePage(t, t', root, v)
    {
      if OwnsPage(t, root, v) {
        SparedPage(t, p, t', p', root, v);
      }
    }
    forall a | In(a, n)
      ensures SameByte(t, p, p', root, a)
    {
      PageOf(a, n);
      if OwnsPage(t, root, a / PGSIZE) {
        SparedPage(t, p, t', p', root, a / PGSIZE);
      }
    }
    hide IsImage;
    ImageSame(t, p, t', p', root, file, k, n);
  }

  lemma StackSpared(t: Trees, p: seq<Page>, t': Trees, p': seq<Page>, root: int, n: int)
    requires Spared(t, p, t', p', root) && HasStack(t, root, n) && 0 <= n && n + 1 < MAXPAGE
    ensures HasStack(t', root, n)
  {
    SparedPage(t, p, t', p', root, n);
    SparedPage(t, p, t', p', root, n + 1);
  }

  lemma LoadedSpared(t: Trees, p: seq<Page>, t': Trees, p': seq<Page>, root: int, n: int, a: int, bs: seq<int>)
    requires Spared(t, p, t', p', root) && Loaded(t, p, root, a, bs) && ProcSpace(t', root, n)
    ensures Loaded(t', p', root, a, bs)
  {
    UserOwnedSpace(t', root, n);
    forall b | Within(b, a, |bs|)
      ensures CanRead(t', root, b) && ByteAt(t', p', root, b, bs[b - a])
    {
      assert ByteAt(t, p, root, b, bs[b - a]);
      SparedPage(t, p, t', p', root, b / PGSIZE);
    }
  }

  lemma ArgumentsSpared(t: Trees, p: seq<Page>, t': Trees, p': seq<Page>, root: int, n: int, argv: seq<seq<int>>,
          top: int)
    requires Spared(t, p, t', p', root) && Arguments(t, p, root, argv, top) && ProcSpace(t', root, n)
    ensures Arguments(t', p', root, argv, top)
  {
    hide Loaded, Spared, ProcSpace;
    forall i | 0 <= i < |argv|
      ensures Loaded(t', p', root, ArgAt(argv, top, i), argv[i] + [0])
    {
      LoadedSpared(t, p, t', p', root, n, ArgAt(argv, top, i), argv[i] + [0]);
    }
    LoadedSpared(t, p, t', p', root, n, ArgvAt(argv, top), Pointers(argv, top, |argv|) + Le(0, 8));
  }

  // ---------------------------------------------------------------- exec as a whole

  /** The file is a program, its arguments fit, and there are frames enough for it: pages, and tables for them. */
  ghost predicate Runnable(file: seq<int>, argv: seq<seq<int>>, frames: int)
    requires IsBytes(file)
  {
    && HasHeader(file) && Phnum(file) >= 0 && SizeAfter(file, Phnum(file)).Upto?
    && var n := PageCount(SizeAfter(file, Phnum(file)).sz);
       StackFits(argv, n) && frames >= 5 + 3 * (n + USERSTACK + 1)
  }

  /** The new address space: the image of the file, then the guard page, then the stack with the arguments. */
  ghost predicate Program(t: Trees, p: seq<Page>, root: int, file: seq<int>, argv: seq<seq<int>>, sz: int) {
    && IsBytes(file) && HasHeader(file) && Phnum(file) >= 0 && SizeAfter(file, Phnum(file)).Upto?
    && var n := PageCount(SizeAfter(file, Phnum(file)).sz);
       && sz == (n + USERSTACK + 1) * PGSIZE && StackFits(argv, n) && ProcSpace(t, root, PageCount(sz))
       && IsImage(t, p, root, file, Phnum(file), n) && HasStack(t, root, n) && Arguments(t, p, root, argv, sz)
  }

  lemma PagesNeeded(file: seq<int>)
    requires IsBytes(file) && HasHeader(file) && Phnum(file) >= 0 && SizeAfter(file, Phnum(file)).Upto?
    ensures PageCount(SizeAfter(file, Phnum(file)).sz) >= 0
  {
    SizesGrow(file, 0, Phnum(file));
  }

  lemma ProgramSpared(t: Trees, p: seq<Page>, t': Trees, p': seq<Page>, root: int, file: seq<int>, argv: seq<seq<int>>,
          sz: int)
    requires Program(t, p, root, file, argv, sz) && Spared(t, p, t', p', root) && ProcSpace(t', root, PageCount(sz))
    ensures Program(t', p', root, file, argv, sz) && SameTop(t, t', root)
  {
    hide IsImage, HasStack, Arguments, SizeAfter, IsBytes, HasHeader, Num, StackFits;
    var n := PageCount(SizeAfter(file, Phnum(file)).sz);
    assert PageCount(sz) == n + 2;
    RootOf(t, root, n + 2);
    hide ProcSpace;
    PagesNeeded(file);
    ImageSpared(t, p, t', p', root, file, Phnum(file), n);
    StackSpared(t, p, t', p', root, n);
    ArgumentsSpared(t, p, t', p', root, n + 2, argv, sz);
  }

  /** Build the program in a new tree, or give the tree up. */
  method Prepare(m: Memory, trampoline: int, trapframe: int, file: seq<int>, argv: seq<seq<int>>)
    returns (root: int, sz: int, sp: int)
    requires m.Valid() && |m.owner| <= PHYSFRAMES && IsBytes(file) && |file| < 0x8000_0000 && |argv| != MAXARG
    requires 0 < trampoline && 0 < trapframe && m.T().IsFrame(trampoline) && m.T().IsFrame(trapframe)
    requires m.owner[trampoline].Kernel? && m.owner[trapframe].Kernel? && HasHeader(file)
    modifies m
    ensures m.Valid() && SamePages(old(m.owner), old(m.pages), m.pages)
    ensures root == 0 ==> Restored(old(m.T()), m.T()) && !Runnable(file, argv, |old(m.freelist)|)
    ensures root != 0 ==> Built(old(m.T()), m.T(), root) && TopIs(m.T(), root, trampoline, trapframe)
    ensures root != 0 ==> Program(m.T(), m.pages, root, file, argv, sz) && sp == ArgvAt(argv, sz)
  {
    hide FreeOk, IsImage, ProcSpace, Built, SamePages, SizeAfter, IsBytes, HasHeader, Num, HasStack, Arguments, SameMap;
    hide StackFits, Fit;
    ghost var t := m.T();
    sz, sp := 0, 0;
    if Phnum(file) >= 0 && SizeAfter(file, Phnum(file)).Upto? {
      PagesNeeded(file);
    }
    root := ProcPagetable(m, trampoline, trapframe);
    if root == 0 {
      return;
    }
    NewTree(m.low, t, m.T(), root);
    hide TreesOk;
    ghost var free := |m.freelist|;
    var ok;
    ok, sz := LoadSegments(m, root, file, t, old(m.pages));
    if ok {
      SameSize(t, m.T(), root);
      ghost var n := PageCount(sz);
      ok, sz, sp := AddStack(m, root, sz, argv, file, Phnum(file), t, old(m.pages));
      if ok {
        assert StackFits(argv, n) by { FitsStack(argv, n, sz); }
      }
    }
    if !ok {
      Abandon(m, root, sz, t, old(m.pages));
      root := 0;
    }
  }

  lemma FitsStack(argv: seq<seq<int>>, n: int, top: int)
    requires top == (n + USERSTACK + 1) * PGSIZE && Fit(argv, top, top - PGSIZE)
    ensures StackFits(argv, n)
  {
  }

  lemma NewTree(low: int, t: Trees, t': Trees, root: int)
    requires TreesOk(low, t) && Built(t, t', root)
    ensures TreeIsNew(t, root) && |t.owner| == |t'.owner|
  {
    FreeRoot(low, t, root);
  }

  /**
   exec of the file that path names: build the new program, then commit to it and give the old image back,
   or give the new one up (result 0) and leave everything as it was.
   */
  method Exec(m: Memory, oldroot: int, oldsz: int, trampoline: int, trapframe: int, file: seq<int>,
          argv: seq<seq<int>>)
    returns (root: int, sz: int, entry: int, sp: int)
    requires m.Valid() && 0 <= oldsz && ProcSpace(m.T(), oldroot, PageCount(oldsz)) && |m.owner| <= PHYSFRAMES
    requires 0 < trampoline && 0 < trapframe && m.T().IsFrame(trampoline) && m.T().IsFrame(trapframe)
    requires m.owner[trampoline].Kernel? && m.owner[trapframe].Kernel?
    requires IsBytes(file) && |file| < 0x8000_0000 && |argv| != MAXARG
    modifies m
    ensures m.Valid()
    ensures root == 0 ==> Restored(old(m.T()), m.T()) && SamePages(old(m.owner), old(m.pages), m.pages)
    ensures root == 0 ==> !Runnable(file, argv, |old(m.freelist)|)
    ensures root != 0 ==> Replaced(old(m.T()), m.T(), oldroot, root) && TopIs(m.T(), root, trampoline, trapframe)
    ensures root != 0 ==> Program(m.T(), m.pages, root, file, argv, sz)
    ensures root != 0 ==> entry == Entry(file) && sp == ArgvAt(argv, sz)
  {
    hide IsImage, SizeAfter, IsBytes, Num, HasStack, Arguments, StackFits;
    ghost var t := m.T();
    sz, entry, sp := 0, 0, 0;
    if |file| < ELFHDR || Num(file, 0, 4) != MAGIC {
      return 0, 0, 0, 0;
    }
    root, sz, sp := Prepare(m, trampoline, trapframe, file, argv);
    if root == 0 {
      return;
    }
    entry := Num(file, 24, 8);
    Commit(m, oldroot, oldsz, root, sz, file, argv, t);
  }

  /** The old image goes; the new program stays. */
  method Commit(m: Memory, oldroot: int, oldsz: int, root: int, sz: int, ghost file: seq<int>,
          ghost argv: seq<seq<int>>, ghost t: Trees)
    requires m.Valid() && 0 <= oldsz && TreesOk(m.low, t) && ProcSpace(t, oldroot, PageCount(oldsz))
    requires Built(t, m.T(), root) && Program(m.T(), m.pages, root, file, argv, sz)
    modifies m
    ensures m.Valid() && Replaced(t, m.T(), oldroot, root) && SameTop(old(m.T()), m.T(), root)
    ensures Program(m.T(), m.pages, root, file, argv, sz)
  {
    hide IsImage, SizeAfter, IsBytes, Num, HasStack, Arguments, StackFits, HasHeader;
    ghost var t1, p1 := m.T(), m.pages;
    RootOf(t, oldroot, PageCount(oldsz));
    OldSpaceKept(t, t1, oldroot, root, PageCount(oldsz));
    hide ProcSpace, Built, TreesOk, FreeOk;
    ProcFreepagetable(m, oldroot, oldsz);
    Swapped(m.low, t, t1, m.T(), oldroot, root, PageCount(sz));
    TreeSpared(t1, p1, m.T(), m.pages, oldroot, root);
    ProgramSpared(t1, p1, m.T(), m.pages, root, file, argv, sz);
  }

  // ---------------------------------------------------------------- memory that was asked for can be used

  lemma NewWritable(t: Trees, p: seq<Page>, root: int, n: int, n': int, a: int, k: int)
    requires ZeroPages(t, p, root, n, n', UserPerm(PTE_W)) && n' <= MAXPAGE && 0 <= n
    requires n * PGSIZE <= a && a + k <= n' * PGSIZE
    ensures AllWritable(t, root, a, k)
  {
    forall b | Within(b, a, k)
      ensures CanWrite(t, root, b)
    {
      var v := b / PGSIZE;
      assert n <= v < n';
      assert PageHolds(t, p, root, v, Filled(0), UserPerm(PTE_W));
      UserPageOf(t, root, v, PTE_W);
    }
  }

  /**
   A process that grows by writable memory can write all of the new pages and read back what it wrote;
   growing fails only for want of frames.
   */
  method GrowAndUse(m: Memory, root: int, oldsz: int, newsz: int, a: int, src: seq<int>)
    returns (ok: bool, dst: seq<int>)
    requires m.Valid() && 0 <= oldsz <= newsz && ProcSpace(m.T(), root, PageCount(oldsz)) && |m.owner| <= TRAPFRAME
    requires PageCount(oldsz) * PGSIZE <= a && a + |src| <= PageCount(newsz) * PGSIZE
    modifies m
    ensures m.Valid()
    ensures ok ==> dst == src
    ensures !ok ==> |old(m.freelist)| < 3 * (PageCount(newsz) - PageCount(oldsz))
  {
    ghost var t := m.T();
    var sz;
    dst := [];
    sz, ok := Uvmalloc(m, root, oldsz, newsz, PTE_W);
    if ok {
      SpaceExtended(t, m.T(), root, PageCount(oldsz), PageCount(newsz));
      UserOwnedSpace(m.T(), root, PageCount(newsz));
      NewWritable(m.T(), m.pages, root, PageCount(oldsz), PageCount(newsz), a, |src|);
      ok, dst := RoundTrip(m, root, a, src);
    }
  }
}
