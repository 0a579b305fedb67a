/**
 User address spaces: growing, shrinking, copying and freeing them (kernel/vm.c), and what running
 out of memory half-way leaves behind.
 */
module AddressSpace {
  import opened Basics
  import opened PageTable
  import opened Vm
  import opened Counting

  function PageCount(bytes: int): (n: int) { (bytes + PGSIZE - 1) / PGSIZE }

  /** Of the pages below the trapframe, exactly the first n are mapped, each to memory of its own. */
  ghost predicate UserSpace(t: Trees, root: int, n: int) {
    && t.IsRoot(root) && 0 <= n <= TRAPFRAME
    && (forall v :: 0 <= v < n ==> OwnsPage(t, root, v))
    && (forall v :: n <= v < TRAPFRAME ==> Translate(t.tables, root, v) == None)
  }

  /** The pages of an address space are different frames, so it cannot be larger than memory. */
  lemma Fits(low: int, t: Trees, root: int, n: int)
    requires TreesOk(low, t) && UserSpace(t, root, n)
    ensures n < |t.owner|
  {
    var s := FramesOf(t, root, n);
    var all := Below(|t.owner|);
    assert t.owner[root].Node? && root in all && root !in s;
    forall f | f in s
      ensures f in all - {root}
    {
      assert t.IsFrame(f);
    }
    SubsetSize(s, all - {root});
  }

  lemma {:induction false} FramesOf(t: Trees, root: int, n: int) returns (s: set<int>)
    requires 0 <= n && forall v :: 0 <= v < n ==> OwnsPage(t, root, v)
    ensures |s| == n && forall f :: f in s ==> t.IsFrame(f) && IsPage(t.owner[f], root, n)
  {
    s := {};
    if n > 0 {
      s := FramesOf(t, root, n - 1);
      assert OwnsPage(t, root, n - 1);
      var f := Frame(Translate(t.tables, root, n - 1).value);
      assert f !in s;
      s := s + {f};
    }
  }

  predicate IsPage(o: Owner, root: int, n: int) {
    o.Leaf? && o.root == root && 0 <= o.v < n
  }

  // ---------------------------------------------------------------- growing by one page

  /** A free frame became the memory of one of the pages a to b. */
  ghost predicate NewPage(t: Trees, t': Trees, root: int, a: int, b: int, f: int) {
    && t.IsFrame(f) && t'.IsFrame(f) && t.owner[f].Free?
    && t'.owner[f].Leaf? && t'.owner[f].root == root && a <= t'.owner[f].v < b
  }

  /**
   Only pages a to b of the tree are mapped differently; only free frames changed hands, to pages a to b
   and to tables.
   */
  ghost predicate Extended(t: Trees, t': Trees, root: int, a: int, b: int) {
    && SameRoots(t, t')
    && (forall r, v :: t.IsRoot(r) && 0 <= v < MAXPAGE && !(r == root && a <= v < b) ==>
          Translate(t'.tables, r, v) == Translate(t.tables, r, v))
    && |t.owner| == |t'.owner|
    && (forall f :: t.IsFrame(f) ==>
          t'.owner[f] == t.owner[f] || NewTable(t, t', root, f) || NewPage(t, t', root, a, b, f))
  }

  /** Memory that was in use holds what it held. */
  ghost predicate SamePages(owner: seq<Owner>, pages: seq<Page>, pages': seq<Page>) {
    && |owner| == |pages| == |pages'|
    && forall f :: 0 <= f < |owner| && !owner[f].Free? ==> pages'[f] == pages[f]
  }

  ghost predicate PageHolds(t: Trees, pages: seq<Page>, root: int, v: int, content: Page, perm: int) {
    var e := Translate(t.tables, root, v);
    && OwnsPage(t, root, v) && |pages| == |t.owner|
    && e == Some(MakePte(Frame(e.value), perm)) && pages[Frame(e.value)] == content
  }

  lemma AddedPage(low: int, t: Trees, t1: Trees, t': Trees, root: int, a: int, g: int, perm: int)
    requires TreesOk(low, t') && UserSpace(t, root, a) && a < TRAPFRAME && t.Sized() && t.IsFrame(g) && t.owner[g].Free?
    requires t1 == t.(owner := t.owner[g := Loose]) && Perm(perm)
    requires MapsTo(t1, t', root, a, 1, g, perm) && Given(t1, t', root, a, 1, g)
    ensures Extended(t, t', root, a, a + 1) && UserSpace(t', root, a + 1)
    ensures Translate(t'.tables, root, a) == Some(MakePte(g, perm)) && OwnsPage(t', root, a)
  {
    MadePte(g, perm);
    assert t1.IsRoot(root);
    assert Translate(t'.tables, root, a) == Some(MakePte(g, perm));
    forall f | t.IsFrame(f)
      ensures t'.owner[f] == t.owner[f] || NewTable(t, t', root, f) || NewPage(t, t', root, a, a + 1, f)
    {
      assert t'.owner[f] == GivenOwner(t1.owner[f], f, root, a, 1, g) || NewTable(t1, t', root, f);
    }
    assert t'.owner[g] == Leaf(root, a);
    forall v | 0 <= v < a + 1
      ensures OwnsPage(t', root, v)
    {
      if v < a {
        assert OwnsPage(t, root, v);
        assert Translate(t'.tables, root, v) == Translate(t.tables, root, v);
      }
    }
    forall v | a + 1 <= v < TRAPFRAME
      ensures Translate(t'.tables, root, v) == None
    {
      assert Translate(t'.tables, root, v) == Translate(t.tables, root, v);
    }
    forall r, v | t.IsRoot(r) && 0 <= v < MAXPAGE && !(r == root && a <= v < a + 1)
      ensures Translate(t'.tables, r, v) == Translate(t.tables, r, v)
    {
      assert t1.IsRoot(r);
    }
  }

  /** A page costs a frame and at most two tables; n pages fail only for want of frames. */
  predicate Spent(before: int, after: int, n: int, ok: bool) {
    if ok then before - 3 * n <= after <= before - n else before < 3 * n
  }

  /**
   The loop body of uvmalloc and of uvmcopy: a new page with the given content at page a.  If the
   page or a table for it cannot be had, the page is given back.
   */
  method AddPage(m: Memory, root: int, a: int, content: Page, perm: int) returns (ok: bool)
    requires m.Valid() && UserSpace(m.T(), root, a) && a < TRAPFRAME && Perm(perm) && IsLeaf(perm)
    modifies m
    ensures m.Valid()
    ensures SamePages(old(m.owner), old(m.pages), m.pages)
    ensures ok ==> Extended(old(m.T()), m.T(), root, a, a + 1) && UserSpace(m.T(), root, a + 1)
    ensures ok ==> PageHolds(m.T(), m.pages, root, a, content, perm)
    ensures !ok ==> SameMap(old(m.T()), m.T()) && Grown(old(m.T()), m.T(), root)
    ensures Spent(|old(m.freelist)|, |m.freelist|, 1, ok)
  {
    hide TreesOk;
    ghost var t := m.T();
    TreesSized(m.low, t);
    var g := m.Kalloc();
    if g == 0 {
      return false;
    }
    m.pages := m.pages[g := content];
    ghost var t1 := m.T();
    ghost var n;
    ok, n := m.Mappages(root, a, 1, g, perm);
    if ok {
      AddedPage(m.low, t, t1, m.T(), root, a, g, perm);
      MadePte(g, perm);
    } else {
      ghost var t2 := m.T();
      GaveBack(m.low, t, t1, t2, root, a, g, perm);
      m.Kfree(g);
      assert m.T() == t2.(owner := t2.owner[g := Free]);
    }
  }

  lemma GaveBack(low: int, t: Trees, t1: Trees, t2: Trees, root: int, a: int, g: int, perm: int)
    requires TreesOk(low, t2) && t.Sized() && t.IsFrame(g) && t.owner[g].Free? && t1 == t.(owner := t.owner[g := Loose])
    requires MapsTo(t1, t2, root, a, 0, g, perm) && Given(t1, t2, root, a, 0, g)
    ensures var t' := t2.(owner := t2.owner[g := Free]);
            t2.owner[g].Loose? && TreesOk(low, t') && SameMap(t, t') && Grown(t, t', root)
  {
    assert t2.owner[g] == GivenOwner(t1.owner[g], g, root, a, 0, g) || NewTable(t1, t2, root, g);
    Reowned(low, t2, g, Free);
    var t' := t2.(owner := t2.owner[g := Free]);
    forall f | t.IsFrame(f)
      ensures t'.owner[f] == t.owner[f] || NewTable(t, t', root, f)
    {
      assert t2.owner[f] == GivenOwner(t1.owner[f], f, root, a, 0, g) || NewTable(t1, t2, root, f);
    }
    forall r | t.IsRoot(r)
      ensures t'.IsRoot(r)
    {
      assert t1.IsRoot(r) && t2.IsRoot(r);
    }
    forall r, v | t.IsRoot(r) && 0 <= v < MAXPAGE
      ensures Translate(t'.tables, r, v) == Translate(t.tables, r, v)
    {
      assert t1.IsRoot(r);
    }
  }

  // ---------------------------------------------------------------- uvmalloc and uvmdealloc

  lemma SpaceKept(t: Trees, t': Trees, root: int, n: int, other: int)
    requires UserSpace(t, root, n) && SameMap(t, t') && Grown(t, t', other)
    ensures UserSpace(t', root, n)
  {
    forall v | 0 <= v < n
      ensures OwnsPage(t', root, v)
    {
      assert OwnsPage(t, root, v);
      assert Translate(t'.tables, root, v) == Translate(t.tables, root, v);
    }
    forall v | n <= v < TRAPFRAME
      ensures Translate(t'.tables, root, v) == None
    {
      assert Translate(t'.tables, root, v) == Translate(t.tables, root, v);
    }
  }

  /** Another page after pages a to b. */
  lemma ExtendStep(t: Trees, t1: Trees, t2: Trees, root: int, a: int, b: int, c: int)
    requires 0 <= a <= b < c && Extended(t, t1, root, a, b) && Extended(t1, t2, root, b, c)
    ensures Extended(t, t2, root, a, c)
  {
    forall r, v | t.IsRoot(r) && 0 <= v < MAXPAGE && !(r == root && a <= v < c)
      ensures Translate(t2.tables, r, v) == Translate(t.tables, r, v)
    {
      assert t1.IsRoot(r);
      assert Translate(t1.tables, r, v) == Translate(t.tables, r, v);
    }
    forall f | t.IsFrame(f)
      ensures t2.owner[f] == t.owner[f] || NewTable(t, t2, root, f) || NewPage(t, t2, root, a, c, f)
    {
      assert t1.owner[f] == t.owner[f] || NewTable(t, t1, root, f) || NewPage(t, t1, root, a, b, f);
      assert t2.owner[f] == t1.owner[f] || NewTable(t1, t2, root, f) || NewPage(t1, t2, root, b, c, f);
    }
  }

  lemma ExtendStop(t: Trees, t1: Trees, t2: Trees, root: int, a: int, b: int)
    requires Extended(t, t1, root, a, b) && SameMap(t1, t2) && Grown(t1, t2, root)
    ensures Extended(t, t2, root, a, b)
  {
    forall r, v | t.IsRoot(r) && 0 <= v < MAXPAGE && !(r == root && a <= v < b)
      ensures Translate(t2.tables, r, v) == Translate(t.tables, r, v)
    {
      assert t1.IsRoot(r);
      assert Translate(t2.tables, r, v) == Translate(t1.tables, r, v);
    }
    forall f | t.IsFrame(f)
      ensures t2.owner[f] == t.owner[f] || NewTable(t, t2, root, f) || NewPage(t, t2, root, a, b, f)
    {
      assert t1.owner[f] == t.owner[f] || NewTable(t, t1, root, f) || NewPage(t, t1, root, a, b, f);
      assert t2.owner[f] == t1.owner[f] || NewTable(t1, t2, root, f);
    }
  }

  /** Taking the new pages back leaves the address space as it was, and every frame but new tables. */
  lemma RolledBack(low: int, t: Trees, t1: Trees, t2: Trees, root: int, a: int, b: int)
    requires TreesOk(low, t) && UserSpace(t, root, a) && a <= b <= TRAPFRAME
    requires Extended(t, t1, root, a, b) && Unmaps(t1, t2, root, a, b - a) && Taken(t1, t2, root, a, b - a, Free)
    ensures SameMap(t, t2) && Grown(t, t2, root)
  {
    forall r, v | t.IsRoot(r) && 0 <= v < MAXPAGE
      ensures Translate(t2.tables, r, v) == Translate(t.tables, r, v)
    {
      assert t1.IsRoot(r);
      var e := Translate(t1.tables, r, v);
    }
    forall f | t.IsFrame(f)
      ensures t2.owner[f] == t.owner[f] || NewTable(t, t2, root, f)
    {
      assert t1.owner[f] == t.owner[f] || NewTable(t, t1, root, f) || NewPage(t, t1, root, a, b, f);
      assert t2.owner[f] == TakenOwner(t1.owner[f], root, a, b - a, Free);
      if t1.owner[f].Leaf? && t1.owner[f] == t.owner[f] && t1.owner[f].root == root && a <= t1.owner[f].v < b {
        LeafMapped(low, t, f);
      }
    }
  }

  lemma AllInUse(t: Trees, root: int, a: int, b: int)
    requires UserSpace(t, root, b) && 0 <= a <= b
    ensures InUse(t, root, a, b, true)
  {
    forall v | a <= v < b
      ensures Translate(t.tables, root, v).Some? && OwnsPage(t, root, v)
    {
      assert OwnsPage(t, root, v);
    }
  }

  function UserPerm(xperm: int): (perm: int) { PTE_R + PTE_U + xperm }

  /** What the pages of uvmalloc allow: user code may use them, and write to them if PTE_W was asked for. */
  lemma UserPermBits(f: int, xperm: int)
    requires XPerm(xperm)
    ensures Perm(UserPerm(xperm)) && IsLeaf(UserPerm(xperm))
    ensures var e := MakePte(f, UserPerm(xperm));
      && Frame(e) == f && IsUser(e) && (IsWritable(e) <==> xperm == PTE_W || xperm == PTE_W + PTE_X)
      && IsReadable(e) && (IsExecutable(e) <==> xperm == PTE_X || xperm == PTE_W + PTE_X)
  {
    MadePte(f, UserPerm(xperm));
  }

  predicate XPerm(xperm: int) { xperm == 0 || xperm == PTE_W || xperm == PTE_X || xperm == PTE_W + PTE_X }

  /** Every page from a to b is new and zero. */
  ghost predicate ZeroPages(t: Trees, pages: seq<Page>, root: int, a: int, b: int, perm: int) {
    forall v :: a <= v < b ==> PageHolds(t, pages, root, v, Filled(0), perm)
  }

  /** What a round of growing leaves of the earlier rounds. */
  lemma GrowStep(t: Trees, p: seq<Page>, t1: Trees, p1: seq<Page>, t2: Trees, p2: seq<Page>, root: int, a: int,
          b: int, c: int, perm: int)
    requires 0 <= a <= b && c == b + 1 <= TRAPFRAME && t1.IsRoot(root)
    requires Extended(t, t1, root, a, b) && Extended(t1, t2, root, b, c) && SamePages(t.owner, p, p1)
    requires SamePages(t1.owner, p1, p2)
    requires ZeroPages(t1, p1, root, a, b, perm) && PageHolds(t2, p2, root, b, Filled(0), perm)
    ensures Extended(t, t2, root, a, c) && SamePages(t.owner, p, p2) && ZeroPages(t2, p2, root, a, c, perm)
  {
    ExtendStep(t, t1, t2, root, a, b, c);
    forall f | 0 <= f < |t.owner| && !t.owner[f].Free?
      ensures p2[f] == p[f]
    {
      assert t1.owner[f] == t.owner[f] || NewTable(t, t1, root, f) || NewPage(t, t1, root, a, b, f);
    }
    forall v | a <= v < c
      ensures PageHolds(t2, p2, root, v, Filled(0), perm)
    {
      if v < b {
        assert PageHolds(t1, p1, root, v, Filled(0), perm);
        assert Translate(t2.tables, root, v) == Translate(t1.tables, root, v);
      }
    }
  }

  lemma PagesBack(t: Trees, t2: Trees, p: seq<Page>, p1: seq<Page>, p2: seq<Page>, root: int)
    requires Grown(t, t2, root) && SamePages(t.owner, p, p1)
    requires |p2| == |t.owner| && forall f :: 0 <= f < |t.owner| && !t2.owner[f].Free? ==> p2[f] == p1[f]
    ensures SamePages(t.owner, p, p2)
  {
  }

  /**
   uvmalloc: grow from oldsz to newsz bytes.  `ok` is what the result 0 stands for, except that
   growing to size 0 succeeds with 0 too.
   */
  method Uvmalloc(m: Memory, root: int, oldsz: int, newsz: int, xperm: int) returns (sz: int, ok: bool)
    requires m.Valid() && 0 <= oldsz && UserSpace(m.T(), root, PageCount(oldsz)) && |m.owner| <= TRAPFRAME
    requires XPerm(xperm)
    modifies m
    ensures m.Valid() && sz == (if newsz < oldsz then oldsz else if ok then newsz else 0)
    ensures SamePages(old(m.owner), old(m.pages), m.pages)
    ensures newsz < oldsz ==> ok && m.T() == old(m.T()) && m.pages == old(m.pages) && m.freelist == old(m.freelist)
    ensures !ok ==> SameMap(old(m.T()), m.T()) && Grown(old(m.T()), m.T(), root)
    ensures ok && oldsz <= newsz ==>
      && UserSpace(m.T(), root, PageCount(newsz)) &&
         Extended(old(m.T()), m.T(), root, PageCount(oldsz), PageCount(newsz))
      && ZeroPages(m.T(), m.pages, root, PageCount(oldsz), PageCount(newsz), UserPerm(xperm))
    ensures oldsz <= newsz ==> Spent(|old(m.freelist)|, |m.freelist|, PageCount(newsz) - PageCount(oldsz), ok)
  {
    if newsz < oldsz {
      return oldsz, true;
    }
    ghost var t := m.T();
    var a0, end, perm := PageCount(oldsz), PageCount(newsz), UserPerm(xperm);
    var a := a0;
    while a < end
      invariant a0 <= a <= end && m.Valid() && UserSpace(m.T(), root, a) && |m.owner| == |t.owner|
      invariant Extended(t, m.T(), root, a0, a) && SamePages(t.owner, old(m.pages), m.pages)
      invariant ZeroPages(m.T(), m.pages, root, a0, a, perm)
      invariant Spent(|old(m.freelist)|, |m.freelist|, a - a0, true)
    {
      ghost var t1, p1 := m.T(), m.pages;
      Fits(m.low, t1, root, a);
      ok := AddPage(m, root, a, Filled(0), perm);
      if !ok {
        UndoPages(m, root, a0, a, t, old(m.pages), t1, p1);
        return 0, false;
      }
      var a' := a + 1;
      GrowStep(t, old(m.pages), t1, p1, m.T(), m.pages, root, a0, a, a', perm);
      a := a';
    }
    return newsz, true;
  }

  /** The error path: uvmdealloc takes pages a0 to a away again. */
  method UndoPages(m: Memory, root: int, a0: int, a: int, ghost t: Trees, ghost p: seq<Page>, ghost t1: Trees,
          ghost p1: seq<Page>)
    requires m.Valid() && TreesOk(m.low, t) && 0 <= a0 <= a && UserSpace(t, root, a0) && UserSpace(t1, root, a)
    requires Extended(t, t1, root, a0, a) && SameMap(t1, m.T()) && Grown(t1, m.T(), root)
    requires SamePages(t.owner, p, p1) && SamePages(t1.owner, p1, m.pages)
    modifies m
    ensures m.Valid() && SameMap(t, m.T()) && Grown(t, m.T(), root) && SamePages(t.owner, p, m.pages)
  {
    ghost var t2, p2 := m.T(), m.pages;
    UndoReady(t, p, t1, p1, t2, p2, root, a0, a);
    m.Uvmunmap(root, a0, a - a0, true);
    RolledBack(m.low, t, t2, m.T(), root, a0, a);
    PagesBack(t, m.T(), p, p2, m.pages, root);
  }

  lemma UndoReady(t: Trees, p: seq<Page>, t1: Trees, p1: seq<Page>, t2: Trees, p2: seq<Page>, root: int, a0: int,
          a: int)
    requires 0 <= a0 <= a && UserSpace(t1, root, a)
    requires Extended(t, t1, root, a0, a) && SameMap(t1, t2) && Grown(t1, t2, root)
    requires SamePages(t.owner, p, p1) && SamePages(t1.owner, p1, p2)
    ensures Extended(t, t2, root, a0, a) && InUse(t2, root, a0, a, true) && t2.IsRoot(root) && SamePages(t.owner, p, p2)
  {
    ExtendStop(t, t1, t2, root, a0, a);
    SpaceKept(t1, t2, root, a, root);
    AllInUse(t2, root, a0, a);
    forall f | 0 <= f < |t.owner| && !t.owner[f].Free?
      ensures p2[f] == p[f]
    {
      assert t1.owner[f] == t.owner[f] || NewTable(t, t1, root, f) || NewPage(t, t1, root, a0, a, f);
    }
  }

  /** uvmdealloc: shrink from oldsz to newsz bytes. */
  method Uvmdealloc(m: Memory, root: int, oldsz: int, newsz: int) returns (sz: int)
    requires m.Valid() && 0 <= newsz && 0 <= oldsz && UserSpace(m.T(), root, PageCount(oldsz))
    modifies m
    ensures m.Valid() && sz == (if newsz >= oldsz then oldsz else newsz) && UserSpace(m.T(), root, PageCount(sz))
    ensures Unmaps(old(m.T()), m.T(), root, PageCount(sz), PageCount(oldsz) - PageCount(sz))
    ensures Taken(old(m.T()), m.T(), root, PageCount(sz), PageCount(oldsz) - PageCount(sz), Free)
    ensures |m.pages| == |m.owner| && forall h :: 0 <= h < |m.owner| && !m.owner[h].Free? ==>
      m.pages[h] == old(m.pages)[h]
  {
    if newsz >= oldsz {
      return oldsz;
    }
    ghost var t := m.T();
    var a, b := PageCount(newsz), PageCount(oldsz);
    if a < b {
      AllInUse(t, root, a, b);
      m.Uvmunmap(root, a, b - a, true);
      Shrunk(t, m.T(), root, a, b);
    }
    return newsz;
  }

  lemma Shrunk(t: Trees, t': Trees, root: int, a: int, b: int)
    requires UserSpace(t, root, b) && 0 <= a <= b && Unmaps(t, t', root, a, b - a) && Taken(t, t', root, a, b - a, Free)
    ensures UserSpace(t', root, a)
  {
    forall v | 0 <= v < a
      ensures OwnsPage(t', root, v)
    {
      assert OwnsPage(t, root, v);
      assert Translate(t'.tables, root, v) == Translate(t.tables, root, v);
    }
    forall v | a <= v < TRAPFRAME
      ensures Translate(t'.tables, root, v) == None
    {
      var e := Translate(t'.tables, root, v);
    }
  }

  // ---------------------------------------------------------------- uvmcopy

  /** Page v of tree `to` is a copy of what page v of tree `from` was in (t, p). */
  ghost predicate CopyOf(t: Trees, p: seq<Page>, from: int, t': Trees, p': seq<Page>, to: int, v: int) {
    var e := Translate(t.tables, from, v);
    && e.Some? && 0 <= Frame(e.value) < |p|
    && PageHolds(t', p', to, v, p[Frame(e.value)], Flags(e.value))
  }

  ghost predicate Copied(t: Trees, p: seq<Page>, from: int, t': Trees, p': seq<Page>, to: int, n: int) {
    forall v :: 0 <= v < n ==> CopyOf(t, p, from, t', p', to, v)
  }

  lemma CopyStep(t: Trees, p: seq<Page>, t1: Trees, p1: seq<Page>, t2: Trees, p2: seq<Page>, from: int, to: int,
          b: int, c: int)
    requires 0 <= b && c == b + 1 <= TRAPFRAME && t1.IsRoot(to)
    requires Extended(t, t1, to, 0, b) && Extended(t1, t2, to, b, c) && SamePages(t.owner, p, p1)
    requires SamePages(t1.owner, p1, p2)
    requires Copied(t, p, from, t1, p1, to, b) && CopyOf(t, p, from, t2, p2, to, b)
    ensures Extended(t, t2, to, 0, c) && SamePages(t.owner, p, p2) && Copied(t, p, from, t2, p2, to, c)
  {
    ExtendStep(t, t1, t2, to, 0, b, c);
    forall f | 0 <= f < |t.owner| && !t.owner[f].Free?
      ensures p2[f] == p[f]
    {
      assert t1.owner[f] == t.owner[f] || NewTable(t, t1, to, f) || NewPage(t, t1, to, 0, b, f);
    }
    forall v | 0 <= v < c
      ensures CopyOf(t, p, from, t2, p2, to, v)
    {
      if v < b {
        assert CopyOf(t, p, from, t1, p1, to, v);
        assert Translate(t2.tables, to, v) == Translate(t1.tables, to, v);
      }
    }
  }

  /** The source tree's entry for page v, found through its level-0 table f, and what it stands for. */
  lemma SourcePage(low: int, t: Trees, p: seq<Page>, t1: Trees, p1: seq<Page>, from: int, to: int, b: int, n: int,
          f: int)
    requires TreesOk(low, t1) && UserSpace(t, from, n) && 0 <= b < n && from != to && Extended(t, t1, to, 0, b)
    requires SamePages(t.owner, p, p1) && t1.IsFrame(f) && t1.owner[f] == Place(from, 0, b)
    ensures var e := t1.tables[f][Px(0, b)];
            && Translate(t.tables, from, b) == Some(e) && 0 <= Frame(e) < |p| && p1[Frame(e)] == p[Frame(e)]
            && Perm(Flags(e)) && IsLeaf(Flags(e))
  {
    assert t1.IsRoot(from);
    assert Translate(t1.tables, from, b) == Translate(t.tables, from, b);
    assert OwnsPage(t, from, b);
    EntryIs(low, t1, from, b, f);
    var e := t1.tables[f][Px(0, b)];
    assert DownOk(t1, f, Px(0, b));
    FlagsLeaf(e);
  }

  lemma FlagsLeaf(e: int)
    ensures Perm(Flags(e)) && IsLeaf(Flags(e)) == IsLeaf(e)
  {
    var f, q := e / 1024, e % 1024;
    LowBits(f, q);
    LowField8(f * 64, q / 2);
  }

  /**
   uvmcopy: copy the first sz bytes of one address space into an empty one.  Pages that are not
   mapped would be a panic in the source.  On failure every page allocated here is free again.
   */
  method Uvmcopy(m: Memory, from: int, to: int, sz: int) returns (ok: bool)
    requires m.Valid() && 0 <= sz && UserSpace(m.T(), from, PageCount(sz)) && UserSpace(m.T(), to, 0) && from != to
    modifies m
    ensures m.Valid() && SamePages(old(m.owner), old(m.pages), m.pages)
    ensures ok ==> Extended(old(m.T()), m.T(), to, 0, PageCount(sz)) && UserSpace(m.T(), to, PageCount(sz))
                   && Copied(old(m.T()), old(m.pages), from, m.T(), m.pages, to, PageCount(sz))
    ensures !ok ==> SameMap(old(m.T()), m.T()) && Grown(old(m.T()), m.T(), to)
    ensures Spent(|old(m.freelist)|, |m.freelist|, PageCount(sz), ok)
  {
    ghost var t := m.T();
    var i, n := 0, PageCount(sz);
    while i < n
      invariant 0 <= i <= n && m.Valid() && UserSpace(m.T(), to, i)
      invariant Extended(t, m.T(), to, 0, i) && SamePages(t.owner, old(m.pages), m.pages)
      invariant Copied(t, old(m.pages), from, m.T(), m.pages, to, i)
      invariant Spent(|old(m.freelist)|, |m.freelist|, i, true)
    {
      ghost var t1, p1 := m.T(), m.pages;
      ok := CopyPage(m, from, to, i, n, t, old(m.pages));
      if !ok {
        UndoPages(m, to, 0, i, t, old(m.pages), t1, p1);
        return false;
      }
      var i' := i + 1;
      CopyStep(t, old(m.pages), t1, p1, m.T(), m.pages, from, to, i, i');
      i := i';
    }
    return true;
  }

  /** uvmcopy's loop body. */
  method CopyPage(m: Memory, from: int, to: int, i: int, n: int, ghost t: Trees, ghost p: seq<Page>) returns (ok: bool)
    requires m.Valid() && UserSpace(t, from, n) && 0 <= i < n && from != to && UserSpace(m.T(), to, i)
    requires Extended(t, m.T(), to, 0, i) && SamePages(t.owner, p, m.pages)
    modifies m
    ensures m.Valid() && SamePages(old(m.owner), old(m.pages), m.pages)
    ensures ok ==> Extended(old(m.T()), m.T(), to, i, i + 1) && UserSpace(m.T(), to, i + 1)
    ensures ok ==> CopyOf(t, p, from, m.T(), m.pages, to, i)
    ensures !ok ==> SameMap(old(m.T()), m.T()) && Grown(old(m.T()), m.T(), to)
    ensures Spent(|old(m.freelist)|, |m.freelist|, 1, ok)
  {
    ghost var t1, p1 := m.T(), m.pages;
    var f := m.Walk(from, i, false);
    SourceMapped(t, t1, from, to, i, n);
    SourcePage(m.low, t, p, t1, p1, from, to, i, n, f);
    var e := m.tables[f][Px(0, i)];
    ok := AddPage(m, to, i, m.pages[Frame(e)], Flags(e));
  }

  lemma SourceMapped(t: Trees, t1: Trees, from: int, to: int, b: int, n: int)
    requires UserSpace(t, from, n) && 0 <= b < n && from != to && Extended(t, t1, to, 0, b)
    ensures t1.IsRoot(from) && Translate(t1.tables, from, b).Some?
  {
    assert OwnsPage(t, from, b);
    assert Translate(t1.tables, from, b) == Translate(t.tables, from, b);
  }
}
