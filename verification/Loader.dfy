/**
 Filling a new address space: loadseg (kernel/exec.c) copies a segment out of the file, and the
 arguments are pushed on the user stack through copyout.
 */
module Loader {
  import opened Basics
  import opened PageTable
  import opened Vm
  import opened AddressSpace
  import opened UserCopy
  import opened ElfImage

  // ---------------------------------------------------------------- bytes of a tree

  /** The byte that a tree's page holds at an address, whether user code may use it or not. */
  ghost function Held(t: Trees, p: seq<Page>, root: int, a: int): (b: int)
    requires OwnsPage(t, root, a / PGSIZE) && |p| == |t.owner|
  {
    p[Frame(Translate(t.tables, root, a / PGSIZE).value)][a % PGSIZE]
  }

  /** The first n pages are the tree's own and open to user code. */
  ghost predicate UserPages(t: Trees, root: int, n: int) {
    forall v :: 0 <= v < n ==> OwnsPage(t, root, v) && UserPage(t, root, v)
  }

  predicate In(a: int, n: int) { 0 <= a < n * PGSIZE }

  /** Of the first n pages, the bytes [from, from + |w|) became w and the others are as they were. */
  ghost predicate Overlaid(t: Trees, p: seq<Page>, p': seq<Page>, root: int, n: int, from: int, w: seq<int>) {
    && UserPages(t, root, n) && |p| == |p'| == |t.owner|
    && (forall a :: In(a, n) ==>
          Held(t, p', root, a) == if from <= a < from + |w| then w[a - from] else Held(t, p, root, a))
    && (forall f :: t.IsFrame(f) && !(t.owner[f].Leaf? && t.owner[f].root == root) ==> p'[f] == p[f])
  }

  /** A page takes the bytes w at its beginning. */
  lemma OverlaidPage(t: Trees, p: seq<Page>, p1: seq<Page>, root: int, n: int, from: int, w: seq<int>, more: seq<int>,
          v: int, g: int)
    requires Overlaid(t, p, p1, root, n, from, w) && 0 <= from && 0 <= v < n && from + |w| == v * PGSIZE
    requires |more| <= PGSIZE && OwnsPage(t, root, v) && g == Frame(Translate(t.tables, root, v).value)
    ensures t.IsFrame(g) && Overlaid(t, p, p1[g := more + p1[g][|more|..]], root, n, from, w + more)
  {
    var p2 := p1[g := more + p1[g][|more|..]];
    forall a | In(a, n)
      ensures Held(t, p2, root, a) ==
        if from <= a < from + |w + more| then (w + more)[a - from] else Held(t, p, root, a)
    {
      assert OwnsPage(t, root, a / PGSIZE);
      assert Held(t, p1, root, a) == if from <= a < from + |w| then w[a - from] else Held(t, p, root, a);
      assert a == a / PGSIZE * PGSIZE + a % PGSIZE;
    }
  }

  /** The bytes of the segment that have been copied after i of them were asked for. */
  ghost predicate CopiedTo(file: seq<int>, off: int, w: seq<int>, i: int, filesz: int) {
    && |w| == (if i < filesz then i else filesz)
    && (i > 0 ==> 0 <= off && off + |w| <= |file| && w == file[off..off + |w|])
  }

  /** readi of the next k bytes is complete exactly if they are in the file. */
  lemma NextRead(file: seq<int>, off: int, w: seq<int>, i: int, k: int, filesz: int)
    requires CopiedTo(file, off, w, i, filesz) && 0 <= i < filesz < U32 && 0 <= off < U32 && |file| < 0x8000_0000
    requires k == if filesz - i < PGSIZE then filesz - i else PGSIZE
    ensures var got := Window(file, (off + i) % U32, k);
      && (|got| == k <==> off + i + k <= |file|)
      && (|got| == k ==> CopiedTo(file, off, w + got, i + PGSIZE, filesz))
  {
    if i > 0 {
      assert (off + i) % U32 == off + i;
    }
  }

  /** loadseg's loop body. */
  method LoadPage(m: Memory, root: int, ghost n: int, v: int, got: seq<int>, ghost p: seq<Page>, ghost from: int,
          ghost w: seq<int>)
    requires m.Valid() && m.T().IsRoot(root) && 0 <= v < n && 0 <= from && from + |w| == v * PGSIZE && |got| <= PGSIZE
    requires Overlaid(m.T(), p, m.pages, root, n, from, w)
    modifies m`tables, m`pages, m`freelist, m`owner, m`up
    ensures m.Valid() && m.T() == old(m.T()) && m.freelist == old(m.freelist)
    ensures Overlaid(m.T(), p, m.pages, root, n, from, w + got)
  {
    ghost var t := m.T();
    assert UserPage(t, root, v);
    var g := Walkaddr(m, root, v);
    OverlaidPage(t, p, m.pages, root, n, from, w, got, v, g);
    m.pages := m.pages[g := got + m.pages[g][|got|..]];
    assert m.T() == t;
  }

  /** loadseg: copy a segment into pages that are mapped already. */
  method LoadSeg(m: Memory, root: int, ghost n: int, file: seq<int>, ph: Ph) returns (ok: bool, ghost w: seq<int>)
    requires m.Valid() && m.T().IsRoot(root) && UserPages(m.T(), root, n) && |file| < 0x8000_0000
    requires 0 <= ph.vaddr && ph.vaddr % PGSIZE == 0 && 0 <= ph.filesz < U32 && 0 <= ph.off
    requires ph.vaddr + ph.filesz <= n * PGSIZE
    modifies m`tables, m`pages, m`freelist, m`owner, m`up
    ensures m.Valid() && m.T() == old(m.T()) && m.freelist == old(m.freelist) && (ok <==> InFile(file, ph))
    ensures Overlaid(m.T(), old(m.pages), m.pages, root, n, ph.vaddr, w)
    ensures ok ==> w == Window(file, ph.off % U32, ph.filesz)
  {
    hide Overlaid, TreesOk, FreeOk;
    var off := ph.off % U32;
    w := [];
    OverlaidNone(m.T(), m.pages, root, n, ph.vaddr);
    var i := 0;
    while i < ph.filesz
      invariant 0 <= i && i % PGSIZE == 0 && m.Valid() && m.T() == old(m.T()) && m.freelist == old(m.freelist)
      invariant CopiedTo(file, off, w, i, ph.filesz)
      invariant Overlaid(m.T(), old(m.pages), m.pages, root, n, ph.vaddr, w)
    {
      var v := (ph.vaddr + i) / PGSIZE;
      PageAligned(ph.vaddr, i, ph.filesz, n);
      var k := if ph.filesz - i < PGSIZE then ph.filesz - i else PGSIZE;
      var got := Window(file, (off + i) % U32, k);
      NextRead(file, off, w, i, k, ph.filesz);
      LoadPage(m, root, n, v, got, old(m.pages), ph.vaddr, w);
      w := w + got;
      if |got| != k {
        return false, w;
      }
      i := i + PGSIZE;
    }
    ok := true;
  }

  lemma OverlaidNone(t: Trees, p: seq<Page>, root: int, n: int, from: int)
    requires UserPages(t, root, n) && |p| == |t.owner|
    ensures Overlaid(t, p, p, root, n, from, [])
  {
  }

  lemma PageAligned(va: int, i: int, filesz: int, n: int)
    requires 0 <= va && va % PGSIZE == 0 && 0 <= i < filesz && i % PGSIZE == 0 && va + filesz <= n * PGSIZE
    ensures 0 <= (va + i) / PGSIZE < n && (va + i) / PGSIZE * PGSIZE == va + i
  {
  }

  // ---------------------------------------------------------------- arguments

  /** User memory outside [lo, hi), and frames of other owners, are as they were. */
  ghost predicate Kept(t: Trees, p: seq<Page>, p': seq<Page>, root: int, lo: int, hi: int) {
    && UserOwned(t, root) && |p| == |p'| == |t.owner|
    && (forall a :: UserPage(t, root, a / PGSIZE) && !(lo <= a < hi) ==> Load(t, p', root, a) == Load(t, p, root, a))
    && (forall f :: t.IsFrame(f) && !(t.owner[f].Leaf? && t.owner[f].root == root) ==> p'[f] == p[f])
  }

  lemma KeptNone(t: Trees, p: seq<Page>, root: int, lo: int, hi: int)
    requires UserOwned(t, root) && |p| == |t.owner|
    ensures Kept(t, p, p, root, lo, hi)
  {
  }

  lemma KeptMore(t: Trees, p: seq<Page>, p1: seq<Page>, p2: seq<Page>, root: int, lo: int, hi: int, dst: int,
          src: seq<int>)
    requires Kept(t, p, p1, root, lo, hi) && Stored(t, p1, p2, root, dst, src, |src|) && dst + |src| <= lo <= hi
    ensures Kept(t, p, p2, root, dst, hi)
  {
    forall a | UserPage(t, root, a / PGSIZE) && !(dst <= a < hi)
      ensures Load(t, p2, root, a) == Load(t, p, root, a)
    {
      assert Load(t, p1, root, a) == Load(t, p, root, a);
      assert Load(t, p2, root, a) == Load(t, p1, root, a);
    }
  }

  /** What was written below leaves what is there alone. */
  lemma StillLoaded(t: Trees, p: seq<Page>, p': seq<Page>, root: int, a: int, bs: seq<int>, dst: int, src: seq<int>)
    requires Loaded(t, p, root, a, bs) && Stored(t, p, p', root, dst, src, |src|) && dst + |src| <= a
    ensures Loaded(t, p', root, a, bs)
  {
    forall b | Within(b, a, |bs|)
      ensures ByteAt(t, p', root, b, bs[b - a])
    {
      assert ByteAt(t, p, root, b, bs[b - a]);
    }
  }

  lemma NowLoaded(t: Trees, p: seq<Page>, p': seq<Page>, root: int, dst: int, src: seq<int>)
    requires Stored(t, p, p', root, dst, src, |src|) && AllWritable(t, root, dst, |src|)
    ensures Loaded(t, p', root, dst, src)
  {
    WritableReadable(t, root, dst, |src|);
    forall b | Within(b, dst, |src|)
      ensures ByteAt(t, p', root, b, src[b - dst])
    {
      assert CanRead(t, root, b);
    }
  }

  /** The first n arguments are on the stack, each with the zero byte behind it. */
  ghost predicate Strings(t: Trees, p: seq<Page>, root: int, argv: seq<seq<int>>, top: int, n: int) {
    forall i :: 0 <= i < n && i < |argv| ==> Loaded(t, p, root, ArgAt(argv, top, i), argv[i] + [0])
  }

  lemma StringsNone(t: Trees, p: seq<Page>, root: int, argv: seq<seq<int>>, top: int)
    ensures Strings(t, p, root, argv, top, 0)
  {
  }

  function Sp(argv: seq<seq<int>>, top: int, n: nat): (sp: int)
    requires n <= |argv|
  {
    if n == 0 then top else ArgAt(argv, top, n - 1)
  }

  lemma {:induction false} SpDown(argv: seq<seq<int>>, top: int, i: nat, n: nat)
    requires i <= n <= |argv|
    ensures Sp(argv, top, n) <= Sp(argv, top, i) && (i < n ==> Sp(argv, top, n) <= ArgAt(argv, top, i))
    decreases n
  {
    if i < n {
      SpDown(argv, top, i, n - 1);
    }
  }

  lemma ArgvBelow(argv: seq<seq<int>>, top: int, n: nat)
    requires n <= |argv|
    ensures ArgvAt(argv, top) <= Sp(argv, top, n)
  {
    SpDown(argv, top, n, |argv|);
  }

  /** One push: the strings above stay. */
  lemma StringPushed(t: Trees, p: seq<Page>, p': seq<Page>, root: int, argv: seq<seq<int>>, top: int, n: nat)
    requires n < |argv| && Strings(t, p, root, argv, top, n)
    requires Stored(t, p, p', root, ArgAt(argv, top, n), argv[n] + [0], |argv[n]| + 1)
    requires AllWritable(t, root, ArgAt(argv, top, n), |argv[n]| + 1)
    ensures Strings(t, p', root, argv, top, n + 1)
  {
    hide Loaded, Stored, AllWritable;
    forall i | 0 <= i < n + 1
      ensures Loaded(t, p', root, ArgAt(argv, top, i), argv[i] + [0])
    {
      if i < n {
        SpDown(argv, top, i + 1, n);
        assert Loaded(t, p, root, ArgAt(argv, top, i), argv[i] + [0]);
        StillLoaded(t, p, p', root, ArgAt(argv, top, i), argv[i] + [0], ArgAt(argv, top, n), argv[n] + [0]);
      } else {
        NowLoaded(t, p, p', root, ArgAt(argv, top, n), argv[n] + [0]);
      }
    }
  }

  lemma PartWritable(t: Trees, root: int, base: int, n: int, a: int, k: int)
    requires AllWritable(t, root, base, n) && base <= a && a + k <= base + n
    ensures AllWritable(t, root, a, k)
  {
    forall b | Within(b, a, k)
      ensures CanWrite(t, root, b)
    {
      assert Within(b, base, n);
    }
  }

  /** A copyout into a range that can be written succeeds. */
  method Push(m: Memory, root: int, base: int, n: int, dst: int, src: seq<int>)
    requires m.Valid() && m.T().IsRoot(root) && UserOwned(m.T(), root) && AllWritable(m.T(), root, base, n)
    requires 0 <= base <= dst && dst + |src| <= base + n
    modifies m`tables, m`pages, m`freelist, m`owner, m`up
    ensures m.Valid() && m.T() == old(m.T()) && m.freelist == old(m.freelist)
    ensures Stored(m.T(), old(m.pages), m.pages, root, dst, src, |src|) && AllWritable(m.T(), root, dst, |src|)
  {
    hide Stored;
    PartWritable(m.T(), root, base, n, dst, |src|);
    var ok;
    ghost var k;
    ok, k := Copyout(m, root, dst, src);
    Complete(m.T(), root, dst, |src|, k);
  }

  lemma Complete(t: Trees, root: int, dst: int, n: int, k: int)
    requires AllWritable(t, root, dst, n) && 0 <= k <= n && (k != n ==> !CanWrite(t, root, dst + k))
    ensures k == n
  {
    assert k < n ==> Within(dst + k, dst, n);
  }

  /** One argument. */
  method PushString(m: Memory, root: int, top: int, argv: seq<seq<int>>, argc: nat, sp0: int,
          ghost p0: seq<Page>) returns (ok: bool, sp: int)
    requires m.Valid() && m.T().IsRoot(root) && UserOwned(m.T(), root) && argc < |argv| && top >= PGSIZE
    requires AllWritable(m.T(), root, top - PGSIZE, PGSIZE) && sp0 == Sp(argv, top, argc) && top - PGSIZE <= sp0 <= top
    requires Kept(m.T(), p0, m.pages, root, sp0, top) && Strings(m.T(), m.pages, root, argv, top, argc)
    modifies m`tables, m`pages, m`freelist, m`owner, m`up
    ensures m.Valid() && m.T() == old(m.T()) && m.freelist == old(m.freelist)
    ensures !ok ==> !Fit(argv, top, top - PGSIZE) && Kept(m.T(), p0, m.pages, root, top - PGSIZE, top)
    ensures ok ==> sp == Sp(argv, top, argc + 1) && top - PGSIZE <= sp <= top && Kept(m.T(), p0, m.pages, root, sp, top)
    ensures ok ==> argc < MAXARG && Strings(m.T(), m.pages, root, argv, top, argc + 1)
  {
    hide Stored, Loaded, TreesOk, FreeOk, Kept, AllWritable, UserOwned, Strings;
    var base := top - PGSIZE;
    if argc >= MAXARG {
      KeptWider(m.T(), p0, m.pages, root, sp0, top, base);
      return false, sp0;
    }
    sp := Lowered(sp0, |argv[argc]| + 1);
    ArgvBelow(argv, top, argc + 1);
    if sp < base {
      KeptWider(m.T(), p0, m.pages, root, sp0, top, base);
      return false, sp;
    }
    ghost var p := m.pages;
    Push(m, root, base, PGSIZE, sp, argv[argc] + [0]);
    StringPushed(m.T(), p, m.pages, root, argv, top, argc);
    KeptMore(m.T(), p0, p, m.pages, root, sp0, top, sp, argv[argc] + [0]);
    ok := true;
  }

  /** exec's pushing of the arguments and of the array of pointers to them, on the page below top. */
  method PushArgs(m: Memory, root: int, top: int, argv: seq<seq<int>>) returns (ok: bool, sp: int)
    requires m.Valid() && m.T().IsRoot(root) && UserOwned(m.T(), root) && |argv| != MAXARG && top >= PGSIZE
    requires AllWritable(m.T(), root, top - PGSIZE, PGSIZE)
    modifies m`tables, m`pages, m`freelist, m`owner, m`up
    ensures m.Valid() && m.T() == old(m.T()) && m.freelist == old(m.freelist)
    ensures Kept(m.T(), old(m.pages), m.pages, root, top - PGSIZE, top)
    ensures ok <==> Fit(argv, top, top - PGSIZE)
    ensures ok ==> sp == ArgvAt(argv, top) && Strings(m.T(), m.pages, root, argv, top, |argv|)
    ensures ok ==> Loaded(m.T(), m.pages, root, sp, Pointers(argv, top, |argv|) + Le(0, 8))
  {
    hide Stored, Loaded, TreesOk, FreeOk, Kept, AllWritable, UserOwned, Strings;
    hide Le, ArgAt, ArgvAt, Fit;
    var base := top - PGSIZE;
    sp := top;
    var ustack := [];
    var argc := 0;
    KeptNone(m.T(), m.pages, root, top, top);
    StringsNone(m.T(), m.pages, root, argv, top);
    ok := true;
    while argc < |argv|
      invariant 0 <= argc <= |argv| && argc <= MAXARG && ok
      invariant m.Valid() && m.T() == old(m.T()) && m.freelist == old(m.freelist)
      invariant sp == Sp(argv, top, argc) && base <= sp <= top && ustack == Pointers(argv, top, argc)
      invariant Kept(m.T(), old(m.pages), m.pages, root, sp, top) && Strings(m.T(), m.pages, root, argv, top, argc)
    {
      ok, sp := PushString(m, root, top, argv, argc, sp, old(m.pages));
      if !ok {
        return;
      }
      ustack := ustack + Le(sp, 8);
      argc := argc + 1;
    }
    ok, sp := PushPointers(m, root, top, argv, sp, ustack + Le(0, 8), old(m.pages));
  }

  /** The last push: the pointers, with a null pointer behind them. */
  method PushPointers(m: Memory, root: int, top: int, argv: seq<seq<int>>, sp0: int, ustack: seq<int>,
          ghost p0: seq<Page>) returns (ok: bool, sp: int)
    requires m.Valid() && m.T().IsRoot(root) && UserOwned(m.T(), root) && |argv| <= MAXARG && top >= PGSIZE
    requires AllWritable(m.T(), root, top - PGSIZE, PGSIZE)
    requires sp0 == Sp(argv, top, |argv|) && top - PGSIZE <= sp0 <= top
    requires ustack == Pointers(argv, top, |argv|) + Le(0, 8)
    requires Kept(m.T(), p0, m.pages, root, sp0, top) && Strings(m.T(), m.pages, root, argv, top, |argv|)
    modifies m`tables, m`pages, m`freelist, m`owner, m`up
    ensures m.Valid() && m.T() == old(m.T()) && m.freelist == old(m.freelist)
    ensures Kept(m.T(), p0, m.pages, root, top - PGSIZE, top) && (ok <==> Fit(argv, top, top - PGSIZE))
    ensures ok ==> sp == ArgvAt(argv, top) && Strings(m.T(), m.pages, root, argv, top, |argv|)
    ensures ok ==> Loaded(m.T(), m.pages, root, sp, ustack)
  {
    hide Stored, Loaded, TreesOk, FreeOk, Kept, AllWritable, UserOwned, Strings;
    hide Pointers, Le, Sp, ArgvAt, ArgAt;
    var base := top - PGSIZE;
    sp := Lowered(sp0, 8 * (|argv| + 1));
    ArgvIs(argv, top);
    if sp < base {
      KeptWider(m.T(), p0, m.pages, root, sp0, top, base);
      return false, sp;
    }
    ghost var p := m.pages;
    Push(m, root, base, PGSIZE, sp, ustack);
    NowLoaded(m.T(), p, m.pages, root, sp, ustack);
    StringsKept(m.T(), p, m.pages, root, argv, top, sp, ustack);
    KeptMore(m.T(), p0, p, m.pages, root, sp0, top, sp, ustack);
    KeptWider(m.T(), p0, m.pages, root, sp, top, base);
    ok := true;
  }

  lemma ArgvIs(argv: seq<seq<int>>, top: int)
    ensures ArgvAt(argv, top) == Lowered(Sp(argv, top, |argv|), 8 * (|argv| + 1))
  {
  }

  lemma KeptWider(t: Trees, p: seq<Page>, p': seq<Page>, root: int, lo: int, hi: int, lo': int)
    requires Kept(t, p, p', root, lo, hi) && lo' <= lo
    ensures Kept(t, p, p', root, lo', hi)
  {
  }

  lemma StringsKept(t: Trees, p: seq<Page>, p': seq<Page>, root: int, argv: seq<seq<int>>, top: int, dst: int,
          src: seq<int>)
    requires Strings(t, p, root, argv, top, |argv|) && Stored(t, p, p', root, dst, src, |src|)
    requires dst + |src| <= Sp(argv, top, |argv|)
    ensures Strings(t, p', root, argv, top, |argv|)
  {
    forall i | 0 <= i < |argv|
      ensures Loaded(t, p', root, ArgAt(argv, top, i), argv[i] + [0])
    {
      SpDown(argv, top, i, |argv|);
      StillLoaded(t, p, p', root, ArgAt(argv, top, i), argv[i] + [0], dst, src);
    }
  }
}
