/**
 Copying between the kernel and user memory: copyout and copyin of kernel/vm.c, as operations on
 one flat, byte-addressed user memory.
 */
module UserCopy {
  import opened Basics
  import opened PageTable
  import opened Vm

  /** User code may use page v. */
  ghost predicate UserPage(t: Trees, root: int, v: int) {
    var e := Translate(t.tables, root, v);
    0 <= v < MAXPAGE && e.Some? && IsUser(e.value)
  }

  ghost predicate WritablePage(t: Trees, root: int, v: int) {
    UserPage(t, root, v) && IsWritable(Translate(t.tables, root, v).value)
  }

  predicate Within(a: int, from: int, n: int) { from <= a < from + n }

  ghost predicate CanRead(t: Trees, root: int, a: int) { UserPage(t, root, a / PGSIZE) }

  ghost predicate CanWrite(t: Trees, root: int, a: int) { WritablePage(t, root, a / PGSIZE) }

  /** User code may write, or read, all of the n bytes from address a on. */
  ghost predicate AllWritable(t: Trees, root: int, from: int, n: int) {
    forall a :: Within(a, from, n) ==> CanWrite(t, root, a)
  }

  ghost predicate AllReadable(t: Trees, root: int, from: int, n: int) {
    forall a :: Within(a, from, n) ==> CanRead(t, root, a)
  }

  /** Pages that user code may use are memory of their own, so no two of them share a frame. */
  ghost predicate UserOwned(t: Trees, root: int) {
    forall v :: UserPage(t, root, v) ==> OwnsPage(t, root, v)
  }

  /** The byte of user memory at an address. */
  ghost function Load(t: Trees, pages: seq<Page>, root: int, a: int): (b: int)
    requires UserPage(t, root, a / PGSIZE) && OwnsPage(t, root, a / PGSIZE) && |pages| == |t.owner|
  {
    pages[Frame(Translate(t.tables, root, a / PGSIZE).value)][a % PGSIZE]
  }

  /** User memory after writing the first k bytes of src at dst; other frames are untouched. */
  ghost predicate Stored(t: Trees, p: seq<Page>, p': seq<Page>, root: int, dst: int, src: seq<int>, k: int) {
    && UserOwned(t, root) && |p| == |p'| == |t.owner| && 0 <= k <= |src|
    && (forall a :: UserPage(t, root, a / PGSIZE) ==>
          Load(t, p', root, a) == if dst <= a < dst + k then src[a - dst] else Load(t, p, root, a))
    && (forall f :: t.IsFrame(f) && !(t.owner[f].Leaf? && t.owner[f].root == root) ==> p'[f] == p[f])
  }

  /** What one round writes into a page. */
  function Overwritten(page: Page, off: int, bytes: seq<int>): (r: Page)
    requires 0 <= off && off + |bytes| <= |page|
  {
    page[..off] + bytes + page[off + |bytes|..]
  }

  lemma StoredChunk(t: Trees, p: seq<Page>, p1: seq<Page>, root: int, dst: int, src: seq<int>, k: int, n: int,
          a0: int, g: int)
    requires Stored(t, p, p1, root, dst, src, k) && 0 <= dst && a0 == dst + k && 0 < n && k + n <= |src|
    requires a0 % PGSIZE + n <= PGSIZE
    requires UserPage(t, root, a0 / PGSIZE) && g == Frame(Translate(t.tables, root, a0 / PGSIZE).value) && t.IsFrame(g)
    ensures Stored(t, p, p1[g := Overwritten(p1[g], a0 % PGSIZE, src[k..k + n])], root, dst, src, k + n)
  {
    var p2 := p1[g := Overwritten(p1[g], a0 % PGSIZE, src[k..k + n])];
    assert OwnsPage(t, root, a0 / PGSIZE);
    forall a | UserPage(t, root, a / PGSIZE)
      ensures Load(t, p2, root, a) == if dst <= a < dst + (k + n) then src[a - dst] else Load(t, p, root, a)
    {
      assert OwnsPage(t, root, a / PGSIZE);
      assert Load(t, p1, root, a) == if dst <= a < dst + k then src[a - dst] else Load(t, p, root, a);
      SamePageOffset(a, a0, n);
    }
  }

  lemma SamePageOffset(a: int, a0: int, n: int)
    requires 0 <= a0 && 0 < n && a0 % PGSIZE + n <= PGSIZE
    ensures a0 <= a < a0 + n <==> a / PGSIZE == a0 / PGSIZE && a0 % PGSIZE <= a % PGSIZE < a0 % PGSIZE + n
    ensures a / PGSIZE == a0 / PGSIZE ==> a - a0 == a % PGSIZE - a0 % PGSIZE
  {
  }

  /** The bytes of one page: all can be used if one can. */
  lemma SamePage(t: Trees, root: int, a0: int, n: int)
    requires 0 <= a0 && 0 < n && a0 % PGSIZE + n <= PGSIZE
    ensures CanWrite(t, root, a0) ==> AllWritable(t, root, a0, n)
    ensures CanRead(t, root, a0) ==> AllReadable(t, root, a0, n)
  {
    forall a | Within(a, a0, n)
      ensures a / PGSIZE == a0 / PGSIZE
    {
      SamePageOffset(a, a0, n);
    }
  }

  lemma MoreWritable(t: Trees, root: int, from: int, k: int, a0: int, n: int)
    requires AllWritable(t, root, from, k) && a0 == from + k && AllWritable(t, root, a0, n) && 0 <= k && 0 <= n
    ensures AllWritable(t, root, from, k + n)
  {
    forall a | Within(a, from, k + n)
      ensures CanWrite(t, root, a)
    {
      assert Within(a, from, k) || Within(a, a0, n);
    }
  }

  /** copyout: write src at user address dst; after a failure, `k` bytes have been written. */
  method Copyout(m: Memory, root: int, dst: int, src: seq<int>) returns (ok: bool, ghost k: int)
    requires m.Valid() && m.T().IsRoot(root) && 0 <= dst && UserOwned(m.T(), root)
    modifies m`tables, m`pages, m`freelist, m`owner, m`up
    ensures m.Valid() && m.T() == old(m.T()) && m.freelist == old(m.freelist)
    ensures Stored(m.T(), old(m.pages), m.pages, root, dst, src, k) && (ok <==> k == |src|)
    ensures AllWritable(m.T(), root, dst, k) && (!ok ==> !CanWrite(m.T(), root, dst + k))
  {
    k := 0;
    ghost var t := m.T();
    var rest, va := src, dst;
    while |rest| > 0
      invariant 0 <= k <= |src| && rest == src[k..] && (rest != [] ==> va == dst + k)
      invariant m.Valid() && m.T() == t && m.freelist == old(m.freelist)
      invariant Stored(t, old(m.pages), m.pages, root, dst, src, k) && AllWritable(t, root, dst, k)
      decreases |rest|
    {
      var n := CopyoutChunk(m, root, va, rest, old(m.pages), dst, src, k);
      if n == 0 {
        return false, k;
      }
      MoreWritable(t, root, dst, k, va, n);
      k := k + n;
      rest := rest[n..];
      va := va / PGSIZE * PGSIZE + PGSIZE;
    }
    return true, k;
  }

  /** copyout's loop body: the bytes that go to the page of address va; 0 if it cannot be written. */
  method CopyoutChunk(m: Memory, root: int, va: int, rest: seq<int>, ghost p: seq<Page>, ghost dst: int,
          ghost src: seq<int>, ghost k: int)
    returns (n: int)
    requires m.Valid() && m.T().IsRoot(root) && 0 <= dst && |rest| > 0
    requires Stored(m.T(), p, m.pages, root, dst, src, k) && rest == src[k..] && va == dst + k
    modifies m`tables, m`pages, m`freelist, m`owner, m`up
    ensures m.Valid() && m.T() == old(m.T()) && m.freelist == old(m.freelist)
    ensures n == 0 ==> !CanWrite(m.T(), root, va) && m.pages == old(m.pages)
    ensures n != 0 ==> 0 < n <= |rest| && (n < |rest| ==> va + n == va / PGSIZE * PGSIZE + PGSIZE)
    ensures n != 0 ==> Stored(m.T(), p, m.pages, root, dst, src, k + n) && AllWritable(m.T(), root, va, n)
  {
    ghost var t := m.T();
    var v := va / PGSIZE;
    if v >= MAXPAGE {
      return 0;
    }
    var f := m.Walk(root, v, false);
    if f == 0 {
      return 0;
    }
    EntryIs(m.low, t, root, v, f);
    var e := m.tables[f][Px(0, v)];
    if !PageTable.Valid(e) || !IsUser(e) || !IsWritable(e) {
      return 0;
    }
    assert OwnsPage(t, root, v);
    var g := Frame(e);
    n := PGSIZE - va % PGSIZE;
    if n > |rest| {
      n := |rest|;
    }
    StoredChunk(t, p, m.pages, root, dst, src, k, n, va, g);
    SamePage(t, root, va, n);
    assert rest[..n] == src[k..k + n];
    m.pages := m.pages[g := Overwritten(m.pages[g], va % PGSIZE, rest[..n])];
    assert m.T() == t;
  }

  // ---------------------------------------------------------------- copyin

  /** dst holds the k bytes of user memory from src on. */
  ghost predicate Loaded(t: Trees, p: seq<Page>, root: int, src: int, dst: seq<int>) {
    && UserOwned(t, root) && |p| == |t.owner| && AllReadable(t, root, src, |dst|)
    && forall a :: Within(a, src, |dst|) ==> ByteAt(t, p, root, a, dst[a - src])
  }

  ghost predicate ByteAt(t: Trees, p: seq<Page>, root: int, a: int, b: int) {
    && CanRead(t, root, a) && OwnsPage(t, root, a / PGSIZE) && |p| == |t.owner|
    && Load(t, p, root, a) == b
  }

  lemma LoadedChunk(t: Trees, p: seq<Page>, root: int, src: int, dst: seq<int>, n: int, a0: int, g: int)
    requires Loaded(t, p, root, src, dst) && 0 <= src && a0 == src + |dst| && 0 < n && a0 % PGSIZE + n <= PGSIZE
    requires UserPage(t, root, a0 / PGSIZE) && g == Frame(Translate(t.tables, root, a0 / PGSIZE).value) && t.IsFrame(g)
    ensures Loaded(t, p, root, src, dst + p[g][a0 % PGSIZE..a0 % PGSIZE + n])
  {
    var dst' := dst + p[g][a0 % PGSIZE..a0 % PGSIZE + n];
    forall a | Within(a, src, |dst'|)
      ensures CanRead(t, root, a) && ByteAt(t, p, root, a, dst'[a - src])
    {
      if Within(a, src, |dst|) {
        assert ByteAt(t, p, root, a, dst[a - src]);
      } else {
        SamePageOffset(a, a0, n);
        assert OwnsPage(t, root, a / PGSIZE);
      }
    }
  }

  /** walkaddr: the frame that user code reaches through page v, or 0. */
  method Walkaddr(m: Memory, root: int, v: int) returns (g: int)
    requires m.Valid() && m.T().IsRoot(root) && 0 <= v
    modifies m`tables, m`pages, m`freelist, m`owner, m`up
    ensures m.Valid() && m.T() == old(m.T()) && m.pages == old(m.pages) && m.freelist == old(m.freelist)
    ensures g != 0 <==> UserPage(m.T(), root, v)
    ensures g != 0 ==> m.T().IsFrame(g) && g == Frame(Translate(m.tables, root, v).value)
  {
    ghost var t := m.T();
    if v >= MAXPAGE {
      return 0;
    }
    var f := m.Walk(root, v, false);
    if f == 0 {
      return 0;
    }
    EntryIs(m.low, t, root, v, f);
    assert DownOk(t, f, Px(0, v));
    var e := m.tables[f][Px(0, v)];
    if !PageTable.Valid(e) || !IsUser(e) {
      return 0;
    }
    g := Frame(e);
    assert m.T() == t;
  }

  /** copyin: read len bytes at user address src; on failure `dst` is what was read so far. */
  method Copyin(m: Memory, root: int, src: int, len: int) returns (ok: bool, dst: seq<int>)
    requires m.Valid() && m.T().IsRoot(root) && 0 <= src && 0 <= len && UserOwned(m.T(), root)
    modifies m`tables, m`pages, m`freelist, m`owner, m`up
    ensures m.Valid() && m.T() == old(m.T()) && m.pages == old(m.pages) && m.freelist == old(m.freelist)
    ensures Loaded(m.T(), m.pages, root, src, dst) && |dst| <= len && (ok <==> |dst| == len)
    ensures !ok ==> !CanRead(m.T(), root, src + |dst|)
  {
    dst := [];
    ghost var t, p := m.T(), m.pages;
    var left, va := len, src;
    while left > 0
      invariant 0 <= left && |dst| == len - left && (left > 0 ==> va == src + |dst|)
      invariant m.Valid() && m.T() == t && m.pages == p && m.freelist == old(m.freelist) && Loaded(t, p, root, src, dst)
      decreases left
    {
      var g := Walkaddr(m, root, va / PGSIZE);
      if g == 0 {
        return false, dst;
      }
      var n := PGSIZE - va % PGSIZE;
      if n > left {
        n := left;
      }
      LoadedChunk(t, p, root, src, dst, n, va, g);
      dst := dst + m.pages[g][va % PGSIZE..va % PGSIZE + n];
      left := left - n;
      va := va / PGSIZE * PGSIZE + PGSIZE;
    }
    return true, dst;
  }

  /** Reading back what was just written. */
  lemma ReadBack(t: Trees, p: seq<Page>, p': seq<Page>, root: int, a: int, src: seq<int>, dst: seq<int>)
    requires Stored(t, p, p', root, a, src, |src|) && Loaded(t, p', root, a, dst) && |dst| == |src|
    ensures dst == src
  {
    forall i | 0 <= i < |src|
      ensures dst[i] == src[i]
    {
      assert Within(a + i, a, |dst|);
      assert ByteAt(t, p', root, a + i, dst[a + i - a]);
    }
  }

  lemma WritableReadable(t: Trees, root: int, a: int, n: int)
    requires AllWritable(t, root, a, n)
    ensures AllReadable(t, root, a, n)
  {
    forall b | Within(b, a, n)
      ensures CanRead(t, root, b)
    {
      assert CanWrite(t, root, b);
    }
  }

  /** copyin after a successful copyout of the same range returns the same bytes. */
  method RoundTrip(m: Memory, root: int, a: int, src: seq<int>) returns (ok: bool, dst: seq<int>)
    requires m.Valid() && m.T().IsRoot(root) && 0 <= a && UserOwned(m.T(), root)
    modifies m`tables, m`pages, m`freelist, m`owner, m`up
    ensures m.Valid() && m.T() == old(m.T())
    ensures ok ==> dst == src
    ensures ok <==> AllWritable(m.T(), root, a, |src|)
  {
    ghost var k;
    ok, k := Copyout(m, root, a, src);
    if !ok {
      assert Within(a + k, a, |src|);
      return false, [];
    }
    WritableReadable(m.T(), root, a, |src|);
    var ok2;
    ok2, dst := Copyin(m, root, a, |src|);
    assert ok2;
    ReadBack(m.T(), old(m.pages), m.pages, root, a, src, dst);
  }
}
