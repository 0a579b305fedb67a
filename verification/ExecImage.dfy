/**
 The pages of a tree as the image that a file asks exec for: how the image grows, segment by segment.
 */
module ExecImage {
  import opened Basics
  import opened PageTable
  import opened Vm
  import opened AddressSpace
  import opened UserCopy
  import opened ElfImage
  import opened Loader

  predicate Good(file: seq<int>, k: nat) { IsBytes(file) && HasHeader(file) && SizeAfter(file, k).Upto? }

  ghost predicate PermIs(t: Trees, root: int, v: int, perm: int) {
    var e := Translate(t.tables, root, v);
    OwnsPage(t, root, v) && e == Some(MakePte(Frame(e.value), perm))
  }

  /** Page v has the permissions that the first k headers give it. */
  ghost predicate PageOk(t: Trees, root: int, file: seq<int>, k: nat, v: int) {
    Good(file, k) && PermIs(t, root, v, UserPerm(PermAt(file, k, v)))
  }

  ghost predicate Holding(t: Trees, p: seq<Page>, root: int, a: int, b: int) {
    OwnsPage(t, root, a / PGSIZE) && |p| == |t.owner| && Held(t, p, root, a) == b
  }

  /** Address a has the byte that the first k headers give it. */
  ghost predicate ByteOk(t: Trees, p: seq<Page>, root: int, file: seq<int>, k: nat, a: int) {
    Good(file, k) && Holding(t, p, root, a, ByteOf(file, k, a))
  }

  /** The first n pages have the permissions and the bytes that the first k headers ask for. */
  ghost predicate IsImage(t: Trees, p: seq<Page>, root: int, file: seq<int>, k: nat, n: int) {
    && (forall v :: 0 <= v < n ==> PageOk(t, root, file, k, v))
    && (forall a :: In(a, n) ==> ByteOk(t, p, root, file, k, a))
  }

  /** The image of k headers on n pages, with pages n to n' added for the next header. */
  ghost predicate IsGrown(t: Trees, p: seq<Page>, root: int, file: seq<int>, k: nat, n: int, n': int, perm: int) {
    && (forall v :: 0 <= v < n ==> PageOk(t, root, file, k, v))
    && (forall v :: n <= v < n' ==> PermIs(t, root, v, UserPerm(perm)))
    && (forall a :: In(a, n') ==> ByteOk(t, p, root, file, k, a))
  }

  lemma PagesOf(sz: int, n: int, a: int)
    requires 0 <= sz && n == PageCount(sz)
    ensures sz <= n * PGSIZE && (n <= a / PGSIZE ==> sz <= a)
  {
  }

  lemma PageOf(a: int, n: int)
    requires In(a, n)
    ensures 0 <= a / PGSIZE < n && 0 <= a % PGSIZE < PGSIZE
  {
  }

  lemma PageStays(t: Trees, t': Trees, root: int, n: int, n': int, v: int)
    requires t.IsRoot(root) && 0 <= v < n <= n' <= MAXPAGE && Extended(t, t', root, n, n') && OwnsPage(t, root, v)
    ensures OwnsPage(t', root, v) && Translate(t'.tables, root, v) == Translate(t.tables, root, v)
  {
    var f := Frame(Translate(t.tables, root, v).value);
    assert t'.owner[f] == t.owner[f] || NewTable(t, t', root, f) || NewPage(t, t', root, n, n', f);
  }

  lemma OldPageOk(t: Trees, t': Trees, root: int, file: seq<int>, k: nat, n: int, n': int, v: int)
    requires t.IsRoot(root) && 0 <= v < n <= n' <= MAXPAGE && Extended(t, t', root, n, n')
    requires PageOk(t, root, file, k, v)
    ensures PageOk(t', root, file, k, v)
  {
    hide Extended, Good, PermAt;
    PageStays(t, t', root, n, n', v);
  }

  lemma OldByteOk(t: Trees, p: seq<Page>, t': Trees, p': seq<Page>, root: int, file: seq<int>, k: nat, n: int, n': int,
          a: int)
    requires t.IsRoot(root) && In(a, n) && n <= n' <= MAXPAGE && Extended(t, t', root, n, n')
    requires SamePages(t.owner, p, p') && ByteOk(t, p, root, file, k, a) && |t'.owner| == |t.owner|
    ensures ByteOk(t', p', root, file, k, a)
  {
    hide Extended, Good, ByteOf;
    PageOf(a, n);
    PageStays(t, t', root, n, n', a / PGSIZE);
  }

  lemma NewByteOk(t: Trees, p: seq<Page>, root: int, file: seq<int>, k: nat, sz: int, n: int, a: int, perm: int)
    requires Good(file, k) && SizeAfter(file, k) == Upto(sz) && 0 <= sz && n == PageCount(sz) <= a / PGSIZE
    requires PageHolds(t, p, root, a / PGSIZE, Filled(0), perm)
    ensures ByteOk(t, p, root, file, k, a)
  {
    PagesOf(sz, n, a);
    ZeroBeyond(file, k, a);
  }

  /** uvmalloc grew the tree. */
  lemma ImageGrown(t: Trees, p: seq<Page>, t': Trees, p': seq<Page>, root: int, file: seq<int>, k: nat, sz: int, n: int,
          n': int, perm: int)
    requires IsImage(t, p, root, file, k, n) && Good(file, k) && SizeAfter(file, k) == Upto(sz) && 0 <= sz
    requires n == PageCount(sz) && 0 <= n <= n' <= MAXPAGE && t.IsRoot(root) && Extended(t, t', root, n, n')
    requires SamePages(t.owner, p, p') && ZeroPages(t', p', root, n, n', UserPerm(perm))
    ensures IsGrown(t', p', root, file, k, n, n', perm)
  {
    hide PageOk, ByteOk, Good, SizeAfter;
    assert |t'.owner| == |t.owner|;
    forall v | 0 <= v < n
      ensures PageOk(t', root, file, k, v)
    {
      OldPageOk(t, t', root, file, k, n, n', v);
    }
    hide Extended;
    forall v | n <= v < n'
      ensures PermIs(t', root, v, UserPerm(perm))
    {
      assert PageHolds(t', p', root, v, Filled(0), UserPerm(perm));
    }
    forall a | In(a, n')
      ensures ByteOk(t', p', root, file, k, a)
    {
      PageOf(a, n');
      if a / PGSIZE < n {
        assert In(a, n);
        OldByteOk(t, p, t', p', root, file, k, n, n', a);
      } else {
        NewByteOk(t', p', root, file, k, sz, n, a, UserPerm(perm));
      }
    }
  }

  lemma {:induction false} PermsOk(file: seq<int>, k: nat, v: int)
    requires Good(file, k)
    ensures XPerm(PermAt(file, k, v))
  {
    if k > 0 {
      PermsOk(file, k - 1, v);
    }
  }

  lemma UserPageOf(t: Trees, root: int, v: int, xperm: int)
    requires PermIs(t, root, v, UserPerm(xperm)) && XPerm(xperm) && 0 <= v < MAXPAGE
    ensures UserPage(t, root, v) && (WritablePage(t, root, v) <==> xperm == PTE_W || xperm == PTE_W + PTE_X)
  {
    UserPermBits(Frame(Translate(t.tables, root, v).value), xperm);
  }

  lemma GrownUser(t: Trees, p: seq<Page>, root: int, file: seq<int>, k: nat, n: int, n': int, perm: int)
    requires IsGrown(t, p, root, file, k, n, n', perm) && XPerm(perm) && n' <= MAXPAGE
    ensures UserPages(t, root, n')
  {
    hide PermAt, ByteOk, SizeAfter, IsBytes, HasHeader;
    forall v | 0 <= v < n'
      ensures OwnsPage(t, root, v) && UserPage(t, root, v)
    {
      if v < n {
        assert PageOk(t, root, file, k, v);
        PermsOk(file, k, v);
        UserPageOf(t, root, v, PermAt(file, k, v));
      } else {
        UserPageOf(t, root, v, perm);
      }
    }
  }

  lemma LoadedPageOk(t: Trees, root: int, file: seq<int>, k: nat, sz: int, v: int)
    requires Good(file, k + 1) && SizeAfter(file, k) == Upto(sz)
    requires if v < PageCount(sz) then PageOk(t, root, file, k, v)
             else PermIs(t, root, v, UserPerm(Flags2Perm(PhAt(file, k).flags)))
    ensures PageOk(t, root, file, k + 1, v)
  {
  }

  ghost predicate ByteIs(file: seq<int>, k: nat, a: int, b: int) { Good(file, k) && ByteOf(file, k, a) == b }

  function FileByte(file: seq<int>, ph: Ph, a: int): (b: int) {
    var at := ph.off % U32 + (a - ph.vaddr);
    if 0 <= at < |file| then file[at] else 0
  }

  /** One turn of the definition of the bytes. */
  lemma ByteTurn(file: seq<int>, k: nat, a: int, b: int)
    requires 0 < k && Good(file, k) && Readable(file, k - 1)
    requires var ph := PhAt(file, k - 1);
      if ph.load && ph.vaddr <= a < ph.vaddr + ph.filesz then b == FileByte(file, ph, a) else ByteIs(file, k - 1, a, b)
    ensures ByteIs(file, k, a, b)
  {
    SaneRange(file, k - 1);
    hide PhAt, Readable, HasHeader, IsBytes;
  }

  lemma LoadedByteOk(t: Trees, p: seq<Page>, p': seq<Page>, root: int, file: seq<int>, k: nat, n: int, w: seq<int>,
          a: int)
    requires Good(file, k + 1) && PhAt(file, k).load && ByteOk(t, p, root, file, k, a) && In(a, n)
    requires Overlaid(t, p, p', root, n, PhAt(file, k).vaddr, w) && 0 <= PhAt(file, k).off && 0 <= PhAt(file, k).filesz
    requires w == Window(file, PhAt(file, k).off % U32, PhAt(file, k).filesz)
    ensures ByteOk(t, p', root, file, k + 1, a)
  {
    hide PhAt, Readable, IsBytes, HasHeader, ByteOf;
    var ph := PhAt(file, k);
    assert |w| == ph.filesz;
    assert Held(t, p', root, a) == if ph.vaddr <= a < ph.vaddr + |w| then w[a - ph.vaddr] else Held(t, p, root, a);
    ByteTurn(file, k + 1, a, Held(t, p', root, a));
  }

  /** The next header has been loaded. */
  lemma ImageLoaded(t: Trees, p: seq<Page>, p': seq<Page>, root: int, file: seq<int>, k: nat, sz: int, n': int,
          w: seq<int>)
    requires Good(file, k + 1) && PhAt(file, k).load && SizeAfter(file, k) == Upto(sz)
    requires IsGrown(t, p, root, file, k, PageCount(sz), n', Flags2Perm(PhAt(file, k).flags))
    requires Overlaid(t, p, p', root, n', PhAt(file, k).vaddr, w) && 0 <= PhAt(file, k).off && 0 <= PhAt(file, k).filesz
    requires w == Window(file, PhAt(file, k).off % U32, PhAt(file, k).filesz)
    ensures IsImage(t, p', root, file, k + 1, n')
  {
    hide PageOk, ByteOk, SizeAfter, PhAt, Overlaid, PermIs, Window, Readable;
    var k' := k + 1;
    forall v | 0 <= v < n'
      ensures PageOk(t, root, file, k', v)
    {
      LoadedPageOk(t, root, file, k, sz, v);
    }
    forall a | In(a, n')
      ensures ByteOk(t, p', root, file, k', a)
    {
      LoadedByteOk(t, p, p', root, file, k, n', w, a);
    }
  }

  /** A header that is not to be loaded changes nothing. */
  lemma ImageSkipped(t: Trees, p: seq<Page>, root: int, file: seq<int>, k: nat, sz: int, n: int)
    requires IsImage(t, p, root, file, k, n) && Good(file, k) && SizeAfter(file, k) == Upto(sz) && n == PageCount(sz)
    requires Readable(file, k) && !PhAt(file, k).load
    ensures Good(file, k + 1) && SizeAfter(file, k + 1) == Upto(sz) && IsImage(t, p, root, file, k + 1, n)
  {
    hide PermIs, Holding, PhAt, Readable;
    var k' := k + 1;
    forall v | 0 <= v < n
      ensures PageOk(t, root, file, k', v)
    {
      assert PageOk(t, root, file, k, v);
    }
    forall a | In(a, n)
      ensures ByteOk(t, p, root, file, k', a)
    {
      assert ByteOk(t, p, root, file, k, a);
    }
  }
}
