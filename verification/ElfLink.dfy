/**
 The other direction: a file as a linker writes it (kernel/elf.h), and that exec of it runs what was
 linked.  Nothing here depends on how exec reads headers.
 */
module ElfLink {
  import opened Basics
  import opened PageTable
  import opened Vm
  import opened AddressSpace
  import opened UserCopy
  import opened ElfImage
  import opened Loader
  import opened ExecImage
  import opened Exec

  const LOAD := 1          // ELF_PROG_LOAD
  const FLAG_EXEC := 1     // ELF_PROG_FLAG_EXEC
  const FLAG_WRITE := 2    // ELF_PROG_FLAG_WRITE

  /** A part of a program; only those of kind LOAD are for memory. */
  datatype Seg = Seg(kind: int, flags: int, vaddr: int, data: seq<int>, memsz: int)

  // ---------------------------------------------------------------- the file

  function FileHdr(entry: int, n: int): (s: seq<int>)
    ensures |s| == ELFHDR
  {
    Le(MAGIC, 4) + Le(0, 20) + Le(entry, 8) + Le(ELFHDR, 8) + Le(0, 16) + Le(n, 2) + Le(0, 6)
  }

  function ProgHdr(g: Seg, off: int): (s: seq<int>)
    ensures |s| == PROGHDR
  {
    Le(g.kind, 4) + Le(g.flags, 4) + Le(off, 8) + Le(g.vaddr, 8) + Le(g.vaddr, 8) + Le(|g.data|, 8) + Le(g.memsz, 8)
    + Le(PGSIZE, 8)
  }

  /** The contents of the first k parts, one after the other. */
  function Contents(segs: seq<Seg>, k: nat): (s: seq<int>)
    requires k <= |segs|
  {
    if k == 0 then [] else Contents(segs, k - 1) + segs[k - 1].data
  }

  /** Where the contents of part i stand in the file. */
  function DataAt(segs: seq<Seg>, i: nat): (at: int)
    requires i <= |segs|
  {
    ELFHDR + PROGHDR * |segs| + |Contents(segs, i)|
  }

  function Headers(segs: seq<Seg>, k: nat): (s: seq<int>)
    requires k <= |segs|
    ensures |s| == PROGHDR * k
  {
    if k == 0 then [] else Headers(segs, k - 1) + ProgHdr(segs[k - 1], DataAt(segs, k - 1))
  }

  function Link(entry: int, segs: seq<Seg>): (file: seq<int>)
    ensures |file| == DataAt(segs, |segs|)
  {
    FileHdr(entry, |segs|) + Headers(segs, |segs|) + Contents(segs, |segs|)
  }

  /** The fields have their widths; parts for memory are page-aligned, not empty and in order. */
  predicate Linkable(entry: int, segs: seq<Seg>) {
    && 0 <= entry < U64 && |segs| < 65536 && DataAt(segs, |segs|) < 0x8000_0000
    && (forall i :: 0 <= i < |segs| ==> SegOk(segs[i]))
    && (forall i, j :: 0 <= i < j < |segs| && segs[i].kind == LOAD == segs[j].kind ==> EndOf(segs[i]) <= segs[j].vaddr)
  }

  function EndOf(g: Seg): (a: int) { g.vaddr + g.memsz }

  predicate SegOk(g: Seg) {
    && 0 <= g.kind < U32 && 0 <= g.flags < U32 && 0 <= g.vaddr && 0 <= g.memsz && EndOf(g) < U64 && IsBytes(g.data)
    && (g.kind == LOAD ==> g.vaddr % PGSIZE == 0 && 0 < g.memsz && |g.data| <= g.memsz)
  }

  // ---------------------------------------------------------------- numbers

  lemma {:induction false} LeBytes(x: int, n: nat)
    ensures IsBytes(Le(x, n))
    decreases n
  {
    if n > 0 {
      LeBytes(x / 256, n - 1);
    }
  }

  lemma {:induction false} NumLe(file: seq<int>, at: int, x: int, n: nat)
    requires 0 <= at && at + n <= |file| && file[at..at + n] == Le(x, n) && 0 <= x < Power(n)
    ensures Num(file, at, n) == x
    decreases n
  {
    if n > 0 {
      assert file[at] == file[at..at + n][0] == x % 256;
      assert file[at + 1..at + 1 + (n - 1)] == file[at..at + n][1..] == Le(x / 256, n - 1);
      NumLe(file, at + 1, x / 256, n - 1);
    }
  }

  lemma Powers()
    ensures Power(2) == 65536 && Power(4) == U32 && Power(8) == U64
  {
    assert Power(2) == 65536;
    assert Power(4) == U32;
    Power8();
  }

  /** A field of a header that stands in the file. */
  lemma Field(file: seq<int>, at: int, h: seq<int>, i: int, x: int, n: nat)
    requires 0 <= at && at + |h| <= |file| && file[at..at + |h|] == h && 0 <= i && i + n <= |h|
    requires h[i..i + n] == Le(x, n) && 0 <= x < Power(n)
    ensures Num(file, at + i, n) == x
  {
    var a, b := file[at + i..at + i + n], h[i..i + n];
    forall k | 0 <= k < n
      ensures a[k] == b[k]
    {
      assert file[at..at + |h|][i + k] == h[i + k];
    }
    NumLe(file, at + i, x, n);
  }

  /** Reading a header back. */
  lemma HeaderRead(file: seq<int>, at: int, g: Seg, off: int)
    requires 0 <= at && at + PROGHDR <= |file| && file[at..at + PROGHDR] == ProgHdr(g, off)
    requires SegOk(g) && 0 <= off < U64 && |g.data| < U64
    ensures Decode(file, at) == Ph(g.kind == LOAD, g.flags, off, g.vaddr, |g.data|, g.memsz)
  {
    hide Num, Power, Le, IsBytes;
    Powers();
    var h := ProgHdr(g, off);
    Field(file, at, h, 0, g.kind, 4);
    Field(file, at, h, 4, g.flags, 4);
    Field(file, at, h, 8, off, 8);
    Field(file, at, h, 16, g.vaddr, 8);
    Field(file, at, h, 32, |g.data|, 8);
    Field(file, at, h, 40, g.memsz, 8);
  }

  // ---------------------------------------------------------------- where things stand in the file

  lemma {:induction false} ContentsGrow(segs: seq<Seg>, i: nat, k: nat)
    requires i <= k <= |segs|
    ensures Contents(segs, i) <= Contents(segs, k)
    decreases k
  {
    if i < k {
      ContentsGrow(segs, i, k - 1);
    }
  }

  lemma {:induction false} HeaderAt(segs: seq<Seg>, i: nat, k: nat)
    requires i < k <= |segs|
    ensures Headers(segs, k)[PROGHDR * i..PROGHDR * i + PROGHDR] == ProgHdr(segs[i], DataAt(segs, i))
    decreases k
  {
    hide ProgHdr, DataAt;
    var h := Headers(segs, k - 1);
    if i < k - 1 {
      HeaderAt(segs, i, k - 1);
      assert Headers(segs, k)[PROGHDR * i..PROGHDR * i + PROGHDR] == h[PROGHDR * i..PROGHDR * i + PROGHDR];
    }
  }

  lemma {:induction false} DataIn(segs: seq<Seg>, i: nat, k: nat)
    requires i < k <= |segs|
    ensures |Contents(segs, i)| + |segs[i].data| <= |Contents(segs, k)|
    ensures Contents(segs, k)[|Contents(segs, i)|..|Contents(segs, i)| + |segs[i].data|] == segs[i].data
  {
    ContentsGrow(segs, i + 1, k);
    var c, d := Contents(segs, i), segs[i].data;
    assert Contents(segs, i + 1) == c + d;
    hide Contents;
    Begins(Contents(segs, k), c, d);
  }

  lemma Begins(s: seq<int>, c: seq<int>, d: seq<int>)
    requires c + d <= s
    ensures |c| + |d| <= |s| && s[|c|..|c| + |d|] == d
  {
    assert s[..|c| + |d|] == c + d;
    assert s[|c|..|c| + |d|] == (c + d)[|c|..];
  }

  lemma Middle(a: seq<int>, b: seq<int>, c: seq<int>, i: int, n: int)
    requires 0 <= i && 0 <= n && i + n <= |b|
    ensures (a + b + c)[|a| + i..|a| + i + n] == b[i..i + n]
  {
  }

  lemma Behind(a: seq<int>, b: seq<int>, i: int, n: int)
    requires 0 <= i && 0 <= n && i + n <= |b|
    ensures (a + b)[|a| + i..|a| + i + n] == b[i..i + n]
  {
  }

  lemma LinkHasHeader(entry: int, segs: seq<Seg>, i: nat)
    requires i < |segs|
    ensures var file, at := Link(entry, segs), ELFHDR + PROGHDR * i;
      && at + PROGHDR <= |file| && file[at..at + PROGHDR] == ProgHdr(segs[i], DataAt(segs, i))
  {
    HeaderAt(segs, i, |segs|);
    hide FileHdr, Headers, Contents, ProgHdr;
    Middle(FileHdr(entry, |segs|), Headers(segs, |segs|), Contents(segs, |segs|), PROGHDR * i, PROGHDR);
  }

  lemma LinkHasData(entry: int, segs: seq<Seg>, i: nat)
    requires i < |segs|
    ensures var file, at, n := Link(entry, segs), DataAt(segs, i), |segs[i].data|;
      && at + n <= |file| && file[at..at + n] == segs[i].data
  {
    hide FileHdr, Headers, Contents, Link;
    var h, c, d := FileHdr(entry, |segs|) + Headers(segs, |segs|), Contents(segs, |segs|), |Contents(segs, i)|;
    DataIn(segs, i, |segs|);
    LinkIs(entry, segs);
    Behind(h, c, d, |segs[i].data|);
    assert DataAt(segs, i) == |h| + d;
  }

  lemma LinkIs(entry: int, segs: seq<Seg>)
    ensures Link(entry, segs) == (FileHdr(entry, |segs|) + Headers(segs, |segs|)) + Contents(segs, |segs|)
  {
    hide FileHdr, Headers, Contents;
  }

  /** The file header read back. */
  lemma LinkHeader(entry: int, segs: seq<Seg>)
    requires Linkable(entry, segs)
    ensures var file := Link(entry, segs);
      HasHeader(file) && Entry(file) == entry && Phoff(file) == ELFHDR && Phnum(file) == |segs|
  {
    var file, h := Link(entry, segs), FileHdr(entry, |segs|);
    hide Headers, Contents, Link, Num, Power, Le;
    assert file[0..0 + |h|] == h by { LinkStarts(entry, segs); }
    Powers();
    Field(file, 0, h, 0, MAGIC, 4);
    Field(file, 0, h, 24, entry, 8);
    Field(file, 0, h, 32, ELFHDR, 8);
    Field(file, 0, h, 56, |segs|, 2);
  }

  lemma LinkStarts(entry: int, segs: seq<Seg>)
    ensures FileHdr(entry, |segs|) <= Link(entry, segs)
  {
    hide FileHdr, Headers, Contents;
  }

  /** Program header i of the linked file. */
  lemma LinkedPh(entry: int, segs: seq<Seg>, i: nat)
    requires Linkable(entry, segs) && i < |segs|
    ensures var file, g := Link(entry, segs), segs[i];
      && HasHeader(file) && Readable(file, i) && |file| < U32
      && PhAt(file, i) == Ph(g.kind == LOAD, g.flags, DataAt(segs, i), g.vaddr, |g.data|, g.memsz)
      && 0 <= DataAt(segs, i) && DataAt(segs, i) + |g.data| <= |file|
      && file[DataAt(segs, i)..DataAt(segs, i) + |g.data|] == g.data
  {
    hide Link, ProgHdr, Contents, Num, Decode;
    LinkHeader(entry, segs);
    LinkHasHeader(entry, segs, i);
    LinkHasData(entry, segs, i);
    assert SegOk(segs[i]);
    HeaderRead(Link(entry, segs), ELFHDR + PROGHDR * i, segs[i], DataAt(segs, i));
  }

  // ---------------------------------------------------------------- the image of the linked file

  lemma BytesPlus(a: seq<int>, b: seq<int>)
    requires IsBytes(a) && IsBytes(b)
    ensures IsBytes(a + b)
  {
  }

  lemma FileHdrBytes(entry: int, n: int)
    ensures IsBytes(FileHdr(entry, n))
  {
    hide Le;
    LeBytes(MAGIC, 4); LeBytes(0, 20); LeBytes(entry, 8); LeBytes(ELFHDR, 8);
    LeBytes(0, 16); LeBytes(n, 2); LeBytes(0, 6);
  }

  lemma ProgHdrBytes(g: Seg, off: int)
    ensures IsBytes(ProgHdr(g, off))
  {
    hide Le;
    LeBytes(g.kind, 4); LeBytes(g.flags, 4); LeBytes(off, 8); LeBytes(g.vaddr, 8);
    LeBytes(|g.data|, 8); LeBytes(g.memsz, 8); LeBytes(PGSIZE, 8);
  }

  lemma {:induction false} PartsBytes(entry: int, segs: seq<Seg>, k: nat)
    requires Linkable(entry, segs) && k <= |segs|
    ensures IsBytes(Headers(segs, k)) && IsBytes(Contents(segs, k))
    decreases k
  {
    hide IsBytes, ProgHdr, DataAt;
    if k == 0 {
      assert IsBytes([]) by { LeBytes(0, 0); }
    } else {
      PartsBytes(entry, segs, k - 1);
      ProgHdrBytes(segs[k - 1], DataAt(segs, k - 1));
      BytesPlus(Headers(segs, k - 1), ProgHdr(segs[k - 1], DataAt(segs, k - 1)));
      assert SegOk(segs[k - 1]);
      BytesPlus(Contents(segs, k - 1), segs[k - 1].data);
    }
  }

  lemma LinkBytes(entry: int, segs: seq<Seg>)
    requires Linkable(entry, segs)
    ensures IsBytes(Link(entry, segs))
  {
    FileHdrBytes(entry, |segs|);
    PartsBytes(entry, segs, |segs|);
    hide IsBytes, FileHdr, Headers, Contents;
    BytesPlus(FileHdr(entry, |segs|), Headers(segs, |segs|));
    BytesPlus(FileHdr(entry, |segs|) + Headers(segs, |segs|), Contents(segs, |segs|));
  }

  /** The end of the last part for memory among the first k. */
  function Top(segs: seq<Seg>, k: nat): (a: int)
    requires k <= |segs|
  {
    if k == 0 then 0 else if segs[k - 1].kind == LOAD then EndOf(segs[k - 1]) else Top(segs, k - 1)
  }

  lemma {:induction false} TopBelow(entry: int, segs: seq<Seg>, k: nat, j: nat)
    requires Linkable(entry, segs) && k <= j < |segs| && segs[j].kind == LOAD
    ensures 0 <= Top(segs, k) <= segs[j].vaddr
    decreases k
  {
    hide DataAt, IsBytes;
    assert SegOk(segs[j]);
    if k > 0 {
      assert SegOk(segs[k - 1]);
      TopBelow(entry, segs, k - 1, j);
    }
  }

  lemma {:induction false} TopAbove(entry: int, segs: seq<Seg>, i: nat, k: nat)
    requires Linkable(entry, segs) && i < k <= |segs| && segs[i].kind == LOAD
    ensures EndOf(segs[i]) <= Top(segs, k)
    decreases k
  {
    hide DataAt, IsBytes;
    if i < k - 1 {
      assert SegOk(segs[k - 1]);
      TopAbove(entry, segs, i, k - 1);
    }
  }

  /** How far the image reaches. */
  lemma {:induction false} LinkedSize(entry: int, segs: seq<Seg>, k: nat)
    requires Linkable(entry, segs) && k <= |segs|
    ensures HasHeader(Link(entry, segs)) && SizeAfter(Link(entry, segs), k) == Upto(Top(segs, k))
    decreases k
  {
    hide Link, DataAt, PhAt, Readable, HasHeader;
    LinkHeader(entry, segs);
    if k > 0 {
      LinkedSize(entry, segs, k - 1);
      LinkedPh(entry, segs, k - 1);
      var g := segs[k - 1];
      assert SegOk(g);
      if g.kind == LOAD {
        TopBelow(entry, segs, k - 1, k - 1);
        assert (g.vaddr + g.memsz) % U64 == g.vaddr + g.memsz;
      }
    }
  }

  function ByteIn(g: Seg, a: int): (b: int) {
    if 0 <= a - g.vaddr < |g.data| then g.data[a - g.vaddr] else 0
  }

  lemma ByteStep(entry: int, segs: seq<Seg>, k: nat, a: int, b: int)
    requires Linkable(entry, segs) && 0 < k <= |segs|
    requires var g := segs[k - 1];
      if g.kind == LOAD && 0 <= a - g.vaddr < |g.data| then b == ByteIn(g, a)
      else ByteIs(Link(entry, segs), k - 1, a, b)
    ensures ByteIs(Link(entry, segs), k, a, b)
  {
    hide Link, DataAt, Contents, PhAt, Readable, HasHeader, SizeAfter, IsBytes, ByteOf, Linkable, Top, ByteIs;
    var file, g, at := Link(entry, segs), segs[k - 1], DataAt(segs, k - 1);
    LinkBytes(entry, segs);
    LinkedSize(entry, segs, k);
    LinkedPh(entry, segs, k - 1);
    if 0 <= a - g.vaddr < |g.data| {
      assert at % U32 == at;
      assert file[at..at + |g.data|][a - g.vaddr] == file[at + (a - g.vaddr)];
    }
    ByteTurn(file, k, a, b);
  }

  lemma InOrder(entry: int, segs: seq<Seg>, i: nat, j: nat)
    requires Linkable(entry, segs) && i < j < |segs| && segs[i].kind == LOAD == segs[j].kind
    ensures EndOf(segs[i]) <= segs[j].vaddr
  {
  }

  /** The bytes of the parts. */
  lemma {:induction false} LinkedByte(entry: int, segs: seq<Seg>, i: nat, k: nat, a: int)
    requires Linkable(entry, segs) && i < k <= |segs| && segs[i].kind == LOAD && segs[i].vaddr <= a < EndOf(segs[i])
    ensures ByteIs(Link(entry, segs), k, a, ByteIn(segs[i], a))
    decreases k
  {
    hide Link, ByteOf, Linkable, Good, SizeAfter;
    if i < k - 1 {
      LinkedByte(entry, segs, i, k - 1, a);
      if segs[k - 1].kind == LOAD {
        InOrder(entry, segs, i, k - 1);
      }
    } else if a - segs[i].vaddr >= |segs[i].data| {
      NothingThere(entry, segs, i, a);
    }
    ByteStep(entry, segs, k, a, ByteIn(segs[i], a));
  }

  lemma NothingThere(entry: int, segs: seq<Seg>, i: nat, a: int)
    requires Linkable(entry, segs) && i < |segs| && segs[i].kind == LOAD && segs[i].vaddr <= a
    ensures ByteIs(Link(entry, segs), i, a, 0)
  {
    hide Link, ByteOf, Linkable, SizeAfter, IsBytes, HasHeader;
    TopBelow(entry, segs, i, i);
    LinkedSize(entry, segs, i);
    LinkBytes(entry, segs);
    ZeroBeyond(Link(entry, segs), i, a);
  }

  /** Everything else is zero. */
  lemma {:induction false} LinkedGap(entry: int, segs: seq<Seg>, k: nat, a: int)
    requires Linkable(entry, segs) && k <= |segs|
    requires forall i :: 0 <= i < k && segs[i].kind == LOAD ==> !(segs[i].vaddr <= a < EndOf(segs[i]))
    ensures ByteIs(Link(entry, segs), k, a, 0)
    decreases k
  {
    hide Link, IsBytes, SizeAfter, DataAt;
    if k == 0 {
      LinkBytes(entry, segs);
      LinkedSize(entry, segs, 0);
    } else {
      hide ByteOf, Good;
      LinkedGap(entry, segs, k - 1, a);
      assert SegOk(segs[k - 1]);
      ByteStep(entry, segs, k, a, 0);
    }
  }

  lemma PageCounts(top: int, v: int)
    requires 0 <= top
    ensures top <= v * PGSIZE ==> PageCount(top) <= v
    ensures v * PGSIZE < top ==> v < PageCount(top)
  {
  }

  predicate PermOf(file: seq<int>, k: nat, v: int, perm: int) { Good(file, k) && PermAt(file, k, v) == perm }

  lemma PermStep(entry: int, segs: seq<Seg>, k: nat, v: int, perm: int)
    requires Linkable(entry, segs) && 0 < k <= |segs|
    requires if v < PageCount(Top(segs, k - 1)) then PermOf(Link(entry, segs), k - 1, v, perm)
             else perm == Flags2Perm(segs[k - 1].flags)
    ensures PermOf(Link(entry, segs), k, v, perm)
  {
    hide Link, DataAt, Contents, PhAt, Readable, HasHeader, SizeAfter, IsBytes, PageCount, Flags2Perm, Linkable, Top;
    LinkBytes(entry, segs);
    LinkedSize(entry, segs, k);
    LinkedSize(entry, segs, k - 1);
    LinkedPh(entry, segs, k - 1);
  }

  /** The permissions of the pages of the parts. */
  lemma {:induction false} LinkedPerm(entry: int, segs: seq<Seg>, i: nat, k: nat, v: int)
    requires Linkable(entry, segs) && i < k <= |segs| && segs[i].kind == LOAD
    requires segs[i].vaddr <= v * PGSIZE < EndOf(segs[i])
    ensures PermOf(Link(entry, segs), k, v, Flags2Perm(segs[i].flags))
    decreases k
  {
    hide Link, PermOf, Linkable, PageCount, Flags2Perm, Top;
    if i < k - 1 {
      LinkedPerm(entry, segs, i, k - 1, v);
      TopAbove(entry, segs, i, k - 1);
      assert 0 <= v by { AllOk(entry, segs, i); }
    } else {
      TopBelow(entry, segs, i, i);
    }
    PageCounts(Top(segs, k - 1), v);
    PermStep(entry, segs, k, v, Flags2Perm(segs[i].flags));
  }

  lemma AllOk(entry: int, segs: seq<Seg>, i: nat)
    requires Linkable(entry, segs) && i < |segs|
    ensures SegOk(segs[i])
  {
  }

  // ---------------------------------------------------------------- the program in memory

  /** Address a has the byte of part g, and its page is open to user code as the part's flags say. */
  ghost predicate PlacedAt(t: Trees, p: seq<Page>, root: int, g: Seg, a: int) {
    && Holding(t, p, root, a, ByteIn(g, a))
    && var e := Translate(t.tables, root, a / PGSIZE).value;
       && IsUser(e) && IsReadable(e)
       && (IsWritable(e) <==> (g.flags / FLAG_WRITE) % 2 == 1)
       && (IsExecutable(e) <==> (g.flags / FLAG_EXEC) % 2 == 1)
  }

  ghost predicate Placed(t: Trees, p: seq<Page>, root: int, g: Seg) {
    forall a :: g.vaddr <= a < EndOf(g) ==> PlacedAt(t, p, root, g, a)
  }

  lemma FlagBits(f: int, flags: int)
    ensures var e := MakePte(f, UserPerm(Flags2Perm(flags)));
      && IsUser(e) && IsReadable(e)
      && (IsWritable(e) <==> (flags / FLAG_WRITE) % 2 == 1)
      && (IsExecutable(e) <==> (flags / FLAG_EXEC) % 2 == 1)
  {
    UserPermBits(f, Flags2Perm(flags));
  }

  lemma PageFloor(g: Seg, a: int)
    requires SegOk(g) && g.kind == LOAD && g.vaddr <= a < EndOf(g)
    ensures g.vaddr <= a / PGSIZE * PGSIZE < EndOf(g) && 0 <= a
  {
  }

  lemma PartPlaced(t: Trees, p: seq<Page>, root: int, entry: int, segs: seq<Seg>, i: nat, n: int)
    requires Linkable(entry, segs) && i < |segs| && segs[i].kind == LOAD && n == PageCount(Top(segs, |segs|))
    requires IsImage(t, p, root, Link(entry, segs), |segs|, n)
    ensures Placed(t, p, root, segs[i])
  {
    hide Link, Linkable, Good, ByteOf, PermAt, Flags2Perm, Holding, PageCount, Top, IsUser, IsReadable, IsWritable,
         IsExecutable;
    var file, k, g := Link(entry, segs), |segs|, segs[i];
    forall a | g.vaddr <= a < EndOf(g)
      ensures PlacedAt(t, p, root, g, a)
    {
      var v := a / PGSIZE;
      AllOk(entry, segs, i);
      PageFloor(g, a);
      TopAbove(entry, segs, i, k);
      PageCounts(Top(segs, k), v);
      assert In(a, n);
      assert ByteOk(t, p, root, file, k, a) && PageOk(t, root, file, k, v);
      LinkedByte(entry, segs, i, k, a);
      LinkedPerm(entry, segs, i, k, v);
      FlagBits(Frame(Translate(t.tables, root, v).value), g.flags);
    }
  }

  // ---------------------------------------------------------------- the arguments as main finds them

  /** At sp stand argc pointers and a null pointer, as numbers of 64 bits, and each points to its argument. */
  ghost predicate HasArgs(t: Trees, p: seq<Page>, root: int, argv: seq<seq<int>>, sp: int) {
    exists bytes :: Loaded(t, p, root, sp, bytes) && PointsTo(t, p, root, argv, bytes)
  }

  ghost predicate PointsTo(t: Trees, p: seq<Page>, root: int, argv: seq<seq<int>>, bytes: seq<int>) {
    && |bytes| == 8 * |argv| + 8 && Num(bytes, 8 * |argv|, 8) == 0
    && forall i :: 0 <= i < |argv| ==> Loaded(t, p, root, Num(bytes, 8 * i, 8), argv[i] + [0])
  }

  lemma {:induction false} PointerAt(argv: seq<seq<int>>, top: int, i: nat, n: nat)
    requires i < n <= |argv|
    ensures Pointers(argv, top, n)[8 * i..8 * i + 8] == Le(ArgAt(argv, top, i), 8)
    decreases n
  {
    hide Le, ArgAt;
    if i < n - 1 {
      PointerAt(argv, top, i, n - 1);
      assert Pointers(argv, top, n)[8 * i..8 * i + 8] == Pointers(argv, top, n - 1)[8 * i..8 * i + 8];
    }
  }

  lemma ArgRange(argv: seq<seq<int>>, top: int, i: nat)
    requires i < |argv|
    ensures ArgvAt(argv, top) <= ArgAt(argv, top, i) <= top
  {
    ArgvBelow(argv, top, i + 1);
    SpDown(argv, top, 0, i + 1);
  }

  lemma PointerRead(argv: seq<seq<int>>, top: int, base: int, i: nat)
    requires i < |argv| && Fit(argv, top, base) && 0 <= base <= top < U64
    ensures Num(Pointers(argv, top, |argv|) + Le(0, 8), 8 * i, 8) == ArgAt(argv, top, i)
  {
    hide Le, Num, Pointers, Power, ArgAt, ArgvAt;
    PointerAt(argv, top, i, |argv|);
    ArgRange(argv, top, i);
    Powers();
    var ps := Pointers(argv, top, |argv|);
    assert (ps + Le(0, 8))[8 * i..8 * i + 8] == ps[8 * i..8 * i + 8];
    NumLe(ps + Le(0, 8), 8 * i, ArgAt(argv, top, i), 8);
  }

  lemma NullRead(argv: seq<seq<int>>, top: int)
    ensures Num(Pointers(argv, top, |argv|) + Le(0, 8), 8 * |argv|, 8) == 0
  {
    hide Le, Num, Pointers, Power;
    Powers();
    var ps := Pointers(argv, top, |argv|);
    Behind(ps, Le(0, 8), 0, 8);
    assert Le(0, 8)[0..8] == Le(0, 8);
    NumLe(ps + Le(0, 8), 8 * |argv|, 0, 8);
  }

  lemma ArgsFound(t: Trees, p: seq<Page>, root: int, argv: seq<seq<int>>, top: int, base: int)
    requires Arguments(t, p, root, argv, top) && Fit(argv, top, base) && 0 <= base <= top < U64
    ensures HasArgs(t, p, root, argv, ArgvAt(argv, top))
  {
    hide Num, Le, Pointers, ArgAt, ArgvAt, Loaded, Fit;
    var bytes := Pointers(argv, top, |argv|) + Le(0, 8);
    NullRead(argv, top);
    forall i | 0 <= i < |argv|
      ensures Loaded(t, p, root, Num(bytes, 8 * i, 8), argv[i] + [0])
    {
      PointerRead(argv, top, base, i);
    }
    assert PointsTo(t, p, root, argv, bytes);
  }

  // ---------------------------------------------------------------- exec of the linked file

  /** What was linked is in memory, each part where it belongs, and nothing else but zeroes. */
  ghost predicate AllPlaced(t: Trees, p: seq<Page>, root: int, segs: seq<Seg>, n: int) {
    && (forall i :: 0 <= i < |segs| && segs[i].kind == LOAD ==> Placed(t, p, root, segs[i]))
    && (forall a :: In(a, n) && InNoPart(segs, a) ==> Holding(t, p, root, a, 0))
  }

  predicate InNoPart(segs: seq<Seg>, a: int) {
    forall i :: 0 <= i < |segs| && segs[i].kind == LOAD ==> !(segs[i].vaddr <= a < EndOf(segs[i]))
  }

  lemma PartsPlaced(t: Trees, p: seq<Page>, root: int, entry: int, segs: seq<Seg>, n: int)
    requires Linkable(entry, segs) && n == PageCount(Top(segs, |segs|))
    requires IsImage(t, p, root, Link(entry, segs), |segs|, n)
    ensures AllPlaced(t, p, root, segs, n)
  {
    hide Placed, Link, Linkable, Top, PageCount, Holding, Good, ByteOf, PageOk;
    forall i | 0 <= i < |segs| && segs[i].kind == LOAD
      ensures Placed(t, p, root, segs[i])
    {
      PartPlaced(t, p, root, entry, segs, i, n);
    }
    forall a | In(a, n) && InNoPart(segs, a)
      ensures Holding(t, p, root, a, 0)
    {
      assert ByteOk(t, p, root, Link(entry, segs), |segs|, a);
      LinkedGap(entry, segs, |segs|, a);
    }
  }

  lemma TopRange(entry: int, segs: seq<Seg>, k: nat)
    requires Linkable(entry, segs) && k <= |segs|
    ensures 0 <= Top(segs, k) < U64
  {
    hide DataAt, IsBytes;
    if k > 0 {
      assert SegOk(segs[k - 1]);
      TopRange(entry, segs, k - 1);
    }
  }

  lemma LinkedProgram(t: Trees, p: seq<Page>, root: int, entry: int, segs: seq<Seg>, argv: seq<seq<int>>, sz: int)
    requires Linkable(entry, segs) && Program(t, p, root, Link(entry, segs), argv, sz)
    ensures var n := PageCount(Top(segs, |segs|));
      && sz == (n + USERSTACK + 1) * PGSIZE && AllPlaced(t, p, root, segs, n) && HasStack(t, root, n)
      && HasArgs(t, p, root, argv, ArgvAt(argv, sz))
  {
    hide Link, Linkable, Top, AllPlaced, HasArgs, Arguments, HasStack, IsImage, SizeAfter, ArgvAt;
    LinkHeader(entry, segs);
    LinkedSize(entry, segs, |segs|);
    TopRange(entry, segs, |segs|);
    PartsPlaced(t, p, root, entry, segs, PageCount(Top(segs, |segs|)));
    ArgsFound(t, p, root, argv, sz, sz - PGSIZE);
  }

  /**
   exec of a file as the linker writes it: every part for memory is in place with its bytes, zeroes behind
   them and its permissions, main finds its arguments, and control starts at the entry point.  It fails
   only if the arguments are too many or too long, or frames are short.
   */
  method RunLinked(m: Memory, oldroot: int, oldsz: int, trampoline: int, trapframe: int, entry: int, segs: seq<Seg>,
          argv: seq<seq<int>>)
    returns (root: int, sz: int, start: int, sp: int)
    requires m.Valid() && 0 <= oldsz && ProcSpace(m.T(), oldroot, PageCount(oldsz)) && |m.owner| <= PHYSFRAMES
    requires 0 < trampoline && 0 < trapframe && m.T().IsFrame(trampoline) && m.T().IsFrame(trapframe)
    requires m.owner[trampoline].Kernel? && m.owner[trapframe].Kernel?
    requires Linkable(entry, segs) && |argv| != MAXARG
    modifies m
    ensures m.Valid()
    ensures var n := PageCount(Top(segs, |segs|));
      if root == 0 then
        && Restored(old(m.T()), m.T()) && SamePages(old(m.owner), old(m.pages), m.pages)
        && (!StackFits(argv, n) || |old(m.freelist)| < 5 + 3 * (n + USERSTACK + 1))
      else
        && Replaced(old(m.T()), m.T(), oldroot, root) && TopIs(m.T(), root, trampoline, trapframe)
        && start == entry && sz == (n + USERSTACK + 1) * PGSIZE && HasStack(m.T(), root, n)
        && AllPlaced(m.T(), m.pages, root, segs, n) && HasArgs(m.T(), m.pages, root, argv, sp)
  {
    hide Link, Linkable, Top, AllPlaced, HasArgs, HasStack, SizeAfter, ArgvAt, Program, StackFits, HasHeader, IsBytes;
    LinkBytes(entry, segs);
    LinkHeader(entry, segs);
    LinkedSize(entry, segs, |segs|);
    var file := Link(entry, segs);
    assert |file| < 0x8000_0000 by { FileSize(entry, segs); }
    root, sz, start, sp := Exec.Exec(m, oldroot, oldsz, trampoline, trapframe, file, argv);
    if root != 0 {
      LinkedProgram(m.T(), m.pages, root, entry, segs, argv, sz);
    }
  }

  lemma FileSize(entry: int, segs: seq<Seg>)
    requires Linkable(entry, segs)
    ensures |Link(entry, segs)| < 0x8000_0000
  {
    hide DataAt;
  }
}
