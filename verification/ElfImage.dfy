/**
 What an ELF file asks exec for (kernel/elf.h, kernel/exec.c): the sizes, permissions and bytes of the
 image, as functions of the bytes of the file, and where the arguments go on the stack.
 */
module ElfImage {
  import opened PageTable
  import opened AddressSpace

  const MAGIC := 0x464C457F
  const ELFHDR := 64      // size of the file header
  const PROGHDR := 56     // size of a program header
  const U32 := 0x1_0000_0000
  const U64 := 0x1_0000_0000_0000_0000

  // ---------------------------------------------------------------- the file

  predicate IsBytes(s: seq<int>) { forall i :: 0 <= i < |s| ==> 0 <= s[i] < 256 }

  function Power(n: nat): (p: int)
    ensures p > 0
  {
    if n == 0 then 1 else 256 * Power(n - 1)
  }

  /** The little-endian number in n bytes of the file. */
  function Num(file: seq<int>, at: int, n: nat): (v: int)
    requires 0 <= at && at + n <= |file|
    decreases n
  {
    if n == 0 then 0 else file[at] + 256 * Num(file, at + 1, n - 1)
  }

  lemma {:induction false} NumRange(file: seq<int>, at: int, n: nat)
    requires IsBytes(file) && 0 <= at && at + n <= |file|
    ensures 0 <= Num(file, at, n) < Power(n)
    decreases n
  {
    if n > 0 {
      NumRange(file, at + 1, n - 1);
    }
  }

  predicate HasHeader(file: seq<int>) { |file| >= ELFHDR && Num(file, 0, 4) == MAGIC }

  function Entry(file: seq<int>): (v: int)
    requires HasHeader(file)
  {
    Num(file, 24, 8)
  }

  function Phoff(file: seq<int>): (v: int)
    requires HasHeader(file)
  {
    Num(file, 32, 8)
  }

  function Phnum(file: seq<int>): (v: int)
    requires HasHeader(file)
  {
    Num(file, 56, 2)
  }

  datatype Ph = Ph(load: bool, flags: int, off: int, vaddr: int, filesz: int, memsz: int)

  /** Where program header i stands: exec keeps the position in 32 bits. */
  function PhPos(file: seq<int>, i: int): (at: int)
    requires HasHeader(file)
    ensures 0 <= at < U32
  {
    (Phoff(file) + PROGHDR * i) % U32
  }

  predicate Readable(file: seq<int>, i: int)
    requires HasHeader(file)
  {
    PhPos(file, i) + PROGHDR <= |file|
  }

  /** The program header at a position of the file. */
  function Decode(file: seq<int>, at: int): (ph: Ph)
    requires 0 <= at && at + PROGHDR <= |file|
  {
    Ph(Num(file, at, 4) == 1, Num(file, at + 4, 4), Num(file, at + 8, 8), Num(file, at + 16, 8),
       Num(file, at + 32, 8), Num(file, at + 40, 8))
  }

  function PhAt(file: seq<int>, i: int): (ph: Ph)
    requires HasHeader(file) && Readable(file, i)
  {
    Decode(file, PhPos(file, i))
  }

  lemma NextPos(file: seq<int>, i: int)
    requires HasHeader(file)
    ensures PhPos(file, i + 1) == (PhPos(file, i) + PROGHDR) % U32
  {
    var x := Phoff(file) + PROGHDR * i;
    assert x + PROGHDR == (x / U32) * U32 + (x % U32 + PROGHDR);
    AddMultiple(x / U32, x % U32 + PROGHDR);
  }

  lemma AddMultiple(q: int, r: int)
    ensures (q * U32 + r) % U32 == r % U32
  {
  }

  /** The checks on a header to be loaded: the file part fits, the end does not wrap, and pages are aligned. */
  predicate Sane(ph: Ph) {
    ph.memsz >= ph.filesz && (ph.vaddr + ph.memsz) % U64 >= ph.vaddr && ph.vaddr % PGSIZE == 0
  }

  /** All bytes of the segment are in the file; loadseg takes the position in 32 bits. */
  predicate InFile(file: seq<int>, ph: Ph) { ph.filesz == 0 || ph.off % U32 + ph.filesz <= |file| }

  lemma SaneRange(file: seq<int>, i: int)
    requires IsBytes(file) && HasHeader(file) && Readable(file, i)
    ensures var ph := PhAt(file, i);
      && 0 <= ph.vaddr && 0 <= ph.filesz && 0 <= ph.off && 0 <= ph.memsz
      && (Sane(ph) ==> ph.vaddr + ph.memsz < U64)
  {
    hide Num, Power;
    var at := PhPos(file, i);
    NumRange(file, at + 8, 8);
    NumRange(file, at + 16, 8);
    NumRange(file, at + 32, 8);
    NumRange(file, at + 40, 8);
    Power8();
    var ph := PhAt(file, i);
    if ph.vaddr + ph.memsz >= U64 {
      Wraps(ph.vaddr, ph.memsz);
    }
  }

  lemma Power8()
    ensures Power(8) == U64
  {
    assert Power(2) == 65536;
    assert Power(4) == U32;
    assert Power(6) == U32 * 65536;
  }

  lemma Wraps(a: int, b: int)
    requires 0 <= a < U64 && 0 <= b < U64 && a + b >= U64
    ensures (a + b) % U64 == a + b - U64
  {
  }

  // ---------------------------------------------------------------- the image

  datatype Size = Bad | Upto(sz: int)

  /** How far the image reaches after the first k headers. */
  function SizeAfter(file: seq<int>, k: nat): (r: Size)
    requires HasHeader(file)
  {
    if k == 0 then Upto(0)
    else
      var r := SizeAfter(file, k - 1);
      if r.Bad? || !Readable(file, k - 1) then Bad
      else
        var ph := PhAt(file, k - 1);
        if !ph.load then r
        else if !Sane(ph) then Bad
        else
          var sz := if ph.vaddr + ph.memsz < r.sz then r.sz else ph.vaddr + ph.memsz;
          if sz == 0 || !InFile(file, ph) then Bad else Upto(sz)
  }

  /** The permissions that header k asks for beyond reading. */
  function Flags2Perm(flags: int): (perm: int) {
    (if flags % 2 == 1 then PTE_X else 0) + (if (flags / 2) % 2 == 1 then PTE_W else 0)
  }

  /** The permissions of page v: those of the header that made the image reach it. */
  function PermAt(file: seq<int>, k: nat, v: int): (perm: int)
    requires HasHeader(file) && SizeAfter(file, k).Upto?
  {
    if k == 0 then 0
    else if v < PageCount(SizeAfter(file, k - 1).sz) then PermAt(file, k - 1, v)
    else Flags2Perm(PhAt(file, k - 1).flags)
  }

  /** What readi of n bytes at a 32-bit position gives. */
  function Window(file: seq<int>, off: int, n: int): (r: seq<int>)
    requires 0 <= off && 0 <= n
    ensures |r| <= n && (|r| == n <==> n == 0 || off + n <= |file|)
  {
    if off >= |file| then [] else if off + n > |file| then file[off..] else file[off..off + n]
  }

  /** The byte at address a: that of the last segment that has it, or zero. */
  function ByteOf(file: seq<int>, k: nat, a: int): (b: int)
    requires IsBytes(file) && HasHeader(file) && SizeAfter(file, k).Upto?
  {
    if k == 0 then 0
    else
      var ph := PhAt(file, k - 1);
      SaneRange(file, k - 1);
      if ph.load && ph.vaddr <= a < ph.vaddr + ph.filesz then file[ph.off % U32 + (a - ph.vaddr)]
      else ByteOf(file, k - 1, a)
  }

  lemma {:induction false} SizesGrow(file: seq<int>, j: nat, k: nat)
    requires IsBytes(file) && HasHeader(file) && SizeAfter(file, k).Upto? && j <= k
    ensures SizeAfter(file, j).Upto? && 0 <= SizeAfter(file, j).sz <= SizeAfter(file, k).sz
    decreases k
  {
    hide PhAt, Readable, Num, Sane, InFile, IsBytes, HasHeader;
    if k > 0 {
      SizesGrow(file, 0, k - 1);
      if j < k {
        SizesGrow(file, j, k - 1);
      }
    }
  }

  /** Beyond the image there is nothing but zeroes. */
  lemma {:induction false} ZeroBeyond(file: seq<int>, k: nat, a: int)
    requires IsBytes(file) && HasHeader(file) && SizeAfter(file, k).Upto? && a >= SizeAfter(file, k).sz
    ensures ByteOf(file, k, a) == 0
  {
    hide PhAt, Readable, Num, InFile, IsBytes, HasHeader;
    if k > 0 {
      SaneRange(file, k - 1);
      ZeroBeyond(file, k - 1, a);
    }
  }

  // ---------------------------------------------------------------- arguments

  const MAXARG := 32

  /** The stack pointer after n bytes are pushed: 16-byte aligned. */
  function Lowered(sp: int, n: int): (r: int)
    ensures r % 16 == 0 && sp - n - 16 < r <= sp - n
  {
    sp - n - (sp - n) % 16
  }

  /** Where argument i goes, below the top of the stack. */
  function ArgAt(argv: seq<seq<int>>, top: int, i: nat): (sp: int)
    requires i < |argv|
  {
    Lowered(if i == 0 then top else ArgAt(argv, top, i - 1), |argv[i]| + 1)
  }

  /** Where the array of pointers to the arguments goes. */
  function ArgvAt(argv: seq<seq<int>>, top: int): (sp: int) {
    Lowered(if argv == [] then top else ArgAt(argv, top, |argv| - 1), 8 * (|argv| + 1))
  }

  /** 64 bits, low byte first. */
  function Le(x: int, n: nat): (s: seq<int>)
    ensures |s| == n
    decreases n
  {
    if n == 0 then [] else [x % 256] + Le(x / 256, n - 1)
  }

  /** The array of the first n pointers. */
  function Pointers(argv: seq<seq<int>>, top: int, n: nat): (s: seq<int>)
    requires n <= |argv|
    ensures |s| == 8 * n
  {
    if n == 0 then [] else Pointers(argv, top, n - 1) + Le(ArgAt(argv, top, n - 1), 8)
  }

  /** The arguments are not too many, and they and the array fit between base and top. */
  predicate Fit(argv: seq<seq<int>>, top: int, base: int) { |argv| <= MAXARG && ArgvAt(argv, top) >= base }
}
