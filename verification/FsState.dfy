/**
 The on-disk structures of kernel/fs.c as values: the free bitmap, the inode table with its
 direct and indirect block pointers, and the contents of the blocks.  The laws here say which
 block belongs to which pointer and how single updates move that ownership; the operations
 themselves are in FileSystem.
 */
module FsState {

  const BSIZE := 1024
  const NDIRECT := 12
  const NINDIRECT := 256
  const MAXFILE := NDIRECT + NINDIRECT
  const BPB := 8 * BSIZE
  const IPB := 16

  /** The pointers of one inode: NDIRECT direct ones, the indirect one, the indirect block's entries. */
  const NSLOTS := NDIRECT + 1 + NINDIRECT

  type Block = seq<int>

  datatype Superblock = Superblock(size: int, nmeta: int, ninodes: int, inodestart: int, bmapstart: int) {
    predicate Ok() {
      && 0 < inodestart && 0 < ninodes && 0 < nmeta <= size <= 0x1_0000_0000
      && inodestart + (ninodes - 1) / IPB < bmapstart
      && bmapstart + (size - 1) / BPB < nmeta
    }
    function IBlock(inum: int): int { inum / IPB + inodestart }
    function BBlock(b: int): int { b / BPB + bmapstart }
  }

  datatype Inode = Inode(kind: int, nlink: int, size: int, addrs: seq<int>)

  datatype Fs = Fs(inodes: seq<Inode>, data: seq<Block>)

  /** Unsigned 32-bit addition. */
  function Add32(a: int, b: int): (r: int)
    requires 0 <= a < 0x1_0000_0000 && 0 <= b < 0x1_0000_0000
    ensures r < a <==> a + b >= 0x1_0000_0000
    ensures a + b < 0x1_0000_0000 ==> r == a + b
  {
    (a + b) % 0x1_0000_0000
  }

  /** How many of `left` bytes at file position `at` lie in the block of `at`. */
  function ChunkLen(at: int, left: int): (m: int)
    requires 0 <= at && 0 < left
    ensures 0 < m <= left && at % BSIZE + m <= BSIZE
    ensures m < left ==> (at + m) % BSIZE == 0
  {
    if left < BSIZE - at % BSIZE then left else BSIZE - at % BSIZE
  }

  // ---------------------------------------------------------------- 32-bit words in a block

  function Zeroes(): (b: Block)
    ensures |b| == BSIZE && forall i :: 0 <= i < BSIZE ==> b[i] == 0
  {
    seq(BSIZE, _ => 0)
  }

  /** The little-endian number in the `n` bytes from `at` on. */
  function Number(b: Block, at: nat, n: nat): (v: int)
    requires at + n <= |b|
    decreases n
  {
    if n == 0 then 0 else b[at] + 0x100 * Number(b, at + 1, n - 1)
  }

  function PutNumber(b: Block, at: nat, n: nat, v: int): (r: Block)
    requires at + n <= |b|
    ensures |r| == |b|
    decreases n
  {
    if n == 0 then b else PutNumber(b[at := v % 0x100], at + 1, n - 1, v / 0x100)
  }

  function Power(n: nat): (p: int)
    ensures p > 0
  {
    if n == 0 then 1 else 0x100 * Power(n - 1)
  }

  lemma {:induction false} PutNumberFrame(b: Block, at: nat, n: nat, v: int, p: nat)
    requires at + n <= |b| && p < |b| && !(at <= p < at + n)
    ensures PutNumber(b, at, n, v)[p] == b[p]
    decreases n
  {
    if n > 0 {
      PutNumberFrame(b[at := v % 0x100], at + 1, n - 1, v / 0x100, p);
    }
  }

  lemma {:induction false} NumberFrame(b: Block, b': Block, at: nat, n: nat)
    requires at + n <= |b| == |b'| && forall p :: at <= p < at + n ==> b'[p] == b[p]
    ensures Number(b', at, n) == Number(b, at, n)
    decreases n
  {
    if n > 0 {
      NumberFrame(b, b', at + 1, n - 1);
    }
  }

  lemma {:induction false} NumberRoundTrip(b: Block, at: nat, n: nat, v: int)
    requires at + n <= |b| && 0 <= v < Power(n)
    ensures Number(PutNumber(b, at, n, v), at, n) == v
    decreases n
  {
    if n > 0 {
      NumberRoundTrip(b[at := v % 0x100], at + 1, n - 1, v / 0x100);
      PutNumberFrame(b[at := v % 0x100], at + 1, n - 1, v / 0x100, at);
    }
  }

  /** Entry `j` of a block read as little-endian 32-bit words. */
  function Word(b: Block, j: int): (v: int)
    requires |b| == BSIZE && 0 <= j < NINDIRECT
  {
    Number(b, 4 * j, 4)
  }

  function PutWord(b: Block, j: int, v: int): (r: Block)
    requires |b| == BSIZE && 0 <= j < NINDIRECT
    ensures |r| == BSIZE
  {
    PutNumber(b, 4 * j, 4, v)
  }

  lemma WordPutWord(b: Block, j: int, v: int, j': int)
    requires |b| == BSIZE && 0 <= j < NINDIRECT && 0 <= j' < NINDIRECT && 0 <= v < 0x1_0000_0000
    ensures Word(PutWord(b, j, v), j') == if j' == j then v else Word(b, j')
  {
    if j' == j {
      assert Power(4) == 0x100 * Power(3) && Power(3) == 0x100 * Power(2);
      NumberRoundTrip(b, 4 * j, 4, v);
    } else {
      forall p | 4 * j' <= p < 4 * j' + 4
        ensures PutWord(b, j, v)[p] == b[p]
      {
        PutNumberFrame(b, 4 * j, 4, v, p);
      }
      NumberFrame(b, PutWord(b, j, v), 4 * j', 4);
    }
  }

  lemma {:induction false} ZeroNumber(at: nat, n: nat)
    requires at + n <= BSIZE
    ensures Number(Zeroes(), at, n) == 0
    decreases n
  {
    if n > 0 {
      ZeroNumber(at + 1, n - 1);
    }
  }

  // ---------------------------------------------------------------- ownership of blocks

  ghost predicate Shaped(s: Fs, sb: Superblock) {
    && sb.Ok() && |s.data| == sb.size && |s.inodes| == sb.ninodes
    && (forall b :: 0 <= b < sb.size ==> |s.data[b]| == BSIZE)
    && (forall i :: 0 <= i < sb.ninodes ==>
         |s.inodes[i].addrs| == NDIRECT + 1 && 0 <= s.inodes[i].addrs[NDIRECT] < sb.size)
  }

  predicate IsSlot(i: int, k: int, sb: Superblock) { 0 <= i < sb.ninodes && 0 <= k < NSLOTS }

  /** The block number stored in pointer `k` of inode `i`; 0 means none. */
  ghost function Slot(s: Fs, sb: Superblock, i: int, k: int): (b: int)
    requires Shaped(s, sb) && IsSlot(i, k, sb)
  {
    var a := s.inodes[i].addrs;
    if k <= NDIRECT then a[k]
    else if a[NDIRECT] == 0 then 0
    else Word(s.data[a[NDIRECT]], k - NDIRECT - 1)
  }

  /** The pointer through which bmap reaches block `bn` of a file. */
  function SlotOf(bn: int): (k: int) { if bn < NDIRECT then bn else bn + 1 }

  type Owners = map<int, (int, int)>

  /** Every block in use is reached from exactly one pointer: `owner` and the pointers are inverse to each other. */
  ghost predicate Owned(s: Fs, sb: Superblock, owner: Owners) {
    && Shaped(s, sb)
    && (forall i, k :: IsSlot(i, k, sb) && Slot(s, sb, i, k) != 0 ==>
          Slot(s, sb, i, k) in owner && owner[Slot(s, sb, i, k)] == (i, k))
    && (forall b :: b in owner ==>
          sb.nmeta <= b < sb.size && IsSlot(owner[b].0, owner[b].1, sb) && Slot(s, sb, owner[b].0, owner[b].1) == b)
  }

  /** All pointers keep their value except pointer `k` of inode `i`, which now holds `b`. */
  ghost predicate SlotSet(s: Fs, s': Fs, sb: Superblock, i: int, k: int, b: int)
    requires Shaped(s, sb) && Shaped(s', sb)
  {
    forall i', k' :: IsSlot(i', k', sb) ==>
      Slot(s', sb, i', k') == if (i', k') == (i, k) then b else Slot(s, sb, i', k')
  }

  ghost predicate SlotsSame(s: Fs, s': Fs, sb: Superblock)
    requires Shaped(s, sb) && Shaped(s', sb)
  {
    forall i, k :: IsSlot(i, k, sb) ==> Slot(s', sb, i, k) == Slot(s, sb, i, k)
  }

  lemma OwnedShape(s: Fs, sb: Superblock, owner: Owners)
    requires Owned(s, sb, owner)
    ensures Shaped(s, sb)
  {
  }

  lemma OwnedRange(s: Fs, sb: Superblock, owner: Owners, b: int)
    requires Owned(s, sb, owner) && b in owner
    ensures 0 < sb.nmeta <= b < sb.size
  {
  }

  lemma AddrInUse(s: Fs, sb: Superblock, owner: Owners, i: int, k: int)
    requires Owned(s, sb, owner) && 0 <= i < sb.ninodes && 0 <= k <= NDIRECT
    ensures |s.inodes[i].addrs| == NDIRECT + 1 && Slot(s, sb, i, k) == s.inodes[i].addrs[k]
    ensures s.inodes[i].addrs[k] != 0 ==> sb.nmeta <= s.inodes[i].addrs[k] < sb.size
  {
    assert IsSlot(i, k, sb);
  }

  lemma SlotInUse(s: Fs, sb: Superblock, owner: Owners, i: int, k: int)
    requires Owned(s, sb, owner) && IsSlot(i, k, sb)
    ensures Slot(s, sb, i, k) != 0 ==> 0 < sb.nmeta <= Slot(s, sb, i, k) < sb.size && Slot(s, sb, i, k) in owner
  {
  }

  /** The indirect block of an inode is in use, as such. */
  lemma IndirectInUse(s: Fs, sb: Superblock, owner: Owners, i: int)
    requires Owned(s, sb, owner) && 0 <= i < sb.ninodes && s.inodes[i].addrs[NDIRECT] != 0
    ensures var ind := s.inodes[i].addrs[NDIRECT];
      ind in owner && owner[ind] == (i, NDIRECT) && sb.nmeta <= ind < sb.size && |s.data[ind]| == BSIZE
  {
    assert Slot(s, sb, i, NDIRECT) == s.inodes[i].addrs[NDIRECT];
  }

  /** A pointer that held nothing takes a block nobody owned. */
  lemma OwnedAttach(s: Fs, s': Fs, sb: Superblock, owner: Owners, i: int, k: int, b: int)
    requires Owned(s, sb, owner) && Shaped(s', sb) && IsSlot(i, k, sb)
    requires Slot(s, sb, i, k) == 0 && sb.nmeta <= b < sb.size && b !in owner
    requires SlotSet(s, s', sb, i, k, b)
    ensures Owned(s', sb, owner[b := (i, k)])
  {
  }

  /** A pointer is cleared. */
  lemma OwnedDetach(s: Fs, s': Fs, sb: Superblock, owner: Owners, i: int, k: int)
    requires Owned(s, sb, owner) && Shaped(s', sb) && IsSlot(i, k, sb) && Slot(s, sb, i, k) != 0
    requires SlotSet(s, s', sb, i, k, 0)
    ensures Owned(s', sb, owner - {Slot(s, sb, i, k)})
  {
  }

  lemma OwnedSame(s: Fs, s': Fs, sb: Superblock, owner: Owners)
    requires Owned(s, sb, owner) && Shaped(s', sb) && SlotsSame(s, s', sb)
    ensures Owned(s', sb, owner)
  {
  }

  // ---------------------------------------------------------------- what single updates do to pointers

  /** Overwriting a block that is not an indirect block moves no pointer. */
  lemma DataKeepsSlots(s: Fs, sb: Superblock, owner: Owners, b: int, data: Block)
    requires Owned(s, sb, owner) && 0 <= b < sb.size && |data| == BSIZE
    requires b != 0 && (b in owner ==> owner[b].1 != NDIRECT)
    ensures var s' := s.(data := s.data[b := data]);
            Shaped(s', sb) && SlotsSame(s, s', sb) && Owned(s', sb, owner)
  {
    var s' := s.(data := s.data[b := data]);
    forall i, k | IsSlot(i, k, sb)
      ensures Slot(s', sb, i, k) == Slot(s, sb, i, k)
    {
      assert Slot(s, sb, i, NDIRECT) != b;
    }
    OwnedSame(s, s', sb, owner);
  }

  ghost function WithAddr(s: Fs, i: int, k: int, b: int): (s': Fs)
    requires 0 <= i < |s.inodes| && 0 <= k < |s.inodes[i].addrs|
  {
    s.(inodes := s.inodes[i := s.inodes[i].(addrs := s.inodes[i].addrs[k := b])])
  }

  lemma AddrSetsSlot(s: Fs, sb: Superblock, i: int, k: int, b: int)
    requires Shaped(s, sb) && IsSlot(i, k, sb) && k <= NDIRECT && 0 <= b < sb.size
    requires k == NDIRECT ==> s.inodes[i].addrs[NDIRECT] == 0 && s.data[b] == Zeroes()
    ensures Shaped(WithAddr(s, i, k, b), sb) && SlotSet(s, WithAddr(s, i, k, b), sb, i, k, b)
    ensures Slot(s, sb, i, k) == 0 ==> Extends(s, WithAddr(s, i, k, b), sb)
  {
    var s' := WithAddr(s, i, k, b);
    forall i', k' | IsSlot(i', k', sb)
      ensures Slot(s', sb, i', k') == if (i', k') == (i, k) then b else Slot(s, sb, i', k')
    {
      if k' > NDIRECT {
        ZeroNumber(4 * (k' - NDIRECT - 1), 4);
      }
    }
  }

  ghost function WithEntry(s: Fs, i: int, j: int, b: int): (s': Fs)
    requires 0 <= i < |s.inodes| && |s.inodes[i].addrs| == NDIRECT + 1 && 0 <= s.inodes[i].addrs[NDIRECT] < |s.data|
    requires 0 <= j < NINDIRECT && |s.data[s.inodes[i].addrs[NDIRECT]]| == BSIZE
  {
    var ind := s.inodes[i].addrs[NDIRECT];
    s.(data := s.data[ind := PutWord(s.data[ind], j, b)])
  }

  lemma EntrySetsSlot(s: Fs, sb: Superblock, owner: Owners, i: int, j: int, b: int)
    requires Owned(s, sb, owner) && 0 <= i < sb.ninodes && 0 <= j < NINDIRECT && 0 <= b < sb.size
    requires s.inodes[i].addrs[NDIRECT] != 0
    ensures var s' := WithEntry(s, i, j, b);
            && Shaped(s', sb) && SlotSet(s, s', sb, i, NDIRECT + 1 + j, b)
            && (Slot(s, sb, i, NDIRECT + 1 + j) == 0 ==> Extends(s, s', sb))
  {
    var s' := WithEntry(s, i, j, b);
    var ind := s.inodes[i].addrs[NDIRECT];
    forall i', k' | IsSlot(i', k', sb)
      ensures Slot(s', sb, i', k') == if (i', k') == (i, NDIRECT + 1 + j) then b else Slot(s, sb, i', k')
      ensures k' != NDIRECT ==> Slot(s, sb, i', k') != ind
    {
      assert Slot(s, sb, i, NDIRECT) == ind;
      if i' != i {
        assert Slot(s, sb, i', NDIRECT) != ind;
      } else if k' > NDIRECT {
        WordPutWord(s.data[ind], j, b, k' - NDIRECT - 1);
      }
    }
  }

  /** The disk after balloc zeroed block `b`. */
  ghost function Zeroed(s: Fs, b: int): (s': Fs)
    requires 0 <= b < |s.data|
  {
    s.(data := s.data[b := Zeroes()])
  }

  /** A free block, zeroed, becomes reachable through pointer `k` of the inode itself. */
  lemma AttachAddr(s: Fs, sb: Superblock, owner: Owners, i: int, k: int, b: int)
    requires Owned(s, sb, owner) && 0 <= i < sb.ninodes && 0 <= k <= NDIRECT
    requires s.inodes[i].addrs[k] == 0 && sb.nmeta <= b < sb.size && b !in owner
    ensures var s' := WithAddr(Zeroed(s, b), i, k, b);
            && Owned(s', sb, owner[b := (i, k)])
            && Extends(s, s', sb)
            && SlotSet(s, s', sb, i, k, b)
  {
    var z := Zeroed(s, b);
    DataKeepsSlots(s, sb, owner, b, Zeroes());
    AddrSetsSlot(z, sb, i, k, b);
    OwnedAttach(z, WithAddr(z, i, k, b), sb, owner, i, k, b);
    ExtendsTrans(s, z, WithAddr(z, i, k, b), sb);
  }

  /** A free block, zeroed, becomes reachable through entry `j` of the indirect block. */
  lemma AttachEntry(s: Fs, sb: Superblock, owner: Owners, i: int, j: int, k: int, b: int)
    requires Owned(s, sb, owner) && 0 <= i < sb.ninodes && 0 <= j < NINDIRECT && s.inodes[i].addrs[NDIRECT] != 0
    requires k == NDIRECT + 1 + j && Slot(s, sb, i, k) == 0 && sb.nmeta <= b < sb.size && b !in owner
    ensures var s' := WithEntry(Zeroed(s, b), i, j, b);
            && Owned(s', sb, owner[b := (i, k)])
            && Extends(s, s', sb)
            && SlotSet(s, s', sb, i, k, b)
  {
    var z := Zeroed(s, b);
    DataKeepsSlots(s, sb, owner, b, Zeroes());
    EntrySetsSlot(z, sb, owner, i, j, b);
    OwnedAttach(z, WithEntry(z, i, j, b), sb, owner, i, k, b);
    ExtendsTrans(s, z, WithEntry(z, i, j, b), sb);
  }

  // ---------------------------------------------------------------- files as byte sequences

  /** Byte `p` of file `i`, read through its block pointers. */
  ghost function Byte(s: Fs, sb: Superblock, i: int, p: int): (v: int)
    requires Shaped(s, sb) && 0 <= i < sb.ninodes && 0 <= p < MAXFILE * BSIZE
  {
    var b := Slot(s, sb, i, SlotOf(p / BSIZE));
    if 0 < b < sb.size then s.data[b][p % BSIZE] else 0
  }

  ghost predicate Mapped(s: Fs, sb: Superblock, i: int, bn: int)
    requires Shaped(s, sb) && 0 <= i < sb.ninodes && 0 <= bn < MAXFILE
  {
    Slot(s, sb, i, SlotOf(bn)) != 0
  }

  /** Every block that holds one of the first `n` bytes of file `i` is mapped. */
  ghost predicate MappedTo(s: Fs, sb: Superblock, i: int, n: int)
    requires Shaped(s, sb) && 0 <= i < sb.ninodes
  {
    0 <= n <= MAXFILE * BSIZE && forall bn :: 0 <= bn < MAXFILE && bn * BSIZE < n ==> Mapped(s, sb, i, bn)
  }

  ghost predicate NoHoles(s: Fs, sb: Superblock)
    requires Shaped(s, sb)
  {
    forall i :: 0 <= i < sb.ninodes ==> MappedTo(s, sb, i, s.inodes[i].size)
  }

  /** The contents of file `i`. */
  ghost function File(s: Fs, sb: Superblock, i: int): (f: seq<int>)
    requires Shaped(s, sb) && 0 <= i < sb.ninodes && 0 <= s.inodes[i].size <= MAXFILE * BSIZE
    ensures |f| == s.inodes[i].size
  {
    Bytes(s, sb, i, s.inodes[i].size)
  }

  ghost function Bytes(s: Fs, sb: Superblock, i: int, n: int): (f: seq<int>)
    requires Shaped(s, sb) && 0 <= i < sb.ninodes && 0 <= n <= MAXFILE * BSIZE
    ensures |f| == n
  {
    if n == 0 then [] else Bytes(s, sb, i, n - 1) + [Byte(s, sb, i, n - 1)]
  }

  lemma {:induction false} BytesAt(s: Fs, sb: Superblock, i: int, n: int, p: int)
    requires Shaped(s, sb) && 0 <= i < sb.ninodes && 0 <= p < n <= MAXFILE * BSIZE
    ensures Bytes(s, sb, i, n)[p] == Byte(s, sb, i, p)
    decreases n
  {
    if p < n - 1 {
      BytesAt(s, sb, i, n - 1, p);
    }
  }

  /** Pointers that held a block still hold it, and no data block in use changed. */
  ghost predicate Extends(s: Fs, s': Fs, sb: Superblock)
    requires Shaped(s, sb) && Shaped(s', sb)
  {
    forall i, k :: IsSlot(i, k, sb) && Slot(s, sb, i, k) != 0 ==>
      && Slot(s', sb, i, k) == Slot(s, sb, i, k)
      && (k != NDIRECT && 0 < Slot(s, sb, i, k) < sb.size ==> s'.data[Slot(s, sb, i, k)] == s.data[Slot(s, sb, i, k)])
  }

  lemma ExtendsBytes(s: Fs, s': Fs, sb: Superblock, i: int, p: int)
    requires Shaped(s, sb) && Shaped(s', sb) && Extends(s, s', sb)
    requires 0 <= i < sb.ninodes && 0 <= p < MAXFILE * BSIZE && Mapped(s, sb, i, p / BSIZE)
    ensures Byte(s', sb, i, p) == Byte(s, sb, i, p) && Mapped(s', sb, i, p / BSIZE)
  {
    assert IsSlot(i, SlotOf(p / BSIZE), sb);
  }

  lemma NothingSet(s: Fs, sb: Superblock, i: int, k: int)
    requires Shaped(s, sb) && IsSlot(i, k, sb)
    ensures Extends(s, s, sb) && SlotSet(s, s, sb, i, k, Slot(s, sb, i, k))
  {
  }

  lemma ExtendsTrans(s: Fs, s': Fs, s'': Fs, sb: Superblock)
    requires Shaped(s, sb) && Shaped(s', sb) && Shaped(s'', sb) && Extends(s, s', sb) && Extends(s', s'', sb)
    ensures Extends(s, s'', sb)
  {
  }

  /** The bytes `w` replace what block `b` holds from position `o` on. */
  function Patched(b: Block, o: int, w: seq<int>): (r: Block)
    requires |b| == BSIZE && 0 <= o && o + |w| <= BSIZE
    ensures |r| == BSIZE
  {
    b[..o] + w + b[o + |w|..]
  }

  /** Patching the block of one file position changes those bytes of that file and nothing else anywhere. */
  lemma PatchBytes(s: Fs, sb: Superblock, owner: Owners, i: int, off: int, w: seq<int>, i': int, p: int)
    requires Owned(s, sb, owner) && 0 <= i < sb.ninodes && 0 <= off && off % BSIZE + |w| <= BSIZE
    requires off < MAXFILE * BSIZE
    requires Mapped(s, sb, i, off / BSIZE)
    requires 0 <= i' < sb.ninodes && 0 <= p < MAXFILE * BSIZE && Mapped(s, sb, i', p / BSIZE)
    ensures var b := Slot(s, sb, i, SlotOf(off / BSIZE));
            var s' := s.(data := s.data[b := Patched(s.data[b], off % BSIZE, w)]);
            && Owned(s', sb, owner) && SlotsSame(s, s', sb)
            && Byte(s', sb, i', p) == if i' == i && off <= p < off + |w| then w[p - off] else Byte(s, sb, i', p)
  {
    var k, k' := SlotOf(off / BSIZE), SlotOf(p / BSIZE);
    assert IsSlot(i, k, sb) && IsSlot(i', k', sb);
    var b, b' := Slot(s, sb, i, k), Slot(s, sb, i', k');
    var s' := s.(data := s.data[b := Patched(s.data[b], off % BSIZE, w)]);
    DataKeepsSlots(s, sb, owner, b, Patched(s.data[b], off % BSIZE, w));
    assert Slot(s', sb, i', k') == b';
    if b' == b {
      assert (i', k') == (i, k);
      assert p / BSIZE == off / BSIZE;
    }
  }

  // ---------------------------------------------------------------- a write in progress

  /** Every byte that was in a file is as before, except that file `i` now has `w` at `off`. */
  ghost predicate Written(s0: Fs, s: Fs, sb: Superblock, i: int, off: int, w: seq<int>)
    requires Shaped(s0, sb) && NoHoles(s0, sb) && Shaped(s, sb)
    requires 0 <= i < sb.ninodes && 0 <= off && off + |w| <= MAXFILE * BSIZE
  {
    && (forall i', p :: 0 <= i' < sb.ninodes && 0 <= p < s0.inodes[i'].size && !(i' == i && off <= p < off + |w|) ==>
          Byte(s, sb, i', p) == Byte(s0, sb, i', p))
    && (forall p :: off <= p < off + |w| ==> Byte(s, sb, i, p) == w[p - off])
  }

  ghost predicate Progress(s0: Fs, s: Fs, sb: Superblock, i: int, off: int, w: seq<int>)
    requires Shaped(s0, sb) && NoHoles(s0, sb) && Shaped(s, sb)
    requires 0 <= i < sb.ninodes && 0 <= off && off + |w| <= MAXFILE * BSIZE
  {
    && Written(s0, s, sb, i, off, w)
    && (forall i' :: 0 <= i' < sb.ninodes ==> MappedTo(s, sb, i', s0.inodes[i'].size))
    && MappedTo(s, sb, i, off + |w|)
  }

  lemma ProgressMapped(s0: Fs, s: Fs, sb: Superblock, i: int, off: int, w: seq<int>, at: int)
    requires Shaped(s0, sb) && NoHoles(s0, sb) && Shaped(s, sb) && 0 <= i < sb.ninodes && 0 <= off
    requires at == off + |w| <= MAXFILE * BSIZE && Progress(s0, s, sb, i, off, w)
    ensures MappedTo(s, sb, i, at)
  {
  }

  lemma ExtendsMapped(s: Fs, s': Fs, sb: Superblock, i: int, n: int)
    requires Shaped(s, sb) && Shaped(s', sb) && Extends(s, s', sb) && 0 <= i < sb.ninodes && MappedTo(s, sb, i, n)
    ensures MappedTo(s', sb, i, n)
  {
    forall bn | 0 <= bn < MAXFILE && bn * BSIZE < n
      ensures Mapped(s', sb, i, bn)
    {
      assert Mapped(s, sb, i, bn);
      assert IsSlot(i, SlotOf(bn), sb);
    }
  }

  /** Allocating more blocks does not disturb a write in progress. */
  lemma ExtendsProgress(s0: Fs, s: Fs, s': Fs, sb: Superblock, i: int, off: int, w: seq<int>)
    requires Shaped(s0, sb) && NoHoles(s0, sb) && Shaped(s, sb) && Shaped(s', sb)
    requires 0 <= i < sb.ninodes && 0 <= off && off + |w| <= MAXFILE * BSIZE
    requires Progress(s0, s, sb, i, off, w) && Extends(s, s', sb)
    ensures Progress(s0, s', sb, i, off, w)
  {
    forall i', p | 0 <= i' < sb.ninodes && 0 <= p < s0.inodes[i'].size && !(i' == i && off <= p < off + |w|)
      ensures Byte(s', sb, i', p) == Byte(s0, sb, i', p)
    {
      assert MappedTo(s, sb, i', s0.inodes[i'].size);
      assert Mapped(s, sb, i', p / BSIZE);
      ExtendsBytes(s, s', sb, i', p);
    }
    forall p | off <= p < off + |w|
      ensures Byte(s', sb, i, p) == w[p - off]
    {
      assert Mapped(s, sb, i, p / BSIZE);
      ExtendsBytes(s, s', sb, i, p);
    }
    forall i' | 0 <= i' < sb.ninodes
      ensures MappedTo(s', sb, i', s0.inodes[i'].size)
    {
      ExtendsMapped(s, s', sb, i', s0.inodes[i'].size);
    }
    ExtendsMapped(s, s', sb, i, off + |w|);
  }

  /** Copying the next chunk, which lies in one mapped block, carries the write that much further. */
  lemma PatchProgress(s0: Fs, s: Fs, sb: Superblock, owner: Owners, i: int, off: int, w: seq<int>, chunk: seq<int>)
    requires Shaped(s0, sb) && NoHoles(s0, sb) && Owned(s, sb, owner)
    requires 0 <= i < sb.ninodes && 0 <= off && off + |w| + |chunk| <= MAXFILE * BSIZE && 0 < |chunk|
    requires Progress(s0, s, sb, i, off, w)
    requires (off + |w|) % BSIZE + |chunk| <= BSIZE && Mapped(s, sb, i, (off + |w|) / BSIZE)
    ensures var at := off + |w|;
            var b := Slot(s, sb, i, SlotOf(at / BSIZE));
            var s' := s.(data := s.data[b := Patched(s.data[b], at % BSIZE, chunk)]);
            && Owned(s', sb, owner) && SlotsSame(s, s', sb)
            && Progress(s0, s', sb, i, off, w + chunk)
  {
    var at := off + |w|;
    var b := Slot(s, sb, i, SlotOf(at / BSIZE));
    var s' := s.(data := s.data[b := Patched(s.data[b], at % BSIZE, chunk)]);
    PatchBytes(s, sb, owner, i, at, chunk, i, at);
    forall i', p | 0 <= i' < sb.ninodes && 0 <= p < s0.inodes[i'].size && !(i' == i && off <= p < off + |w + chunk|)
      ensures Byte(s', sb, i', p) == Byte(s0, sb, i', p)
    {
      assert MappedTo(s, sb, i', s0.inodes[i'].size);
      assert Mapped(s, sb, i', p / BSIZE);
      PatchBytes(s, sb, owner, i, at, chunk, i', p);
    }
    forall p | off <= p < off + |w + chunk|
      ensures Byte(s', sb, i, p) == (w + chunk)[p - off]
    {
      if p < at {
        assert Mapped(s, sb, i, p / BSIZE);
      } else {
        assert p / BSIZE == at / BSIZE;
      }
      PatchBytes(s, sb, owner, i, at, chunk, i, p);
    }
    SameMapped(s, s', sb);
    ChunkMapped(s', sb, i, at, |chunk|);
  }

  /** One turn of the write loop: blocks were allocated, then the chunk was copied into its block. */
  lemma ChunkWritten(s0: Fs, s: Fs, s1: Fs, sb: Superblock, owner: Owners, i: int, off: int, w: seq<int>,
          chunk: seq<int>)
    requires Shaped(s0, sb) && NoHoles(s0, sb) && Shaped(s, sb) && Owned(s1, sb, owner)
    requires 0 <= i < sb.ninodes && 0 <= off && off + |w| + |chunk| <= MAXFILE * BSIZE && 0 < |chunk|
    requires Progress(s0, s, sb, i, off, w) && Extends(s, s1, sb)
    requires (off + |w|) % BSIZE + |chunk| <= BSIZE && Mapped(s1, sb, i, (off + |w|) / BSIZE)
    ensures var at := off + |w|;
            var b := Slot(s1, sb, i, SlotOf(at / BSIZE));
            var s' := s1.(data := s1.data[b := Patched(s1.data[b], at % BSIZE, chunk)]);
            Owned(s', sb, owner) && Progress(s0, s', sb, i, off, w + chunk)
  {
    ExtendsProgress(s0, s, s1, sb, i, off, w);
    PatchProgress(s0, s1, sb, owner, i, off, w, chunk);
  }

  lemma SameMapped(s: Fs, s': Fs, sb: Superblock)
    requires Shaped(s, sb) && Shaped(s', sb) && SlotsSame(s, s', sb)
    ensures forall i, bn :: 0 <= i < sb.ninodes && 0 <= bn < MAXFILE ==> Mapped(s', sb, i, bn) == Mapped(s, sb, i, bn)
  {
    forall i, bn | 0 <= i < sb.ninodes && 0 <= bn < MAXFILE
      ensures Mapped(s', sb, i, bn) == Mapped(s, sb, i, bn)
    {
      assert IsSlot(i, SlotOf(bn), sb);
    }
  }

  lemma ChunkMapped(s: Fs, sb: Superblock, i: int, at: int, m: int)
    requires Shaped(s, sb) && 0 <= i < sb.ninodes && MappedTo(s, sb, i, at) && 0 < m && at + m <= MAXFILE * BSIZE
    requires at % BSIZE + m <= BSIZE && Mapped(s, sb, i, at / BSIZE)
    ensures MappedTo(s, sb, i, at + m)
  {
    forall bn | 0 <= bn < MAXFILE && bn * BSIZE < at + m
      ensures Mapped(s, sb, i, bn)
    {
      if bn * BSIZE >= at {
        assert bn == at / BSIZE;
      }
    }
  }

  /** The flat file: `w` written over `f` at `off`. */
  function Splice(f: seq<int>, off: int, w: seq<int>): (r: seq<int>)
    requires 0 <= off <= |f|
    ensures |r| == if off + |w| > |f| then off + |w| else |f|
  {
    f[..off] + w + (if off + |w| < |f| then f[off + |w|..] else [])
  }

  /** What a read of `n` bytes at `off` yields; positions and counts are 32-bit. */
  function Window(f: seq<int>, off: int, n: int): (r: seq<int>)
    requires 0 <= off && 0 <= n
  {
    if off > |f| || off + n >= 0x1_0000_0000 then []
    else if off + n > |f| then f[off..]
    else f[off..off + n]
  }

  /**
   When the write is over and the size is set, the file is the old one with `w` spliced in, and the
   others are as before.
   */
  lemma ProgressFiles(s0: Fs, s: Fs, sb: Superblock, i: int, off: int, w: seq<int>)
    requires Shaped(s0, sb) && NoHoles(s0, sb) && Shaped(s, sb)
    requires 0 <= i < sb.ninodes && 0 <= off <= s0.inodes[i].size && off + |w| <= MAXFILE * BSIZE
    requires Progress(s0, s, sb, i, off, w)
    requires forall i' :: 0 <= i' < sb.ninodes && i' != i ==> s.inodes[i'].size == s0.inodes[i'].size
    requires s.inodes[i].size == if off + |w| > s0.inodes[i].size then off + |w| else s0.inodes[i].size
    ensures NoHoles(s, sb)
    ensures |Files(s0, sb)[i]| == s0.inodes[i].size
    ensures Files(s, sb) == Files(s0, sb)[i := Splice(Files(s0, sb)[i], off, w)]
  {
    assert MappedTo(s0, sb, i, s0.inodes[i].size);
    var f, f' := Splice(File(s0, sb, i), off, w), File(s, sb, i);
    forall p | 0 <= p < |f|
      ensures f'[p] == f[p]
    {
      BytesAt(s, sb, i, |f'|, p);
      if p < s0.inodes[i].size {
        BytesAt(s0, sb, i, s0.inodes[i].size, p);
      }
    }
    forall i' | 0 <= i' < sb.ninodes && i' != i
      ensures File(s, sb, i') == File(s0, sb, i')
    {
      var n := s0.inodes[i'].size;
      assert MappedTo(s0, sb, i', n);
      forall p | 0 <= p < n
        ensures File(s, sb, i')[p] == File(s0, sb, i')[p]
      {
        BytesAt(s, sb, i', n, p);
        BytesAt(s0, sb, i', n, p);
      }
    }
    FilesAt(s0, sb, sb.ninodes, i);
    FilesChanged(s0, s, sb, i, f);
  }

  /** The bytes of a file within one block are the bytes of its disk block. */
  lemma FileChunk(s: Fs, sb: Superblock, owner: Owners, i: int, at: int, m: int)
    requires Owned(s, sb, owner) && NoHoles(s, sb) && 0 <= i < sb.ninodes
    requires 0 <= at && 0 < m && at % BSIZE + m <= BSIZE && at + m <= s.inodes[i].size <= MAXFILE * BSIZE
    ensures Mapped(s, sb, i, at / BSIZE)
    ensures var b := Slot(s, sb, i, SlotOf(at / BSIZE));
            0 < b < sb.size && s.data[b][at % BSIZE..at % BSIZE + m] == File(s, sb, i)[at..at + m]
  {
    assert MappedTo(s, sb, i, s.inodes[i].size);
    assert Mapped(s, sb, i, at / BSIZE);
    var b := Slot(s, sb, i, SlotOf(at / BSIZE));
    forall p | at <= p < at + m
      ensures File(s, sb, i)[p] == s.data[b][at % BSIZE + (p - at)]
    {
      assert p / BSIZE == at / BSIZE;
      BytesAt(s, sb, i, s.inodes[i].size, p);
    }
  }

  lemma SliceJoin(f: seq<int>, a: int, b: int, c: int)
    requires 0 <= a <= b <= c <= |f|
    ensures f[a..b] + f[b..c] == f[a..c]
  {
  }

  /** Setting the size of an inode moves no pointer and no byte. */
  lemma SizeKeeps(s0: Fs, s: Fs, s': Fs, sb: Superblock, owner: Owners, i: int, off: int, w: seq<int>)
    requires Shaped(s0, sb) && NoHoles(s0, sb) && Owned(s, sb, owner)
    requires 0 <= i < sb.ninodes && 0 <= off && off + |w| <= MAXFILE * BSIZE
    requires Progress(s0, s, sb, i, off, w)
    requires |s'.inodes| == |s.inodes| && s' == s.(inodes := s.inodes[i := s.inodes[i].(size := s'.inodes[i].size)])
    ensures Owned(s', sb, owner) && Progress(s0, s', sb, i, off, w)
  {
    OwnedSame(s, s', sb, owner);
    SameMapped(s, s', sb);
    forall i', p | 0 <= i' < sb.ninodes && 0 <= p < MAXFILE * BSIZE
      ensures Byte(s', sb, i', p) == Byte(s, sb, i', p)
    {
      assert IsSlot(i', SlotOf(p / BSIZE), sb);
    }
  }

  // ---------------------------------------------------------------- the abstract state

  /** The contents of all files, by inode number. */
  ghost function Files(s: Fs, sb: Superblock): (fs: seq<seq<int>>)
    requires Shaped(s, sb) && NoHoles(s, sb)
    ensures |fs| == sb.ninodes
  {
    FilesBelow(s, sb, sb.ninodes)
  }

  ghost function FilesBelow(s: Fs, sb: Superblock, n: int): (fs: seq<seq<int>>)
    requires Shaped(s, sb) && NoHoles(s, sb) && 0 <= n <= sb.ninodes
    ensures |fs| == n
  {
    if n == 0 then [] else
      assert MappedTo(s, sb, n - 1, s.inodes[n - 1].size);
      FilesBelow(s, sb, n - 1) + [File(s, sb, n - 1)]
  }

  lemma {:induction false} FilesAt(s: Fs, sb: Superblock, n: int, i: int)
    requires Shaped(s, sb) && NoHoles(s, sb) && 0 <= i < n <= sb.ninodes
    ensures 0 <= s.inodes[i].size <= MAXFILE * BSIZE && FilesBelow(s, sb, n)[i] == File(s, sb, i)
    decreases n
  {
    assert MappedTo(s, sb, i, s.inodes[i].size);
    if i < n - 1 {
      FilesAt(s, sb, n - 1, i);
    }
  }

  /** If file `i` became `f` and the other files are as they were, the abstract state changed at `i` only. */
  lemma FilesChanged(s0: Fs, s: Fs, sb: Superblock, i: int, f: seq<int>)
    requires Shaped(s0, sb) && NoHoles(s0, sb) && Shaped(s, sb) && NoHoles(s, sb) && 0 <= i < sb.ninodes
    requires 0 <= s.inodes[i].size <= MAXFILE * BSIZE && File(s, sb, i) == f
    requires forall i' :: 0 <= i' < sb.ninodes && i' != i ==>
               0 <= s0.inodes[i'].size <= MAXFILE * BSIZE && 0 <= s.inodes[i'].size <= MAXFILE * BSIZE &&
                 File(s, sb, i') == File(s0, sb, i')
    ensures Files(s, sb) == Files(s0, sb)[i := f]
  {
    forall i' | 0 <= i' < sb.ninodes
      ensures Files(s, sb)[i'] == Files(s0, sb)[i := f][i']
    {
      FilesAt(s, sb, sb.ninodes, i');
      FilesAt(s0, sb, sb.ninodes, i');
    }
  }

  /** Type and link count of every inode. */
  ghost function Meta(inodes: seq<Inode>): (m: seq<(int, int)>)
    ensures |m| == |inodes|
  {
    if inodes == [] then [] else
      var last := |inodes| - 1;
      Meta(inodes[..last]) + [(inodes[last].kind, inodes[last].nlink)]
  }

  lemma {:induction false} MetaUpdate(inodes: seq<Inode>, i: int, ip: Inode)
    requires 0 <= i < |inodes|
    ensures Meta(inodes[i := ip]) == Meta(inodes)[i := (ip.kind, ip.nlink)]
    ensures Meta(inodes)[i] == (inodes[i].kind, inodes[i].nlink)
  {
    var last := |inodes| - 1;
    if i < last {
      MetaUpdate(inodes[..last], i, ip);
      assert inodes[i := ip][..last] == inodes[..last][i := ip];
    } else {
      assert inodes[i := ip][..last] == inodes[..last];
    }
  }

  /** The end of a write: the size is set, and the abstract state has `w` at `off` in file `i`. */
  lemma WriteDone(s0: Fs, s: Fs, sb: Superblock, owner: Owners, i: int, off: int, w: seq<int>, size: int)
    requires Shaped(s0, sb) && NoHoles(s0, sb) && Owned(s, sb, owner)
    requires 0 <= i < sb.ninodes && 0 <= off <= s0.inodes[i].size && off + |w| <= MAXFILE * BSIZE
    requires Progress(s0, s, sb, i, off, w)
    requires s.inodes == s0.inodes[i := s0.inodes[i].(addrs := s.inodes[i].addrs)]
    requires size == if off + |w| > s0.inodes[i].size then off + |w| else s0.inodes[i].size
    ensures var s' := s.(inodes := s.inodes[i := s.inodes[i].(size := size)]);
            && Owned(s', sb, owner) && NoHoles(s', sb)
            && |Files(s0, sb)[i]| == s0.inodes[i].size
            && Files(s', sb) == Files(s0, sb)[i := Splice(Files(s0, sb)[i], off, w)]
            && Meta(s'.inodes) == Meta(s0.inodes)
  {
    var s' := s.(inodes := s.inodes[i := s.inodes[i].(size := size)]);
    SizeKeeps(s0, s, s', sb, owner, i, off, w);
    ProgressFiles(s0, s', sb, i, off, w);
    MetaUpdate(s0.inodes, i, s'.inodes[i]);
    assert s'.inodes == s0.inodes[i := s'.inodes[i]];
    assert Meta(s0.inodes)[i := Meta(s0.inodes)[i]] == Meta(s0.inodes);
  }

  // ---------------------------------------------------------------- giving blocks back

  /** Pointer `k` of the inode itself is cleared; for the indirect pointer see DropIndirect. */
  lemma ClearAddr(s: Fs, sb: Superblock, owner: Owners, i: int, k: int)
    requires Owned(s, sb, owner) && 0 <= i < sb.ninodes && 0 <= k < NDIRECT && s.inodes[i].addrs[k] != 0
    ensures Owned(WithAddr(s, i, k, 0), sb, owner - {s.inodes[i].addrs[k]})
    ensures s.inodes[i].addrs[k] in owner && owner[s.inodes[i].addrs[k]] == (i, k)
  {
    assert Slot(s, sb, i, k) == s.inodes[i].addrs[k];
    AddrSetsSlot(s, sb, i, k, 0);
    OwnedDetach(s, WithAddr(s, i, k, 0), sb, owner, i, k);
  }

  /** `freed` are the blocks that the first `j` entries of the indirect block name. */
  ghost predicate Entries(s: Fs, sb: Superblock, owner: Owners, i: int, j: int, freed: set<int>)
    requires Owned(s, sb, owner) && 0 <= i < sb.ninodes && 0 <= j <= NINDIRECT
  {
    && (forall b :: b in freed ==> b in owner && owner[b].0 == i && NDIRECT < owner[b].1 <= NDIRECT + j)
    && (forall k :: NDIRECT < k <= NDIRECT + j && Slot(s, sb, i, k) != 0 ==> Slot(s, sb, i, k) in freed)
  }

  /** With the indirect pointer go all the entries of the indirect block. */
  lemma DropIndirect(s: Fs, sb: Superblock, owner: Owners, i: int, freed: set<int>)
    requires Owned(s, sb, owner) && 0 <= i < sb.ninodes && s.inodes[i].addrs[NDIRECT] != 0
    requires Entries(s, sb, owner, i, NINDIRECT, freed)
    ensures Owned(WithAddr(s, i, NDIRECT, 0), sb, owner - freed - {s.inodes[i].addrs[NDIRECT]})
  {
    var s' := WithAddr(s, i, NDIRECT, 0);
    var owner' := owner - freed - {s.inodes[i].addrs[NDIRECT]};
    assert Slot(s, sb, i, NDIRECT) == s.inodes[i].addrs[NDIRECT];
    forall i', k | IsSlot(i', k, sb)
      ensures Slot(s', sb, i', k) == if i' == i && k >= NDIRECT then 0 else Slot(s, sb, i', k)
    {
    }
    forall b | b in owner'
      ensures Slot(s', sb, owner[b].0, owner[b].1) == b
    {
      assert Slot(s, sb, owner[b].0, owner[b].1) == b;
      if owner[b].0 == i && owner[b].1 > NDIRECT {
        assert false;
      }
    }
  }

  /** A file whose pointers, size and blocks did not change has not changed. */
  lemma FileFrame(s: Fs, s': Fs, sb: Superblock, i: int)
    requires Shaped(s, sb) && Shaped(s', sb) && 0 <= i < sb.ninodes && s'.data == s.data
    requires s'.inodes[i].size == s.inodes[i].size && s'.inodes[i].addrs == s.inodes[i].addrs
    requires MappedTo(s, sb, i, s.inodes[i].size)
    ensures MappedTo(s', sb, i, s'.inodes[i].size) && File(s', sb, i) == File(s, sb, i)
  {
    forall k | IsSlot(i, k, sb)
      ensures Slot(s', sb, i, k) == Slot(s, sb, i, k)
    {
    }
    forall bn | 0 <= bn < MAXFILE && bn * BSIZE < s.inodes[i].size
      ensures Mapped(s', sb, i, bn)
    {
      assert Mapped(s, sb, i, bn);
    }
    forall p | 0 <= p < s.inodes[i].size
      ensures File(s', sb, i)[p] == File(s, sb, i)[p]
    {
      BytesAt(s, sb, i, s.inodes[i].size, p);
      BytesAt(s', sb, i, s.inodes[i].size, p);
    }
  }

  /** Replacing one inode by an empty one empties that file and no other. */
  lemma EmptiedFile(s: Fs, s': Fs, sb: Superblock, i: int)
    requires Shaped(s, sb) && NoHoles(s, sb) && Shaped(s', sb) && 0 <= i < sb.ninodes && s'.data == s.data
    requires s'.inodes == s.inodes[i := s'.inodes[i]] && s'.inodes[i].size == 0
    ensures NoHoles(s', sb) && Files(s', sb) == Files(s, sb)[i := []]
  {
    assert MappedTo(s', sb, i, 0);
    forall i' | 0 <= i' < sb.ninodes && i' != i
      ensures MappedTo(s, sb, i', s.inodes[i'].size) && MappedTo(s', sb, i', s'.inodes[i'].size)
      ensures File(s', sb, i') == File(s, sb, i')
    {
      assert MappedTo(s, sb, i', s.inodes[i'].size);
      FileFrame(s, s', sb, i');
    }
    assert File(s', sb, i) == [];
    FilesChanged(s, s', sb, i, []);
  }

  /** The end of itrunc: with its pointers gone and its size 0, the file is empty and the others are as before. */
  lemma Truncated(s0: Fs, s: Fs, sb: Superblock, owner: Owners, i: int)
    requires Shaped(s0, sb) && NoHoles(s0, sb) && Owned(s, sb, owner) && 0 <= i < sb.ninodes && s.data == s0.data
    requires s.inodes == s0.inodes[i := s0.inodes[i].(addrs := s.inodes[i].addrs)]
    ensures var s' := s.(inodes := s.inodes[i := s.inodes[i].(size := 0)]);
            && Owned(s', sb, owner) && NoHoles(s', sb)
            && Files(s', sb) == Files(s0, sb)[i := []]
            && Meta(s'.inodes) == Meta(s0.inodes)
  {
    var s' := s.(inodes := s.inodes[i := s.inodes[i].(size := 0)]);
    OwnedSame(s, s', sb, owner);
    assert s'.inodes == s0.inodes[i := s'.inodes[i]];
    EmptiedFile(s0, s', sb, i);
    MetaUpdate(s0.inodes, i, s'.inodes[i]);
    assert Meta(s0.inodes)[i := Meta(s0.inodes)[i]] == Meta(s0.inodes);
  }

  /** Changing the type or link count of an empty inode changes no file and no owner. */
  lemma NewInode(s: Fs, s': Fs, sb: Superblock, owner: Owners, i: int)
    requires Owned(s, sb, owner) && NoHoles(s, sb) && 0 <= i < sb.ninodes && s'.data == s.data
    requires |s'.inodes| == |s.inodes| && s'.inodes == s.inodes[i := s'.inodes[i]]
    requires s.inodes[i].size == 0 && s'.inodes[i].size == 0 && s'.inodes[i].addrs == s.inodes[i].addrs
    ensures Owned(s', sb, owner) && NoHoles(s', sb) && Files(s', sb) == Files(s, sb)
    ensures Meta(s'.inodes) == Meta(s.inodes)[i := (s'.inodes[i].kind, s'.inodes[i].nlink)]
  {
    OwnedSame(s, s', sb, owner);
    EmptiedFile(s, s', sb, i);
    FilesAt(s, sb, sb.ninodes, i);
    assert Files(s, sb)[i] == [];
    MetaUpdate(s.inodes, i, s'.inodes[i]);
  }

  /** The link count of an inode has no bearing on blocks and contents. */
  lemma Relinked(s: Fs, s': Fs, sb: Superblock, owner: Owners, i: int, n: int)
    requires Owned(s, sb, owner) && NoHoles(s, sb) && 0 <= i < sb.ninodes
    requires s' == s.(inodes := s.inodes[i := s.inodes[i].(nlink := n)])
    ensures Owned(s', sb, owner) && NoHoles(s', sb) && Files(s', sb) == Files(s, sb)
    ensures Meta(s'.inodes) == Meta(s.inodes)[i := (s.inodes[i].kind, n)]
  {
    OwnedSame(s, s', sb, owner);
    forall i' | 0 <= i' < sb.ninodes
      ensures MappedTo(s, sb, i', s.inodes[i'].size) && MappedTo(s', sb, i', s'.inodes[i'].size)
      ensures File(s', sb, i') == File(s, sb, i')
    {
      assert MappedTo(s, sb, i', s.inodes[i'].size);
      FileFrame(s, s', sb, i');
    }
    FilesChanged(s, s', sb, i, File(s, sb, i));
    FilesAt(s, sb, sb.ninodes, i);
    MetaUpdate(s.inodes, i, s'.inodes[i]);
  }

  /** Reading back what was just written yields it. */
  lemma ReadBack(f: seq<int>, off: int, w: seq<int>)
    requires 0 <= off <= |f| && off + |w| < 0x1_0000_0000
    ensures Window(Splice(f, off, w), off, |w|) == w
  {
  }

  /**
   Ownership spelled out: no two pointers name the same block, and the owned blocks are the ones some
   pointer names.
   */
  lemma EachBlockOnce(s: Fs, sb: Superblock, owner: Owners)
    requires Owned(s, sb, owner)
    ensures forall i, k, i', k' ::
      IsSlot(i, k, sb) && IsSlot(i', k', sb) && Slot(s, sb, i, k) == Slot(s, sb, i', k') != 0 ==>
              (i, k) == (i', k')
    ensures forall b :: b in owner <==> b != 0 && exists i, k :: IsSlot(i, k, sb) && Slot(s, sb, i, k) == b
  {
    forall b | b in owner
      ensures exists i, k :: IsSlot(i, k, sb) && Slot(s, sb, i, k) == b
    {
      assert Slot(s, sb, owner[b].0, owner[b].1) == b;
    }
  }
}
