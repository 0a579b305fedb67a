/**
 The file system of kernel/fs.c on top of the log of kernel/log.c: whatever transactions its operations
 make and wherever the power fails, the disk recovers to the image of a sound file system.

 A block of the image is a sequence of numbers: the sixteen fields of each of sixteen inodes, the bits of
 the free map, or the bytes of a data block.  The blocks of the log area are not part of it.
 */
module FsRecovery {
  import opened Basics
  import opened Counting
  import opened FsState
  import F = FileSystem
  import W = WriteAheadLog

  // ---------------------------------------------------------------- the image of a state

  function Field(x: Inode, f: int): (n: int)
    requires 0 <= f < 16 && |x.addrs| == NDIRECT + 1
  {
    if f == 0 then x.kind else if f == 1 then x.nlink else if f == 2 then x.size else x.addrs[f - 3]
  }

  /** Word w of the inode block that begins with inode lo. */
  function InodeWord(nodes: seq<Inode>, lo: int, w: int): (n: int)
    requires 0 <= w < 256 && 0 <= lo
  {
    var i := lo + w / 16;
    if i < |nodes| && |nodes[i].addrs| == NDIRECT + 1 then Field(nodes[i], w % 16) else 0
  }

  /** Bit j of the block of the free map that begins with bit lo. */
  function BitWord(bits: seq<bool>, lo: int, j: int): (n: int) {
    if 0 <= lo + j < |bits| && bits[lo + j] then 1 else 0
  }

  /** The contents of block b. */
  function BlockOf(v: F.View, sb: Superblock, b: int): (r: W.Block)
    requires 0 <= b < |v.data|
  {
    if sb.inodestart <= b < sb.bmapstart then
      seq(256, w requires 0 <= w < 256 => InodeWord(v.dinodes, (b - sb.inodestart) * IPB, w))
    else if sb.bmapstart <= b < sb.nmeta then
      seq(BPB, j requires 0 <= j < BPB => BitWord(v.bitmap, (b - sb.bmapstart) * BPB, j))
    else v.data[b]
  }

  function Image(v: F.View, sb: Superblock, area: W.Area): (h: W.Image)
    ensures |h| == |v.data|
  {
    seq(|v.data|, b requires 0 <= b < |v.data| => if area.Has(b) then [] else BlockOf(v, sb, b))
  }

  /** A state that satisfies the invariant of the file system between transactions. */
  ghost predicate Sound(v: F.View, sb: Superblock) {
    exists owner :: SoundWith(v, sb, owner)
  }

  ghost predicate SoundWith(v: F.View, sb: Superblock, owner: Owners) {
    && Owned(Fs(v.dinodes, v.data), sb, owner) && NoHoles(Fs(v.dinodes, v.data), sb)
    && |v.bitmap| == sb.size
    && (forall b :: 0 <= b < sb.size ==> (v.bitmap[b] <==> b < sb.nmeta || b in owner))
    && (forall i :: 0 <= i < sb.ninodes && v.dinodes[i].kind == 0 ==> F.Blank(v.dinodes[i]))
  }

  lemma SoundShape(v: F.View, sb: Superblock)
    requires Sound(v, sb)
    ensures sb.Ok() && |v.data| == |v.bitmap| == sb.size && |v.dinodes| == sb.ninodes
    ensures forall i :: 0 <= i < sb.ninodes ==> |v.dinodes[i].addrs| == NDIRECT + 1
  {
  }

  lemma ImageAt(v: F.View, sb: Superblock, area: W.Area, b: int)
    requires 0 <= b < |v.data|
    ensures |Image(v, sb, area)| == |v.data|
    ensures Image(v, sb, area)[b] == if area.Has(b) then [] else BlockOf(v, sb, b)
  {
  }

  lemma BitRead(v: F.View, sb: Superblock, b: int)
    requires sb.Ok() && |v.data| == |v.bitmap| == sb.size && 0 <= b < sb.size
    ensures sb.bmapstart <= sb.BBlock(b) < sb.nmeta && |BlockOf(v, sb, sb.BBlock(b))| == BPB
    ensures BlockOf(v, sb, sb.BBlock(b))[b % BPB] == if v.bitmap[b] then 1 else 0
  {
    var c := sb.BBlock(b);
    assert (c - sb.bmapstart) * BPB + b % BPB == b;
    assert BlockOf(v, sb, c)[b % BPB] == BitWord(v.bitmap, (c - sb.bmapstart) * BPB, b % BPB);
  }

  lemma InodeRead(v: F.View, sb: Superblock, i: int, f: int)
    requires sb.Ok() && |v.data| == sb.size && |v.dinodes| == sb.ninodes
    requires 0 <= i < sb.ninodes && 0 <= f < 16 && |v.dinodes[i].addrs| == NDIRECT + 1
    ensures sb.inodestart <= sb.IBlock(i) < sb.bmapstart && |BlockOf(v, sb, sb.IBlock(i))| == 256
    ensures BlockOf(v, sb, sb.IBlock(i))[16 * (i % IPB) + f] == Field(v.dinodes[i], f)
  {
    var b, w := sb.IBlock(i), 16 * (i % IPB) + f;
    assert w / 16 == i % IPB && w % 16 == f;
    assert (b - sb.inodestart) * IPB + i % IPB == i;
    assert BlockOf(v, sb, b)[w] == InodeWord(v.dinodes, (b - sb.inodestart) * IPB, w);
  }

  lemma SameFields(x: Inode, x': Inode)
    requires |x.addrs| == |x'.addrs| == NDIRECT + 1
    requires forall f :: 0 <= f < 16 ==> Field(x, f) == Field(x', f)
    ensures x == x'
  {
    assert Field(x, 0) == Field(x', 0) && Field(x, 1) == Field(x', 1) && Field(x, 2) == Field(x', 2);
    assert forall k :: 0 <= k <= NDIRECT ==> x.addrs[k] == Field(x, k + 3) && x'.addrs[k] == Field(x', k + 3);
    assert x.addrs == x'.addrs;
  }

  ghost predicate SameBlocks(v: F.View, v': F.View, sb: Superblock) {
    |v.data| == |v'.data| && forall b :: 0 <= sb.inodestart <= b < |v.data| ==> BlockOf(v, sb, b) == BlockOf(v', sb, b)
  }

  lemma SameImage(v: F.View, v': F.View, sb: Superblock, area: W.Area)
    requires Image(v, sb, area) == Image(v', sb, area) && area.start + area.size <= sb.inodestart
    ensures SameBlocks(v, v', sb)
  {
    hide BlockOf;
    assert |Image(v, sb, area)| == |Image(v', sb, area)|;
    forall b | sb.inodestart <= b < |v.data|
      ensures BlockOf(v, sb, b) == BlockOf(v', sb, b)
    {
      ImageAt(v, sb, area, b);
      ImageAt(v', sb, area, b);
    }
  }

  lemma SameBit(v: F.View, v': F.View, sb: Superblock, b: int)
    requires sb.Ok() && |v.data| == |v.bitmap| == |v'.bitmap| == sb.size && SameBlocks(v, v', sb) && 0 <= b < sb.size
    ensures v.bitmap[b] == v'.bitmap[b]
  {
    hide BlockOf;
    BitRead(v, sb, b);
    BitRead(v', sb, b);
  }

  lemma SameInode(v: F.View, v': F.View, sb: Superblock, i: int)
    requires sb.Ok() && |v.data| == sb.size && |v.dinodes| == |v'.dinodes| == sb.ninodes && SameBlocks(v, v', sb)
    requires 0 <= i < sb.ninodes && |v.dinodes[i].addrs| == |v'.dinodes[i].addrs| == NDIRECT + 1
    ensures v.dinodes[i] == v'.dinodes[i]
  {
    hide BlockOf;
    forall f | 0 <= f < 16
      ensures Field(v.dinodes[i], f) == Field(v'.dinodes[i], f)
    {
      InodeRead(v, sb, i, f);
      InodeRead(v', sb, i, f);
    }
    SameFields(v.dinodes[i], v'.dinodes[i]);
  }

  lemma SameDatum(v: F.View, v': F.View, sb: Superblock, b: int)
    requires sb.Ok() && |v.data| == |v'.data| == sb.size && SameBlocks(v, v', sb) && sb.nmeta <= b < sb.size
    ensures v.data[b] == v'.data[b]
  {
    assert BlockOf(v, sb, b) == BlockOf(v', sb, b);
  }

  /** The image determines free map, inodes and data blocks. */
  lemma ImageDetermines(v: F.View, v': F.View, sb: Superblock, area: W.Area)
    requires Sound(v, sb) && Sound(v', sb) && Image(v, sb, area) == Image(v', sb, area)
    requires area.start + area.size <= sb.inodestart
    ensures v.bitmap == v'.bitmap && v.dinodes == v'.dinodes && v.data[sb.nmeta..] == v'.data[sb.nmeta..]
  {
    SoundShape(v, sb);
    SoundShape(v', sb);
    SameImage(v, v', sb, area);
    hide Sound, Image, SameBlocks;
    forall b | 0 <= b < sb.size
      ensures v.bitmap[b] == v'.bitmap[b]
    {
      SameBit(v, v', sb, b);
    }
    forall i | 0 <= i < sb.ninodes
      ensures v.dinodes[i] == v'.dinodes[i]
    {
      SameInode(v, v', sb, i);
    }
    forall b | sb.nmeta <= b < sb.size
      ensures v.data[b] == v'.data[b]
    {
      SameDatum(v, v', sb, b);
    }
  }

  // ---------------------------------------------------------------- transactions of the file system

  ghost function Logged(v: F.View): (bs: set<int>) { v.bits + v.blocks + v.nodes }

  ghost function Begun(v: F.View): (v': F.View) { v.(bits := {}, blocks := {}, nodes := {}) }

  /** The transaction holds, for every block that was logged, its contents at the commit. */
  ghost predicate Carries(v: F.View, sb: Superblock, txn: W.Txn) {
    && (forall b :: b in W.Pending(txn) <==> b in Logged(v))
    && forall b :: b in Logged(v) && 0 <= b < |v.data| ==> W.Pending(txn)[b] == BlockOf(v, sb, b)
  }

  /** A transaction that takes one sound state to another. */
  ghost predicate Step(v: F.View, txn: W.Txn, v': F.View, sb: Superblock) {
    Sound(v, sb) && Sound(v', sb) && F.Covers(Begun(v), v', sb) && Carries(v', sb, txn)
  }

  lemma StepSound(v: F.View, txn: W.Txn, v': F.View, sb: Superblock)
    requires Step(v, txn, v', sb)
    ensures Sound(v, sb) && Sound(v', sb)
  {
  }

  lemma {:induction false} AmongPending(txn: W.Txn, i: int)
    requires 0 <= i < |txn|
    ensures txn[i].b in W.Pending(txn)
  {
    if i < |txn| - 1 {
      AmongPending(txn[..|txn| - 1], i);
    }
  }

  lemma {:induction false} PendingWithin(txn: W.Txn, bs: set<int>)
    requires forall i :: 0 <= i < |txn| ==> txn[i].b in bs
    ensures W.Pending(txn).Keys <= bs && |W.Pending(txn)| <= |bs|
  {
    if txn != [] {
      var last := |txn| - 1;
      PendingWithin(txn[..last], bs);
      assert W.Pending(txn).Keys == W.Pending(txn[..last]).Keys + {txn[last].b};
    }
    SubsetSize(W.Pending(txn).Keys, bs);
    assert |W.Pending(txn)| == |W.Pending(txn).Keys|;
  }

  /** What no log_write named is the same before and after. */
  lemma BlockKept(v: F.View, v': F.View, sb: Superblock, b: int)
    requires F.Covers(Begun(v), v', sb) && 0 <= b < |v.data| && b !in Logged(v')
    ensures BlockOf(v, sb, b) == BlockOf(v', sb, b)
  {
    if sb.inodestart <= b < sb.bmapstart {
      var lo := (b - sb.inodestart) * IPB;
      forall w | 0 <= w < 256
        ensures InodeWord(v.dinodes, lo, w) == InodeWord(v'.dinodes, lo, w)
      {
        assert sb.IBlock(lo + w / 16) == b;
      }
    } else if sb.bmapstart <= b < sb.nmeta {
      var lo := (b - sb.bmapstart) * BPB;
      forall j | 0 <= j < BPB
        ensures BitWord(v.bitmap, lo, j) == BitWord(v'.bitmap, lo, j)
      {
        assert sb.BBlock(lo + j) == b;
      }
    }
  }

  lemma Regions(sb: Superblock)
    requires sb.Ok()
    ensures 0 < sb.inodestart <= sb.bmapstart <= sb.nmeta <= sb.size
  {
  }

  lemma LoggedRange(v: F.View, txn: W.Txn, v': F.View, sb: Superblock)
    requires Step(v, txn, v', sb)
    ensures |v.data| == |v'.data| == sb.size && forall b :: b in Logged(v') ==> 0 <= sb.inodestart <= b < sb.size
  {
    hide Sound, Carries, Superblock.Ok, Superblock.IBlock, Superblock.BBlock;
    SoundShape(v, sb);
    Regions(sb);
  }

  lemma StepOnDisk(v: F.View, txn: W.Txn, v': F.View, sb: Superblock)
    requires Step(v, txn, v', sb)
    ensures |v.data| == sb.size
    ensures forall i :: 0 <= i < |txn| ==> 0 <= sb.inodestart <= txn[i].b < sb.size && txn[i].b in Logged(v')
  {
    hide Sound, F.Covers, BlockOf;
    LoggedRange(v, txn, v', sb);
    forall i | 0 <= i < |txn|
      ensures txn[i].b in Logged(v')
    {
      AmongPending(txn, i);
    }
  }

  lemma StepAppliesAt(v: F.View, txn: W.Txn, v': F.View, sb: Superblock, area: W.Area, b: int)
    requires Step(v, txn, v', sb) && area.start + area.size <= sb.inodestart
    requires |v.data| == |v'.data| == sb.size && 0 <= b < sb.size && W.OnDisk(txn, sb.size)
    ensures W.Applied(Image(v, sb, area), txn)[b] == Image(v', sb, area)[b]
  {
    hide Sound, F.Covers, BlockOf, Image, W.OnDisk, W.Applied, W.Pending;
    W.AppliedAt(Image(v, sb, area), txn, b);
    ImageAt(v, sb, area, b);
    ImageAt(v', sb, area, b);
    LoggedRange(v, txn, v', sb);
    if b !in Logged(v') {
      BlockKept(v, v', sb, b);
    }
  }

  /** The logged blocks turn the image of the state before into the image of the state after. */
  lemma StepApplies(v: F.View, txn: W.Txn, v': F.View, sb: Superblock, area: W.Area)
    requires Step(v, txn, v', sb) && area.start + area.size <= sb.inodestart
    ensures W.OnDisk(txn, |v.data|) && W.Applied(Image(v, sb, area), txn) == Image(v', sb, area)
  {
    hide Step, BlockOf;
    StepOnDisk(v, txn, v', sb);
    LoggedRange(v, txn, v', sb);
    forall b | 0 <= b < |v.data|
      ensures W.Applied(Image(v, sb, area), txn)[b] == Image(v', sb, area)[b]
    {
      StepAppliesAt(v, txn, v', sb, area, b);
    }
  }

  /** It also fits the log, when the log has a block to spare. */
  lemma StepLoggable(v: F.View, txn: W.Txn, v': F.View, sb: Superblock, area: W.Area)
    requires Step(v, txn, v', sb) && area.start + area.size <= sb.inodestart && area.Room(|Logged(v')| + 1)
    ensures W.Loggable(txn, area, |v.data|)
  {
    hide Sound, F.Covers, BlockOf, W.Pending, Logged;
    StepOnDisk(v, txn, v', sb);
    forall i | 0 <= i < |txn|
      ensures area.Room(|W.Pending(txn[..i])| + 1)
    {
      PendingWithin(txn[..i], Logged(v'));
    }
  }

  ghost predicate SoundImage(h: W.Image, sb: Superblock, area: W.Area) {
    exists v :: Sound(v, sb) && h == Image(v, sb, area)
  }

  /** The states a life of the file system goes through, from one commit to the next. */
  ghost predicate Run(vs: seq<F.View>, txns: seq<W.Txn>, sb: Superblock) {
    |vs| == |txns| + 1 && forall i :: 0 <= i < |txns| ==> Step(vs[i], txns[i], vs[i + 1], sb)
  }

  /** The transactions are those of a file system found at h. */
  ghost predicate Produced(h: W.Image, txns: seq<W.Txn>, sb: Superblock, area: W.Area) {
    exists vs :: Run(vs, txns, sb) && h == Image(vs[0], sb, area)
  }

  // ---------------------------------------------------------------- the code makes such transactions

  /** What a system call does to inodes and blocks between begin_op and end_op. */
  datatype Call =
    | Write(inum: int, off: int, src: seq<int>)
    | Allocate(kind: int)
    | Link(inum: int, nlink: int)
    | Put(inum: int, ref: int, valid: bool)

  lemma ValidIsSound(fs: F.FileSystem)
    requires fs.Valid()
    ensures Sound(fs.V(), fs.sb)
  {
    hide NoHoles;
    assert SoundWith(fs.V(), fs.sb, fs.owner);
  }

  /** What calls see of the file system: contents, type and link count of every inode, and whether the disk is full. */
  datatype Shown = Shown(files: seq<seq<int>>, meta: seq<(int, int)>, full: bool)

  ghost function Show(fs: F.FileSystem): (r: Shown)
    requires fs.Valid()
    reads fs
  {
    Shown(fs.Contents(), Meta(fs.inodes), fs.DiskFull())
  }

  ghost predicate InUse(a: Shown, inum: int) {
    |a.files| == |a.meta| && 0 <= inum < |a.meta| && a.meta[inum].0 != 0
  }

  ghost predicate Same(a: Shown, b: Shown) { b.files == a.files && b.meta == a.meta }

  /** The bytes up to tot are written; fewer than all of them only on a full disk. */
  ghost predicate Wrote(a: Shown, b: Shown, inum: int, off: int, src: seq<int>, tot: int)
    requires InUse(a, inum) && 0 <= off <= |a.files[inum]|
  {
    && 0 <= tot <= |src| && (tot < |src| ==> b.full) && b.meta == a.meta
    && b.files == a.files[inum := Splice(a.files[inum], off, src[..tot])]
  }

  ghost predicate FirstUnused(a: Shown, i: int) {
    1 <= i < |a.meta| && a.meta[i].0 == 0 && forall j :: 1 <= j < i ==> a.meta[j].0 != 0
  }

  /** What a call does to the files. */
  ghost predicate Performs(call: Call, a: Shown, b: Shown) {
    match call
    case Write(inum, off, src) =>
      if InUse(a, inum) && 0 <= off <= |a.files[inum]| && off + |src| <= MAXFILE * BSIZE
      then exists tot :: Wrote(a, b, inum, off, src, tot)
      else Same(a, b)
    case Allocate(kind) =>
      if kind != 0 && exists i :: FirstUnused(a, i)
      then exists i :: FirstUnused(a, i) && b.files == a.files && b.meta == a.meta[i := (kind, 0)]
      else Same(a, b)
    case Link(inum, nlink) =>
      if InUse(a, inum) then b.files == a.files && b.meta == a.meta[inum := (a.meta[inum].0, nlink)] else Same(a, b)
    case Put(inum, ref, valid) =>
      if InUse(a, inum) && ref == 1 && valid && a.meta[inum].1 == 0
      then b.files == a.files[inum := []] && b.meta == a.meta[inum := (0, 0)]
      else Same(a, b)
  }

  lemma MetaAt(inodes: seq<Inode>)
    ensures forall i :: 0 <= i < |inodes| ==> Meta(inodes)[i] == (inodes[i].kind, inodes[i].nlink)
  {
    forall i | 0 <= i < |inodes|
      ensures Meta(inodes)[i] == (inodes[i].kind, inodes[i].nlink)
    {
      MetaUpdate(inodes, i, inodes[i]);
    }
  }

  lemma ShownSizes(fs: F.FileSystem)
    requires fs.Valid()
    ensures |fs.Contents()| == fs.sb.ninodes == |fs.inodes| == |Meta(fs.inodes)|
    ensures forall i :: 0 <= i < fs.sb.ninodes ==> |fs.Contents()[i]| == fs.inodes[i].size <= MAXFILE * BSIZE
  {
    OwnedShape(fs.S(), fs.sb, fs.owner);
    forall i | 0 <= i < fs.sb.ninodes
      ensures |fs.Contents()[i]| == fs.inodes[i].size <= MAXFILE * BSIZE
    {
      FilesAt(fs.S(), fs.sb, fs.sb.ninodes, i);
    }
  }

  method Perform(fs: F.FileSystem, call: Call)
    requires fs.Valid()
    modifies fs
    ensures fs.Valid() && F.Covers(old(fs.V()), fs.V(), fs.sb) && Performs(call, old(Show(fs)), Show(fs))
  {
    hide F.Covers, Owned, NoHoles, F.Blank, FilesBelow, Meta;
    F.CoversNothing(fs.V(), fs.sb);
    OwnedShape(fs.S(), fs.sb, fs.owner);
    ShownSizes(fs);
    MetaAt(fs.inodes);
    ghost var a := Show(fs);
    match call {
      case Write(inum, off, src) =>
        if && 0 <= inum < fs.sb.ninodes && fs.inodes[inum].kind != 0
           && 0 <= off < 0x1_0000_0000 && |src| < 0x1_0000_0000 {
          var tot := fs.Writei(inum, off, src);
          if tot != -1 {
            assert Wrote(a, Show(fs), inum, off, src, tot);
          }
        }
      case Allocate(kind) =>
        if kind != 0 {
          var inum := fs.Ialloc(kind);
          if inum != 0 {
            assert FirstUnused(a, inum);
          }
        }
      case Link(inum, nlink) =>
        if 0 <= inum < fs.sb.ninodes && fs.inodes[inum].kind != 0 {
          fs.SetLinks(inum, nlink);
        }
      case Put(inum, ref, valid) =>
        if 0 <= inum < fs.sb.ninodes && ref >= 1 && (!valid || fs.inodes[inum].kind != 0) {
          var ref' := fs.Iput(inum, ref, valid);
        }
    }
  }

  /** A transaction for the given blocks, in the order of their numbers. */
  lemma {:induction false} Collect(v: F.View, sb: Superblock, bs: set<int>, n: nat) returns (txn: W.Txn)
    requires n <= |v.data|
    ensures forall b :: b in W.Pending(txn) <==> b in bs && 0 <= b < n
    ensures forall b :: b in W.Pending(txn) ==> W.Pending(txn)[b] == BlockOf(v, sb, b)
  {
    hide BlockOf;
    txn := [];
    if n > 0 {
      txn := Collect(v, sb, bs, n - 1);
      if n - 1 in bs {
        var rest := txn;
        txn := rest + [W.Change(n - 1, BlockOf(v, sb, n - 1))];
        assert txn[..|txn| - 1] == rest;
      }
    }
  }

  /** The logged blocks of a valid file system, as the transaction that its commit writes. */
  lemma Committing(v: F.View, fs: F.FileSystem) returns (txn: W.Txn)
    requires fs.Valid() && Sound(v, fs.sb) && F.Covers(Begun(v), fs.V(), fs.sb)
    ensures Step(v, txn, fs.V(), fs.sb)
  {
    hide BlockOf, Owned, NoHoles;
    SoundShape(v, fs.sb);
    ValidIsSound(fs);
    Regions(fs.sb);
    hide Sound, Superblock.Ok, Superblock.IBlock, Superblock.BBlock;
    txn := Collect(fs.V(), fs.sb, Logged(fs.V()), fs.sb.size);
  }

  ghost predicate History(calls: seq<Call>, seen: seq<Shown>) {
    |seen| == |calls| + 1 && forall i :: 0 <= i < |calls| ==> Performs(calls[i], seen[i], seen[i + 1])
  }

  lemma HistoryGrows(calls: seq<Call>, seen: seq<Shown>, i: int, now: Shown)
    requires 0 <= i < |calls| && History(calls[..i], seen) && Performs(calls[i], seen[i], now)
    ensures History(calls[..i + 1], seen + [now])
  {
    hide Performs;
    var more := seen + [now];
    forall j | 0 <= j < i + 1
      ensures Performs(calls[..i + 1][j], more[j], more[j + 1])
    {
      if j < i {
        assert Performs(calls[..i][j], seen[j], seen[j + 1]);
      }
    }
  }

  /** The system calls that share one commit: what they do to the files, one after the other, and what is logged. */
  method Transact(fs: F.FileSystem, calls: seq<Call>) returns (ghost txn: W.Txn, ghost seen: seq<Shown>)
    requires fs.Valid()
    modifies fs
    ensures fs.Valid() && Step(old(fs.V()), txn, fs.V(), fs.sb)
    ensures History(calls, seen) && seen[0] == old(Show(fs)) && seen[|calls|] == Show(fs)
  {
    hide F.Covers, Owned, NoHoles, F.Blank, BlockOf, Performs, Meta, FilesBelow;
    ValidIsSound(fs);
    hide Sound;
    fs.BeginOp();
    ghost var v := fs.V();
    F.CoversNothing(v, fs.sb);
    seen := [Show(fs)];
    var i := 0;
    while i < |calls|
      invariant 0 <= i <= |calls| && fs.Valid() && F.Covers(v, fs.V(), fs.sb)
      invariant History(calls[..i], seen) && seen[0] == old(Show(fs)) && seen[i] == Show(fs)
    {
      ghost var u := fs.V();
      Perform(fs, calls[i]);
      F.CoversTrans(v, u, fs.V(), fs.sb);
      HistoryGrows(calls, seen, i, Show(fs));
      seen := seen + [Show(fs)];
      i := i + 1;
    }
    assert calls[..i] == calls;
    txn := Committing(old(fs.V()), fs);
  }

  /** A chunk of filewrite always fits a log with a block to spare. */
  method TransactChunk(fs: F.FileSystem, inum: int, off: int, chunk: seq<int>, ghost area: W.Area)
    returns (r: int, ghost txn: W.Txn)
    requires fs.Valid() && 0 <= inum < fs.sb.ninodes && fs.inodes[inum].kind != 0 && 0 <= off < 0x1_0000_0000
    requires |chunk| <= F.MAXCHUNK && area.start + area.size <= fs.sb.inodestart && area.Room(MAXOPBLOCKS + 1)
    modifies fs
    ensures fs.Valid() && Step(old(fs.V()), txn, fs.V(), fs.sb) && W.Loggable(txn, area, fs.sb.size)
  {
    hide F.Covers, Owned, NoHoles, F.Blank, BlockOf;
    ValidIsSound(fs);
    hide Sound;
    ghost var v := fs.V();
    r := fs.WriteTransaction(inum, off, chunk);
    txn := Committing(v, fs);
    StepLoggable(v, txn, fs.V(), fs.sb, area);
    LoggedRange(v, txn, fs.V(), fs.sb);
  }

  /** A sound disk brought into memory is a valid file system. */
  method Mount(v: F.View, sb: Superblock) returns (fs: F.FileSystem)
    requires Sound(v, sb)
    ensures fresh(fs) && fs.Valid() && fs.sb == sb && fs.V() == Begun(v)
  {
    ghost var owner :| SoundWith(v, sb, owner);
    fs := new F.FileSystem(sb, v.bitmap, v.dinodes, v.data, owner);
  }

  ghost predicate Ends(seen: seq<Shown>, now: Shown) { seen != [] && seen[|seen| - 1] == now }

  ghost predicate Continues(seen: seq<Shown>, more: seq<Shown>) { more != [] && Ends(seen, more[0]) }

  /** One life: mount the disk, then commit group after group of system calls. */
  method Work(v: F.View, sb: Superblock, groups: seq<seq<Call>>, ghost area: W.Area)
    returns (fs: F.FileSystem, ghost txns: seq<W.Txn>, ghost seen: seq<seq<Shown>>)
    requires Sound(v, sb)
    ensures fs.Valid() && fs.sb == sb
    ensures |txns| == |seen| == |groups| && Produced(Image(v, sb, area), txns, sb, area)
    ensures forall i :: 0 <= i < |groups| ==> History(groups[i], seen[i])
    ensures forall i :: 0 < i < |groups| ==> Continues(seen[i - 1], seen[i])
    ensures |groups| > 0 ==> Ends(seen[|groups| - 1], Show(fs))
  {
    hide Sound, Owned, NoHoles, F.Blank, BlockOf, Step, F.Covers, Performs, Meta, FilesBelow;
    fs := Mount(v, sb);
    txns, seen := [], [];
    ghost var vs := [fs.V()];
    var i := 0;
    while i < |groups|
      invariant 0 <= i == |txns| == |seen| <= |groups| && fs.Valid() && fs.sb == sb && fresh(fs)
      invariant Run(vs, txns, sb) && vs[0] == Begun(v) && vs[i] == fs.V()
      invariant forall j :: 0 <= j < i ==> History(groups[j], seen[j])
      invariant forall j :: 0 < j < i ==> Continues(seen[j - 1], seen[j])
      invariant i > 0 ==> Ends(seen[i - 1], Show(fs))
    {
      ghost var txn, more := Transact(fs, groups[i]);
      txns, seen, vs := txns + [txn], seen + [more], vs + [fs.V()];
      i := i + 1;
    }
    SameAsBegun(v, sb, area);
  }

  lemma SameAsBegun(v: F.View, sb: Superblock, area: W.Area)
    ensures Image(Begun(v), sb, area) == Image(v, sb, area)
  {
  }

  // ---------------------------------------------------------------- whole lives

  /** After the first k transactions the disk holds the image of state k. */
  lemma {:induction false} RunApplies(vs: seq<F.View>, txns: seq<W.Txn>, sb: Superblock, area: W.Area, k: int)
    requires Run(vs, txns, sb) && area.start + area.size <= sb.inodestart && 0 <= k <= |txns|
    ensures W.OnDiskAll(txns[..k], |vs[0].data|)
    ensures W.AppliedAll(Image(vs[0], sb, area), txns[..k]) == Image(vs[k], sb, area)
  {
    hide Step, Image, W.Applied;
    if k > 0 {
      RunApplies(vs, txns, sb, area, k - 1);
      assert txns[..k][..k - 1] == txns[..k - 1];
      StepApplies(vs[k - 1], txns[k - 1], vs[k], sb, area);
    }
  }

  /** One life, wherever its power fails, leaves the image of a sound file system. */
  lemma LifeSound(o: W.Outcome, boot: W.Boot, sb: Superblock, area: W.Area)
    requires W.Legal(boot.txns, area, |o.home|) && SoundImage(o.home, sb, area)
    requires Produced(o.home, boot.txns, sb, area) && area.start + area.size <= sb.inodestart
    ensures SoundImage(W.AfterBoot(o, boot, area).home, sb, area)
  {
    hide Step, Image, W.AfterTxns, W.AppliedAll;
    var start := W.AfterRecovery(o.(power := boot.power));
    W.PrefixSurvives(start, boot.txns);
    var k := W.Durable(start.power, boot.txns);
    var vs :| Run(vs, boot.txns, sb) && o.home == Image(vs[0], sb, area);
    RunApplies(vs, boot.txns, sb, area, k);
    if k > 0 {
      StepSound(vs[k - 1], boot.txns[k - 1], vs[k], sb);
    }
  }

  /** Every life works on what the lives before it left behind. */
  ghost predicate Lives(o: W.Outcome, boots: seq<W.Boot>, sb: Superblock, area: W.Area) {
    && W.LegalBoots(boots, area, |o.home|)
    && forall i :: 0 <= i < |boots| ==> Produced(W.AfterBoots(o, boots[..i], area).home, boots[i].txns, sb, area)
  }

  lemma {:induction false} LivesSound(o: W.Outcome, boots: seq<W.Boot>, sb: Superblock, area: W.Area)
    requires Lives(o, boots, sb, area) && SoundImage(o.home, sb, area)
    requires area.start + area.size <= sb.inodestart
    ensures SoundImage(W.AfterBoots(o, boots, area).home, sb, area)
  {
    hide SoundImage, Produced;
    if boots != [] {
      var last := |boots| - 1;
      var rest := boots[..last];
      assert forall i :: 0 <= i < last ==> rest[..i] == boots[..i];
      LivesSound(o, rest, sb, area);
      LifeSound(W.AfterBoots(o, rest, area), boots[last], sb, area);
    }
  }

  /**
   A disk that holds a sound file system goes through any lives, each running transactions of the file
   system until the power fails somewhere.  The recovery that completes finds a sound file system.
   */
  method RecoverSound(disk: W.Disk, area: W.Area, boots: seq<W.Boot>, power: nat, ghost o: W.Outcome, sb: Superblock)
    requires W.On(o, disk.blocks, disk.power, area) && power > LOGSIZE
    requires Lives(o, boots, sb, area) && SoundImage(o.home, sb, area)
    requires area.start + area.size <= sb.inodestart
    modifies disk
    ensures W.Cleared(disk.blocks, area) && SoundImage(W.Home(disk.blocks, area), sb, area)
  {
    hide SoundImage, Produced;
    LivesSound(o, boots, sb, area);
    W.LivesSurvive(o, boots, area);
    W.LiveAndRecover(disk, area, boots, power, o);
  }
}
