/**
 mkfs/mkfs.c: the initial image.  Blocks are handed out in order from a counter, so the free
 map is a run of set bits; the file system invariant holds of the result exactly when the root
 directory did not fill its last block before its size was rounded up.
 */
module Mkfs {
  import opened FsState
  import FileSystem

  const T_DIR := 1
  const ROOTINO := 1
  const DIRENT := 16

  /** Past position n, what is mapped of a file is zero. */
  ghost predicate ZeroFrom(s: Fs, sb: Superblock, i: int, n: int)
    requires Shaped(s, sb) && 0 <= i < sb.ninodes && 0 <= n
  {
    forall p :: n <= p < MAXFILE * BSIZE ==> Byte(s, sb, i, p) == 0
  }

  /** The mapped blocks of every file are exactly those below its size, and zero past it. */
  ghost predicate Exact(s: Fs, sb: Superblock)
    requires Shaped(s, sb)
  {
    forall i :: 0 <= i < sb.ninodes ==> ExactTo(s, sb, i, s.inodes[i].size)
  }

  ghost predicate ExactTo(s: Fs, sb: Superblock, i: int, n: int)
    requires Shaped(s, sb) && 0 <= i < sb.ninodes
  {
    && 0 <= n <= MAXFILE * BSIZE && ZeroFrom(s, sb, i, n)
    && forall bn :: 0 <= bn < MAXFILE ==> (Mapped(s, sb, i, bn) <==> bn * BSIZE < n)
  }

  /** Only block `bn` of file `i` became mapped. */
  ghost predicate MapsOnly(s: Fs, s': Fs, sb: Superblock, i: int, bn: int)
    requires Shaped(s, sb) && Shaped(s', sb)
  {
    forall i', bn' :: 0 <= i' < sb.ninodes && 0 <= bn' < MAXFILE ==>
      (Mapped(s', sb, i', bn') <==> Mapped(s, sb, i', bn') || (i', bn') == (i, bn))
  }

  class Mkfs {
    const sb: Superblock
    var freeblock: int
    var freeinode: int
    var inodes: seq<Inode>
    var data: seq<Block>
    ghost var owner: Owners

    ghost function S(): Fs
      reads this
    {
      Fs(inodes, data)
    }

    /** The blocks handed out are exactly the owned ones; the rest of the disk is still zero. */
    ghost predicate Structure()
      reads this
    {
      && Owned(S(), sb, owner)
      && sb.nmeta <= freeblock <= sb.size && 1 <= freeinode <= sb.ninodes
      && (forall b :: b in owner <==> sb.nmeta <= b < freeblock)
      && (forall b :: freeblock <= b < sb.size ==> data[b] == Zeroes())
    }

    ghost predicate Valid()
      reads this
    {
      && Structure() && Exact(S(), sb)
      && (forall i :: freeinode <= i < sb.ninodes || i == 0 ==> FileSystem.Blank(inodes[i]) && inodes[i].kind == 0)
      && (forall i :: 1 <= i < freeinode ==> inodes[i].kind != 0)
    }

    /** A zeroed disk. */
    constructor (sb: Superblock)
      requires sb.Ok()
      ensures Valid() && this.sb == sb && freeblock == sb.nmeta && freeinode == 1
    {
      this.sb := sb;
      freeblock, freeinode := sb.nmeta, 1;
      inodes := seq(sb.ninodes, _ => Inode(0, 0, 0, seq(NDIRECT + 1, _ => 0)));
      data := seq(sb.size, _ => Zeroes());
      owner := map[];
      new;
      assert forall i, k :: IsSlot(i, k, sb) ==> Slot(S(), sb, i, k) == 0;
    }

    /** The next free block, for pointer `k` of the inode itself. */
    method TakeAddr(inum: int, k: int) returns (x: int)
      requires Structure() && 0 <= inum < sb.ninodes && 0 <= k <= NDIRECT
      requires inodes[inum].addrs[k] == 0 ==> freeblock < sb.size
      modifies this`freeblock, this`inodes, this`owner
      ensures Structure() && x != 0 && x == inodes[inum].addrs[k]
      ensures Extends(old(S()), S(), sb) && SlotSet(old(S()), S(), sb, inum, k, x)
      ensures inodes == old(inodes)[inum := old(inodes)[inum].(addrs := old(inodes)[inum].addrs[k := x])]
      ensures freeblock == old(freeblock) + if old(inodes)[inum].addrs[k] == 0 then 1 else 0
      ensures 0 < x < sb.size && (old(inodes)[inum].addrs[k] == 0 ==> data[x] == Zeroes())
    {
      hide Owned;
      OwnedShape(S(), sb, owner);
      x := inodes[inum].addrs[k];
      AddrInUse(S(), sb, owner, inum, k);
      if x == 0 {
        x := freeblock;
        assert Zeroed(S(), x) == S();
        AttachAddr(S(), sb, owner, inum, k, x);
        freeblock := freeblock + 1;
        inodes := inodes[inum := inodes[inum].(addrs := inodes[inum].addrs[k := x])];
        owner := owner[x := (inum, k)];
        assert S() == WithAddr(old(S()), inum, k, x);
      } else {
        assert inodes[inum].addrs[k := x] == inodes[inum].addrs;
      }
    }

    method TakeEntry(inum: int, j: int, ghost k: int) returns (x: int)
      requires Structure() && 0 <= inum < sb.ninodes && 0 <= j < NINDIRECT && k == NDIRECT + 1 + j
      requires inodes[inum].addrs[NDIRECT] != 0
      requires freeblock < sb.size
      modifies this`freeblock, this`data, this`owner
      ensures Structure() && x != 0
      ensures Extends(old(S()), S(), sb) && SlotSet(old(S()), S(), sb, inum, k, x)
      ensures old(freeblock) <= freeblock <= old(freeblock) + 1
      ensures 0 < x < sb.size && (old(Slot(S(), sb, inum, k)) == 0 ==> data[x] == Zeroes())
    {
      hide Owned, Extends, SlotSet;
      OwnedShape(S(), sb, owner);
      NothingSet(S(), sb, inum, k);
      var ind := inodes[inum].addrs[NDIRECT];
      IndirectInUse(S(), sb, owner, inum);
      x := Word(data[ind], j);
      assert x == Slot(S(), sb, inum, k);
      SlotInUse(S(), sb, owner, inum, k);
      if x == 0 {
        x := freeblock;
        assert Zeroed(S(), x) == S();
        AttachEntry(S(), sb, owner, inum, j, k, x);
        freeblock := freeblock + 1;
        data := data[ind := PutWord(data[ind], j, x)];
        owner := owner[x := (inum, k)];
        assert S() == WithEntry(old(S()), inum, j, x);
      }
    }

    /** The disk block of block `fbn` of a file, allocated if missing. */
    method MapBlock(inum: int, fbn: int) returns (x: int)
      requires Structure() && 0 <= inum < sb.ninodes && 0 <= fbn < MAXFILE
      requires freeblock + (if fbn >= NDIRECT && inodes[inum].addrs[NDIRECT] == 0 then 1 else 0) < sb.size
      modifies this`freeblock, this`inodes, this`data, this`owner
      ensures Structure() && x != 0 && x == Slot(S(), sb, inum, SlotOf(fbn))
      ensures Extends(old(S()), S(), sb) && MapsOnly(old(S()), S(), sb, inum, fbn)
      ensures 0 < x < sb.size && (!old(Mapped(S(), sb, inum, fbn)) ==> data[x] == Zeroes())
      ensures FileSystem.AddrsOf(old(inodes), inodes, inum)
      ensures old(freeblock) <= freeblock
      ensures freeblock <= old(freeblock) + 1 +
        if old(inodes)[inum].addrs[NDIRECT] == inodes[inum].addrs[NDIRECT] then 0 else 1
    {
      if fbn < NDIRECT {
        x := TakeAddr(inum, fbn);
        SetMapsOnly(old(S()), S(), sb, inum, fbn, x);
      } else {
        var ind := TakeAddr(inum, NDIRECT);
        ghost var s := S();
        x := TakeEntry(inum, fbn - NDIRECT, SlotOf(fbn));
        ExtendsTrans(old(S()), s, S(), sb);
        IndirectMapsOnly(old(S()), s, S(), sb, inum, ind, fbn, x);
      }
    }

    /** One turn of iappend's loop: `w` is what was appended so far to the file as it was in `s0`. */
    method AppendChunk(inum: int, chunk: seq<int>, ghost s0: Fs, ghost w: seq<int>, at: int, ghost end: int)
      requires Structure() && Shaped(s0, sb) && NoHoles(s0, sb) && 0 <= inum < sb.ninodes
      requires at == s0.inodes[inum].size + |w| && at + |chunk| == end <= MAXFILE * BSIZE && 0 < |chunk|
      requires at % BSIZE + |chunk| <= BSIZE
      requires 0 <= s0.inodes[inum].size && Progress(s0, S(), sb, inum, s0.inodes[inum].size, w)
      requires Exacts(s0, S(), sb, inum, at)
      requires freeblock + (if at / BSIZE >= NDIRECT && inodes[inum].addrs[NDIRECT] == 0 then 1 else 0) < sb.size
      modifies this`freeblock, this`inodes, this`data, this`owner
      ensures Structure() && Progress(s0, S(), sb, inum, s0.inodes[inum].size, w + chunk)
      ensures Exacts(s0, S(), sb, inum, end)
      ensures FileSystem.AddrsOf(old(inodes), inodes, inum)
      ensures old(freeblock) <= freeblock
      ensures freeblock <= old(freeblock) + 1 +
        if old(inodes)[inum].addrs[NDIRECT] == inodes[inum].addrs[NDIRECT] then 0 else 1
    {
      var x := MapBlock(inum, at / BSIZE);
      PutChunk(inum, chunk, s0, old(S()), w, at, x, end);
    }

    method PutChunk(inum: int, chunk: seq<int>, ghost s0: Fs, ghost s: Fs, ghost w: seq<int>, at: int, x: int,
            ghost end: int)
      requires Structure() && Shaped(s0, sb) && NoHoles(s0, sb) && Shaped(s, sb) && 0 <= inum < sb.ninodes
      requires at == s0.inodes[inum].size + |w| && at + |chunk| == end <= MAXFILE * BSIZE && 0 < |chunk|
      requires at % BSIZE + |chunk| <= BSIZE
      requires 0 <= s0.inodes[inum].size && Progress(s0, s, sb, inum, s0.inodes[inum].size, w)
      requires Exacts(s0, s, sb, inum, at)
      requires Extends(s, S(), sb) && MapsOnly(s, S(), sb, inum, at / BSIZE)
      requires 0 < x < sb.size && (!Mapped(s, sb, inum, at / BSIZE) ==> data[x] == Zeroes())
      requires x != 0 && x == Slot(S(), sb, inum, SlotOf(at / BSIZE))
      modifies this`data
      ensures Structure() && Progress(s0, S(), sb, inum, s0.inodes[inum].size, w + chunk)
      ensures Exacts(s0, S(), sb, inum, end)
    {
      ghost var s' := S().(data := data[x := Patched(data[x], at % BSIZE, chunk)]);
      ChunkAppended(s0, s, S(), s', sb, owner, inum, w, chunk, at, x, end);
      data := data[x := Patched(data[x], at % BSIZE, chunk)];
      assert S() == s';
    }

    /** What holds in iappend's loop after `tot` bytes, against the image `s0` it began with. */
    ghost predicate Appending(s0: Fs, fb0: int, inum: int, bytes: seq<int>, tot: int, at: int)
      requires Shaped(s0, sb) && NoHoles(s0, sb) && 0 <= inum < sb.ninodes && 0 <= tot <= |bytes|
      requires 0 <= s0.inodes[inum].size && s0.inodes[inum].size + |bytes| <= MAXFILE * BSIZE
      requires at == s0.inodes[inum].size + tot
      reads this
    {
      && Structure() && FileSystem.AddrsOf(s0.inodes, inodes, inum)
      && Progress(s0, S(), sb, inum, s0.inodes[inum].size, bytes[..tot])
      && Exacts(s0, S(), sb, inum, at)
      && fb0 <= freeblock <= fb0 + FileSystem.Spanned(s0.inodes[inum].size, tot)
                             + (if s0.inodes[inum].addrs[NDIRECT] == inodes[inum].addrs[NDIRECT] then 0 else 1)
      && (tot < |bytes| ==> tot == 0 || at % BSIZE == 0)
    }

    method AppendStep(inum: int, bytes: seq<int>, tot: int, ghost s0: Fs, ghost fb0: int,
            at: int) returns (tot': int, at': int)
      requires Shaped(s0, sb) && NoHoles(s0, sb) && 0 <= inum < sb.ninodes && 0 <= tot < |bytes|
      requires 0 <= s0.inodes[inum].size && s0.inodes[inum].size + |bytes| <= MAXFILE * BSIZE
      requires at == s0.inodes[inum].size + tot
      requires fb0 + FileSystem.Spanned(s0.inodes[inum].size, |bytes|) + 1 <= sb.size
      requires Appending(s0, fb0, inum, bytes, tot, at)
      modifies this`freeblock, this`inodes, this`data, this`owner
      ensures tot < tot' <= |bytes| && at' == s0.inodes[inum].size + tot' && Appending(s0, fb0, inum, bytes, tot', at')
    {
      hide Owned, Exact, Progress, Exacts, NoHoles;
      var m := ChunkLen(at, |bytes| - tot);
      tot', at' := tot + m, at + m;
      var w, chunk := bytes[..tot], bytes[tot..tot'];
      assert bytes[..tot'] == w + chunk;
      FileSystem.SpannedStep(s0.inodes[inum].size, tot, m);
      FileSystem.SpannedMono(s0.inodes[inum].size, tot', |bytes|);
      AppendChunk(inum, chunk, s0, w, at, at');
    }

    /** iappend's loop. */
    method AppendLoop(inum: int, bytes: seq<int>, ghost end: int)
      requires Structure() && Exact(S(), sb) && NoHoles(S(), sb) && 0 <= inum < sb.ninodes
      requires inodes[inum].size + |bytes| == end <= MAXFILE * BSIZE
      requires 0 <= inodes[inum].size && freeblock + FileSystem.Spanned(inodes[inum].size, |bytes|) + 1 <= sb.size
      modifies this`freeblock, this`inodes, this`data, this`owner
      ensures Appending(old(S()), old(freeblock), inum, bytes, |bytes|, end)
    {
      hide Owned, Exact, Progress, Exacts;
      ghost var s0, fb0 := S(), freeblock;
      OwnedShape(s0, sb, owner);
      StartAppending(s0, sb, inum);
      var size := inodes[inum].size;
      var tot, at := 0, size;
      while tot < |bytes|
        invariant 0 <= tot <= |bytes| && at == size + tot
        invariant Appending(s0, fb0, inum, bytes, tot, at)
      {
        tot, at := AppendStep(inum, bytes, tot, s0, fb0, at);
      }
    }

    /** Appends `bytes` to a file. */
    method Iappend(inum: int, bytes: seq<int>)
      requires Valid() && 1 <= inum < freeinode && inodes[inum].size + |bytes| <= MAXFILE * BSIZE
      requires 0 <= inodes[inum].size && freeblock + FileSystem.Spanned(inodes[inum].size, |bytes|) + 1 <= sb.size
      modifies this`freeblock, this`inodes, this`data, this`owner
      ensures Valid() && old(HoleFree()) && HoleFree()
      ensures Files(S(), sb) == old(Files(S(), sb))[inum := old(Files(S(), sb))[inum] + bytes]
      ensures Meta(inodes) == old(Meta(inodes)) && inodes[inum].size == old(inodes)[inum].size + |bytes|
      ensures old(freeblock) <= freeblock <= old(freeblock) + FileSystem.Spanned(old(inodes)[inum].size, |bytes|) + 1
    {
      ExactMeansNoHoles(S(), sb);
      var size := inodes[inum].size + |bytes|;
      AppendLoop(inum, bytes, size);
      assert bytes[..|bytes|] == bytes;
      AppendDone(old(S()), S(), sb, owner, inum, bytes, size);
      ghost var s := S();
      inodes := inodes[inum := inodes[inum].(size := size)];
      assert S() == s.(inodes := s.inodes[inum := s.inodes[inum].(size := size)]);
    }

    /** A fresh inode with one link. */
    method Ialloc(kind: int) returns (inum: int)
      requires Valid() && freeinode < sb.ninodes && kind != 0
      modifies this`freeinode, this`inodes
      ensures Valid() && old(HoleFree()) && HoleFree()
      ensures inum == old(freeinode) && freeinode == inum + 1
      ensures inodes[inum] == Inode(kind, 1, 0, old(inodes)[inum].addrs)
      ensures Files(S(), sb) == old(Files(S(), sb))
      ensures Meta(inodes) == old(Meta(inodes))[inum := (kind, 1)]
    {
      ExactMeansNoHoles(S(), sb);
      inum := freeinode;
      ghost var s := S();
      inodes := inodes[inum := Inode(kind, 1, 0, seq(NDIRECT + 1, _ => 0))];
      freeinode := freeinode + 1;
      assert inodes[inum].addrs == s.inodes[inum].addrs;
      NewInode(s, S(), sb, owner, inum);
      RetypedExact(s, S(), sb, inum);
    }

    /** balloc: mark the blocks handed out so far as used. */
    method Bitmap() returns (bits: seq<bool>)
      requires sb.Ok() && 0 <= freeblock <= sb.size
      ensures |bits| == sb.size && forall b :: 0 <= b < sb.size ==> (bits[b] <==> b < freeblock)
    {
      bits := seq(sb.size, _ => false);
      var i := 0;
      while i < freeblock
        invariant 0 <= i <= freeblock
        invariant |bits| == sb.size && forall b :: 0 <= b < sb.size ==> (bits[b] <==> b < i)
      {
        bits := bits[i := true];
        i := i + 1;
      }
    }

    /**
     The end of main: round the root directory up to a whole block and write the free map.  The
     rounding always adds room, so when the directory filled its last block exactly it adds a
     block that was never mapped, and only then is the image not a valid file system.
     */
    method Finish() returns (fs: FileSystem.FileSystem)
      requires Valid() && freeinode > ROOTINO && inodes[ROOTINO].size < MAXFILE * BSIZE
      requires freeblock < BPB
      modifies this`inodes
      ensures fs.sb == sb && fs.Structure()
      ensures fs.Valid() <==> old(inodes)[ROOTINO].size % BSIZE != 0
      ensures old(HoleFree()) && Meta(fs.inodes) == old(Meta(inodes))
      ensures |fs.inodes| == |old(inodes)| > ROOTINO
      ensures var root := old(inodes)[ROOTINO];
        fs.inodes == old(inodes)[ROOTINO := root.(size := (root.size / BSIZE + 1) * BSIZE)]
      ensures fs.Valid() ==> |fs.Contents()| == |old(Files(S(), sb))| == sb.ninodes > ROOTINO
      ensures fs.Valid() ==> PaddedTo(old(Files(S(), sb)), fs.Contents(), ROOTINO)
    {
      ExactMeansNoHoles(S(), sb);
      ghost var s := S();
      var off := (inodes[ROOTINO].size / BSIZE + 1) * BSIZE;
      Rounded(s, sb, owner, ROOTINO, off);
      inodes := inodes[ROOTINO := inodes[ROOTINO].(size := off)];
      var bits := Bitmap();
      fs := new FileSystem.FileSystem(sb, bits, inodes, data, owner);
      assert fs.S() == s.(inodes := s.inodes[ROOTINO := s.inodes[ROOTINO].(size := off)]);
    }

    ghost predicate HoleFree()
      reads this
    {
      Shaped(S(), sb) && NoHoles(S(), sb)
    }
  }

  /** A directory fills its last block exactly when its entry count is a multiple of 64. */
  lemma EntriesFillBlock(entries: int)
    ensures (entries * DIRENT) % BSIZE != 0 <==> entries % (BSIZE / DIRENT) != 0
  {
    var q, r := entries / 64, entries % 64;
    assert entries * DIRENT == q * BSIZE + r * DIRENT;
  }

  /** The layout of the shipped image: 2000 blocks, of which 46 hold no data, and 200 inodes. */
  const SHIPPED := Superblock(2000, 46, 200, 32, 45)

  /** A root directory that fills one block exactly, with its 64 entries, makes an image with a hole in it. */
  method FullRootHasHole(block: seq<int>) returns (fs: FileSystem.FileSystem)
    requires |block| == BSIZE
    ensures fs.sb == SHIPPED && fs.Structure() && !fs.Valid()
    ensures |fs.inodes| > ROOTINO && fs.inodes[ROOTINO].size == 2 * BSIZE
  {
    hide Owned, Exact, NoHoles, PaddedTo, Files, Shaped;
    var image := new Mkfs(SHIPPED);
    var root := image.Ialloc(T_DIR);
    image.Iappend(root, block);
    fs := image.Finish();
  }

  lemma SetMapsOnly(s: Fs, s': Fs, sb: Superblock, i: int, bn: int, x: int)
    requires Shaped(s, sb) && Shaped(s', sb) && 0 <= i < sb.ninodes && 0 <= bn < MAXFILE && x != 0
    requires SlotSet(s, s', sb, i, SlotOf(bn), x)
    ensures MapsOnly(s, s', sb, i, bn)
  {
    forall i', bn' | 0 <= i' < sb.ninodes && 0 <= bn' < MAXFILE
      ensures Mapped(s', sb, i', bn') <==> Mapped(s, sb, i', bn') || (i', bn') == (i, bn)
    {
      assert IsSlot(i', SlotOf(bn'), sb);
    }
  }

  lemma IndirectMapsOnly(s: Fs, s1: Fs, s': Fs, sb: Superblock, i: int, ind: int, bn: int, x: int)
    requires Shaped(s, sb) && Shaped(s1, sb) && Shaped(s', sb) && 0 <= i < sb.ninodes && NDIRECT <= bn < MAXFILE
    requires x != 0
    requires SlotSet(s, s1, sb, i, NDIRECT, ind) && SlotSet(s1, s', sb, i, SlotOf(bn), x)
    ensures MapsOnly(s, s', sb, i, bn)
  {
    forall i', bn' | 0 <= i' < sb.ninodes && 0 <= bn' < MAXFILE
      ensures Mapped(s', sb, i', bn') <==> Mapped(s, sb, i', bn') || (i', bn') == (i, bn)
    {
      assert IsSlot(i', SlotOf(bn'), sb);
      assert Slot(s1, sb, i', SlotOf(bn')) == Slot(s, sb, i', SlotOf(bn'));
    }
  }

  lemma SameMapsOnly(s: Fs, s1: Fs, s': Fs, sb: Superblock, i: int, bn: int)
    requires Shaped(s, sb) && Shaped(s1, sb) && Shaped(s', sb) && MapsOnly(s, s1, sb, i, bn) && SlotsSame(s1, s', sb)
    ensures MapsOnly(s, s', sb, i, bn)
  {
    SameMapped(s1, s', sb);
  }

  /** File `i'` is mapped as far as its size in `s0`, or as far as `n` if it is file `i`. */
  ghost predicate ExactFile(s0: Fs, s: Fs, sb: Superblock, i: int, n: int, i': int)
    requires Shaped(s0, sb) && Shaped(s, sb) && 0 <= i' < sb.ninodes
  {
    ExactTo(s, sb, i', if i' == i then n else s0.inodes[i'].size)
  }

  ghost predicate Exacts(s0: Fs, s: Fs, sb: Superblock, i: int, n: int)
    requires Shaped(s0, sb) && Shaped(s, sb)
  {
    forall i' :: 0 <= i' < sb.ninodes ==> ExactFile(s0, s, sb, i, n, i')
  }

  lemma ExactStep(s0: Fs, s: Fs, s': Fs, sb: Superblock, i: int, at: int, m: int, n: int)
    requires Shaped(s0, sb) && Shaped(s, sb) && Shaped(s', sb) && 0 <= i < sb.ninodes
    requires Exacts(s0, s, sb, i, at) && 0 <= at && 0 < m && at % BSIZE + m <= BSIZE && n == at + m <= MAXFILE * BSIZE
    requires MapsOnly(s, s', sb, i, at / BSIZE)
    requires forall i', p :: 0 <= i' < sb.ninodes && 0 <= p < MAXFILE * BSIZE && !(i' == i && at <= p < n) ==>
      Byte(s', sb, i', p) == Byte(s, sb, i', p)
    ensures Exacts(s0, s', sb, i, n)
  {
    forall i' | 0 <= i' < sb.ninodes
      ensures ExactFile(s0, s', sb, i, n, i')
    {
      assert ExactFile(s0, s, sb, i, at, i');
      forall bn | 0 <= bn < MAXFILE
        ensures Mapped(s', sb, i', bn) <==> bn * BSIZE < if i' == i then n else s0.inodes[i'].size
      {
        assert Mapped(s', sb, i', bn) <==> Mapped(s, sb, i', bn) || (i', bn) == (i, at / BSIZE);
      }
    }
  }

  lemma ExactMeansNoHoles(s: Fs, sb: Superblock)
    requires Shaped(s, sb) && Exact(s, sb)
    ensures NoHoles(s, sb)
  {
    forall i | 0 <= i < sb.ninodes
      ensures MappedTo(s, sb, i, s.inodes[i].size)
    {
      assert ExactTo(s, sb, i, s.inodes[i].size);
    }
  }

  lemma StartAppending(s: Fs, sb: Superblock, i: int)
    requires Shaped(s, sb) && NoHoles(s, sb) && Exact(s, sb) && 0 <= i < sb.ninodes
    requires 0 <= s.inodes[i].size <= MAXFILE * BSIZE
    ensures Exacts(s, s, sb, i, s.inodes[i].size) && Progress(s, s, sb, i, s.inodes[i].size, [])
  {
    forall i' | 0 <= i' < sb.ninodes
      ensures ExactFile(s, s, sb, i, s.inodes[i].size, i')
    {
      assert ExactTo(s, sb, i', s.inodes[i'].size);
    }
  }

  lemma AppendDone(s0: Fs, s: Fs, sb: Superblock, owner: Owners, i: int, bytes: seq<int>, size: int)
    requires Shaped(s0, sb) && NoHoles(s0, sb) && Owned(s, sb, owner) && 0 <= i < sb.ninodes
    requires 0 <= s0.inodes[i].size && s0.inodes[i].size + |bytes| == size <= MAXFILE * BSIZE
    requires FileSystem.AddrsOf(s0.inodes, s.inodes, i)
    requires Progress(s0, s, sb, i, s0.inodes[i].size, bytes) && Exacts(s0, s, sb, i, size)
    ensures var s' := s.(inodes := s.inodes[i := s.inodes[i].(size := size)]);
            && Owned(s', sb, owner) && NoHoles(s', sb) && Exact(s', sb)
            && Files(s', sb) == Files(s0, sb)[i := Files(s0, sb)[i] + bytes]
            && Meta(s'.inodes) == Meta(s0.inodes)
  {
    var s' := s.(inodes := s.inodes[i := s.inodes[i].(size := size)]);
    WriteDone(s0, s, sb, owner, i, s0.inodes[i].size, bytes, size);
    var f := Files(s0, sb)[i];
    assert Splice(f, |f|, bytes) == f + bytes;
    SizeExact(s0, s, sb, i, size);
  }

  /** Bytes depend on pointers and data only. */
  lemma SameBytes(s: Fs, s': Fs, sb: Superblock, i: int, n: int)
    requires Shaped(s, sb) && Shaped(s', sb) && s'.data == s.data && SlotsSame(s, s', sb) && 0 <= i < sb.ninodes
    requires 0 <= n
    requires ZeroFrom(s, sb, i, n)
    ensures ZeroFrom(s', sb, i, n)
  {
    forall p | n <= p < MAXFILE * BSIZE
      ensures Byte(s', sb, i, p) == 0
    {
      assert IsSlot(i, SlotOf(p / BSIZE), sb) && Byte(s, sb, i, p) == 0;
    }
  }

  lemma SizeExact(s0: Fs, s: Fs, sb: Superblock, i: int, size: int)
    requires Shaped(s0, sb) && Shaped(s, sb) && 0 <= i < sb.ninodes
    requires FileSystem.AddrsOf(s0.inodes, s.inodes, i) && Exacts(s0, s, sb, i, size)
    ensures var s' := s.(inodes := s.inodes[i := s.inodes[i].(size := size)]);
            Shaped(s', sb) && Exact(s', sb)
  {
    var s' := s.(inodes := s.inodes[i := s.inodes[i].(size := size)]);
    SameMapped(s, s', sb);
    forall i' | 0 <= i' < sb.ninodes
      ensures ExactTo(s', sb, i', s'.inodes[i'].size)
    {
      assert ExactFile(s0, s, sb, i, size, i');
      SameBytes(s, s', sb, i', s'.inodes[i'].size);
    }
  }

  /** Mapping a zeroed block and writing a chunk into it changes no byte outside the chunk. */
  lemma ByteKept(s: Fs, s1: Fs, s': Fs, sb: Superblock, owner: Owners, i: int, chunk: seq<int>, at: int, x: int,
          i': int, p: int)
    requires Shaped(s, sb) && Owned(s1, sb, owner) && Shaped(s', sb) && 0 <= i < sb.ninodes && 0 <= at
    requires at + |chunk| <= MAXFILE * BSIZE && 0 < |chunk| && at % BSIZE + |chunk| <= BSIZE
    requires Extends(s, s1, sb) && MapsOnly(s, s1, sb, i, at / BSIZE)
    requires 0 < x < sb.size && (!Mapped(s, sb, i, at / BSIZE) ==> s1.data[x] == Zeroes())
    requires x != 0 && x == Slot(s1, sb, i, SlotOf(at / BSIZE)) && 0 < x < sb.size
    requires s' == s1.(data := s1.data[x := Patched(s1.data[x], at % BSIZE, chunk)]) && SlotsSame(s1, s', sb)
    requires 0 <= i' < sb.ninodes && 0 <= p < MAXFILE * BSIZE && !(i' == i && at <= p < at + |chunk|)
    ensures Byte(s', sb, i', p) == Byte(s, sb, i', p)
  {
    assert IsSlot(i', SlotOf(p / BSIZE), sb);
    if Mapped(s1, sb, i', p / BSIZE) {
      PatchBytes(s1, sb, owner, i, at, chunk, i', p);
      if Mapped(s, sb, i', p / BSIZE) {
        ExtendsBytes(s, s1, sb, i', p);
      } else {
        assert (i', p / BSIZE) == (i, at / BSIZE);
      }
    } else {
      assert !Mapped(s, sb, i', p / BSIZE);
    }
  }

  lemma ChunkAppended(s0: Fs, s: Fs, s1: Fs, s': Fs, sb: Superblock, owner: Owners, i: int, w: seq<int>,
          chunk: seq<int>, at: int, x: int, end: int)
    requires Shaped(s0, sb) && NoHoles(s0, sb) && Shaped(s, sb) && Owned(s1, sb, owner) && 0 <= i < sb.ninodes
    requires at == s0.inodes[i].size + |w| && at + |chunk| == end <= MAXFILE * BSIZE && 0 < |chunk|
    requires at % BSIZE + |chunk| <= BSIZE
    requires 0 <= s0.inodes[i].size && Progress(s0, s, sb, i, s0.inodes[i].size, w) && Exacts(s0, s, sb, i, at)
    requires Extends(s, s1, sb) && MapsOnly(s, s1, sb, i, at / BSIZE)
    requires 0 < x < sb.size && (!Mapped(s, sb, i, at / BSIZE) ==> s1.data[x] == Zeroes())
    requires x != 0 && x == Slot(s1, sb, i, SlotOf(at / BSIZE)) && x in owner
    requires s' == s1.(data := s1.data[x := Patched(s1.data[x], at % BSIZE, chunk)])
    ensures Owned(s', sb, owner) && Progress(s0, s', sb, i, s0.inodes[i].size, w + chunk)
    ensures Exacts(s0, s', sb, i, end)
  {
    ChunkWritten(s0, s, s1, sb, owner, i, s0.inodes[i].size, w, chunk);
    assert Exacts(s0, s', sb, i, end) by {
      DataKeepsSlots(s1, sb, owner, x, Patched(s1.data[x], at % BSIZE, chunk));
      SameMapsOnly(s, s1, s', sb, i, at / BSIZE);
      forall i', p | 0 <= i' < sb.ninodes && 0 <= p < MAXFILE * BSIZE && !(i' == i && at <= p < end)
        ensures Byte(s', sb, i', p) == Byte(s, sb, i', p)
      {
        ByteKept(s, s1, s', sb, owner, i, chunk, at, x, i', p);
      }
      ExactStep(s0, s, s', sb, i, at, |chunk|, end);
    }
  }

  lemma RetypedExact(s: Fs, s': Fs, sb: Superblock, i: int)
    requires Shaped(s, sb) && Shaped(s', sb) && 0 <= i < sb.ninodes && s'.data == s.data && Exact(s, sb)
    requires s'.inodes == s.inodes[i := s'.inodes[i]]
    requires s'.inodes[i].size == s.inodes[i].size && s'.inodes[i].addrs == s.inodes[i].addrs
    ensures Exact(s', sb)
  {
    assert SlotsSame(s, s', sb);
    SameMapped(s, s', sb);
    forall i' | 0 <= i' < sb.ninodes
      ensures ExactTo(s', sb, i', s'.inodes[i'].size)
    {
      assert ExactTo(s, sb, i', s.inodes[i'].size);
      SameBytes(s, s', sb, i', s.inodes[i'].size);
    }
  }

  /** The files are the same, but for zeros at the end of file i. */
  ghost predicate PaddedTo(fs: seq<seq<int>>, fs': seq<seq<int>>, i: int) {
    && |fs| == |fs'| && 0 <= i < |fs| && fs' == fs[i := fs'[i]]
    && fs[i] <= fs'[i] && forall p :: |fs[i]| <= p < |fs'[i]| ==> fs'[i][p] == 0
  }

  /** What rounding the size of file `i` up does to the invariants. */
  lemma Rounded(s: Fs, sb: Superblock, owner: Owners, i: int, off: int)
    requires Owned(s, sb, owner) && Exact(s, sb) && NoHoles(s, sb) && 0 <= i < sb.ninodes
    requires s.inodes[i].size < MAXFILE * BSIZE && off == (s.inodes[i].size / BSIZE + 1) * BSIZE
    ensures var s' := s.(inodes := s.inodes[i := s.inodes[i].(size := off)]);
            && Owned(s', sb, owner) && Meta(s'.inodes) == Meta(s.inodes)
            && (NoHoles(s', sb) <==> s.inodes[i].size % BSIZE != 0)
            && |Files(s, sb)| == sb.ninodes && (NoHoles(s', sb) ==> PaddedTo(Files(s, sb), Files(s', sb), i))
  {
    var s' := s.(inodes := s.inodes[i := s.inodes[i].(size := off)]);
    var size := s.inodes[i].size;
    OwnedSame(s, s', sb, owner);
    MetaUpdate(s.inodes, i, s'.inodes[i]);
    assert Meta(s.inodes)[i := Meta(s.inodes)[i]] == Meta(s.inodes);
    SameMapped(s, s', sb);
    RoundedHoles(s, s', sb, i, off);
    if size % BSIZE != 0 {
      RoundedFiles(s, s', sb, i, off);
    }
  }

  /** Rounding up leaves a hole exactly when it adds a block that is not mapped. */
  lemma RoundedHoles(s: Fs, s': Fs, sb: Superblock, i: int, off: int)
    requires Shaped(s, sb) && Shaped(s', sb) && Exact(s, sb) && 0 <= i < sb.ninodes
    requires s.inodes[i].size < MAXFILE * BSIZE
    requires off == (s.inodes[i].size / BSIZE + 1) * BSIZE
    requires s' == s.(inodes := s.inodes[i := s.inodes[i].(size := off)])
    requires forall i', bn :: 0 <= i' < sb.ninodes && 0 <= bn < MAXFILE ==>
      Mapped(s', sb, i', bn) == Mapped(s, sb, i', bn)
    ensures NoHoles(s', sb) <==> s.inodes[i].size % BSIZE != 0
  {
    var size := s.inodes[i].size;
    assert ExactTo(s, sb, i, size);
    if size % BSIZE == 0 {
      assert !Mapped(s', sb, i, size / BSIZE);
      assert !MappedTo(s', sb, i, off);
    } else {
      forall i' | 0 <= i' < sb.ninodes
        ensures MappedTo(s', sb, i', s'.inodes[i'].size)
      {
        assert ExactTo(s, sb, i', s.inodes[i'].size);
      }
    }
  }

  lemma RoundedFiles(s: Fs, s': Fs, sb: Superblock, i: int, off: int)
    requires Shaped(s, sb) && NoHoles(s, sb) && Shaped(s', sb) && NoHoles(s', sb) && 0 <= i < sb.ninodes
    requires s' == s.(inodes := s.inodes[i := s.inodes[i].(size := off)]) && s.inodes[i].size <= off
    requires ZeroFrom(s, sb, i, s.inodes[i].size) && off <= MAXFILE * BSIZE
    ensures PaddedTo(Files(s, sb), Files(s', sb), i)
  {
    forall i', p | 0 <= i' < sb.ninodes && 0 <= p < s'.inodes[i'].size
      ensures |Files(s', sb)[i']| == s'.inodes[i'].size && |Files(s, sb)[i']| == s.inodes[i'].size
      ensures Files(s', sb)[i'][p] == if p < s.inodes[i'].size then Files(s, sb)[i'][p] else 0
    {
      RoundedByte(s, s', sb, i, off, i', p);
    }
    forall i' | 0 <= i' < sb.ninodes
      ensures |Files(s', sb)[i']| == s'.inodes[i'].size && |Files(s, sb)[i']| == s.inodes[i'].size
    {
      FilesAt(s, sb, sb.ninodes, i');
      FilesAt(s', sb, sb.ninodes, i');
    }
    assert Files(s', sb) == Files(s, sb)[i := Files(s', sb)[i]] by {
      assert forall i' :: 0 <= i' < sb.ninodes && i' != i ==> Files(s', sb)[i'] == Files(s, sb)[i'];
    }
  }

  lemma RoundedByte(s: Fs, s': Fs, sb: Superblock, i: int, off: int, i': int, p: int)
    requires Shaped(s, sb) && NoHoles(s, sb) && Shaped(s', sb) && NoHoles(s', sb) && 0 <= i < sb.ninodes
    requires s' == s.(inodes := s.inodes[i := s.inodes[i].(size := off)]) && s.inodes[i].size <= off
    requires ZeroFrom(s, sb, i, s.inodes[i].size) && off <= MAXFILE * BSIZE
    requires 0 <= i' < sb.ninodes && 0 <= p < s'.inodes[i'].size
    ensures |Files(s', sb)[i']| == s'.inodes[i'].size && |Files(s, sb)[i']| == s.inodes[i'].size
    ensures Files(s', sb)[i'][p] == if p < s.inodes[i'].size then Files(s, sb)[i'][p] else 0
  {
    FilesAt(s, sb, sb.ninodes, i');
    FilesAt(s', sb, sb.ninodes, i');
    BytesAt(s', sb, i', s'.inodes[i'].size, p);
    assert Slot(s', sb, i', SlotOf(p / BSIZE)) == Slot(s, sb, i', SlotOf(p / BSIZE));
    if p < s.inodes[i'].size {
      BytesAt(s, sb, i', s.inodes[i'].size, p);
    } else {
      assert Byte(s, sb, i, p) == 0;
    }
  }
}
