/**
 The block and inode layers of kernel/fs.c and the chunking of kernel/file.c: balloc, bfree,
 bmap, itrunc, readi, writei, ialloc, iput and filewrite over the structures of FsState.

 Copies to and from user memory are taken to succeed; buffers and the log are seen through
 their contents, with ghost sets recording which blocks were handed to log_write.
 */
module FileSystem {
  import opened Basics
  import opened FsState

  class FileSystem {
    const sb: Superblock
    var bitmap: seq<bool>        // bit b of the free map
    var inodes: seq<Inode>       // in-memory inodes
    var dinodes: seq<Inode>      // the inode blocks
    var data: seq<Block>         // the contents of every block
    ghost var owner: Owners
    ghost var logBits: set<int>  // blocks of the free map, data and indirect blocks, and inode
    ghost var logData: set<int>  // blocks passed to log_write since the transaction began
    ghost var logInodes: set<int>

    ghost function S(): Fs
      reads this
    {
      Fs(inodes, data)
    }

    ghost function V(): (v: View)
      reads this
    {
      View(bitmap, dinodes, data, logBits, logData, logInodes)
    }

    /** A bit is set for metadata, for owned blocks not freed yet, and for one block on its way to a pointer. */
    ghost predicate Bits(held: int, freed: set<int>)
      reads this
    {
      && |bitmap| == sb.size
      && forall b :: 0 <= b < sb.size ==> (bitmap[b] <==> b < sb.nmeta || (b in owner && b !in freed) || b == held)
    }

    /** The set bits are exactly the metadata blocks and the blocks that pointers reach, each reached once. */
    ghost predicate Structure()
      reads this
    {
      Owned(S(), sb, owner) && Bits(0, {}) && |dinodes| == sb.ninodes && 0 !in logData
    }

    /** Between operations, no file has holes and the inode blocks are up to date. */
    ghost predicate Valid()
      reads this
    {
      && Structure() && NoHoles(S(), sb) && dinodes == inodes
      && forall i :: 0 <= i < sb.ninodes && inodes[i].kind == 0 ==> Blank(inodes[i])
    }

    /** A disk image brought into memory. */
    constructor (sb: Superblock, bitmap: seq<bool>, inodes: seq<Inode>, data: seq<Block>, ghost owner: Owners)
      ensures this.sb == sb && this.bitmap == bitmap && this.inodes == inodes && dinodes == inodes
      ensures this.data == data && this.owner == owner && logBits == logData == logInodes == {}
    {
      this.sb, this.bitmap, this.inodes, this.dinodes, this.data := sb, bitmap, inodes, inodes, data;
      this.owner, logBits, logData, logInodes := owner, {}, {}, {};
    }

    ghost predicate DiskFull()
      reads this
    {
      |bitmap| == sb.size && forall b :: 0 <= b < sb.size ==> bitmap[b]
    }

    // -------------------------------------------------------------- blocks

    twostate predicate Unchanged()
      reads this
    {
      && bitmap == old(bitmap) && inodes == old(inodes) && data == old(data) && owner == old(owner)
      && logBits == old(logBits) && logData == old(logData)
    }

    /** Allocate and zero the first free block; 0 when there is none. */
    method Balloc() returns (r: int)
      requires Structure()
      modifies this`bitmap, this`data, this`logBits, this`logData
      ensures Bits(r, {})
      ensures r == 0 ==> DiskFull() && Unchanged()
      ensures r != 0 ==> sb.nmeta <= r < sb.size && r !in owner
      ensures r != 0 ==> !old(bitmap[r]) && forall b :: 0 <= b < r ==> old(bitmap[b])
      ensures r != 0 ==> data == old(data)[r := Zeroes()]
      ensures r != 0 ==> logBits == old(logBits) + {sb.BBlock(r)} && logData == old(logData) + {r}
      ensures Covers(old(V()), V(), sb)
    {
      hide Covers;
      CoversNothing(V(), sb);
      var b := 0;
      while b < sb.size
        invariant 0 <= b
        invariant forall x :: 0 <= x < b && x < sb.size ==> bitmap[x]
      {
        var bi := 0;
        while bi < BPB && b + bi < sb.size
          invariant 0 <= bi <= BPB
          invariant forall x :: 0 <= x < b + bi && x < sb.size ==> bitmap[x]
        {
          if !bitmap[b + bi] {
            r := b + bi;
            ghost var v := V();
            CoversBit(v, r, true, sb);
            bitmap := bitmap[r := true];
            logBits := logBits + {sb.BBlock(r)};
            ghost var v' := V();
            CoversBlock(v', r, Zeroes(), sb);
            data := data[r := Zeroes()];
            logData := logData + {r};
            CoversTrans(v, v', V(), sb);
            return r;
          }
          bi := bi + 1;
        }
        b := b + BPB;
      }
      return 0;
    }

    /** Freeing needs the bit to be set: "freeing free block" is the callers' obligation. */
    method Bfree(b: int)
      requires sb.Ok() && |bitmap| == sb.size && 0 <= b < sb.size && bitmap[b]
      modifies this`bitmap, this`logBits
      ensures bitmap == old(bitmap)[b := false]
      ensures logBits == old(logBits) + {sb.BBlock(b)}
      ensures Covers(old(V()), V(), sb)
    {
      hide Covers;
      CoversBit(V(), b, false, sb);
      bitmap := bitmap[b := false];
      logBits := logBits + {sb.BBlock(b)};
    }

    // -------------------------------------------------------------- bmap

    ghost function LogOf(inum: int): (l: Log)
      requires 0 <= inum < |inodes| && |inodes[inum].addrs| == NDIRECT + 1
      reads this
    {
      Log(logData, |logBits|, inodes[inum].addrs[NDIRECT])
    }

    /** Pointer `k` of an inode's own table, with a block allocated for it if it held none. */
    method AddrOrAlloc(inum: int, k: int) returns (addr: int)
      requires Structure() && 0 <= inum < sb.ninodes && 0 <= k <= NDIRECT
      modifies this`bitmap, this`inodes, this`data, this`owner, this`logBits, this`logData
      ensures Structure() && AddrsOf(old(inodes), inodes, inum)
      ensures Extends(old(S()), S(), sb)
      ensures addr == inodes[inum].addrs[k]
      ensures SlotSet(old(S()), S(), sb, inum, k, addr)
      ensures addr == 0 ==> DiskFull()
      ensures addr == 0 || old(inodes)[inum].addrs[k] != 0 ==> Unchanged()
      ensures addr != 0 && old(inodes)[inum].addrs[k] == 0 ==>
                logBits == old(logBits) + {sb.BBlock(addr)} && logData == old(logData) + {addr}
      ensures Covers(old(V()), V(), sb)
    {
      hide Covers;
      CoversNothing(V(), sb);
      addr := inodes[inum].addrs[k];
      if addr == 0 {
        addr := Balloc();
        if addr == 0 {
          return;
        }
        inodes := inodes[inum := inodes[inum].(addrs := inodes[inum].addrs[k := addr])];
        AttachAddr(old(S()), sb, owner, inum, k, addr);
        owner := owner[addr := (inum, k)];
        assert S() == WithAddr(Zeroed(old(S()), addr), inum, k, addr);
      }
    }

    /** Entry `j` of the indirect block, with a block allocated for it if it held none. */
    method EntryOrAlloc(inum: int, j: int, ghost k: int) returns (addr: int)
      requires Structure() && 0 <= inum < sb.ninodes && 0 <= j < NINDIRECT && k == NDIRECT + 1 + j
      requires inodes[inum].addrs[NDIRECT] != 0
      modifies this`bitmap, this`data, this`owner, this`logBits, this`logData
      ensures Structure() && Extends(old(S()), S(), sb)
      ensures addr == Slot(S(), sb, inum, k)
      ensures addr == 0 ==> DiskFull()
      ensures addr == 0 || old(Slot(S(), sb, inum, k)) != 0 ==> Unchanged()
      ensures addr != 0 && old(Slot(S(), sb, inum, k)) == 0 ==>
                logBits == old(logBits) + {sb.BBlock(addr)} &&
                  logData == old(logData) + {addr, inodes[inum].addrs[NDIRECT]}
      ensures Covers(old(V()), V(), sb)
    {
      hide Owned, Covers;
      CoversNothing(V(), sb);
      OwnedShape(S(), sb, owner);
      var ind := inodes[inum].addrs[NDIRECT];
      IndirectInUse(S(), sb, owner, inum);
      addr := Word(data[ind], j);
      assert addr == Slot(S(), sb, inum, k);
      if addr == 0 {
        addr := Balloc();
        if addr != 0 {
          ghost var v := V();
          CoversBlock(v, ind, PutWord(data[ind], j, addr), sb);
          data := data[ind := PutWord(data[ind], j, addr)];
          AttachEntry(old(S()), sb, owner, inum, j, k, addr);
          owner := owner[addr := (inum, k)];
          assert S() == WithEntry(Zeroed(old(S()), addr), inum, j, addr);
          logData := logData + {ind};
          CoversTrans(old(V()), v, V(), sb);
        }
      }
    }

    /** The second half of bmap: blocks reached through the indirect block. */
    method BmapIndirect(inum: int, bn: int) returns (addr: int)
      requires Structure() && 0 <= inum < sb.ninodes && NDIRECT <= bn < MAXFILE
      modifies this`bitmap, this`inodes, this`data, this`owner, this`logBits, this`logData
      ensures Structure() && AddrsOf(old(inodes), inodes, inum) && Extends(old(S()), S(), sb)
      ensures addr == Slot(S(), sb, inum, SlotOf(bn))
      ensures addr == 0 ==> DiskFull()
      ensures old(Mapped(S(), sb, inum, bn)) ==> Unchanged()
      ensures Grown(old(LogOf(inum)), LogOf(inum), addr, old(Mapped(S(), sb, inum, bn)))
      ensures Covers(old(V()), V(), sb)
    {
      hide Covers, Owned;
      OwnedShape(S(), sb, owner);
      ghost var was := Slot(S(), sb, inum, SlotOf(bn));
      assert was != 0 ==> inodes[inum].addrs[NDIRECT] != 0;
      var ind := AddrOrAlloc(inum, NDIRECT);
      if ind == 0 {
        return 0;
      }
      OwnedShape(S(), sb, owner);
      ghost var s, v := S(), V();
      assert Slot(s, sb, inum, SlotOf(bn)) == was;
      addr := EntryOrAlloc(inum, bn - NDIRECT, SlotOf(bn));
      OwnedShape(S(), sb, owner);
      CoversTrans(old(V()), v, V(), sb);
      ExtendsTrans(old(S()), s, S(), sb);
    }

    /** The disk block of block `bn` of a file, allocated if missing; 0 when the disk is full. */
    method Bmap(inum: int, bn: int) returns (addr: int)
      requires Structure() && 0 <= inum < sb.ninodes && 0 <= bn < MAXFILE
      modifies this`bitmap, this`inodes, this`data, this`owner, this`logBits, this`logData
      ensures Structure() && AddrsOf(old(inodes), inodes, inum) && Extends(old(S()), S(), sb)
      ensures addr == Slot(S(), sb, inum, SlotOf(bn))
      ensures addr == 0 ==> DiskFull()
      ensures old(Mapped(S(), sb, inum, bn)) ==> Unchanged()
      ensures Grown(old(LogOf(inum)), LogOf(inum), addr, old(Mapped(S(), sb, inum, bn)))
      ensures Covers(old(V()), V(), sb)
    {
      hide Covers;
      if bn < NDIRECT {
        addr := AddrOrAlloc(inum, bn);
      } else {
        addr := BmapIndirect(inum, bn);
      }
    }

    // -------------------------------------------------------------- inodes and their contents

    /** The abstract state: the contents of all files. */
    ghost function Contents(): (fs: seq<seq<int>>)
      requires Valid()
      reads this
    {
      Files(S(), sb)
    }

    /** Copy an in-memory inode to its inode block. */
    method Iupdate(inum: int)
      requires sb.Ok() && 0 <= inum < |inodes| == |dinodes| == sb.ninodes
      modifies this`dinodes, this`logInodes
      ensures dinodes == old(dinodes)[inum := inodes[inum]]
      ensures logInodes == old(logInodes) + {sb.IBlock(inum)}
      ensures Covers(old(V()), V(), sb)
    {
      hide Covers;
      CoversNode(V(), inum, inodes[inum], sb);
      dinodes := dinodes[inum := inodes[inum]];
      logInodes := logInodes + {sb.IBlock(inum)};
    }

    /** Part of one block of a file. */
    method ReadChunk(inum: int, at: int, m: int) returns (chunk: seq<int>)
      requires Valid() && 0 <= inum < sb.ninodes
      requires 0 <= at && 0 < m && at % BSIZE + m <= BSIZE && at + m <= inodes[inum].size <= MAXFILE * BSIZE
      modifies this`bitmap, this`inodes, this`data, this`owner, this`logBits, this`logData
      ensures Valid() && Unchanged()
      ensures chunk == File(S(), sb, inum)[at..at + m]
    {
      FileChunk(S(), sb, owner, inum, at, m);
      var addr := Bmap(inum, at / BSIZE);
      chunk := data[addr][at % BSIZE..at % BSIZE + m];
    }

    /** Reads exactly the requested bytes that exist, and never allocates. */
    method Readi(inum: int, off: int, n: int) returns (dst: seq<int>)
      requires Valid() && 0 <= inum < sb.ninodes && 0 <= off < 0x1_0000_0000 && 0 <= n < 0x1_0000_0000
      modifies this`bitmap, this`inodes, this`data, this`owner, this`logBits, this`logData
      ensures Valid() && Unchanged()
      ensures dst == Window(Contents()[inum], off, n)
    {
      hide Covers, Owned, NoHoles, Bytes, FilesBelow, Slot;
      OwnedShape(S(), sb, owner);
      FilesAt(S(), sb, sb.ninodes, inum);
      ghost var f := File(S(), sb, inum);
      if off > inodes[inum].size || Add32(off, n) < off {
        return [];
      }
      var want := if off + n > inodes[inum].size then inodes[inum].size - off else n;
      dst := [];
      var at := off;
      while |dst| < want
        invariant Valid() && Unchanged() && f == File(S(), sb, inum)
        invariant 0 <= |dst| <= want && at == off + |dst|
        invariant dst == f[off..at]
        decreases want - |dst|
      {
        var m := ChunkLen(at, want - |dst|);
        var chunk := ReadChunk(inum, at, m);
        SliceJoin(f, off, at, at + m);
        dst := dst + chunk;
        at := at + m;
      }
    }

    /** One turn of writei's loop: map the block of position `off + |w|` and copy `chunk` into it. */
    method WriteChunk(inum: int, chunk: seq<int>, ghost s0: Fs, ghost off: int, w: seq<int>,
            at: int) returns (addr: int)
      requires Structure() && Shaped(s0, sb) && NoHoles(s0, sb) && 0 <= inum < sb.ninodes
      requires 0 <= off && at == off + |w| && at + |chunk| <= MAXFILE * BSIZE && 0 < |chunk|
      requires at % BSIZE + |chunk| <= BSIZE
      requires Progress(s0, S(), sb, inum, off, w)
      modifies this`bitmap, this`inodes, this`data, this`owner, this`logBits, this`logData
      ensures Structure() && AddrsOf(old(inodes), inodes, inum)
      ensures addr != 0 ==> Progress(s0, S(), sb, inum, off, w + chunk)
      ensures addr == 0 ==> Progress(s0, S(), sb, inum, off, w) && DiskFull()
      ensures Grown(old(LogOf(inum)), LogOf(inum), addr, old(Mapped(S(), sb, inum, at / BSIZE)))
      ensures Covers(old(V()), V(), sb)
    {
      hide Covers;
      addr := Bmap(inum, at / BSIZE);
      ghost var s, v := old(S()), V();
      if addr == 0 {
        ExtendsProgress(s0, s, S(), sb, inum, off, w);
      } else {
        CopyChunk(inum, chunk, s0, s, off, w, at, addr);
        CoversTrans(old(V()), v, V(), sb);
      }
    }

    /** Copy `chunk` into the block that bmap returned for position `at`. */
    method CopyChunk(inum: int, chunk: seq<int>, ghost s0: Fs, ghost s: Fs, ghost off: int, ghost w: seq<int>,
            at: int, addr: int)
      requires Structure() && Shaped(s0, sb) && NoHoles(s0, sb) && Shaped(s, sb) && 0 <= inum < sb.ninodes
      requires 0 <= off && at == off + |w| && at + |chunk| <= MAXFILE * BSIZE && 0 < |chunk|
      requires at % BSIZE + |chunk| <= BSIZE
      requires Progress(s0, s, sb, inum, off, w) && Extends(s, S(), sb)
      requires addr == Slot(S(), sb, inum, SlotOf(at / BSIZE)) != 0
      modifies this`data, this`logData
      ensures Structure() && Progress(s0, S(), sb, inum, off, w + chunk)
      ensures logData == old(logData) + {addr}
      ensures Covers(old(V()), V(), sb)
    {
      hide Covers;
      CoversBlock(V(), addr, Patched(data[addr], at % BSIZE, chunk), sb);
      ChunkWritten(s0, s, S(), sb, owner, inum, off, w, chunk);
      data := data[addr := Patched(data[addr], at % BSIZE, chunk)];
      logData := logData + {addr};
    }

    /**
     Write `src` at `off`.  Returns -1 and changes nothing when the position is past the end or
     the file would grow too long; otherwise the number of bytes written, fewer than asked only
     when the disk is full.
     */
    method Writei(inum: int, off: int, src: seq<int>) returns (tot: int)
      requires Valid() && 0 <= inum < sb.ninodes && inodes[inum].kind != 0 && 0 <= off < 0x1_0000_0000
      requires |src| < 0x1_0000_0000
      modifies this
      ensures Valid()
      ensures tot == -1 <==> off > old(inodes)[inum].size || off + |src| > MAXFILE * BSIZE
      ensures tot == -1 ==> Unchanged() && logInodes == old(logInodes)
      ensures tot != -1 ==> 0 <= tot <= |src| && (tot < |src| ==> DiskFull())
      ensures Meta(inodes) == old(Meta(inodes))
      ensures |old(Contents())[inum]| == old(inodes)[inum].size
      ensures tot != -1 ==> Contents() == old(Contents())[inum := Splice(old(Contents())[inum], off, src[..tot])]
      ensures logInodes <= old(logInodes) + {sb.IBlock(inum)}
      ensures |logData| <= |old(logData)| + Spanned(off, |src|) + 1
      ensures |logBits| <= |old(logBits)| + Added(off, |src|) + 1
      ensures Covers(old(V()), V(), sb)
    {
      hide Covers;
      CoversNothing(V(), sb);
      FilesAt(S(), sb, sb.ninodes, inum);
      if off > inodes[inum].size || Add32(off, |src|) < off {
        return -1;
      }
      if off + |src| > MAXFILE * BSIZE {
        return -1;
      }
      tot := WriteLoop(inum, off, src);
      ghost var v := V();
      FinishWrite(inum, off, src[..tot], old(S()));
      CoversTrans(old(V()), v, V(), sb);
    }

    /** The end of writei: grow the file if need be and write the inode back. */
    method FinishWrite(inum: int, off: int, w: seq<int>, ghost s0: Fs)
      requires Structure() && Shaped(s0, sb) && NoHoles(s0, sb) && 0 <= inum < sb.ninodes
      requires 0 <= off <= s0.inodes[inum].size && off + |w| <= MAXFILE * BSIZE
      requires s0.inodes[inum].kind != 0
      requires forall i :: 0 <= i < sb.ninodes && s0.inodes[i].kind == 0 ==> Blank(s0.inodes[i])
      requires AddrsOf(s0.inodes, inodes, inum) && dinodes == s0.inodes && Progress(s0, S(), sb, inum, off, w)
      modifies this`inodes, this`dinodes, this`logInodes
      ensures Valid() && logInodes == old(logInodes) + {sb.IBlock(inum)}
      ensures |Files(s0, sb)[inum]| == s0.inodes[inum].size
      ensures Contents() == Files(s0, sb)[inum := Splice(Files(s0, sb)[inum], off, w)]
      ensures Meta(inodes) == Meta(s0.inodes)
      ensures Covers(old(V()), V(), sb)
    {
      hide Covers, Owned, Progress;
      OwnedShape(S(), sb, owner);
      ghost var size := if off + |w| > inodes[inum].size then off + |w| else inodes[inum].size;
      WriteDone(s0, S(), sb, owner, inum, off, w, size);
      ghost var s := S();
      if off + |w| > inodes[inum].size {
        inodes := inodes[inum := inodes[inum].(size := off + |w|)];
      }
      assert S() == s.(inodes := s.inodes[inum := s.inodes[inum].(size := size)]);
      Iupdate(inum);
    }

    /** What holds in writei's loop after `tot` bytes: `l0` is the log as it was before. */
    ghost predicate Writing(s0: Fs, l0: Log, inum: int, off: int, src: seq<int>, tot: int, touched: set<int>)
      requires Shaped(s0, sb) && NoHoles(s0, sb) && 0 <= inum < sb.ninodes && 0 <= off && off + |src| <= MAXFILE * BSIZE
      requires 0 <= tot <= |src|
      reads this
    {
      && Structure() && AddrsOf(s0.inodes, inodes, inum)
      && Progress(s0, S(), sb, inum, off, src[..tot])
      && Logged(l0, LogOf(inum), touched, off, tot)
      && (tot < |src| ==> tot == 0 || (off + tot) % BSIZE == 0)
    }

    /** One turn of writei's loop, with what it adds to the log; no progress when the disk is full. */
    method WriteStep(inum: int, off: int, src: seq<int>, tot: int, ghost s0: Fs, ghost l0: Log, ghost touched: set<int>)
      returns (tot': int, ghost touched': set<int>)
      requires Shaped(s0, sb) && NoHoles(s0, sb) && 0 <= inum < sb.ninodes && 0 <= off && off + |src| <= MAXFILE * BSIZE
      requires 0 <= tot < |src| && Writing(s0, l0, inum, off, src, tot, touched)
      modifies this`bitmap, this`inodes, this`data, this`owner, this`logBits, this`logData
      ensures tot <= tot' <= |src|
      ensures tot' > tot ==> Writing(s0, l0, inum, off, src, tot', touched')
      ensures tot' == tot ==>
        DiskFull() && Structure() && AddrsOf(s0.inodes, inodes, inum) && Progress(s0, S(), sb, inum, off, src[..tot])
      ensures tot' == tot ==>
        |logData| <= |l0.data| + Spanned(off, |src|) + 1 && |logBits| <= l0.bits + Added(off, |src|) + 1
      ensures Covers(old(V()), V(), sb)
    {
      hide Owned, Progress, Logged, Grown, Spanned, Added, Covers;
      var at := off + tot;
      var m := ChunkLen(at, |src| - tot);
      tot' := tot + m;
      var w, chunk := src[..tot], src[tot..tot'];
      assert src[..tot'] == w + chunk;
      OwnedShape(S(), sb, owner);
      ProgressMapped(s0, S(), sb, inum, off, w, at);
      ghost var mapped := Mapped(S(), sb, inum, at / BSIZE);
      FirstMapped(S(), sb, inum, at);
      ghost var before := LogOf(inum);
      var addr := WriteChunk(inum, chunk, s0, off, w, at);
      assert Grown(before, LogOf(inum), addr, mapped);
      LoggedStep(l0, before, LogOf(inum), touched, off, tot, m, tot', |src|, addr, mapped);
      touched' := touched + {addr};
      if addr == 0 {
        tot' := tot;
      }
    }

    /** writei's loop. */
    method WriteLoop(inum: int, off: int, src: seq<int>) returns (tot: int)
      requires Valid() && 0 <= inum < sb.ninodes && 0 <= off <= inodes[inum].size && off + |src| <= MAXFILE * BSIZE
      modifies this`bitmap, this`inodes, this`data, this`owner, this`logBits, this`logData
      ensures Structure() && AddrsOf(old(inodes), inodes, inum)
      ensures 0 <= tot <= |src| && (tot < |src| ==> DiskFull())
      ensures Progress(old(S()), S(), sb, inum, off, src[..tot])
      ensures |logData| <= |old(logData)| + Spanned(off, |src|) + 1
      ensures |logBits| <= |old(logBits)| + Added(off, |src|) + 1
      ensures Covers(old(V()), V(), sb)
    {
      hide Covers;
      CoversNothing(V(), sb);
      ghost var s0, l0 := S(), LogOf(inum);
      ghost var touched: set<int> := {};
      tot := 0;
      assert MappedTo(s0, sb, inum, inodes[inum].size);
      while tot < |src|
        invariant 0 <= tot <= |src|
        invariant Writing(s0, l0, inum, off, src, tot, touched) && Covers(old(V()), V(), sb)
      {
        var before := tot;
        ghost var v := V();
        tot, touched := WriteStep(inum, off, src, tot, s0, l0, touched);
        CoversTrans(old(V()), v, V(), sb);
        if tot == before {
          return;
        }
      }
      CardBound(logData, l0.data, touched, inodes[inum].addrs[NDIRECT]);
    }

    // -------------------------------------------------------------- itrunc, iput, ialloc

    /** The first half of itrunc: give back the direct blocks. */
    method FreeDirect(inum: int)
      requires Structure() && 0 <= inum < sb.ninodes
      modifies this`bitmap, this`inodes, this`owner, this`logBits
      ensures Structure()
      ensures |inodes[inum].addrs| == NDIRECT + 1
      ensures inodes == old(inodes)[inum := old(inodes)[inum].(addrs := inodes[inum].addrs)]
      ensures forall k :: 0 <= k < NDIRECT ==> inodes[inum].addrs[k] == 0
      ensures inodes[inum].addrs[NDIRECT] == old(inodes)[inum].addrs[NDIRECT]
      ensures Covers(old(V()), V(), sb)
    {
      hide Owned, Covers;
      CoversNothing(V(), sb);
      OwnedShape(S(), sb, owner);
      var i := 0;
      while i < NDIRECT
        invariant 0 <= i <= NDIRECT
        invariant Structure() && Shaped(S(), sb) && Covers(old(V()), V(), sb)
        invariant inodes == old(inodes)[inum := old(inodes)[inum].(addrs := inodes[inum].addrs)]
        invariant forall k :: 0 <= k < i ==> inodes[inum].addrs[k] == 0
        invariant inodes[inum].addrs[NDIRECT] == old(inodes)[inum].addrs[NDIRECT]
      {
        var b := inodes[inum].addrs[i];
        if b != 0 {
          ClearAddr(S(), sb, owner, inum, i);
          OwnedRange(S(), sb, owner, b);
          ghost var s, v := WithAddr(S(), inum, i, 0), V();
          Bfree(b);
          CoversTrans(old(V()), v, V(), sb);
          inodes := inodes[inum := inodes[inum].(addrs := inodes[inum].addrs[i := 0])];
          owner := owner - {b};
          assert S() == s;
          OwnedShape(S(), sb, owner);
        }
        i := i + 1;
      }
    }

    /** The loop over the indirect block: its entries' bits are cleared while the entries still name them. */
    method FreeEntries(inum: int) returns (ghost freed: set<int>)
      requires Structure() && 0 <= inum < sb.ninodes && inodes[inum].addrs[NDIRECT] != 0
      modifies this`bitmap, this`logBits
      ensures Bits(0, freed) && Entries(S(), sb, owner, inum, NINDIRECT, freed)
      ensures Covers(old(V()), V(), sb)
    {
      hide Covers;
      CoversNothing(V(), sb);
      freed := {};
      var ind := inodes[inum].addrs[NDIRECT];
      assert Slot(S(), sb, inum, NDIRECT) == ind;
      var j := 0;
      while j < NINDIRECT
        invariant 0 <= j <= NINDIRECT
        invariant Bits(0, freed) && Entries(S(), sb, owner, inum, j, freed) && Covers(old(V()), V(), sb)
      {
        var b := Word(data[ind], j);
        assert b == Slot(S(), sb, inum, NDIRECT + 1 + j);
        if b != 0 {
          ghost var v := V();
          Bfree(b);
          CoversTrans(old(V()), v, V(), sb);
          freed := freed + {b};
        }
        j := j + 1;
      }
    }

    /** The second half of itrunc: give back the indirect block and everything it names. */
    method FreeIndirect(inum: int)
      requires Structure() && 0 <= inum < sb.ninodes
      modifies this`bitmap, this`inodes, this`owner, this`logBits
      ensures Structure()
      ensures inodes == old(inodes)[inum := old(inodes)[inum].(addrs := old(inodes)[inum].addrs[NDIRECT := 0])]
      ensures Covers(old(V()), V(), sb)
    {
      hide Owned, Covers;
      CoversNothing(V(), sb);
      OwnedShape(S(), sb, owner);
      var ind := inodes[inum].addrs[NDIRECT];
      if ind != 0 {
        IndirectInUse(S(), sb, owner, inum);
        ghost var freed := FreeEntries(inum);
        DropIndirect(S(), sb, owner, inum, freed);
        ghost var s, v := WithAddr(S(), inum, NDIRECT, 0), V();
        Bfree(ind);
        CoversTrans(old(V()), v, V(), sb);
        inodes := inodes[inum := inodes[inum].(addrs := inodes[inum].addrs[NDIRECT := 0])];
        owner := owner - freed - {ind};
        assert S() == s;
      } else {
        assert inodes[inum].addrs[NDIRECT := 0] == inodes[inum].addrs;
      }
    }

    /** Give back every block of a file.  No bit is cleared twice: bfree's "freeing free block" cannot happen. */
    method Itrunc(inum: int)
      requires Valid() && 0 <= inum < sb.ninodes && inodes[inum].kind != 0
      modifies this`bitmap, this`inodes, this`dinodes, this`owner, this`logBits, this`logInodes
      ensures Valid() && Blank(inodes[inum])
      ensures Contents() == old(Contents())[inum := []]
      ensures Meta(inodes) == old(Meta(inodes))
      ensures Covers(old(V()), V(), sb)
    {
      hide Covers, Owned, NoHoles, Meta, FilesBelow;
      OwnedShape(S(), sb, owner);
      FreeDirect(inum);
      ghost var v := V();
      FreeIndirect(inum);
      CoversTrans(old(V()), v, V(), sb);
      v := V();
      Truncated(old(S()), S(), sb, owner, inum);
      inodes := inodes[inum := inodes[inum].(size := 0)];
      Iupdate(inum);
      CoversTrans(old(V()), v, V(), sb);
    }

    /** The first inode of type 0 gets the type; 0 when there is none. */
    method Ialloc(kind: int) returns (inum: int)
      requires Valid() && kind != 0
      modifies this`inodes, this`dinodes, this`logInodes
      ensures Valid() && Contents() == old(Contents())
      ensures 0 <= inum < sb.ninodes
      ensures inum == 0 ==> inodes == old(inodes) && forall i :: 1 <= i < sb.ninodes ==> inodes[i].kind != 0
      ensures inum != 0 ==> old(inodes)[inum].kind == 0 && (forall i :: 1 <= i < inum ==> old(inodes)[i].kind != 0)
      ensures inum != 0 ==> Meta(inodes) == old(Meta(inodes))[inum := (kind, 0)]
      ensures Covers(old(V()), V(), sb)
    {
      hide Covers;
      CoversNothing(V(), sb);
      inum := 1;
      while inum < sb.ninodes
        invariant 1 <= inum
        invariant forall i :: 1 <= i < inum && i < sb.ninodes ==> inodes[i].kind != 0
      {
        if dinodes[inum].kind == 0 {
          ghost var s := S();
          inodes := inodes[inum := Inode(kind, 0, 0, seq(NDIRECT + 1, _ => 0))];
          NewInode(s, S(), sb, owner, inum);
          Iupdate(inum);
          return;
        }
        inum := inum + 1;
      }
      inum := 0;
    }

    /** A link made or removed by link, unlink or create: the new count goes to the inode block. */
    method SetLinks(inum: int, n: int)
      requires Valid() && 0 <= inum < sb.ninodes && inodes[inum].kind != 0
      modifies this`inodes, this`dinodes, this`logInodes
      ensures Valid() && Contents() == old(Contents())
      ensures Meta(inodes) == old(Meta(inodes))[inum := (old(inodes)[inum].kind, n)]
      ensures Covers(old(V()), V(), sb)
    {
      hide Covers, Owned, NoHoles, Meta, FilesBelow;
      OwnedShape(S(), sb, owner);
      ghost var s := S();
      inodes := inodes[inum := inodes[inum].(nlink := n)];
      Relinked(s, S(), sb, owner, inum, n);
      Iupdate(inum);
    }

    /** Reading the range that was just written returns the bytes written. */
    method WriteThenRead(inum: int, off: int, src: seq<int>) returns (tot: int, back: seq<int>)
      requires Valid() && 0 <= inum < sb.ninodes && inodes[inum].kind != 0 && 0 <= off < 0x1_0000_0000
      requires |src| < 0x1_0000_0000
      modifies this
      ensures Valid()
      ensures tot == -1 <==> off > |old(Contents())[inum]| || off + |src| > MAXFILE * BSIZE
      ensures tot == -1 ==> back == [] && Contents() == old(Contents())
      ensures tot != -1 ==> 0 <= tot <= |src| && back == src[..tot] && (tot < |src| ==> DiskFull())
      ensures tot != -1 ==> Contents() == old(Contents())[inum := Splice(old(Contents())[inum], off, src[..tot])]
    {
      tot := Writei(inum, off, src);
      back := [];
      if tot != -1 {
        ReadBack(old(Contents())[inum], off, src[..tot]);
        back := Readi(inum, off, tot);
      }
    }

    /**
     Drop one of `ref` references to a cached inode.  The last reference to an inode without
     links frees its blocks and the inode itself.
     */
    method Iput(inum: int, ref: int, valid: bool) returns (ref': int)
      requires Valid() && 0 <= inum < sb.ninodes && ref >= 1 && (valid ==> inodes[inum].kind != 0)
      modifies this`bitmap, this`inodes, this`dinodes, this`owner, this`logBits, this`logInodes
      ensures Valid() && ref' == ref - 1
      ensures !(ref == 1 && valid && old(inodes)[inum].nlink == 0) ==> Unchanged() && dinodes == old(dinodes)
      ensures ref == 1 && valid && old(inodes)[inum].nlink == 0 ==>
                && Contents() == old(Contents())[inum := []]
                && Meta(inodes) == old(Meta(inodes))[inum := (0, 0)]
                && Blank(inodes[inum])
      ensures Covers(old(V()), V(), sb)
    {
      hide Owned, NoHoles, Covers, FilesBelow, Meta;
      CoversNothing(V(), sb);
      OwnedShape(S(), sb, owner);
      if ref == 1 && valid && inodes[inum].nlink == 0 {
        Itrunc(inum);
        ghost var s := S();
        MetaUpdate(inodes, inum, inodes[inum].(kind := 0));
        MetaUpdate(old(inodes), inum, old(inodes)[inum]);
        inodes := inodes[inum := inodes[inum].(kind := 0)];
        NewInode(s, S(), sb, owner, inum);
        ghost var v := V();
        Iupdate(inum);
        CoversTrans(old(V()), v, V(), sb);
      }
      ref' := ref - 1;
    }

    // -------------------------------------------------------------- filewrite

    /** A transaction begins: nothing is logged yet. */
    ghost method BeginOp()
      requires Valid()
      modifies this`logBits, this`logData, this`logInodes
      ensures Valid() && logBits == {} && logData == {} && logInodes == {}
    {
      logBits, logData, logInodes := {}, {}, {};
    }

    /** One chunk of filewrite: a transaction that logs at most MAXOPBLOCKS blocks. */
    method WriteTransaction(inum: int, off: int, chunk: seq<int>) returns (r: int)
      requires Valid() && 0 <= inum < sb.ninodes && inodes[inum].kind != 0 && 0 <= off < 0x1_0000_0000
      requires |chunk| <= MAXCHUNK
      modifies this
      ensures Valid() && Meta(inodes) == old(Meta(inodes))
      ensures |logBits + logData + logInodes| <= MAXOPBLOCKS
      ensures r == -1 <==> off > |old(Contents())[inum]| || off + |chunk| > MAXFILE * BSIZE
      ensures r == -1 ==> Contents() == old(Contents())
      ensures r != -1 ==> 0 <= r <= |chunk| && (r < |chunk| ==> DiskFull())
      ensures r != -1 ==> Contents() == old(Contents())[inum := Splice(old(Contents())[inum], off, chunk[..r])]
      ensures Covers(old(V()).(bits := {}, blocks := {}, nodes := {}), V(), sb)
    {
      hide Covers;
      BeginOp();
      assert S() == old(S());
      r := Writei(inum, off, chunk);
      ChunkBudget(off, |chunk|);
      UnionSize(logBits, logData, logInodes, sb.IBlock(inum));
    }

    /** One turn of filewrite's loop, at `at == off + i`; `done` says whether the whole chunk was written. */
    method WriteNext(inum: int, off: int, src: seq<int>, i: int, at: int,
            ghost fs: seq<seq<int>>) returns (i': int, done: bool)
      requires Valid() && 0 <= inum < sb.ninodes && inodes[inum].kind != 0 && 0 <= off && 0 <= i < |src|
      requires at == off + i < 0x1_0000_0000
      requires |fs| == sb.ninodes && Reached(fs, Contents(), inum, off, src[..i])
      modifies this
      ensures Valid() && Meta(inodes) == old(Meta(inodes)) && inodes[inum].kind != 0
      ensures |logBits + logData + logInodes| <= MAXOPBLOCKS
      ensures i <= i' <= |src| && off + i' < 0x1_0000_0000 && (done ==> i < i') && (i' == |src| ==> done)
      ensures !done ==> at > |old(Contents())[inum]| || off + |src| > MAXFILE * BSIZE || DiskFull()
      ensures Reached(fs, Contents(), inum, off, src[..i'])
    {
      hide Covers, Owned, NoHoles, Reached;
      OwnedShape(S(), sb, owner);
      var n1 := if |src| - i > MAXCHUNK then MAXCHUNK else |src| - i;
      ghost var before := Contents();
      MetaUpdate(inodes, inum, inodes[inum]);
      var chunk := src[i..i + n1];
      var r := WriteTransaction(inum, at, chunk);
      MetaUpdate(inodes, inum, inodes[inum]);
      done := r == n1;
      i' := i;
      if r >= 0 {
        i' := i + r;
        ReachedStep(fs, before, Contents(), inum, off, src[..i], chunk[..r], at);
        SliceStep(src, i, n1, r);
      }
    }

    /** filewrite on an inode; returns the new file offset as well. */
    method FileWrite(inum: int, off: int, src: seq<int>) returns (ret: int, off': int)
      requires Valid() && 0 <= inum < sb.ninodes && inodes[inum].kind != 0 && 0 <= off < 0x1_0000_0000
      requires |src| < 0x8000_0000
      modifies this
      ensures Valid() && Meta(inodes) == old(Meta(inodes))
      ensures off <= off' <= off + |src| && ret == if off' == off + |src| then |src| else -1
      ensures ret == -1 ==> off > |old(Contents())[inum]| || off + |src| > MAXFILE * BSIZE || DiskFull()
      ensures Reached(old(Contents()), Contents(), inum, off, src[..off' - off])
    {
      var i := 0;
      ghost var fs := Contents();
      var done := true;
      while i < |src| && done
        invariant 0 <= i <= |src| && off + i < 0x1_0000_0000
        invariant Valid() && Meta(inodes) == old(Meta(inodes)) && inodes[inum].kind != 0
        invariant Reached(fs, Contents(), inum, off, src[..i])
        invariant i == |src| ==> done
        invariant i > 0 ==> |Contents()[inum]| >= off + i
        invariant !done ==> off > |fs[inum]| || off + |src| > MAXFILE * BSIZE || DiskFull()
        decreases |src| - i, done
      {
        i, done := WriteNext(inum, off, src, i, off + i, fs);
      }
      off' := off + i;
      ret := if i == |src| then |src| else -1;
    }
  }

  /** What is on the disk, with the blocks passed to log_write so far. */
  datatype View = View(bitmap: seq<bool>, dinodes: seq<Inode>, data: seq<Block>, bits: set<int>, blocks: set<int>,
                       nodes: set<int>)

  /** From v to v', whatever changed was passed to log_write, and only blocks of the free map, data and inodes were. */
  ghost predicate Covers(v: View, v': View, sb: Superblock) {
    && v.bits <= v'.bits && v.blocks <= v'.blocks && v.nodes <= v'.nodes
    && |v.bitmap| == |v'.bitmap| && |v.dinodes| == |v'.dinodes| && |v.data| == |v'.data|
    && (forall b :: 0 <= b < |v.bitmap| && v.bitmap[b] != v'.bitmap[b] ==> sb.BBlock(b) in v'.bits)
    && (forall b :: 0 <= b < |v.data| && v.data[b] != v'.data[b] ==> b in v'.blocks)
    && (forall i :: 0 <= i < |v.dinodes| && v.dinodes[i] != v'.dinodes[i] ==> sb.IBlock(i) in v'.nodes)
    && (forall b :: b in v'.bits ==> b in v.bits || sb.bmapstart <= b < sb.nmeta)
    && (forall b :: b in v'.blocks ==> b in v.blocks || sb.nmeta <= b < sb.size)
    && (forall b :: b in v'.nodes ==> b in v.nodes || sb.inodestart <= b < sb.bmapstart)
  }

  lemma CoversTrans(u: View, v: View, w: View, sb: Superblock)
    requires Covers(u, v, sb) && Covers(v, w, sb)
    ensures Covers(u, w, sb)
  {
    forall b | 0 <= b < |u.bitmap| && u.bitmap[b] != w.bitmap[b]
      ensures sb.BBlock(b) in w.bits
    {
      assert u.bitmap[b] != v.bitmap[b] || v.bitmap[b] != w.bitmap[b];
    }
    forall b | 0 <= b < |u.data| && u.data[b] != w.data[b]
      ensures b in w.blocks
    {
      assert u.data[b] != v.data[b] || v.data[b] != w.data[b];
    }
    forall i | 0 <= i < |u.dinodes| && u.dinodes[i] != w.dinodes[i]
      ensures sb.IBlock(i) in w.nodes
    {
      assert u.dinodes[i] != v.dinodes[i] || v.dinodes[i] != w.dinodes[i];
    }
  }

  lemma CoversNothing(v: View, sb: Superblock)
    ensures Covers(v, v, sb)
  {
  }

  lemma CoversBit(v: View, b: int, x: bool, sb: Superblock)
    requires sb.Ok() && 0 <= b < |v.bitmap| == sb.size
    ensures Covers(v, v.(bitmap := v.bitmap[b := x], bits := v.bits + {sb.BBlock(b)}), sb)
  {
  }

  lemma CoversBlock(v: View, b: int, x: Block, sb: Superblock)
    requires sb.Ok() && sb.nmeta <= b < |v.data| == sb.size
    ensures Covers(v, v.(data := v.data[b := x], blocks := v.blocks + {b}), sb)
  {
  }

  lemma CoversNode(v: View, i: int, x: Inode, sb: Superblock)
    requires sb.Ok() && 0 <= i < |v.dinodes| == sb.ninodes
    ensures Covers(v, v.(dinodes := v.dinodes[i := x], nodes := v.nodes + {sb.IBlock(i)}), sb)
  {
  }

  /** What a transaction has logged: data and indirect blocks, how many bitmap blocks, and the file's indirect block. */
  datatype Log = Log(data: set<int>, bits: int, ind: int)

  /**
   Against the log `l0` it began with, a write of `tot` bytes logged the `touched` data blocks, the
   indirect block and few bitmap blocks.
   */
  ghost predicate Logged(l0: Log, l: Log, touched: set<int>, off: int, tot: int)
    requires 0 <= off && 0 <= tot
  {
    && l.data <= l0.data + touched + {l.ind} && 0 !in l.data
    && |touched| <= Spanned(off, tot)
    && l.bits <= l0.bits + Added(off, tot) + (if l0.ind == l.ind then 0 else 1)
    && (l0.ind == 0 || l0.ind == l.ind)
  }

  /** What mapping and writing the block `addr` may add to the log. */
  ghost predicate Grown(l: Log, l': Log, addr: int, mapped: bool) {
    && l'.data <= l.data + {addr, l'.ind} && (l.ind == 0 || l.ind == l'.ind)
    && l'.bits <= l.bits + (if mapped then 0 else 1) + (if l.ind == l'.ind then 0 else 1)
  }

  lemma LoggedStep(l0: Log, l: Log, l': Log, touched: set<int>, off: int, tot: int, m: int, tot': int, n: int,
          addr: int, mapped: bool)
    requires 0 <= off && 0 <= tot && 0 < m && tot + m == tot' <= n && Logged(l0, l, touched, off, tot)
    requires (off + tot) % BSIZE + m <= BSIZE && (tot == 0 || (off + tot) % BSIZE == 0)
    requires Grown(l, l', addr, mapped) && 0 !in l'.data
    requires (off + tot) % BSIZE != 0 ==> mapped
    ensures addr != 0 ==> Logged(l0, l', touched + {addr}, off, tot')
    ensures addr == 0 ==> |l'.data| <= |l0.data| + Spanned(off, n) + 1 && l'.bits <= l0.bits + Added(off, n) + 1
  {
    SpannedStep(off, tot, m);
    LogStep(l0.data, l.data, l'.data, touched, l.ind, l'.ind, addr);
    if addr == 0 {
      CardBound(l'.data, l0.data, touched, l'.ind);
      SpannedMono(off, tot, n);
      SpannedMono(off, tot + m, n);
    }
  }

  /** An inode without contents. */
  ghost predicate Blank(ip: Inode) {
    ip.size == 0 && |ip.addrs| == NDIRECT + 1 && forall k :: 0 <= k <= NDIRECT ==> ip.addrs[k] == 0
  }

  /** Only the pointers of inode `inum` differ, and an indirect block stays. */
  ghost predicate AddrsOf(before: seq<Inode>, after: seq<Inode>, inum: int) {
    && 0 <= inum < |before| == |after|
    && |before[inum].addrs| == |after[inum].addrs| == NDIRECT + 1
    && after == before[inum := before[inum].(addrs := after[inum].addrs)]
    && (before[inum].addrs[NDIRECT] == 0 || after[inum].addrs[NDIRECT] == before[inum].addrs[NDIRECT])
  }

  /**
   How many blocks hold the `n` bytes from `off` on, and how many of them may be missing from a file that
   reaches `off`.
   */
  function Spanned(off: int, n: int): (q: int)
    requires 0 <= off && 0 <= n
  {
    if n == 0 then 0 else (off + n - 1) / BSIZE - off / BSIZE + 1
  }

  function Added(off: int, n: int): (q: int)
    requires 0 <= off && 0 <= n
  {
    if n == 0 then 0 else if off % BSIZE == 0 then Spanned(off, n) else Spanned(off, n) - 1
  }

  /** The data blocks logged so far are the ones touched and the indirect block. */
  lemma LogStep(l0: set<int>, l: set<int>, l': set<int>, touched: set<int>, ind: int, ind': int, addr: int)
    requires 0 !in l && 0 !in l' && (ind == 0 || ind == ind')
    requires l <= l0 + touched + {ind} && l' <= l + {addr, ind'}
    ensures l' <= l0 + touched + (if addr == 0 then {} else {addr}) + {ind'}
  {
  }

  lemma CardBound(l: set<int>, l0: set<int>, touched: set<int>, ind: int)
    requires l <= l0 + touched + {ind}
    ensures |l| <= |l0| + |touched| + 1
  {
    assert |(l0 + touched + {ind}) - l| + |l| == |l0 + touched + {ind}|;
  }

  lemma FirstMapped(s: Fs, sb: Superblock, i: int, at: int)
    requires Shaped(s, sb) && 0 <= i < sb.ninodes && MappedTo(s, sb, i, at) && 0 <= at < MAXFILE * BSIZE
    ensures at % BSIZE != 0 ==> Mapped(s, sb, i, at / BSIZE)
  {
  }

  lemma SpannedMono(off: int, n: int, m: int)
    requires 0 <= off && 0 <= n <= m
    ensures Spanned(off, n) <= Spanned(off, m) && Added(off, n) <= Added(off, m)
  {
  }

  lemma SpannedStep(off: int, n: int, m: int)
    requires 0 <= off && 0 <= n && 0 < m && (off + n) % BSIZE + m <= BSIZE
    requires n == 0 || (off + n) % BSIZE == 0
    ensures Spanned(off, n + m) == Spanned(off, n) + 1
    ensures Added(off, n + m) == Added(off, n) + if n == 0 && off % BSIZE != 0 then 0 else 1
  {
  }

  /** filewrite's chunk size. */
  const MAXCHUNK := (MAXOPBLOCKS - 1 - 1 - 2) / 2 * BSIZE

  /**
   A chunk spans at most four blocks, and when it spans four it starts inside the first, which
   is then mapped already: 4 data + 3 bitmap, or 3 data + 3 bitmap.  One more bitmap block, the
   indirect block and the inode block make at most ten.
   */
  lemma ChunkBudget(off: int, n: int)
    requires 0 <= off && 0 <= n <= MAXCHUNK
    ensures Spanned(off, n) + Added(off, n) <= 7
  {
  }

  lemma SpliceTwice(f: seq<int>, off: int, a: seq<int>, b: seq<int>)
    requires 0 <= off <= |f|
    ensures Splice(Splice(f, off, a), off + |a|, b) == Splice(f, off, a + b)
  {
  }

  /** File `i` has `w` written at `off`; nothing written, nothing changed. */
  ghost predicate Reached(fs: seq<seq<int>>, fs': seq<seq<int>>, i: int, off: int, w: seq<int>)
    requires 0 <= i < |fs| && 0 <= off
  {
    if w == [] then fs' == fs else off <= |fs[i]| && fs' == fs[i := Splice(fs[i], off, w)]
  }

  lemma ReachedStep(fs: seq<seq<int>>, fs': seq<seq<int>>, fs'': seq<seq<int>>, i: int, off: int, w: seq<int>,
          v: seq<int>, at: int)
    requires 0 <= i < |fs| == |fs'| && 0 <= off && Reached(fs, fs', i, off, w)
    requires at == off + |w| <= |fs'[i]| && fs'' == fs'[i := Splice(fs'[i], at, v)]
    ensures Reached(fs, fs'', i, off, w + v)
  {
    if w == [] {
      assert w + v == v;
      if v == [] {
        assert Splice(fs'[i], off, v) == fs'[i];
      }
    } else {
      SpliceTwice(fs[i], off, w, v);
    }
  }

  lemma SliceStep(src: seq<int>, i: int, n: int, r: int)
    requires 0 <= i && 0 <= r <= n && i + n <= |src|
    ensures src[..i] + src[i..i + n][..r] == src[..i + r]
  {
  }

  lemma UnionSize(a: set<int>, b: set<int>, c: set<int>, x: int)
    requires c <= {x}
    ensures |a + b + c| <= |a| + |b| + 1
  {
    assert c == {} || c == {x};
  }
}
