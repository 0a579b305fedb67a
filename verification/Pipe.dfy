/**
 Pipes: kernel/pipe.c.

 A method is what one process does between taking the pipe's lock and giving it up, by returning
 or by sleeping; other processes' steps come in between.  A process that slept calls the same
 method again from where it was.
 */
module Pipes {

  const PIPESIZE := 512
  const WRAP := 0x1_0000_0000     // uint

  type Pid = int

  datatype Outcome = Done | Slept | Failed

  /** The n bytes of a ring buffer from byte number r on. */
  function Ring(data: seq<int>, r: int, n: nat): (s: seq<int>)
    requires |data| == PIPESIZE
  {
    seq(n, j requires 0 <= j < n => data[(r + j) % PIPESIZE])
  }

  /** The counters are those of the bytes put in and taken out, and the ring holds the bytes in between. */
  ghost predicate RingOk(data: seq<int>, nread: int, nwrite: int, enqueued: seq<int>, dequeued: seq<int>) {
    && |data| == PIPESIZE
    && nread == |dequeued| % WRAP && nwrite == |enqueued| % WRAP
    && |dequeued| <= |enqueued| <= |dequeued| + PIPESIZE
    && dequeued == enqueued[..|dequeued|]
    && forall k :: |dequeued| <= k < |enqueued| ==> data[k % PIPESIZE] == enqueued[k]
  }

  lemma RingPut(data: seq<int>, nread: int, nwrite: int, enqueued: seq<int>, dequeued: seq<int>, ch: int)
    requires RingOk(data, nread, nwrite, enqueued, dequeued) && |enqueued| < |dequeued| + PIPESIZE
    ensures RingOk(data[nwrite % PIPESIZE := ch], nread, (nwrite + 1) % WRAP, enqueued + [ch], dequeued)
  {
    Slots(|enqueued|, 0);
    FreshSlot(|dequeued|, |enqueued|);
  }

  lemma RingGet(data: seq<int>, nread: int, nwrite: int, enqueued: seq<int>, dequeued: seq<int>)
    requires RingOk(data, nread, nwrite, enqueued, dequeued) && |dequeued| < |enqueued|
    ensures var ch := data[nread % PIPESIZE];
            RingOk(data, (nread + 1) % WRAP, nwrite, enqueued, dequeued + [ch]) && dequeued + [ch] <= enqueued
  {
    Slots(|dequeued|, 0);
  }

  lemma RingFifo(data: seq<int>, nread: int, nwrite: int, enqueued: seq<int>, dequeued: seq<int>)
    requires RingOk(data, nread, nwrite, enqueued, dequeued)
    ensures var s := Ring(data, nread, (nwrite - nread) % WRAP);
            && enqueued == dequeued + s && |s| <= PIPESIZE
            && (nwrite == (nread + PIPESIZE) % WRAP <==> |s| == PIPESIZE) && (nwrite == nread <==> s == [])
  {
    var r, w := |dequeued|, |enqueued|;
    var s := Ring(data, nread, (nwrite - nread) % WRAP);
    Difference(r, w);
    FullTest(r, w);
    assert |s| == w - r;
    forall j | 0 <= j < w - r
      ensures s[j] == enqueued[r + j]
    {
      Slots(r, j);
      assert data[(r + j) % PIPESIZE] == enqueued[r + j];
    }
  }

  /** A write of n bytes into an empty pipe, of which copyin can fetch `copyable`, returns between two bytes. */
  predicate StopsMidway(readopen: bool, n: int, killed: int, copyable: int) {
    readopen && 0 < killed < n && killed <= PIPESIZE && killed <= copyable
  }

  class Pipe {
    var data: seq<int>
    var nread: int
    var nwrite: int
    var readopen: bool
    var writeopen: bool
    var readers: set<Pid>         // asleep on &nread
    var writers: set<Pid>         // asleep on &nwrite
    ghost var enqueued: seq<int>  // all bytes ever put into the pipe
    ghost var dequeued: seq<int>  // all bytes ever taken out

    /** The bytes in the ring, by the wrapping counters alone. */
    function Buffered(): (s: seq<int>)
      requires |data| == PIPESIZE
      reads this
    {
      Ring(data, nread, (nwrite - nread) % WRAP)
    }

    ghost predicate Valid()
      reads this
    {
      |data| == PIPESIZE && RingOk(data, nread, nwrite, enqueued, dequeued)
    }

    /** With the lock free, a sleeping reader has nothing to read and a sleeping writer no room. */
    ghost predicate SleepersOk()
      requires |data| == PIPESIZE
      reads this
    {
      && (readers != {} ==> Buffered() == [] && writeopen)
      && (writers != {} ==> |Buffered()| == PIPESIZE && readopen)
    }

    /** First in, first out, however often the counters have wrapped. */
    lemma Fifo()
      requires Valid()
      ensures enqueued == dequeued + Buffered() && |Buffered()| <= PIPESIZE
      ensures nwrite == (nread + PIPESIZE) % WRAP <==> |Buffered()| == PIPESIZE
      ensures nwrite == nread <==> Buffered() == []
    {
      RingFifo(data, nread, nwrite, enqueued, dequeued);
    }

    /** pipealloc. */
    constructor ()
      ensures Valid() && SleepersOk() && readopen && writeopen && enqueued == [] == dequeued
    {
      data := seq(PIPESIZE, _ => 0);
      nread, nwrite, readopen, writeopen, readers, writers := 0, 0, true, true, {}, {};
      enqueued, dequeued := [], [];
    }

    /** pipeclose. */
    method Close(writable: bool)
      requires Valid() && SleepersOk()
      modifies this`readopen, this`writeopen, this`readers, this`writers
      ensures Valid() && SleepersOk()
      ensures writable ==> !writeopen && readopen == old(readopen) && readers == {}
      ensures !writable ==> !readopen && writeopen == old(writeopen) && writers == {}
    {
      if writable {
        writeopen := false;
        readers := {};
      } else {
        readopen := false;
        writers := {};
      }
    }

    /** kill of a sleeping process makes it runnable. */
    method Kill(p: Pid)
      requires Valid() && SleepersOk()
      modifies this`readers, this`writers
      ensures Valid() && SleepersOk() && readers == old(readers) - {p} && writers == old(writers) - {p}
    {
      readers := readers - {p};
      writers := writers - {p};
    }

    method Put(ch: int)
      requires Valid() && nwrite != (nread + PIPESIZE) % WRAP
      modifies this`data, this`nwrite, this`enqueued
      ensures Valid() && enqueued == old(enqueued) + [ch]
    {
      hide RingOk, Ring;
      Fifo();
      RingPut(data, nread, nwrite, enqueued, dequeued, ch);
      data := data[nwrite % PIPESIZE := ch];
      nwrite := (nwrite + 1) % WRAP;
      enqueued := enqueued + [ch];
    }

    method Get() returns (ch: int)
      requires Valid() && nwrite != nread
      modifies this`nread, this`dequeued
      ensures Valid() && dequeued == old(dequeued) + [ch] && dequeued <= enqueued
    {
      hide RingOk, Ring;
      Fifo();
      RingGet(data, nread, nwrite, enqueued, dequeued);
      ch := data[nread % PIPESIZE];
      nread := (nread + 1) % WRAP;
      dequeued := dequeued + [ch];
    }

    /**
     pipewrite of src from byte i0 on.  From its round number `killed` on the loop finds the process
     killed, and copyin can fetch the first `copyable` bytes of src.  A sleeping reader is left behind
     exactly when the kill comes after the first byte and before the last, before the pipe is full
     and before a byte that cannot be fetched.
     */
    method Write(p: Pid, src: seq<int>, i0: int, killed: nat, copyable: nat) returns (i: int, out: Outcome)
      requires Valid() && SleepersOk() && 0 <= i0 <= |src|
      modifies this`data, this`nwrite, this`enqueued, this`readers, this`writers
      ensures Valid() && i0 <= i <= |src| && enqueued == old(enqueued) + src[i0..i]
      ensures i - i0 <= killed && (i > i0 ==> readopen)
      ensures out.Failed? <==> i < |src| && (!readopen || i - i0 == killed)
      ensures out.Slept? ==> |Buffered()| == PIPESIZE && p in writers && readers == {} && i < |src|
      ensures out.Done? ==> readers == {} && (i == |src| || i >= copyable)
      ensures out.Failed? ==> readers == old(readers)
      ensures SleepersOk() <==> !(old(readers) != {} && StopsMidway(readopen, |src| - i0, killed, copyable - i0))
    {
      hide RingOk, Ring;
      i := i0;
      while i < |src|
        invariant i - i0 <= killed
        invariant i0 <= i <= |src| && Valid() && enqueued == old(enqueued) + src[i0..i]
        invariant readers == old(readers) && writers == old(writers)
        invariant i > i0 ==> i <= copyable
        invariant old(readers) != {} ==> |Buffered()| == i - i0
        invariant if i == i0 then SleepersOk() else writers == {} && readopen && Buffered() != []
        decreases |src| - i
      {
        if !readopen || i - i0 >= killed {
          Fifo();
          return i, Failed;
        }
        Fifo();
        if nwrite == (nread + PIPESIZE) % WRAP {
          readers := {};
          writers := writers + {p};
          return i, Slept;
        }
        if i >= copyable {
          break;
        }
        Put(src[i]);
        Fifo();
        assert src[i0..i + 1] == src[i0..i] + [src[i]];
        i := i + 1;
      }
      readers := {};
      Fifo();
      return i, Done;
    }

    /**
     piperead of at most n bytes, after finding out whether the process is killed.  `room` is how
     many bytes copyout can store; the byte after them is taken out and lost.
     */
    method Read(p: Pid, n: nat, killed: bool, room: nat) returns (bytes: seq<int>, out: Outcome)
      requires Valid() && SleepersOk()
      modifies this`nread, this`dequeued, this`readers, this`writers
      ensures Valid() && SleepersOk() && |bytes| <= n
      ensures !out.Done? ==> bytes == [] && dequeued == old(dequeued) && old(Buffered()) == [] && writeopen
      ensures out.Slept? ==> p in readers
      ensures old(Buffered()) == [] && writeopen ==> (if killed then out.Failed? else out.Slept?)
      ensures out.Done? ==> old(Buffered()) != [] || !writeopen
      ensures out.Done? ==>
        dequeued == old(dequeued) + bytes || (|bytes| == room && exists b :: dequeued == old(dequeued) + bytes + [b])
      ensures out.Done? && n <= room ==> bytes <= old(Buffered()) && (|bytes| == n || bytes == old(Buffered()))
    {
      hide RingOk, Ring;
      Fifo();
      bytes := [];
      if nread == nwrite && writeopen {
        if killed {
          return [], Failed;
        }
        readers := readers + {p};
        return [], Slept;
      }
      assert readers == {};
      while |bytes| < n
        invariant readers == {} && Valid() && |bytes| <= n && |bytes| <= room && dequeued == old(dequeued) + bytes
        invariant dequeued <= enqueued
        decreases n - |bytes|
      {
        if nread == nwrite {
          break;
        }
        var ch := Get();
        if |bytes| >= room {
          assert dequeued == old(dequeued) + bytes + [ch];
          break;
        }
        bytes := bytes + [ch];
      }
      writers := {};
      Fifo();
      if n <= room {
        Prefix(old(dequeued), bytes, old(Buffered()), enqueued);
      }
      return bytes, Done;
    }
  }

  lemma Prefix(d: seq<int>, b: seq<int>, s: seq<int>, e: seq<int>)
    requires d + b <= e && e == d + s
    ensures |b| <= |s| && b == s[..|b|]
  {
    assert forall i :: 0 <= i < |b| ==> b[i] == e[|d| + i] == s[i];
  }

  /**
   A writer that is killed after its first byte returns without waking anybody: a reader stays
   asleep in front of a pipe that is not empty.
   */
  method KilledWriterStrandsReader(reader: Pid, writer: Pid) returns (pipe: Pipe)
    ensures pipe.Valid() && reader in pipe.readers && pipe.Buffered() == [1] && !pipe.SleepersOk()
  {
    hide RingOk, Ring;
    pipe := new Pipe();
    pipe.Fifo();
    var bytes, out := pipe.Read(reader, 1, false, 1);
    pipe.Fifo();
    assert pipe.Buffered() == [] && out.Slept?;
    var i;
    i, out := pipe.Write(writer, [1, 2], 0, 1, 2);
    pipe.Fifo();
    assert pipe.Buffered() == pipe.enqueued == [1, 2][0..i];
    assert i == 1 && [1, 2][0..1] == [1];
  }

  lemma Difference(r: int, w: int)
    requires 0 <= r <= w <= r + PIPESIZE
    ensures (w % WRAP - r % WRAP) % WRAP == w - r
    ensures w % WRAP == r % WRAP <==> w == r
  {
  }

  lemma FullTest(r: int, w: int)
    requires 0 <= r <= w <= r + PIPESIZE
    ensures w % WRAP == (r % WRAP + PIPESIZE) % WRAP <==> w == r + PIPESIZE
  {
  }

  lemma Slots(r: int, j: int)
    requires 0 <= r && 0 <= j
    ensures (r % WRAP + j) % PIPESIZE == (r + j) % PIPESIZE
    ensures (r % WRAP + 1) % WRAP == (r + 1) % WRAP
  {
  }

  lemma FreshSlot(r: int, w: int)
    requires 0 <= r <= w < r + PIPESIZE
    ensures forall k :: r <= k < w ==> k % PIPESIZE != w % PIPESIZE
  {
  }
}
