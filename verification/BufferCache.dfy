/**
 The buffer cache of kernel/bio.c: NBUF buffers on a doubly linked list in order of use, with
 reference counts, one sleep lock each, and contents that stand for disk blocks.

 Every method is one atomic step under bcache.lock or under the buffer's own lock, so any
 sequence of calls by any processes is an interleaving of the source's operations; bget and
 brelse, which use both locks, are split where the source drops one of them.  A step that the
 source would sleep in is one whose precondition does not hold yet.
 */
module BufferCache {
  import opened Basics
  import opened Counting

  const NBUF := 30
  const HEAD := NBUF

  type Block = seq<int>
  type Pid = int
  datatype Key = Key(dev: int, blockno: int)

  // ---------------------------------------------------------------- the list of buffers

  /** The links through the list head pass the buffers in `order`, each of them once. */
  ghost predicate Linked(next: seq<int>, prev: seq<int>, order: seq<int>) {
    && |next| == NBUF + 1 && |prev| == NBUF + 1 && |order| <= NBUF
    && (forall b :: 0 <= b <= NBUF ==> 0 <= next[b] <= NBUF && 0 <= prev[b] <= NBUF)
    && (forall j :: 0 <= j < |order| ==> 0 <= order[j] < NBUF)
    && (forall j, k :: 0 <= j < k < |order| ==> order[j] != order[k])
    && (forall j :: 0 <= j <= |order| ==> Hooked(next, prev, order, j))
  }

  /** Around the place before the j-th buffer, `next` and `prev` agree with `order`. */
  ghost predicate Hooked(next: seq<int>, prev: seq<int>, order: seq<int>, j: int)
    requires |next| == |prev| == NBUF + 1 && forall k :: 0 <= k < |order| ==> 0 <= order[k] < NBUF
  {
    next[Node(order, j - 1)] == Node(order, j) && prev[Node(order, j)] == Node(order, j - 1)
  }

  /** The j-th buffer of the list; the list head comes before the first and after the last. */
  ghost function Node(order: seq<int>, j: int): (b: int) {
    if 0 <= j < |order| then order[j] else HEAD
  }

  ghost function Without(order: seq<int>, j: int): (r: seq<int>)
    requires 0 <= j < |order|
  {
    order[..j] + order[j + 1..]
  }

  ghost predicate Order(order: seq<int>) {
    && (forall j :: 0 <= j < |order| ==> 0 <= order[j] < NBUF)
    && (forall j, k :: 0 <= j < k < |order| ==> order[j] != order[k])
  }

  lemma WithoutOrder(order: seq<int>, j: int)
    requires Order(order) && 0 <= j < |order|
    ensures Order(Without(order, j)) && |Without(order, j)| == |order| - 1
  {
    var r := Without(order, j);
    forall k | 0 <= k < |r|
      ensures r[k] == order[if k < j then k else k + 1]
    {
    }
  }

  lemma NodeWithout(order: seq<int>, j: int, k: int)
    requires 0 <= j < |order| && -1 <= k < |order|
    ensures Node(Without(order, j), k) == Node(order, if k < j then k else k + 1)
  {
  }

  /** One place of the list after the buffer at position j is taken out. */
  lemma UnlinkedAt(next: seq<int>, prev: seq<int>, order: seq<int>, j: int, k: int)
    requires Linked(next, prev, order) && Order(order) && 0 <= j < |order| && 0 <= k < |order|
    requires Order(Without(order, j))
    ensures var b := order[j];
            Hooked(next[prev[b] := next[b]], prev[next[b] := prev[b]], Without(order, j), k)
  {
    hide Without;
    NodeWithout(order, j, k - 1);
    NodeWithout(order, j, k);
    assert Hooked(next, prev, order, j) && Hooked(next, prev, order, j + 1);
    assert Hooked(next, prev, order, k) && Hooked(next, prev, order, k + 1);
  }

  /** Taking a buffer out of the list. */
  lemma Unlinked(next: seq<int>, prev: seq<int>, order: seq<int>, j: int)
    requires Linked(next, prev, order) && 0 <= j < |order|
    ensures var b := order[j];
            Linked(next[prev[b] := next[b]], prev[next[b] := prev[b]], Without(order, j))
  {
    hide Hooked, Without;
    var b, order' := order[j], Without(order, j);
    var next', prev' := next[prev[b] := next[b]], prev[next[b] := prev[b]];
    assert Order(order);
    WithoutOrder(order, j);
    forall k | 0 <= k <= |order'|
      ensures Hooked(next', prev', order', k)
    {
      UnlinkedAt(next, prev, order, j, k);
    }
  }

  /** Putting a buffer that is not in the list at its front. */
  lemma Pushed(next: seq<int>, prev: seq<int>, order: seq<int>, b: int)
    requires Linked(next, prev, order) && 0 <= b < NBUF && b !in order && |order| < NBUF
    ensures var first := next[HEAD];
            Linked(next[b := first][HEAD := b], prev[b := HEAD][first := b], [b] + order)
  {
    var first := next[HEAD];
    var order' := [b] + order;
    var next', prev' := next[b := first][HEAD := b], prev[b := HEAD][first := b];
    assert Hooked(next, prev, order, 0);
    forall k | 0 <= k <= |order'|
      ensures Hooked(next', prev', order', k)
    {
      assert k >= 1 ==> Hooked(next, prev, order, k - 1);
    }
  }

  lemma EmptyLinked(next: seq<int>, prev: seq<int>)
    requires |next| == |prev| == NBUF + 1 && forall b :: 0 <= b <= NBUF ==> next[b] == prev[b] == HEAD
    ensures Linked(next, prev, [])
  {
  }

  lemma InList(next: seq<int>, prev: seq<int>, order: seq<int>)
    requires Linked(next, prev, order)
    ensures |next| == |prev| == NBUF + 1 && 0 <= next[HEAD] <= NBUF
  {
  }

  /** With all buffers in the list, each is somewhere in it. */
  lemma PlaceOf(next: seq<int>, prev: seq<int>, order: seq<int>, i: int) returns (j: int)
    requires Linked(next, prev, order) && |order| == NBUF && 0 <= i < NBUF
    ensures 0 <= j < NBUF && order[j] == i && 0 <= next[i] <= NBUF && 0 <= prev[i] <= NBUF
    ensures |next| == |prev| == NBUF + 1
  {
    Listed(order, NBUF, i);
    j :| 0 <= j < NBUF && order[j] == i;
  }

  /** brelse's list surgery: the buffer at position `j` becomes the most recently used one. */
  lemma MovedToFront(next: seq<int>, prev: seq<int>, order: seq<int>, j: int, b: int, after: int, before: int,
          first: int)
    requires Linked(next, prev, order) && 0 <= j < |order|
    requires b == order[j] && after == next[b] && before == prev[b] && first == next[before := after][HEAD]
    ensures 0 <= first <= NBUF
    ensures Linked(next[before := after][b := first][HEAD := b], prev[after := before][b := HEAD][first := b],
                   [b] + Without(order, j))
  {
    Unlinked(next, prev, order, j);
    Pushed(next[before := after], prev[after := before], Without(order, j), b);
  }

  function At(m: map<Key, Block>, k: Key): (x: Block) { if k in m then m[k] else [] }

  // ---------------------------------------------------------------- the buffers

  /**
   A struct buf.  `users` are the processes between bget and brelse, and `dirty` says that the
   holder of the sleep lock changed the contents since the last log_write or bwrite; the source
   keeps neither, they are history.
   */
  datatype Buf = Buf(key: Key, valid: bool, refcnt: int, data: Block, holder: Option<Pid>, users: set<Pid>, dirty: bool)

  /** Reference count, lock and contents of one buffer, `logged` being the blocks the log has pinned. */
  ghost predicate BufOk(b: Buf, logged: set<Key>, latest: map<Key, Block>) {
    && b.refcnt == |b.users| + (if b.key in logged then 1 else 0)
    && (b.holder.Some? ==> b.holder.value in b.users)
    && (b.key.dev == 0 ==> b.refcnt == 0 && !b.valid)
    && (b.valid && !b.dirty ==> b.data == At(latest, b.key))
    && (b.dirty ==> b.holder.Some?)
  }

  ghost predicate AllOk(bufs: seq<Buf>, logged: set<Key>, latest: map<Key, Block>) {
    forall i :: 0 <= i < |bufs| ==> BufOk(bufs[i], logged, latest)
  }

  /** `place` gives the one buffer that caches a block of a real device. */
  ghost predicate Unique(bufs: seq<Buf>, place: map<Key, int>) {
    && (forall i :: 0 <= i < |bufs| && bufs[i].key.dev != 0 ==> bufs[i].key in place && place[bufs[i].key] == i)
    && (forall k :: k in place ==> 0 <= place[k] < |bufs| && bufs[place[k]].key == k && k.dev != 0)
  }

  /** A block whose latest contents have not reached the disk is in the log, hence its buffer is pinned. */
  ghost predicate Anchored(bufs: seq<Buf>, place: map<Key, int>, logged: set<Key>, latest: map<Key, Block>,
          disk: map<Key, Block>)
    requires Unique(bufs, place)
  {
    && (forall k :: k in logged ==> k in place)
    && (forall k :: At(latest, k) != At(disk, k) ==> k in logged && bufs[place[k]].valid)
  }

  /** The list is in order of use: the time of the last reference falls along it. */
  ghost predicate Recency(order: seq<int>, stamp: seq<int>, clock: int) {
    && |order| == |stamp|
    && (forall j :: 0 <= j < |order| ==> 0 <= order[j] < |stamp|)
    && (forall i :: 0 <= i < |stamp| ==> stamp[i] < clock)
    && (forall j, k :: 0 <= j < k < |order| ==> stamp[order[j]] > stamp[order[k]])
  }

  lemma FirstOrder(order: seq<int>, stamp: seq<int>)
    requires |order| == |stamp| == NBUF && forall j :: 0 <= j < NBUF ==> order[j] == NBUF - 1 - j && stamp[j] == j
    ensures Recency(order, stamp, NBUF)
  {
  }

  lemma UsedNow(order: seq<int>, stamp: seq<int>, clock: int, j: int)
    requires Recency(order, stamp, clock) && 0 <= j < |order|
    ensures Recency([order[j]] + Without(order, j), stamp[order[j] := clock], clock + 1)
  {
  }

  // ---------------------------------------------------------------- the cache

  /** binit's loop: each buffer in turn is put at the front of the list. */
  method BuildList() returns (next: seq<int>, prev: seq<int>, ghost order: seq<int>)
    ensures Linked(next, prev, order) && |order| == NBUF && forall j :: 0 <= j < NBUF ==> order[j] == NBUF - 1 - j
  {
    hide Linked;
    next, prev, order := seq(NBUF + 1, _ => HEAD), seq(NBUF + 1, _ => HEAD), [];
    EmptyLinked(next, prev);
    var b := 0;
    while b < NBUF
      invariant 0 <= b <= NBUF && |order| == b
      invariant Linked(next, prev, order) && forall j :: 0 <= j < b ==> order[j] == b - 1 - j
    {
      Pushed(next, prev, order, b);
      InList(next, prev, order);
      var first := next[HEAD];
      next := next[b := first];
      prev := prev[b := HEAD];
      prev := prev[first := b];
      next := next[HEAD := b];
      order := [b] + order;
      b := b + 1;
    }
  }

  class Cache {
    var bufs: seq<Buf>
    var next: seq<int>             // the list of buffers, NBUF being its head
    var prev: seq<int>
    var disk: map<Key, Block>
    var logged: set<Key>           // the blocks in the log's header
    ghost var order: seq<int>
    ghost var latest: map<Key, Block>  // what was last log_written or bwritten
    ghost var place: map<Key, int>
    ghost var stamp: seq<int>          // when the last reference was dropped
    ghost var clock: int

    ghost predicate Valid()
      reads this
    {
      && |bufs| == NBUF == |order| && Linked(next, prev, order) && Recency(order, stamp, clock)
      && AllOk(bufs, logged, latest) && Unique(bufs, place) && Anchored(bufs, place, logged, latest, disk)
    }

    /** An unreferenced buffer can be recycled without losing anything. */
    lemma UnusedIsClean(i: int)
      requires Valid() && 0 <= i < NBUF && bufs[i].valid && bufs[i].refcnt == 0
      ensures bufs[i].data == At(disk, bufs[i].key) == At(latest, bufs[i].key) && bufs[i].holder.None?
    {
      assert BufOk(bufs[i], logged, latest);
    }

    /** No block of a real device is in two buffers. */
    lemma NoTwins(i: int, j: int)
      requires Valid() && 0 <= i < j < NBUF && bufs[i].key.dev != 0
      ensures bufs[i].key != bufs[j].key
    {
    }

    /** binit: an empty cache, the last buffer pushed being the most recently used. */
    constructor (disk: map<Key, Block>)
      ensures Valid() && this.disk == latest == disk && logged == {} && place == map[]
      ensures forall i :: 0 <= i < NBUF ==> bufs[i].refcnt == 0 && !bufs[i].valid && bufs[i].holder.None?
    {
      bufs := seq(NBUF, _ => Buf(Key(0, 0), false, 0, [], None, {}, false));
      logged, place := {}, map[];
      stamp, clock := seq(NBUF, i => i), NBUF;
      this.disk, latest := disk, disk;
      var n, p, o := BuildList();
      next, prev, order := n, p, o;
      new;
      hide Linked, Recency;
      FirstOrder(order, stamp);
    }

    /** bget's first scan: from the most recently used buffer on. */
    method Find(key: Key) returns (b: int)
      requires Valid() && key.dev != 0
      ensures if key in place then b == place[key] else b == HEAD
    {
      b := next[HEAD];
      ghost var j := 0;
      assert Hooked(next, prev, order, 0);
      while b != HEAD
        invariant 0 <= j <= NBUF && b == Node(order, j)
        invariant forall i :: 0 <= i < j ==> bufs[order[i]].key != key
        decreases NBUF - j
      {
        if bufs[b].key == key {
          return;
        }
        assert Hooked(next, prev, order, j + 1);
        b := next[b];
        j := j + 1;
      }
      if key in place {
        Listed(order, NBUF, place[key]);
      }
    }

    /** bget's second scan: the unreferenced buffer that has been unused for longest, or HEAD. */
    method FindUnused() returns (b: int)
      requires Valid()
      ensures 0 <= b <= NBUF
      ensures b != HEAD ==>
        bufs[b].refcnt == 0 && forall i :: 0 <= i < NBUF && bufs[i].refcnt == 0 ==> stamp[b] <= stamp[i]
      ensures b == HEAD ==> forall i :: 0 <= i < NBUF ==> bufs[i].refcnt != 0
    {
      b := prev[HEAD];
      ghost var j := NBUF - 1;
      assert Hooked(next, prev, order, NBUF);
      while b != HEAD
        invariant -1 <= j < NBUF && b == Node(order, j)
        invariant forall i :: j < i < NBUF ==> bufs[order[i]].refcnt != 0
        decreases j
      {
        if bufs[b].refcnt == 0 {
          break;
        }
        assert Hooked(next, prev, order, j);
        b := prev[b];
        j := j - 1;
      }
      forall i | 0 <= i < NBUF && bufs[i].refcnt == 0
        ensures j >= 0 && stamp[order[j]] <= stamp[i]
      {
        Listed(order, NBUF, i);
        var k :| 0 <= k < NBUF && order[k] == i;
      }
    }

    /**
     bget under bcache.lock: take a reference to the buffer of a block, recycling the least
     recently used unreferenced buffer if the block is not cached.  HEAD means no buffer was free.
     */
    method BgetRef(p: Pid, key: Key) returns (b: int)
      requires Valid() && key.dev != 0
      requires key in place ==> p !in bufs[place[key]].users
      modifies this`bufs, this`place
      ensures Valid() && 0 <= b <= NBUF
      ensures b == HEAD <==> key !in old(place) && forall i :: 0 <= i < NBUF ==> old(bufs)[i].refcnt != 0
      ensures b == HEAD ==> bufs == old(bufs)
      ensures b != HEAD && key in old(place) ==>
        b == old(place)[key] && bufs == old(bufs)[b := Referenced(old(bufs)[b], p)]
      ensures b != HEAD && key !in old(place) ==>
        && old(bufs)[b].refcnt == 0 && (forall i :: 0 <= i < NBUF && old(bufs)[i].refcnt == 0 ==> stamp[b] <= stamp[i])
        && bufs == old(bufs)[b := Recycled(old(bufs)[b], key, p)]
    {
      b := Find(key);
      if b != HEAD {
        bufs := bufs[b := Referenced(bufs[b], p)];
        return;
      }
      b := FindUnused();
      if b != HEAD {
        Recycling(bufs, place, logged, latest, disk, b, key, p);
        place := Moved(place, bufs[b].key, key, b);
        bufs := bufs[b := Recycled(bufs[b], key, p)];
      }
    }

    /** The end of bget: the sleep lock is free and this process takes it. */
    method AcquireBuf(p: Pid, i: int)
      requires Valid() && 0 <= i < NBUF && p in bufs[i].users && bufs[i].holder.None?
      modifies this`bufs
      ensures Valid() && bufs == old(bufs)[i := old(bufs)[i].(holder := Some(p))] && !bufs[i].dirty
    {
      bufs := bufs[i := bufs[i].(holder := Some(p))];
    }

    /** The rest of bread: afterwards the buffer holds the latest contents of its block. */
    method Fill(p: Pid, i: int)
      requires Valid() && 0 <= i < NBUF && bufs[i].holder == Some(p) && !bufs[i].dirty
      modifies this`bufs
      ensures Valid() && bufs == old(bufs)[i := old(bufs)[i].(valid := true, data := At(latest, old(bufs)[i].key))]
    {
      assert BufOk(bufs[i], logged, latest);
      if !bufs[i].valid {
        bufs := bufs[i := bufs[i].(valid := true, data := At(disk, bufs[i].key))];
      }
    }

    /** The holder changes the contents. */
    method Modify(p: Pid, i: int, x: Block)
      requires Valid() && 0 <= i < NBUF && bufs[i].holder == Some(p)
      modifies this`bufs
      ensures Valid() && bufs == old(bufs)[i := old(bufs)[i].(data := x, dirty := true)]
    {
      bufs := bufs[i := bufs[i].(data := x, dirty := true)];
    }

    /** log_write: the contents become the latest ones; the first log_write of a block pins its buffer. */
    method LogWrite(p: Pid, i: int)
      requires Valid() && 0 <= i < NBUF && bufs[i].holder == Some(p) && bufs[i].valid
      modifies this`bufs, this`logged, this`latest
      ensures Valid() && latest == old(latest)[bufs[i].key := bufs[i].data] && logged == old(logged) + {bufs[i].key}
      ensures bufs == old(bufs)[i := old(bufs)[i].(dirty := false, refcnt := bufs[i].refcnt)] && bufs[i].refcnt >= 2
    {
      hide Linked, Recency, AllOk, Unique, Anchored;
      Logging(bufs, place, logged, latest, disk, i);
      ghost var written, pinned := Written(latest, bufs[i]), logged + {bufs[i].key};
      if bufs[i].key !in logged {
        logged := logged + {bufs[i].key};
        bufs := bufs[i := bufs[i].(refcnt := bufs[i].refcnt + 1, dirty := false)];
      } else {
        assert pinned == logged;
        bufs := bufs[i := bufs[i].(dirty := false)];
      }
      latest := written;
    }

    /** bwrite: the contents become the latest ones and reach the disk. */
    method Bwrite(p: Pid, i: int)
      requires Valid() && 0 <= i < NBUF && bufs[i].holder == Some(p) && bufs[i].valid
      modifies this`bufs, this`disk, this`latest
      ensures Valid() && bufs == old(bufs)[i := old(bufs)[i].(dirty := false)]
      ensures disk == old(disk)[bufs[i].key := bufs[i].data] && latest == old(latest)[bufs[i].key := bufs[i].data]
    {
      hide Linked, Recency, AllOk, Unique, Anchored;
      WritingThrough(bufs, place, logged, latest, disk, i);
      disk := disk[bufs[i].key := bufs[i].data];
      latest := latest[bufs[i].key := bufs[i].data];
      bufs := bufs[i := bufs[i].(dirty := false)];
    }

    /** bunpin, at the end of installing a block: its disk copy is the latest one. */
    method Bunpin(p: Pid, i: int)
      requires Valid() && 0 <= i < NBUF && bufs[i].holder == Some(p) && bufs[i].key in logged
      requires At(disk, bufs[i].key) == At(latest, bufs[i].key)
      modifies this`bufs, this`logged
      ensures Valid() && logged == old(logged) - {bufs[i].key}
      ensures bufs == old(bufs)[i := old(bufs)[i].(refcnt := old(bufs)[i].refcnt - 1)] && bufs[i].refcnt >= 1
    {
      hide Linked, Recency;
      assert BufOk(bufs[i], logged, latest) && bufs[i].users != {};
      logged := logged - {bufs[i].key};
      bufs := bufs[i := bufs[i].(refcnt := bufs[i].refcnt - 1)];
    }

    /** The start of brelse, for a client that wrote what it changed. */
    method ReleaseBuf(p: Pid, i: int)
      requires Valid() && 0 <= i < NBUF && bufs[i].holder == Some(p) && !bufs[i].dirty
      modifies this`bufs
      ensures Valid() && bufs == old(bufs)[i := old(bufs)[i].(holder := None)]
    {
      bufs := bufs[i := bufs[i].(holder := None)];
    }

    /**
     The start of brelse, for any client: the cache stays right if and only if the contents are the
     ones last written, so a client that changed them and wrote nothing must not let go.
     */
    method ReleaseAnyway(p: Pid, i: int)
      requires Valid() && 0 <= i < NBUF && bufs[i].holder == Some(p) && bufs[i].valid
      modifies this`bufs
      ensures bufs == old(bufs)[i := old(bufs)[i].(holder := None, dirty := false)]
      ensures Valid() <==> old(bufs)[i].data == At(latest, old(bufs)[i].key)
    {
      ghost var bufs0 := bufs;
      bufs := bufs[i := bufs[i].(holder := None, dirty := false)];
      assert BufOk(bufs[i], logged, latest) <==> bufs0[i].data == At(latest, bufs0[i].key) by {
        assert BufOk(bufs0[i], logged, latest);
      }
    }

    /** The rest of brelse: drop the reference; an unreferenced buffer becomes the most recently used one. */
    method DropRef(p: Pid, i: int)
      requires Valid() && 0 <= i < NBUF && p in bufs[i].users && bufs[i].holder != Some(p)
      modifies this`bufs, this`next, this`prev, this`order, this`stamp, this`clock
      ensures Valid() && bufs == old(bufs)[i := Unreferenced(old(bufs)[i], p)]
      ensures bufs[i].refcnt == 0 ==> order[0] == i && stamp == old(stamp)[i := old(clock)]
      ensures bufs[i].refcnt > 0 ==> order == old(order) && stamp == old(stamp)
    {
      hide Linked, Recency;
      bufs := bufs[i := Unreferenced(bufs[i], p)];
      if bufs[i].refcnt == 0 {
        MoveToFront(i);
      }
    }

    method MoveToFront(i: int)
      requires |order| == NBUF && Linked(next, prev, order) && Recency(order, stamp, clock) && 0 <= i < NBUF
      modifies this`next, this`prev, this`order, this`stamp, this`clock
      ensures |order| == NBUF && Linked(next, prev, order) && Recency(order, stamp, clock)
      ensures order[0] == i && stamp == old(stamp)[i := old(clock)]
    {
      ghost var j := PlaceOf(next, prev, order, i);
      hide Linked, Recency;
      UsedNow(order, stamp, clock, j);
      var after, before := next[i], prev[i];
      MovedToFront(next, prev, order, j, i, after, before, next[before := after][HEAD]);
      prev := prev[after := before];
      next := next[before := after];
      var first := next[HEAD];
      next := next[i := first];
      prev := prev[i := HEAD];
      prev := prev[first := i];
      next := next[HEAD := i];
      order := [i] + Without(order, j);
      stamp, clock := stamp[i := clock], clock + 1;
    }
  }

  /** The block with bytes w in place of the ones from off on. */
  function Patched(data: Block, off: int, w: Block): (r: Block)
    requires 0 <= off && off + |w| <= |data|
  {
    data[..off] + w + data[off + |w|..]
  }

  lemma PatchSame(data: Block, off: int, w: Block)
    requires 0 <= off && off + |w| <= |data|
    ensures Patched(data, off, w) == data <==> w == data[off..off + |w|]
  {
    assert Patched(data, off, w)[off..off + |w|] == w;
    assert data == data[..off] + data[off..off + |w|] + data[off + |w|..];
  }

  /**
   writei after bread when the copy from user memory fails part of the way: the bytes w have reached the
   buffer, which is released without log_write.  The cache stays right if and only if they are the
   bytes that were there before.
   */
  method FailedCopy(c: Cache, p: Pid, i: int, off: int, w: Block)
    requires c.Valid() && 0 <= i < NBUF && c.bufs[i].holder == Some(p) && c.bufs[i].valid && !c.bufs[i].dirty
    requires 0 <= off && off + |w| <= |c.bufs[i].data|
    modifies c`bufs
    ensures c.bufs == old(c.bufs)[i := old(c.bufs)[i].(data := Patched(old(c.bufs)[i].data, off, w), holder := None)]
    ensures c.Valid() <==> w == old(c.bufs)[i].data[off..off + |w|]
  {
    hide Linked, Recency, Unique, Anchored;
    ghost var data := c.bufs[i].data;
    assert BufOk(c.bufs[i], c.logged, c.latest);
    PatchSame(data, off, w);
    c.Modify(p, i, Patched(c.bufs[i].data, off, w));
    c.ReleaseAnyway(p, i);
  }

  /** A block that is all zero on disk: after such a write every later reader finds the one in the unlocked buffer. */
  method FailedCopySpoilsCache(p: Pid) returns (c: Cache, i: int)
    ensures !c.Valid() && 0 <= i < |c.bufs| && c.bufs[i].valid && c.bufs[i].holder.None?
    ensures c.bufs[i].key == Key(1, 7) && c.bufs[i].data == [1, 0] && At(c.latest, Key(1, 7)) == [0, 0]
  {
    c := new Cache(map[Key(1, 7) := [0, 0]]);
    hide Linked, Recency, Anchored;
    assert c.bufs[0].refcnt == 0;
    i := c.BgetRef(p, Key(1, 7));
    c.AcquireBuf(p, i);
    c.Fill(p, i);
    assert c.bufs[i].data == [0, 0];
    FailedCopy(c, p, i, 0, [1]);
    assert [0, 0][0..1] == [0];
    assert Patched([0, 0], 0, [1]) == [1, 0];
  }

  function Referenced(b: Buf, p: Pid): (r: Buf) { b.(refcnt := b.refcnt + 1, users := b.users + {p}) }

  function Unreferenced(b: Buf, p: Pid): (r: Buf) { b.(refcnt := b.refcnt - 1, users := b.users - {p}) }

  function Recycled(b: Buf, key: Key, p: Pid): (r: Buf) {
    b.(key := key, valid := false, refcnt := 1, users := {p})
  }

  ghost function Moved(place: map<Key, int>, was: Key, key: Key, b: int): (r: map<Key, int>) {
    (place - {was})[key := b]
  }

  ghost function Written(latest: map<Key, Block>, b: Buf): (r: map<Key, Block>) { latest[b.key := b.data] }

  /** Recording a buffer's contents as the latest ones, with a pin unless the block has one. */
  lemma Logging(bufs: seq<Buf>, place: map<Key, int>, logged: set<Key>, latest: map<Key, Block>, disk: map<Key,
          Block>, i: int)
    requires AllOk(bufs, logged, latest) && Unique(bufs, place) && Anchored(bufs, place, logged, latest, disk)
    requires 0 <= i < |bufs| && bufs[i].holder.Some? && bufs[i].valid
    ensures var b := bufs[i];
            var b' := b.(dirty := false, refcnt := if b.key in logged then b.refcnt else b.refcnt + 1);
            var bufs', logged', latest' := bufs[i := b'], logged + {b.key}, Written(latest, b);
            && b'.refcnt >= 2 && AllOk(bufs', logged', latest') && Unique(bufs', place)
            && Anchored(bufs', place, logged', latest', disk)
  {
    assert BufOk(bufs[i], logged, latest) && bufs[i].users != {};
  }

  /** Recording a buffer's contents as the latest ones and on the disk. */
  lemma WritingThrough(bufs: seq<Buf>, place: map<Key, int>, logged: set<Key>, latest: map<Key, Block>,
          disk: map<Key, Block>, i: int)
    requires AllOk(bufs, logged, latest) && Unique(bufs, place) && Anchored(bufs, place, logged, latest, disk)
    requires 0 <= i < |bufs| && bufs[i].holder.Some? && bufs[i].valid
    ensures var b := bufs[i];
            var bufs', latest', disk' := bufs[i := b.(dirty := false)], latest[b.key := b.data], disk[b.key := b.data];
            AllOk(bufs', logged, latest') && Unique(bufs', place) && Anchored(bufs', place, logged, latest', disk')
  {
    var b := bufs[i];
    var bufs', latest' := bufs[i := b.(dirty := false)], latest[b.key := b.data];
    forall j | 0 <= j < |bufs|
      ensures BufOk(bufs'[j], logged, latest')
    {
      assert BufOk(bufs[j], logged, latest);
      assert j != i ==> bufs[j].key != b.key || bufs[j].key.dev == 0;
    }
  }

  /** Giving an unreferenced buffer to another block keeps the invariants: it was clean. */
  lemma Recycling(bufs: seq<Buf>, place: map<Key, int>, logged: set<Key>, latest: map<Key, Block>, disk: map<Key,
    Block>,
                  b: int, key: Key, p: Pid)
    requires AllOk(bufs, logged, latest) && Unique(bufs, place) && Anchored(bufs, place, logged, latest, disk)
    requires 0 <= b < |bufs| && bufs[b].refcnt == 0 && key !in place && key.dev != 0
    ensures var bufs', place' := bufs[b := Recycled(bufs[b], key, p)], Moved(place, bufs[b].key, key, b);
            AllOk(bufs', logged, latest) && Unique(bufs', place') && Anchored(bufs', place', logged, latest, disk)
  {
    assert BufOk(bufs[b], logged, latest);
    assert bufs[b].users == {};
  }
}
