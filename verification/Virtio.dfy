/**
 The disk driver kernel/virtio_disk.c and a block device that follows the split virtqueue of
 VIRTIO 1.1 (sections 2.6.5, 2.6.6, 2.6.8 and 5.2).

 A driver method is what one thread does under vdisk_lock until it returns or sleeps; a device
 method is one step of the device.  They interleave freely.
 */
module Virtio {
  import opened Basics
  import opened Counting

  const NUM := 8
  const WRAP := 0x1_0000     // uint16

  type Pid = int
  type BufId = int
  type Data = int


  /** What a descriptor's address points to. */
  datatype Addr = Nil | OpAt(i: int) | DataOf(b: BufId) | StatusAt(i: int)

  datatype Desc = Desc(addr: Addr, chained: bool, deviceWrites: bool, next: int)

  const NODESC := Desc(Nil, false, false, 0)

  datatype Op = Op(write: bool, sector: int)

  datatype Info = Info(b: Option<BufId>, status: int)

  /** How far a request got; the number is its place in the avail or the used ring, ever since boot. */
  datatype Stage = Offered(k: int) | Taken | Done(k: int) | Handled

  /** What a descriptor is used for: the history of the requests. */
  datatype Use =
    | Free
    | Head(i1: int, i2: int, b: BufId, write: bool, sector: int, stage: Stage, ticket: int)
    | Body(h: int)

  // ---------------------------------------------------------------- the descriptors

  predicate IsDesc(i: int) { 0 <= i < NUM }

  /** A chain has three descriptors of its own, which say what the request is. */
  ghost predicate ChainOk(u: seq<Use>, desc: seq<Desc>, ops: seq<Op>, info: seq<Info>, h: int)
    requires |u| == |desc| == |ops| == |info| == NUM && IsDesc(h) && u[h].Head?
  {
    var x := u[h];
    && IsDesc(x.i1) && IsDesc(x.i2) && x.i1 != x.i2 && u[x.i1] == Body(h) && u[x.i2] == Body(h)
    && desc[h] == Desc(OpAt(h), true, false, x.i1) && ops[h] == Op(x.write, x.sector)
    && desc[x.i1] == Desc(DataOf(x.b), true, !x.write, x.i2)
    && desc[x.i2] == Desc(StatusAt(h), false, true, 0)
    && info[h].b == Some(x.b) && (x.stage.Done? ==> info[h].status == 0)
  }

  ghost predicate UseOk(u: seq<Use>, desc: seq<Desc>, ops: seq<Op>, info: seq<Info>, i: int)
    requires |u| == |desc| == |ops| == |info| == NUM && IsDesc(i)
  {
    && (u[i].Head? ==> ChainOk(u, desc, ops, info, i))
    && (u[i].Body? ==> IsDesc(u[i].h) && u[u[i].h].Head? && (i == u[u[i].h].i1 || i == u[u[i].h].i2))
  }

  ghost predicate DescsOk(u: seq<Use>, desc: seq<Desc>, ops: seq<Op>, info: seq<Info>) {
    |u| == |desc| == |ops| == |info| == NUM && forall i :: IsDesc(i) ==> UseOk(u, desc, ops, info, i)
  }

  ghost predicate FreeOk(u: seq<Use>, free: seq<bool>) {
    |u| == |free| == NUM && forall i :: IsDesc(i) ==> (free[i] <==> u[i].Free?)
  }

  /** A buffer has one request, and is busy until virtio_disk_intr has seen it done; so has a ticket. */
  ghost predicate RequestOk(u: Use, busy: set<BufId>, tickets: int, completed: set<int>) {
    u.Head? ==>
      && (u.b in busy <==> !u.stage.Handled?)
      && 0 <= u.ticket < tickets && (u.ticket in completed <==> u.stage.Handled?)
  }

  ghost predicate Apart(x: Use, y: Use) {
    x.Head? && y.Head? ==> x.b != y.b && x.ticket != y.ticket
  }

  ghost predicate RequestsOk(u: seq<Use>, busy: set<BufId>, tickets: int, completed: set<int>) {
    && |u| == NUM && 0 <= tickets
    && (forall i :: IsDesc(i) ==> RequestOk(u[i], busy, tickets, completed))
    && (forall i, j :: IsDesc(i) && IsDesc(j) && i != j ==> Apart(u[i], u[j]))
    && (forall t :: t in completed ==> 0 <= t < tickets)
  }

  // ---------------------------------------------------------------- the rings

  function StageAt(done: bool, k: int): (s: Stage) { if done then Done(k) else Offered(k) }

  predicate InStage(u: Use, done: bool) { u.Head? && (if done then u.stage.Done? else u.stage.Offered?) }

  ghost predicate Queued(u: seq<Use>, items: seq<int>, done: bool, k: int)
    requires |u| == NUM && 0 <= k < |items|
  {
    IsDesc(items[k]) && u[items[k]].Head? && u[items[k]].stage == StageAt(done, k)
  }

  ghost predicate Placed(x: Use, items: seq<int>, lo: int, done: bool, i: int) {
    InStage(x, done) ==> 0 <= lo <= x.stage.k < |items| && items[x.stage.k] == i
  }

  /** The items from number `lo` on are exactly the requests in that stage, each at its own number. */
  ghost predicate QueueOk(u: seq<Use>, items: seq<int>, lo: int, done: bool) {
    && |u| == NUM && 0 <= lo <= |items| <= lo + NUM
    && (forall k :: lo <= k < |items| ==> Queued(u, items, done, k))
    && (forall i :: IsDesc(i) ==> Placed(u[i], items, lo, done, i))
  }

  /** Entry number k of a ring is kept at place k modulo NUM. */
  ghost predicate RingOk(ring: seq<int>, items: seq<int>, lo: int, hi: int)
    decreases hi - lo
  {
    |ring| == NUM && (0 <= lo < hi <= |items| ==> ring[lo % NUM] == items[lo] && RingOk(ring, items, lo + 1, hi))
  }

  lemma {:induction false} RingPush(ring: seq<int>, items: seq<int>, lo: int, x: int)
    requires 0 <= lo <= |items| < lo + NUM && RingOk(ring, items, lo, |items|)
    ensures RingOk(ring[|items| % NUM := x], items + [x], lo, |items + [x]|)
    decreases |items| - lo
  {
    if lo < |items| {
      assert lo % NUM != |items| % NUM;
      RingPush(ring, items, lo + 1, x);
    }
  }

  /** Fewer requests than descriptors are in a stage if one descriptor is not. */
  lemma QueueRoom(u: seq<Use>, items: seq<int>, lo: int, done: bool, i: int)
    requires QueueOk(u, items, lo, done) && IsDesc(i) && !InStage(u[i], done)
    ensures |items| - lo < NUM
  {
    var w := items[lo..];
    forall j | 0 <= j < |w|
      ensures IsDesc(w[j]) && u[w[j]].Head? && u[w[j]].stage == StageAt(done, lo + j)
    {
      assert Queued(u, items, done, lo + j);
    }
    Fewer(w, NUM, i);
  }

  /** A request enters the stage at the end of the queue. */
  lemma QueuePush(u: seq<Use>, items: seq<int>, lo: int, done: bool, h: int, x: Use)
    requires QueueOk(u, items, lo, done) && IsDesc(h) && !InStage(u[h], done) && |items| - lo < NUM
    requires x.Head? && x.stage == StageAt(done, |items|)
    ensures QueueOk(u[h := x], items + [h], lo, done)
  {
    var u', items' := u[h := x], items + [h];
    forall k | lo <= k < |items'|
      ensures Queued(u', items', done, k)
    {
      assert k < |items| ==> Queued(u, items, done, k);
    }
    forall i | IsDesc(i)
      ensures Placed(u[h := x][i], items + [h], lo, done, i)
    {
      assert Placed(u[i], items, lo, done, i);
    }
  }

  /** The request at the front leaves the stage. */
  lemma QueuePop(u: seq<Use>, items: seq<int>, lo: int, done: bool, h: int, x: Use)
    requires QueueOk(u, items, lo, done) && lo < |items| && h == items[lo] && IsDesc(h) && !InStage(x, done)
    ensures QueueOk(u[h := x], items, lo + 1, done)
  {
    assert Queued(u, items, done, lo);
    var u' := u[h := x];
    forall k | lo + 1 <= k < |items|
      ensures Queued(u', items, done, k)
    {
      assert Queued(u, items, done, k);
    }
    forall i | IsDesc(i)
      ensures Placed(u[h := x][i], items, lo + 1, done, i)
    {
      assert Placed(u[i], items, lo, done, i);
    }
  }

  /** A descriptor outside the stage, before and after, does not matter. */
  lemma QueueSame(u: seq<Use>, items: seq<int>, lo: int, done: bool, h: int, x: Use)
    requires QueueOk(u, items, lo, done) && IsDesc(h) && !InStage(u[h], done) && !InStage(x, done)
    ensures QueueOk(u[h := x], items, lo, done)
  {
    var u' := u[h := x];
    forall k | lo <= k < |items|
      ensures Queued(u', items, done, k)
    {
      assert Queued(u, items, done, k);
    }
    forall i | IsDesc(i)
      ensures Placed(u[h := x][i], items, lo, done, i)
    {
      assert Placed(u[i], items, lo, done, i);
    }
  }

  /** Taking the front entry, h, out of a ring; `other` is the other ring's items. */
  lemma PopBooks(u: seq<Use>, ring: seq<int>, items: seq<int>, lo: int, next: int, other: seq<int>, olo: int,
          done: bool, h: int)
    requires QueueOk(u, items, lo, done) && RingOk(ring, items, lo, |items|) && QueueOk(u, other, olo, !done)
    requires Index(lo) != Index(|items|) && next == lo + 1 && h == ring[Index(lo) % NUM]
    ensures lo < |items| && h == items[lo] && IsDesc(h) && InStage(u[h], done)
    ensures var u' := u[h := u[h].(stage := if done then Handled else Taken)];
            QueueOk(u', items, next, done) && QueueOk(u', other, olo, !done)
    ensures RingOk(ring, items, next, |items|) && Advance(Index(lo)) == Index(next)
  {
    RingSlot(lo);
    NextIndex(lo);
    assert Queued(u, items, done, lo);
    var x := u[h].(stage := if done then Handled else Taken);
    QueuePop(u, items, lo, done, h, x);
    QueueSame(u, other, olo, !done, h, x);
  }

  /** Putting h, which the device had taken, into the used ring. */
  lemma ReportBooks(u: seq<Use>, used: seq<int>, offered: seq<int>, taken: int, finished: seq<int>, handled: int,
          h: int)
    requires QueueOk(u, offered, taken, false) && QueueOk(u, finished, handled, true)
    requires RingOk(used, finished, handled, |finished|)
    requires IsDesc(h) && u[h].Head? && u[h].stage.Taken?
    ensures var u' := u[h := u[h].(stage := Done(|finished|))];
            QueueOk(u', offered, taken, false) && QueueOk(u', finished + [h], handled, true)
    ensures RingOk(used[Index(|finished|) % NUM := h], finished + [h], handled, |finished + [h]|)
    ensures Advance(Index(|finished|)) == Index(|finished + [h]|)
  {
    var x := u[h].(stage := Done(|finished|));
    QueueRoom(u, finished, handled, true, h);
    QueuePush(u, finished, handled, true, h, x);
    QueueSame(u, offered, taken, false, h, x);
    RingPush(used, finished, handled, h);
    RingSlot(|finished|);
    NextIndex(|finished|);
  }

  // ---------------------------------------------------------------- changes of the descriptors

  lemma DescsOffered(u: seq<Use>, desc: seq<Desc>, ops: seq<Op>, info: seq<Info>, i0: int, i1: int, i2: int, x: Use)
    requires DescsOk(u, desc, ops, info) && IsDesc(i0) && IsDesc(i1) && IsDesc(i2) && i0 != i1 && i0 != i2 && i1 != i2
    requires u[i0].Free? && u[i1].Free? && u[i2].Free? && x.Head? && x.i1 == i1 && x.i2 == i2 && !x.stage.Done?
    ensures DescsOk(u[i0 := x][i1 := Body(i0)][i2 := Body(i0)],
                    desc[i0 := Desc(OpAt(i0), true, false, i1)][i1 := Desc(DataOf(x.b), true, !x.write,
                      i2)][i2 := Desc(StatusAt(i0), false, true, 0)],
                    ops[i0 := Op(x.write, x.sector)], info[i0 := Info(Some(x.b), 0xff)])
  {
    var u' := u[i0 := x][i1 := Body(i0)][i2 := Body(i0)];
    var desc' := desc[i0 := Desc(OpAt(i0), true, false, i1)][i1 := Desc(DataOf(x.b), true, !x.write,
      i2)][i2 := Desc(StatusAt(i0), false, true, 0)];
    forall i | IsDesc(i)
      ensures UseOk(u', desc', ops[i0 := Op(x.write, x.sector)], info[i0 := Info(Some(x.b), 0xff)], i)
    {
      assert UseOk(u, desc, ops, info, i);
    }
  }

  lemma DescsMoved(u: seq<Use>, desc: seq<Desc>, ops: seq<Op>, info: seq<Info>, h: int, stage: Stage, status: int)
    requires DescsOk(u, desc, ops, info) && IsDesc(h) && u[h].Head? && (stage.Done? ==> status == 0)
    ensures DescsOk(u[h := u[h].(stage := stage)], desc, ops, info[h := info[h].(status := status)])
  {
    forall i | IsDesc(i)
      ensures UseOk(u[h := u[h].(stage := stage)], desc, ops, info[h := info[h].(status := status)], i)
    {
      assert UseOk(u, desc, ops, info, i);
    }
  }

  lemma DescsStaged(u: seq<Use>, desc: seq<Desc>, ops: seq<Op>, info: seq<Info>, h: int, stage: Stage)
    requires DescsOk(u, desc, ops, info) && IsDesc(h) && u[h].Head? && !stage.Done?
    ensures DescsOk(u[h := u[h].(stage := stage)], desc, ops, info)
  {
    assert info[h := info[h].(status := info[h].status)] == info;
    DescsMoved(u, desc, ops, info, h, stage, info[h].status);
  }

  lemma DescsFreed(u: seq<Use>, desc: seq<Desc>, ops: seq<Op>, info: seq<Info>, h: int)
    requires DescsOk(u, desc, ops, info) && IsDesc(h) && u[h].Head?
    ensures IsDesc(u[h].i1) && IsDesc(u[h].i2) && u[u[h].i1].Body? && u[u[h].i2].Body?
    ensures DescsOk(u[h := Use.Free][u[h].i1 := Use.Free][u[h].i2 := Use.Free],
      desc[h := NODESC][u[h].i1 := NODESC][u[h].i2 := NODESC], ops, info[h := info[h].(b := None)])
  {
    assert UseOk(u, desc, ops, info, h);
    var i1, i2 := u[h].i1, u[h].i2;
    forall i | IsDesc(i)
      ensures UseOk(u[h := Use.Free][i1 := Use.Free][i2 := Use.Free], desc[h := NODESC][i1 := NODESC][i2 := NODESC],
        ops, info[h := info[h].(b := None)], i)
    {
      assert UseOk(u, desc, ops, info, i);
    }
  }

  // ---------------------------------------------------------------- 16-bit indices

  function Index(n: int): (i: int) { n % WRAP }

  function Advance(i: int): (j: int) { (i + 1) % WRAP }

  // ---------------------------------------------------------------- counting free descriptors

  function FreeCount(free: seq<bool>, n: nat): (k: nat)
    requires n <= |free|
  {
    if n == 0 then 0 else FreeCount(free, n - 1) + (if free[n - 1] then 1 else 0)
  }

  function Available(free: seq<bool>): (k: nat) { FreeCount(free, |free|) }

  lemma {:induction false} CountSet(free: seq<bool>, i: int, x: bool, n: nat)
    requires 0 <= i < |free| && n <= |free|
    ensures FreeCount(free[i := x], n) == FreeCount(free, n) +
      (if i < n then (if x then 1 else 0) - (if free[i] then 1 else 0) else 0)
  {
    if n > 0 {
      CountSet(free, i, x, n - 1);
    }
  }

  lemma {:induction false} CountNone(free: seq<bool>, n: nat)
    requires n <= |free| && forall i :: 0 <= i < n ==> !free[i]
    ensures FreeCount(free, n) == 0
  {
    if n > 0 {
      CountNone(free, n - 1);
    }
  }

  class Disk {
    var desc: seq<Desc>
    var free: seq<bool>
    var avail: seq<int>
    var availIdx: int
    var used: seq<int>
    var usedIdx: int               // the device's used->idx
    var seenIdx: int               // the driver's used_idx
    var info: seq<Info>
    var ops: seq<Op>
    var busy: set<BufId>           // buffers with b->disk set
    var sleepers: set<Pid>         // asleep on &free[0]
    // the device
    var takenIdx: int              // how far it got in the avail ring
    var store: map<int, Data>      // sectors
    var data: map<BufId, Data>     // buffers, in main memory
    // history
    ghost var use: seq<Use>
    ghost var offered: seq<int>    // heads put into the avail ring since boot
    ghost var taken: int           // how many of them the device has taken
    ghost var finished: seq<int>   // heads put into the used ring since boot
    ghost var handled: int         // how many of them virtio_disk_intr has seen
    ghost var tickets: int
    ghost var completed: set<int>  // tickets of the requests that virtio_disk_intr has seen

    ghost predicate Shape()
      reads this
    {
      && |desc| == |free| == |avail| == |used| == |info| == |ops| == |use| == NUM
      && 0 <= taken <= |offered| && 0 <= handled <= |finished|
      && availIdx == Index(|offered|) && takenIdx == Index(taken)
      && usedIdx == Index(|finished|) && seenIdx == Index(handled)
    }

    ghost predicate Valid()
      reads this
    {
      && Shape() && DescsOk(use, desc, ops, info) && FreeOk(use, free) && RequestsOk(use, busy, tickets, completed)
      && QueueOk(use, offered, taken, false) && RingOk(avail, offered, taken, |offered|)
      && QueueOk(use, finished, handled, true) && RingOk(used, finished, handled, |finished|)
      && (sleepers != {} ==> Available(free) < 3)
    }

    constructor (store: map<int, Data>)
      ensures Valid() && this.store == store && tickets == 0
      ensures forall i :: IsDesc(i) ==> free[i]
    {
      desc, free, avail, used := seq(NUM, _ => NODESC), seq(NUM, _ => true), seq(NUM, _ => 0), seq(NUM, _ => 0);
      availIdx, usedIdx, seenIdx, takenIdx := 0, 0, 0, 0;
      info, ops := seq(NUM, _ => Info(None, 0)), seq(NUM, _ => Op(false, 0));
      busy, sleepers, this.store, data := {}, {}, store, map[];
      use, offered, taken, finished, handled, tickets, completed := seq(NUM, _ => Use.Free), [], 0, [], 0, 0, {};
    }

    // -------------------------------------------------------------- allocating descriptors

    /** alloc_desc. */
    method AllocDesc() returns (i: int)
      requires |free| == NUM
      modifies this`free
      ensures -1 <= i < NUM
      ensures i >= 0 ==> old(free)[i] && free == old(free)[i := false]
      ensures i < 0 ==> free == old(free) && Available(free) == 0
    {
      i := 0;
      while i < NUM
        invariant 0 <= i <= NUM && free == old(free) && forall j :: 0 <= j < i ==> !free[j]
      {
        if free[i] {
          free := free[i := false];
          return;
        }
        i := i + 1;
      }
      CountNone(free, |free|);
      return -1;
    }

    /** free_desc. */
    method FreeDesc(i: int)
      requires |free| == |desc| == NUM && IsDesc(i) && !free[i]
      modifies this`free, this`desc, this`sleepers
      ensures free == old(free)[i := true] && desc == old(desc)[i := NODESC] && sleepers == {}
    {
      desc := desc[i := NODESC];
      free := free[i := true];
      sleepers := {};
    }

    /** alloc3_desc: three free descriptors, or none. */
    method Alloc3() returns (ok: bool, idx: seq<int>)
      requires |free| == |desc| == NUM
      modifies this`free, this`desc, this`sleepers
      ensures ok ==>
        && |idx| == 3 && IsDesc(idx[0]) && IsDesc(idx[1]) && IsDesc(idx[2])
        && idx[0] != idx[1] && idx[0] != idx[2] && idx[1] != idx[2]
        && old(free)[idx[0]] && old(free)[idx[1]] && old(free)[idx[2]]
        && free == old(free)[idx[0] := false][idx[1] := false][idx[2] := false] && desc == old(desc) &&
           sleepers == old(sleepers)
      ensures !ok ==> free == old(free) && Available(free) < 3 && (sleepers == {} || sleepers == old(sleepers))
      ensures |desc| == NUM && forall i :: IsDesc(i) && !old(free)[i] ==> desc[i] == old(desc)[i]
    {
      idx := [];
      while |idx| < 3
        invariant |idx| <= 3 && |free| == NUM && desc == old(desc) && sleepers == old(sleepers)
        invariant Took(old(free), free, idx)
      {
        var i := AllocDesc();
        if i < 0 {
          Release(idx, old(free));
          return false, idx;
        }
        TookMore(old(free), free[i := true], free, idx, i);
        idx := idx + [i];
      }
      ok := true;
    }

    /** alloc3_desc's way out: give back the descriptors it got. */
    method Release(idx: seq<int>, ghost before: seq<bool>)
      requires |free| == |desc| == NUM && |idx| < 3 && Took(before, free, idx) && Available(free) == 0
      modifies this`free, this`desc, this`sleepers
      ensures free == before && Available(free) < 3 && (sleepers == {} || sleepers == old(sleepers))
      ensures |desc| == NUM && forall i :: IsDesc(i) && !before[i] ==> desc[i] == old(desc)[i]
    {
      var j := 0;
      while j < |idx|
        invariant 0 <= j <= |idx| && |free| == |desc| == NUM && Took(before, free, idx[j..]) && Available(free) == j
        invariant sleepers == {} || sleepers == old(sleepers)
        invariant forall i :: IsDesc(i) && !before[i] ==> desc[i] == old(desc)[i]
      {
        CountSet(free, idx[j], true, |free|);
        TookLess(before, free, idx[j..]);
        assert idx[j..][1..] == idx[j + 1..];
        FreeDesc(idx[j]);
        j := j + 1;
      }
    }

    // -------------------------------------------------------------- requests

    /** No request is in progress for buffer b. */
    ghost predicate NoRequest(b: BufId)
      requires |use| == NUM
      reads this
    {
      b !in busy && forall i :: IsDesc(i) && use[i].Head? ==> use[i].b != b
    }

    /** virtio_disk_rw up to its wait: offer the request to the device, or sleep (-1) for want of descriptors. */
    method Submit(p: Pid, b: BufId, sector: int, write: bool) returns (h: int)
      requires Valid() && NoRequest(b)
      modifies this`ops, this`desc, this`info, this`busy, this`avail
      modifies this`availIdx, this`use, this`offered, this`tickets, this`free, this`sleepers
      ensures Valid()
      ensures h < 0 ==> p in sleepers && use == old(use) && tickets == old(tickets)
      ensures h >= 0 ==> Offering(old(use), use, h, Op(write, sector), b, old(tickets)) && tickets == old(tickets) + 1
    {
      var ok, idx := Alloc3();
      if !ok {
        sleepers := sleepers + {p};
        DescsSame(use, old(desc), desc, ops, info, old(free));
        return -1;
      }
      h := idx[0];
      Offer(idx[0], idx[1], idx[2], b, sector, write, old(free));
    }

    /** The part of virtio_disk_rw that formats the descriptors and tells the device. */
    method Offer(i0: int, i1: int, i2: int, b: BufId, sector: int, write: bool, ghost before: seq<bool>)
      requires Shape() && DescsOk(use, desc, ops, info) && FreeOk(use, before)
      requires RequestsOk(use, busy, tickets, completed) && NoRequest(b)
      requires QueueOk(use, offered, taken, false) && RingOk(avail, offered, taken, |offered|)
      requires QueueOk(use, finished, handled, true) && RingOk(used, finished, handled, |finished|)
      requires IsDesc(i0) && IsDesc(i1) && IsDesc(i2) && i0 != i1 && i0 != i2 && i1 != i2
      requires before[i0] && before[i1] && before[i2] && free == before[i0 := false][i1 := false][i2 := false]
      requires sleepers != {} ==> Available(before) < 3
      modifies this`ops, this`desc, this`info, this`busy
      modifies this`avail, this`availIdx, this`use, this`offered, this`tickets
      ensures Valid()
      ensures Offering(old(use), use, i0, Op(write, sector), b, old(tickets)) && tickets == old(tickets) + 1
    {
      hide Index, Advance, QueueOk, RingOk, RequestsOk;
      ghost var k := |offered|;
      ghost var x := Head(i1, i2, b, write, sector, Offered(k), tickets);
      ghost var use' := use[i0 := x][i1 := Body(i0)][i2 := Body(i0)];
      ghost var next := tickets + 1;
      OfferBooks(use, before, free, busy, tickets, next, completed, avail, offered, taken, finished, handled, i0, i1,
        i2, x);
      Format(i0, i1, i2, b, sector, write, x);
      Post(i0, b, use', next);
    }

    /** Mark the buffer busy and put the head into the avail ring. */
    method Post(i0: int, b: BufId, ghost use': seq<Use>, ghost next: int)
      requires Shape() && |use'| == NUM && DescsOk(use', desc, ops, info) && FreeOk(use', free)
      requires RequestsOk(use', busy + {b}, next, completed)
      requires QueueOk(use', offered + [i0], taken, false) && QueueOk(use', finished, handled, true)
      requires RingOk(avail[Index(|offered|) % NUM := i0], offered + [i0], taken, |offered + [i0]|)
      requires RingOk(used, finished, handled, |finished|)
      requires Advance(Index(|offered|)) == Index(|offered + [i0]|) && (sleepers != {} ==> Available(free) < 3)
      modifies this`busy, this`avail, this`availIdx, this`use, this`offered, this`tickets
      ensures Valid() && use == use' && tickets == next
    {
      hide DescsOk, FreeOk, RequestsOk, QueueOk, RingOk, Index, Advance, Available;
      busy := busy + {b};
      avail := avail[availIdx % NUM := i0];
      availIdx := Advance(availIdx);
      use := use';
      offered := offered + [i0];
      tickets := next;
    }

    /** The three descriptors of a request. */
    method Format(i0: int, i1: int, i2: int, b: BufId, sector: int, write: bool, ghost x: Use)
      requires DescsOk(use, desc, ops, info) && IsDesc(i0) && IsDesc(i1) && IsDesc(i2) && i0 != i1 && i0 != i2
      requires i1 != i2
      requires use[i0].Free? && use[i1].Free? && use[i2].Free?
      requires x.Head? && x.i1 == i1 && x.i2 == i2 && x.b == b && x.write == write && x.sector == sector
      requires !x.stage.Done?
      modifies this`ops, this`desc, this`info
      ensures DescsOk(use[i0 := x][i1 := Body(i0)][i2 := Body(i0)], desc, ops, info)
    {
      DescsOffered(use, desc, ops, info, i0, i1, i2, x);
      ops := ops[i0 := Op(write, sector)];
      desc := desc[i0 := Desc(OpAt(i0), true, false, i1)];
      desc := desc[i1 := Desc(DataOf(b), true, !write, i2)];
      info := info[i0 := info[i0].(status := 0xff)];
      desc := desc[i2 := Desc(StatusAt(i0), false, true, 0)];
      info := info[i0 := info[i0].(b := Some(b))];
      assert info == old(info)[i0 := Info(Some(b), 0xff)];
    }

    // -------------------------------------------------------------- the device

    /** The device takes the next head out of the avail ring. */
    method Take() returns (h: int)
      requires Valid() && takenIdx != availIdx
      modifies this`takenIdx, this`use, this`taken
      ensures Valid() && IsDesc(h) && old(use)[h].Head? && old(use)[h].stage.Offered?
      ensures use == old(use)[h := old(use)[h].(stage := Taken)]
    {
      h := avail[takenIdx % NUM];
      ghost var next := taken + 1;
      hide QueueOk, RingOk, Available, FreeOk;
      PopBooks(use, avail, offered, taken, next, finished, handled, false, h);
      DescsStaged(use, desc, ops, info, h, Taken);
      RequestsMoved(use, busy, tickets, completed, h, Taken);
      takenIdx := Advance(takenIdx);
      use := use[h := use[h].(stage := Taken)];
      taken := next;
    }

    /** The device follows the chain, moves the data, and reports the request in the used ring. */
    method Complete(h: int)
      requires Valid() && IsDesc(h) && use[h].Head? && use[h].stage.Taken?
      modifies this`store, this`data, this`info, this`used, this`usedIdx, this`use, this`finished
      ensures Valid() && use == old(use)[h := old(use)[h].(stage := Done(|old(finished)|))]
      ensures use[h].write ==> store == old(store)[use[h].sector := ContentOf(data, use[h].b)] && data == old(data)
      ensures !use[h].write ==> data == old(data)[use[h].b := ContentOf(store, use[h].sector)] && store == old(store)
    {
      assert UseOk(use, desc, ops, info, h);
      var op := ops[desc[h].addr.i];
      var d1 := desc[desc[h].next];
      var b := d1.addr.b;
      if d1.deviceWrites {
        data := data[b := ContentOf(store, op.sector)];
      } else {
        store := store[op.sector := ContentOf(data, b)];
      }
      Report(h, desc[d1.next].addr.i);
    }

    method Report(h: int, s: int)
      requires Valid() && IsDesc(h) && use[h].Head? && use[h].stage.Taken? && s == h
      modifies this`info, this`used, this`usedIdx, this`use, this`finished
      ensures Valid() && use == old(use)[h := old(use)[h].(stage := Done(|old(finished)|))]
    {
      ghost var stage := Done(|finished|);
      ReportBooks(use, used, offered, taken, finished, handled, h);
      DescsMoved(use, desc, ops, info, h, stage, 0);
      RequestsMoved(use, busy, tickets, completed, h, stage);
      info := info[s := info[s].(status := 0)];
      used := used[usedIdx % NUM := h];
      usedIdx := Advance(usedIdx);
      use := use[h := use[h].(stage := stage)];
      finished := finished + [h];
    }

    // -------------------------------------------------------------- completions

    /** virtio_disk_intr's loop body: the entry names the request whose buffer is now done, for the first time. */
    method Handle() returns (id: int)
      requires Valid() && seenIdx != usedIdx
      modifies this`busy, this`seenIdx, this`use, this`handled, this`completed
      ensures Valid() && IsDesc(id) && old(use)[id].Head? && old(use)[id].stage.Done? && info[id].status == 0
      ensures info[id].b == Some(use[id].b) && busy == old(busy) - {use[id].b} && use[id].b in old(busy)
      ensures use == old(use)[id := old(use)[id].(stage := Handled)]
      ensures use[id].ticket !in old(completed) && completed == old(completed) + {use[id].ticket}
      ensures handled == old(handled) + 1
    {
      id := used[seenIdx % NUM];
      ghost var next := handled + 1;
      hide QueueOk, RingOk, Available, FreeOk;
      PopBooks(use, used, finished, handled, next, offered, taken, true, id);
      assert UseOk(use, desc, ops, info, id) && RequestOk(use[id], busy, tickets, completed);
      DescsStaged(use, desc, ops, info, id, Handled);
      RequestsHandled(use, busy, tickets, completed, id);
      Settle(info[id].b.value, use[id := use[id].(stage := Handled)], next, completed + {use[id].ticket});
    }

    /** The buffer is done, and the driver has seen one more entry of the used ring. */
    method Settle(b: BufId, ghost use': seq<Use>, ghost next: int, ghost completed': set<int>)
      requires Shape() && DescsOk(use', desc, ops, info) && FreeOk(use', free)
      requires RequestsOk(use', busy - {b}, tickets, completed')
      requires QueueOk(use', offered, taken, false) && RingOk(avail, offered, taken, |offered|)
      requires QueueOk(use', finished, next, true) && RingOk(used, finished, next, |finished|)
      requires Advance(seenIdx) == Index(next) && (sleepers != {} ==> Available(free) < 3)
      modifies this`busy, this`seenIdx, this`use, this`handled, this`completed
      ensures Valid() && busy == old(busy) - {b} && use == use' && handled == next && completed == completed'
    {
      hide DescsOk, FreeOk, RequestsOk, RingOk;
      busy := busy - {b};
      seenIdx := Advance(seenIdx);
      use, handled, completed := use', next, completed';
    }

    /** virtio_disk_intr: everything the device has reported is handled. */
    method Intr()
      requires Valid()
      modifies this`busy, this`seenIdx, this`use, this`handled, this`completed
      ensures Valid() && handled == |finished|
      ensures forall i :: IsDesc(i) ==> !(use[i].Head? && use[i].stage.Done?)
    {
      SameIndex(handled, |finished|);
      while seenIdx != usedIdx
        invariant Valid()
        decreases |finished| - handled
      {
        SameIndex(handled, |finished|);
        var id := Handle();
      }
      SameIndex(handled, |finished|);
      forall i | IsDesc(i)
        ensures !(use[i].Head? && use[i].stage.Done?)
      {
        assert Placed(use[i], finished, handled, true, i);
      }
    }

    /** The end of virtio_disk_rw: the thread finds its buffer done and frees the chain. */
    method Finish(b: BufId, h: int)
      requires Valid() && IsDesc(h) && use[h].Head? && use[h].b == b && b !in busy
      modifies this`info, this`desc, this`free, this`sleepers, this`use
      ensures Valid() && NoRequest(b) && sleepers == {}
      ensures use == old(use)[h := Use.Free][old(use)[h].i1 := Use.Free][old(use)[h].i2 := Use.Free]
      ensures |info| == |old(info)| && IsDesc(h) && info == old(info)[h := old(info)[h].(b := None)]
    {
      assert RequestOk(use[h], busy, tickets, completed) && UseOk(use, desc, ops, info, h);
      ghost var i1, i2 := use[h].i1, use[h].i2;
      ghost var use' := use[h := Use.Free][i1 := Use.Free][i2 := Use.Free];
      FinishBooks(use, use', free, desc, ops, info, busy, tickets, completed, offered, taken, finished, handled, h,
        i1, i2);
      hide DescsOk, FreeOk, RequestsOk, QueueOk, RingOk, Available;
      info := info[h := info[h].(b := None)];
      FreeChain(h, i1, i2);
      use := use';
    }

    /** free_chain, along the next fields. */
    method FreeChain(h: int, ghost i1: int, ghost i2: int)
      requires |free| == |desc| == NUM && IsDesc(h) && IsDesc(i1) && IsDesc(i2) && h != i1 && h != i2 && i1 != i2
      requires !free[h] && !free[i1] && !free[i2]
      requires desc[h].chained && desc[h].next == i1 && desc[i1].chained && desc[i1].next == i2 && !desc[i2].chained
      modifies this`desc, this`free, this`sleepers
      ensures free == old(free)[h := true][i1 := true][i2 := true] && sleepers == {}
      ensures desc == old(desc)[h := NODESC][i1 := NODESC][i2 := NODESC]
    {
      var i := h;
      ghost var n := 0;
      while true
        invariant |free| == |desc| == NUM && 0 <= n <= 2
        invariant n == 0 ==> i == h && free == old(free) && desc == old(desc)
        invariant n == 1 ==> i == i1 && free == old(free)[h := true] && desc == old(desc)[h := NODESC]
        invariant n == 2 ==>
          i == i2 && free == old(free)[h := true][i1 := true] && desc == old(desc)[h := NODESC][i1 := NODESC]
        decreases 2 - n
      {
        var chained, nxt := desc[i].chained, desc[i].next;
        FreeDesc(i);
        if !chained {
          break;
        }
        i := nxt;
        n := n + 1;
      }
    }
  }

  function ContentOf(m: map<int, Data>, k: int): (x: Data) { if k in m then m[k] else 0 }

  /** A new request in descriptor h. */
  ghost predicate Offering(u: seq<Use>, u': seq<Use>, h: int, op: Op, b: BufId, ticket: int) {
    && |u| == |u'| == NUM && IsDesc(h) && u[h].Free? && u'[h].Head? && u'[h].stage.Offered?
    && u'[h].b == b && u'[h].write == op.write && u'[h].sector == op.sector && u'[h].ticket == ticket
    && forall i :: IsDesc(i) && u[i].Head? ==> u'[i] == u[i]
  }

  lemma OfferReady(u: seq<Use>, offered: seq<int>, taken: int, finished: seq<int>, handled: int, i0: int, i1: int,
          i2: int, x: Use)
    requires QueueOk(u, offered, taken, false) && QueueOk(u, finished, handled, true)
    requires IsDesc(i0) && IsDesc(i1) && IsDesc(i2) && i0 != i1 && i0 != i2 && i1 != i2 && u[i0].Free? && u[i1].Free?
    requires u[i2].Free?
    requires x.Head? && x.stage == Offered(|offered|)
    ensures var u' := u[i0 := x][i1 := Body(i0)][i2 := Body(i0)];
            QueueOk(u', offered + [i0], taken, false) && QueueOk(u', finished, handled, true) && |offered| - taken < NUM
  {
    QueueRoom(u, offered, taken, false, i0);
    QueuePush(u, offered, taken, false, i0, x);
    QueueSame(u[i0 := x], offered + [i0], taken, false, i1, Body(i0));
    QueueSame(u[i0 := x][i1 := Body(i0)], offered + [i0], taken, false, i2, Body(i0));
    QueueSame(u, finished, handled, true, i0, x);
    QueueSame(u[i0 := x], finished, handled, true, i1, Body(i0));
    QueueSame(u[i0 := x][i1 := Body(i0)], finished, handled, true, i2, Body(i0));
  }

  /** All the bookkeeping of offering a request. */
  lemma OfferBooks(u: seq<Use>, before: seq<bool>, free: seq<bool>, busy: set<BufId>, tickets: int, next: int,
    completed: set<int>,
                   avail: seq<int>, offered: seq<int>, taken: int, finished: seq<int>, handled: int, i0: int,
                     i1: int, i2: int, x: Use)
    requires FreeOk(u, before) && RequestsOk(u, busy, tickets, completed)
    requires QueueOk(u, offered, taken, false) && QueueOk(u, finished, handled, true)
    requires RingOk(avail, offered, taken, |offered|)
    requires IsDesc(i0) && IsDesc(i1) && IsDesc(i2) && i0 != i1 && i0 != i2 && i1 != i2 && before[i0] && before[i1]
    requires before[i2]
    requires free == before[i0 := false][i1 := false][i2 := false]
    requires x.Head? && x.stage == Offered(|offered|) && x.ticket == tickets && next == tickets + 1
    requires x.b !in busy && forall i :: IsDesc(i) && u[i].Head? ==> u[i].b != x.b
    ensures var u' := u[i0 := x][i1 := Body(i0)][i2 := Body(i0)];
            && QueueOk(u', offered + [i0], taken, false) && QueueOk(u', finished, handled, true)
            && RequestsOk(u', busy + {x.b}, next, completed) && FreeOk(u', free)
    ensures Available(free) == Available(before) - 3
    ensures RingOk(avail[Index(|offered|) % NUM := i0], offered + [i0], taken, |offered + [i0]|)
    ensures Advance(Index(|offered|)) == Index(|offered + [i0]|)
  {
    OfferReady(u, offered, taken, finished, handled, i0, i1, i2, x);
    RequestsOffered(u, busy, tickets, completed, i0, i1, i2, x);
    OfferCount(before, i0, i1, i2);
    OfferFree(u, before, free, i0, i1, i2, x);
    RingPush(avail, offered, taken, i0);
    RingSlot(|offered|);
    NextIndex(|offered|);
  }

  lemma OfferFree(u: seq<Use>, before: seq<bool>, free: seq<bool>, i0: int, i1: int, i2: int, x: Use)
    requires FreeOk(u, before) && IsDesc(i0) && IsDesc(i1) && IsDesc(i2) && x.Head?
    requires free == before[i0 := false][i1 := false][i2 := false]
    ensures FreeOk(u[i0 := x][i1 := Body(i0)][i2 := Body(i0)], free)
  {
  }

  lemma RequestsOffered(u: seq<Use>, busy: set<BufId>, tickets: int, completed: set<int>, i0: int, i1: int, i2: int,
          x: Use)
    requires RequestsOk(u, busy, tickets, completed) && IsDesc(i0) && IsDesc(i1) && IsDesc(i2) && i0 != i1 && i0 != i2
    requires i1 != i2
    requires u[i0].Free? && u[i1].Free? && u[i2].Free? && x.Head? && x.stage.Offered? && x.ticket == tickets
    requires 0 <= tickets
    requires x.b !in busy && forall i :: IsDesc(i) && u[i].Head? ==> u[i].b != x.b
    ensures RequestsOk(u[i0 := x][i1 := Body(i0)][i2 := Body(i0)], busy + {x.b}, tickets + 1, completed)
  {
    var u' := u[i0 := x][i1 := Body(i0)][i2 := Body(i0)];
    forall i | IsDesc(i)
      ensures RequestOk(u'[i], busy + {x.b}, tickets + 1, completed)
    {
      assert RequestOk(u[i], busy, tickets, completed);
    }
    forall i, j | IsDesc(i) && IsDesc(j) && i != j
      ensures Apart(u'[i], u'[j])
    {
      assert Apart(u[i], u[j]) && RequestOk(u[i], busy, tickets, completed) &&
        RequestOk(u[j], busy, tickets, completed);
    }
  }

  lemma RequestsMoved(u: seq<Use>, busy: set<BufId>, tickets: int, completed: set<int>, h: int, stage: Stage)
    requires RequestsOk(u, busy, tickets, completed) && IsDesc(h) && u[h].Head? && !u[h].stage.Handled?
    requires !stage.Handled?
    ensures RequestsOk(u[h := u[h].(stage := stage)], busy, tickets, completed)
  {
    var u' := u[h := u[h].(stage := stage)];
    forall i | IsDesc(i)
      ensures RequestOk(u'[i], busy, tickets, completed)
    {
      assert RequestOk(u[i], busy, tickets, completed);
    }
    forall i, j | IsDesc(i) && IsDesc(j) && i != j
      ensures Apart(u'[i], u'[j])
    {
      assert Apart(u[i], u[j]);
    }
  }

  lemma RequestsHandled(u: seq<Use>, busy: set<BufId>, tickets: int, completed: set<int>, h: int)
    requires RequestsOk(u, busy, tickets, completed) && IsDesc(h) && u[h].Head? && !u[h].stage.Handled?
    ensures RequestsOk(u[h := u[h].(stage := Handled)], busy - {u[h].b}, tickets, completed + {u[h].ticket})
  {
    var u' := u[h := u[h].(stage := Handled)];
    forall i | IsDesc(i)
      ensures RequestOk(u'[i], busy - {u[h].b}, tickets, completed + {u[h].ticket})
    {
      assert RequestOk(u[i], busy, tickets, completed) && (i != h ==> Apart(u[i], u[h])) &&
        RequestOk(u[h], busy, tickets, completed);
    }
    forall i, j | IsDesc(i) && IsDesc(j) && i != j
      ensures Apart(u'[i], u'[j])
    {
      assert Apart(u[i], u[j]);
    }
    assert RequestOk(u[h], busy, tickets, completed);
  }

  /** All the bookkeeping of freeing a request's chain. */
  lemma FinishBooks(u: seq<Use>, u': seq<Use>, free: seq<bool>, desc: seq<Desc>, ops: seq<Op>, info: seq<Info>,
    busy: set<BufId>, tickets: int,
                    completed: set<int>, offered: seq<int>, taken: int, finished: seq<int>, handled: int, h: int,
                      i1: int, i2: int)
    requires DescsOk(u, desc, ops, info) && FreeOk(u, free) && RequestsOk(u, busy, tickets, completed)
    requires QueueOk(u, offered, taken, false) && QueueOk(u, finished, handled, true)
    requires IsDesc(h) && u[h].Head? && u[h].stage.Handled? && i1 == u[h].i1 && i2 == u[h].i2
    ensures IsDesc(i1) && IsDesc(i2) && h != i1 && h != i2 && i1 != i2 && !free[h] && !free[i1] && !free[i2]
    ensures desc[h].chained && desc[h].next == i1 && desc[i1].chained && desc[i1].next == i2 && !desc[i2].chained
    ensures u' == u[h := Use.Free][i1 := Use.Free][i2 := Use.Free] ==>
              && DescsOk(u', desc[h := NODESC][i1 := NODESC][i2 := NODESC], ops, info[h := info[h].(b := None)])
              && FreeOk(u', free[h := true][i1 := true][i2 := true]) && RequestsOk(u', busy, tickets, completed)
              && QueueOk(u', offered, taken, false) && QueueOk(u', finished, handled, true)
              && forall i :: IsDesc(i) && u'[i].Head? ==> u'[i].b != u[h].b
  {
    DescsFreed(u, desc, ops, info, h);
    assert UseOk(u, desc, ops, info, h);
    if u' != u[h := Use.Free][i1 := Use.Free][i2 := Use.Free] {
      return;
    }
    QueueSame(u, offered, taken, false, h, Use.Free);
    QueueSame(u[h := Use.Free], offered, taken, false, i1, Use.Free);
    QueueSame(u[h := Use.Free][i1 := Use.Free], offered, taken, false, i2, Use.Free);
    QueueSame(u, finished, handled, true, h, Use.Free);
    QueueSame(u[h := Use.Free], finished, handled, true, i1, Use.Free);
    QueueSame(u[h := Use.Free][i1 := Use.Free], finished, handled, true, i2, Use.Free);
    forall i | IsDesc(i)
      ensures RequestOk(u'[i], busy, tickets, completed) && (u'[i].Head? ==> u'[i].b != u[h].b)
    {
      assert RequestOk(u[i], busy, tickets, completed) && (i != h ==> Apart(u[i], u[h]));
    }
    forall i, j | IsDesc(i) && IsDesc(j) && i != j
      ensures Apart(u'[i], u'[j])
    {
      assert Apart(u[i], u[j]);
    }
  }

  lemma OfferCount(before: seq<bool>, i0: int, i1: int, i2: int)
    requires |before| == NUM && IsDesc(i0) && IsDesc(i1) && IsDesc(i2) && i0 != i1 && i0 != i2 && i1 != i2
    requires before[i0] && before[i1] && before[i2]
    ensures Available(before[i0 := false][i1 := false][i2 := false]) == Available(before) - 3
  {
    CountSet(before, i0, false, |before|);
    CountSet(before[i0 := false], i1, false, |before|);
    CountSet(before[i0 := false][i1 := false], i2, false, |before|);
  }

  /** The contents of free descriptors do not matter. */
  lemma DescsSame(u: seq<Use>, desc: seq<Desc>, desc': seq<Desc>, ops: seq<Op>, info: seq<Info>, free: seq<bool>)
    requires DescsOk(u, desc, ops, info) && FreeOk(u, free) && |desc'| == NUM
    requires forall i :: IsDesc(i) && !free[i] ==> desc'[i] == desc[i]
    ensures DescsOk(u, desc', ops, info)
  {
    forall i | IsDesc(i)
      ensures UseOk(u, desc', ops, info, i)
    {
      assert UseOk(u, desc, ops, info, i);
    }
  }

  /** `after` is `before` with the listed descriptors, which were free, taken. */
  ghost predicate Took(before: seq<bool>, after: seq<bool>, idx: seq<int>) {
    && |before| == |after| == NUM
    && (forall j :: 0 <= j < |idx| ==> IsDesc(idx[j]) && before[idx[j]])
    && (forall j, k :: 0 <= j < k < |idx| ==> idx[j] != idx[k])
    && (forall i :: IsDesc(i) ==> after[i] == (before[i] && i !in idx))
  }

  lemma TookMore(before: seq<bool>, mid: seq<bool>, after: seq<bool>, idx: seq<int>, i: int)
    requires Took(before, mid, idx) && IsDesc(i) && mid[i] && after == mid[i := false]
    ensures Took(before, after, idx + [i])
  {
  }

  lemma TookLess(before: seq<bool>, after: seq<bool>, idx: seq<int>)
    requires Took(before, after, idx) && |idx| > 0
    ensures !after[idx[0]] && Took(before, after[idx[0] := true], idx[1..])
  {
    assert idx == [idx[0]] + idx[1..];
  }

  /** The place of ring entry number k, by the wrapping index. */
  lemma RingSlot(k: int)
    requires 0 <= k
    ensures (k % WRAP) % NUM == k % NUM
  {
    var q, r := k / WRAP, k % WRAP;
    assert k == 8 * (q * 8192) + r;
    Low3(q * 8192, r);
  }

  lemma Low3(a: int, r: int)
    ensures (8 * a + r) % 8 == r % 8
  {
  }

  lemma NextIndex(k: int)
    requires 0 <= k
    ensures (k % WRAP + 1) % WRAP == (k + 1) % WRAP
  {
  }

  /** Indices less than a lap apart are equal only if the numbers they stand for are. */
  lemma SameIndex(j: int, k: int)
    requires 0 <= j <= k <= j + NUM
    ensures j % WRAP == k % WRAP <==> j == k
  {
  }
}
