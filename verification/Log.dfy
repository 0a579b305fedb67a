/**
 The write-ahead log of kernel/log.c: a physical redo log whose commit point is the write of
 one header block.

 The disk is a sequence of blocks whose single-block writes are atomic.  A machine that can
 lose power is modelled by a budget: `power` is the number of block writes that will still
 reach the disk, and every write after that is dropped.  Running an operation for every
 budget therefore covers a crash between any two of its writes.
 */
module WriteAheadLog {
  import opened Basics

  const WORDS := 256

  /** A disk block, read as 32-bit words; the header is the only block whose words matter here. */
  type Block = seq<int>
  type Image = seq<Block>

  /** The log area on disk: the header block at `start`, then `size - 1` log blocks. */
  datatype Area = Area(start: nat, size: nat) {
    predicate Has(b: int) { start <= b < start + size }
    predicate Within(d: Image) { 1 <= size && start + size <= |d| && |d[start]| == WORDS }
    predicate Room(n: int) { 0 <= n <= LOGSIZE && n <= size - 1 }
  }

  /** Block numbers a header may name: on the disk and outside the log. */
  ghost predicate Targetable(ts: seq<int>, area: Area, diskSize: nat) {
    && area.Room(|ts|)
    && forall i :: 0 <= i < |ts| ==> 0 <= ts[i] < diskSize && !area.Has(ts[i])
  }

  /** The block numbers named by the header block found on the disk. */
  ghost function Targets(d: Image, area: Area): (ts: seq<int>)
    requires area.Within(d) && 0 <= d[area.start][0] < WORDS
  {
    d[area.start][1..1 + d[area.start][0]]
  }

  ghost predicate WellFormed(d: Image, area: Area) {
    && area.Within(d)
    && area.Room(d[area.start][0])
    && Targetable(Targets(d, area), area, |d|)
  }

  ghost predicate Cleared(d: Image, area: Area) {
    WellFormed(d, area) && Targets(d, area) == []
  }

  /** The file system's view of a disk: everything except the log area. */
  ghost function Home(d: Image, area: Area): (h: Image)
    ensures |h| == |d|
  {
    seq(|d|, b requires 0 <= b < |d| => if area.Has(b) then [] else d[b])
  }

  /** Block `ts[i]` takes the contents `vals[i]`, for the first `k` of them in order. */
  ghost function Placed(h: Image, ts: seq<int>, vals: seq<Block>, k: nat): (r: Image)
    requires k <= |ts| && k <= |vals|
    requires forall i :: 0 <= i < |ts| ==> 0 <= ts[i] < |h|
    ensures |r| == |h|
  {
    if k == 0 then h else Placed(h, ts, vals, k - 1)[ts[k - 1] := vals[k - 1]]
  }

  ghost function LogBlocks(d: Image, area: Area, n: nat): (vals: seq<Block>)
    requires area.Within(d) && n < area.size
    ensures |vals| == n
  {
    d[area.start + 1..area.start + 1 + n]
  }

  /** What the file system will see once recovery has finished. */
  ghost function Recovered(d: Image, area: Area): (h: Image)
    requires WellFormed(d, area)
    ensures |h| == |d|
  {
    var ts := Targets(d, area);
    Placed(Home(d, area), ts, LogBlocks(d, area, |ts|), |ts|)
  }

  // ---------------------------------------------------------------- laws of placing blocks

  lemma HomeUpdate(d: Image, area: Area, b: int, v: Block)
    requires 0 <= b < |d|
    ensures Home(d[b := v], area) == if area.Has(b) then Home(d, area) else Home(d, area)[b := v]
  {
    if area.Has(b) {
      assert Home(d[b := v], area) == Home(d, area);
    } else {
      assert Home(d[b := v], area) == Home(d, area)[b := v];
    }
  }

  /** Placing blocks outside the log commutes with looking past the log, and spares the log. */
  lemma {:induction false} HomePlaced(d: Image, area: Area, ts: seq<int>, vals: seq<Block>, k: nat)
    requires Targetable(ts, area, |d|) && k <= |ts| && k <= |vals|
    ensures Home(Placed(d, ts, vals, k), area) == Placed(Home(d, area), ts, vals, k)
    ensures forall b :: 0 <= b < |d| && area.Has(b) ==> Placed(d, ts, vals, k)[b] == d[b]
  {
    if k > 0 {
      HomePlaced(d, area, ts, vals, k - 1);
      HomeUpdate(Placed(d, ts, vals, k - 1), area, ts[k - 1], vals[k - 1]);
    }
  }

  lemma LogSpared(d: Image, area: Area, ts: seq<int>, vals: seq<Block>, k: nat, b: int)
    requires Targetable(ts, area, |d|) && k <= |ts| && k <= |vals|
    requires 0 <= b < |d| && area.Has(b)
    ensures Placed(d, ts, vals, k)[b] == d[b]
  {
    HomePlaced(d, area, ts, vals, k);
  }

  /** A block that is overwritten at the end may hold anything before. */
  lemma {:induction false} PlacedThen(h: Image, ts: seq<int>, vals: seq<Block>, k: nat, b: int, x: Block, v: Block)
    requires k <= |ts| && k <= |vals| && 0 <= b < |h|
    requires forall i :: 0 <= i < |ts| ==> 0 <= ts[i] < |h|
    ensures Placed(h[b := x], ts, vals, k)[b := v] == Placed(h, ts, vals, k)[b := v]
  {
    if k > 0 {
      PlacedThen(h, ts, vals, k - 1, b, x, v);
      var p, p' := Placed(h, ts, vals, k - 1), Placed(h[b := x], ts, vals, k - 1);
      var t, w := ts[k - 1], vals[k - 1];
      assert p[t := w][b := v] == if t == b then p[b := v] else p[b := v][t := w];
      assert p'[t := w][b := v] == if t == b then p'[b := v] else p'[b := v][t := w];
    }
  }

  /** The starting contents of a placed block are irrelevant. */
  lemma {:induction false} PlacedOver(h: Image, ts: seq<int>, vals: seq<Block>, n: nat, j: nat, x: Block)
    requires j < n <= |ts| && n <= |vals|
    requires forall i :: 0 <= i < |ts| ==> 0 <= ts[i] < |h|
    ensures Placed(h[ts[j] := x], ts, vals, n) == Placed(h, ts, vals, n)
  {
    if j == n - 1 {
      PlacedThen(h, ts, vals, n - 1, ts[j], x, vals[j]);
    } else {
      PlacedOver(h, ts, vals, n - 1, j, x);
    }
  }

  /** Placing a prefix first and then everything is the same as placing everything. */
  lemma {:induction false} PlacedTwice(h: Image, ts: seq<int>, vals: seq<Block>, k: nat, n: nat)
    requires k <= n <= |ts| && n <= |vals|
    requires forall i :: 0 <= i < |ts| ==> 0 <= ts[i] < |h|
    ensures Placed(Placed(h, ts, vals, k), ts, vals, n) == Placed(h, ts, vals, n)
  {
    if k > 0 {
      PlacedTwice(h, ts, vals, k - 1, n);
      PlacedOver(Placed(h, ts, vals, k - 1), ts, vals, n, k - 1, vals[k - 1]);
    }
  }

  // ---------------------------------------------------------------- the phases of a commit

  /** The disk after the first `k` of `vals` were copied into the log blocks. */
  ghost function Filled(d: Image, area: Area, vals: seq<Block>, k: nat): (r: Image)
    requires area.Within(d) && k <= |vals| < area.size
    ensures |r| == |d|
  {
    if k == 0 then d else Filled(d, area, vals, k - 1)[area.start + k := vals[k - 1]]
  }

  lemma {:induction false} FilledAt(d: Image, area: Area, vals: seq<Block>, k: nat)
    requires area.Within(d) && k <= |vals| < area.size
    ensures var r := Filled(d, area, vals, k);
            && r[area.start] == d[area.start]
            && Home(r, area) == Home(d, area)
            && LogBlocks(r, area, k) == vals[..k]
  {
    hide Home;
    if k > 0 {
      FilledAt(d, area, vals, k - 1);
      var r := Filled(d, area, vals, k - 1);
      HomeUpdate(r, area, area.start + k, vals[k - 1]);
      assert LogBlocks(r[area.start + k := vals[k - 1]], area, k) == LogBlocks(r, area, k - 1) + [vals[k - 1]];
    }
  }

  /** The header block that write_head builds over the old one: entries past `ts` stay stale. */
  ghost function HeadBlock(before: Block, ts: seq<int>): (head: Block)
    requires |ts| <= LOGSIZE && |before| == WORDS
    ensures |head| == WORDS
  {
    [|ts|] + ts + before[1 + |ts|..]
  }

  lemma HeadFormatted(head: Block, before: Block, ts: seq<int>)
    requires |ts| <= LOGSIZE && |before| == |head| == WORDS && head[0] == |ts|
    requires forall j :: 0 <= j < |ts| ==> head[j + 1] == ts[j]
    requires forall j :: |ts| < j < WORDS ==> head[j] == before[j]
    ensures head == HeadBlock(before, ts)
  {
    forall j | 0 <= j < WORDS
      ensures head[j] == HeadBlock(before, ts)[j]
    {
      assert 0 < j <= |ts| ==> head[j - 1 + 1] == ts[j - 1];
    }
  }

  /** Until the header is written, filling the log blocks is invisible. */
  lemma FillingInvisible(d: Image, area: Area, vals: seq<Block>, k: nat)
    requires Cleared(d, area) && k <= |vals| < area.size
    ensures Cleared(Filled(d, area, vals, k), area)
    ensures Home(Filled(d, area, vals, k), area) == Home(d, area)
  {
    FilledAt(d, area, vals, k);
  }

  /** The header write is the commit point: from then on recovery yields the whole transaction. */
  lemma HeaderCommits(d: Image, area: Area, ts: seq<int>)
    requires area.Within(d) && Targetable(ts, area, |d|)
    ensures var d' := d[area.start := HeadBlock(d[area.start], ts)];
            && WellFormed(d', area)
            && Targets(d', area) == ts
            && Home(d', area) == Home(d, area)
            && Recovered(d', area) == Placed(Home(d, area), ts, LogBlocks(d, area, |ts|), |ts|)
  {
    var d' := d[area.start := HeadBlock(d[area.start], ts)];
    assert Targets(d', area) == ts;
    HomeUpdate(d, area, area.start, HeadBlock(d[area.start], ts));
    assert LogBlocks(d', area, |ts|) == LogBlocks(d, area, |ts|);
  }

  /** Installing any number of the logged blocks leaves the outcome of recovery as it was. */
  lemma InstallingKeeps(d: Image, area: Area, k: nat)
    requires WellFormed(d, area) && k <= |Targets(d, area)|
    ensures var ts := Targets(d, area);
            var d' := Placed(d, ts, LogBlocks(d, area, |ts|), k);
            && WellFormed(d', area)
            && Targets(d', area) == ts
            && Recovered(d', area) == Recovered(d, area)
            && Home(d', area) == Placed(Home(d, area), ts, LogBlocks(d, area, |ts|), k)
  {
    var ts := Targets(d, area);
    var vals := LogBlocks(d, area, |ts|);
    var d' := Placed(d, ts, vals, k);
    HomePlaced(d, area, ts, vals, k);
    assert LogBlocks(d', area, |ts|) == vals;
    PlacedTwice(Home(d, area), ts, vals, k, |ts|);
  }

  // ---------------------------------------------------------------- a whole commit, a whole recovery

  function Min(a: nat, b: nat): (m: nat) { if a <= b then a else b }

  /** The budget left after `writes` block writes were attempted. */
  function Spent(power: nat, writes: nat): (left: nat) { if writes <= power then power - writes else 0 }

  /** The disk after install_trans() and the erasing write_head() ran on power for `p` writes. */
  ghost function Redone(d: Image, area: Area, ts: seq<int>, p: nat): (r: Image)
    requires area.Within(d) && Targetable(ts, area, |d|)
    ensures |r| == |d|
  {
    var d1 := Placed(d, ts, LogBlocks(d, area, |ts|), Min(p, |ts|));
    if p <= |ts| then d1 else d1[area.start := HeadBlock(d[area.start], [])]
  }

  /** The disk after commit() ran on power for `p` writes. */
  ghost function Committed(d: Image, area: Area, ts: seq<int>, vals: seq<Block>, p: nat): (r: Image)
    requires area.Within(d) && Targetable(ts, area, |d|) && |vals| == |ts|
    ensures |r| == |d|
  {
    var d1 := Filled(d, area, vals, Min(p, |ts|));
    if p <= |ts| then d1 else Redone(d1[area.start := HeadBlock(d[area.start], ts)], area, ts, p - |ts| - 1)
  }

  /** Recovery may be cut short and repeated; run to its end it empties the log. */
  lemma RecoveryIdempotent(d: Image, area: Area, p: nat)
    requires WellFormed(d, area)
    ensures var ts := Targets(d, area);
            var r := Redone(d, area, ts, p);
            && WellFormed(r, area)
            && Targets(r, area) == (if |ts| < p then [] else ts)
            && Recovered(r, area) == Recovered(d, area)
            && (|ts| < p ==> Home(r, area) == Recovered(d, area))
  {
    var ts := Targets(d, area);
    var d1 := Placed(d, ts, LogBlocks(d, area, |ts|), Min(p, |ts|));
    InstallingKeeps(d, area, Min(p, |ts|));
    if |ts| < p {
      HomePlaced(d, area, ts, LogBlocks(d, area, |ts|), |ts|);
      assert d1[area.start] == d[area.start];
      HeaderCommits(d1, area, []);
    }
  }

  /** The disk once commit has written the header, seen by recovery. */
  lemma HeaderWritten(d: Image, area: Area, ts: seq<int>, vals: seq<Block>, d1: Image, d2: Image)
    requires Cleared(d, area) && Targetable(ts, area, |d|) && |vals| == |ts|
    requires d1 == Filled(d, area, vals, |ts|) && d2 == d1[area.start := HeadBlock(d[area.start], ts)]
    ensures WellFormed(d2, area) && Targets(d2, area) == ts
    ensures Recovered(d2, area) == Placed(Home(d, area), ts, vals, |ts|)
  {
    hide Filled, Placed, Home, Recovered, Targets, HeadBlock, Targetable;
    assert area.Room(|ts|) by { RoomFor(ts, area, |d|); }
    FilledAt(d, area, vals, |ts|);
    assert vals[..|ts|] == vals;
    HeaderCommits(d1, area, ts);
  }

  lemma RoomFor(ts: seq<int>, area: Area, diskSize: nat)
    requires Targetable(ts, area, diskSize)
    ensures area.Room(|ts|)
  {
  }

  lemma ClearedHome(d: Image, area: Area)
    requires Cleared(d, area)
    ensures Recovered(d, area) == Home(d, area)
  {
  }

  /** Without power for the header write, nothing has happened. */
  lemma CommitLost(d: Image, area: Area, ts: seq<int>, vals: seq<Block>, p: nat)
    requires Cleared(d, area) && Targetable(ts, area, |d|) && |vals| == |ts| && p <= |ts|
    ensures var r := Committed(d, area, ts, vals, p);
            Cleared(r, area) && Recovered(r, area) == Recovered(d, area)
  {
    hide Filled, Home, Recovered, Redone, Cleared;
    ClearedWithin(d, area);
    var r := Committed(d, area, ts, vals, p);
    assert r == Filled(d, area, vals, p);
    FillingInvisible(d, area, vals, p);
    ClearedHome(d, area);
    ClearedHome(r, area);
  }

  lemma ClearedWithin(d: Image, area: Area)
    requires Cleared(d, area)
    ensures area.Within(d)
  {
  }

  /** With it, the whole transaction has. */
  lemma CommitKept(d: Image, area: Area, ts: seq<int>, vals: seq<Block>, p: nat)
    requires Cleared(d, area) && Targetable(ts, area, |d|) && |vals| == |ts| < p
    ensures var r := Committed(d, area, ts, vals, p);
            && WellFormed(r, area)
            && Targets(r, area) == (if p < 2 * |ts| + 2 then ts else [])
            && Recovered(r, area) == Placed(Home(d, area), ts, vals, |ts|)
  {
    hide Filled, Placed, Home, Recovered, Redone, Targets, HeadBlock, Targetable;
    assert area.Room(|ts|) by { RoomFor(ts, area, |d|); }
    var d1 := Filled(d, area, vals, |ts|);
    var d2 := d1[area.start := HeadBlock(d[area.start], ts)];
    HeaderWritten(d, area, ts, vals, d1, d2);
    RecoveryIdempotent(d2, area, p - |ts| - 1);
    assert Committed(d, area, ts, vals, p) == Redone(d2, area, ts, p - |ts| - 1);
  }

  /**
   Commit is atomic under every crash: with power for at most n writes recovery yields the old
   contents, with more it yields the whole transaction, and nothing in between.
   */
  lemma CommitAtomic(d: Image, area: Area, ts: seq<int>, vals: seq<Block>, p: nat)
    requires Cleared(d, area) && Targetable(ts, area, |d|) && |vals| == |ts|
    ensures var r := Committed(d, area, ts, vals, p);
            && WellFormed(r, area)
            && Targets(r, area) == (if |ts| < p < 2 * |ts| + 2 then ts else [])
            && Recovered(r, area) == Placed(Recovered(d, area), ts, vals, if |ts| < p then |ts| else 0)
  {
    hide Filled, Home, Recovered, Redone, Committed, Targets, Targetable;
    ClearedHome(d, area);
    if |ts| < p {
      CommitKept(d, area, ts, vals, p);
    } else {
      CommitLost(d, area, ts, vals, p);
    }
  }

  lemma CommitWellFormed(d: Image, area: Area, ts: seq<int>, vals: seq<Block>, p: nat)
    requires WellFormed(d, area) && (p > 0 ==> Cleared(d, area)) && Targetable(ts, area, |d|) && |vals| == |ts|
    ensures WellFormed(Committed(d, area, ts, vals, p), area)
    ensures p >= 2 * |ts| + 2 ==> Cleared(Committed(d, area, ts, vals, p), area)
  {
    if p > 0 {
      CommitAtomic(d, area, ts, vals, p);
    }
  }

  // ---------------------------------------------------------------- the disk and the log

  class Disk {
    var blocks: Image
    var power: nat

    constructor (image: Image, power: nat)
      ensures blocks == image && this.power == power
    {
      blocks, this.power := image, power;
    }

    /** One atomic block write; dropped once the power is gone. */
    method Write(b: int, data: Block) returns (ok: bool)
      requires 0 <= b < |blocks|
      modifies this
      ensures ok == (old(power) > 0)
      ensures power == Spent(old(power), 1)
      ensures ok ==> blocks == old(blocks)[b := data]
      ensures !ok ==> blocks == old(blocks)
    {
      ok := power > 0;
      if ok {
        blocks, power := blocks[b := data], power - 1;
      }
    }
  }

  /** The first `k` logged blocks as a map from block number to contents. */
  ghost function Zip(ts: seq<int>, vals: seq<Block>, k: nat): (m: map<int, Block>)
    requires k <= |ts| && k <= |vals|
    ensures |m| <= k
  {
    if k == 0 then map[] else Zip(ts, vals, k - 1)[ts[k - 1] := vals[k - 1]]
  }

  lemma {:induction false} ZipPrefix(ts: seq<int>, ts': seq<int>, vals: seq<Block>, vals': seq<Block>, k: nat)
    requires k <= |ts| && k <= |vals| && k <= |ts'| && k <= |vals'|
    requires ts[..k] == ts'[..k] && vals[..k] == vals'[..k]
    ensures Zip(ts, vals, k) == Zip(ts', vals', k)
  {
    if k > 0 {
      assert ts[..k - 1] == ts[..k][..k - 1] && vals[..k - 1] == vals[..k][..k - 1];
      assert ts'[..k - 1] == ts'[..k][..k - 1] && vals'[..k - 1] == vals'[..k][..k - 1];
      assert ts[k - 1] == ts[..k][k - 1] && vals[k - 1] == vals[..k][k - 1];
      ZipPrefix(ts, ts', vals, vals', k - 1);
    }
  }

  lemma {:induction false} ZipKeys(ts: seq<int>, vals: seq<Block>, k: nat, b: int)
    requires k <= |ts| && k <= |vals|
    ensures b in Zip(ts, vals, k) <==> b in ts[..k]
  {
    if k > 0 {
      ZipKeys(ts, vals, k - 1, b);
      assert ts[..k] == ts[..k - 1] + [ts[k - 1]];
    }
  }

  lemma ZipAppend(ts: seq<int>, vals: seq<Block>, b: int, data: Block)
    requires |ts| == |vals| == |Zip(ts, vals, |ts|)| && b !in ts
    ensures b !in Zip(ts, vals, |ts|)
    ensures Zip(ts + [b], vals + [data], |ts| + 1) == Zip(ts, vals, |ts|)[b := data]
    ensures |Zip(ts + [b], vals + [data], |ts| + 1)| == |ts| + 1
  {
    assert ts[..|ts|] == ts;
    ZipKeys(ts, vals, |ts|, b);
    ZipPrefix(ts, ts + [b], vals, vals + [data], |ts|);
  }

  lemma UpdateOther(m: map<int, Block>, a: int, x: Block, b: int, y: Block)
    requires a != b
    ensures m[a := x][b := y] == m[b := y][a := x]
  {
  }

  lemma UpdateCard(m: map<int, Block>, a: int, x: Block)
    ensures |m[a := x]| == if a in m then |m| else |m| + 1
  {
    if a in m {
      assert m[a := x].Keys == m.Keys;
    } else {
      assert m[a := x].Keys == m.Keys + {a};
    }
  }

  /** When no block is logged twice, changing a logged buffer changes exactly its own update. */
  lemma {:induction false} ZipAbsorb(ts: seq<int>, vals: seq<Block>, k: nat, i: nat, data: Block)
    requires i < k <= |ts| && k <= |vals| && |Zip(ts, vals, k)| == k
    ensures Zip(ts, vals[i := data], k) == Zip(ts, vals, k)[ts[i] := data]
    ensures ts[i] in Zip(ts, vals, k) && |Zip(ts, vals[i := data], k)| == k
  {
    var m, t, v := Zip(ts, vals, k - 1), ts[k - 1], vals[k - 1];
    UpdateCard(m, t, v);
    if i == k - 1 {
      ZipPrefix(ts, ts, vals, vals[i := data], k - 1);
      assert m[t := v][t := data] == m[t := data];
    } else {
      ZipAbsorb(ts, vals, k - 1, i, data);
      UpdateOther(m, ts[i], data, t, v);
    }
    UpdateCard(Zip(ts, vals, k), ts[i], data);
  }

  /** When no block is logged twice, each buffer is the update of its own block. */
  lemma {:induction false} ZipAt(ts: seq<int>, vals: seq<Block>, k: nat, i: nat)
    requires i < k <= |ts| && k <= |vals| && |Zip(ts, vals, k)| == k
    ensures ts[i] in Zip(ts, vals, k) && Zip(ts, vals, k)[ts[i]] == vals[i]
  {
    UpdateCard(Zip(ts, vals, k - 1), ts[k - 1], vals[k - 1]);
    if i < k - 1 {
      ZipAt(ts, vals, k - 1, i);
    }
  }

  lemma {:induction false} ZipDistinct(ts: seq<int>, vals: seq<Block>, k: nat, i: nat, j: nat)
    requires i < j < k <= |ts| && k <= |vals| && |Zip(ts, vals, k)| == k
    ensures ts[i] != ts[j]
  {
    UpdateCard(Zip(ts, vals, k - 1), ts[k - 1], vals[k - 1]);
    if j == k - 1 {
      ZipKeys(ts, vals, k - 1, ts[j]);
      assert ts[i] in ts[..k - 1];
    } else {
      ZipDistinct(ts, vals, k - 1, i, j);
    }
  }

  class Log {
    const disk: Disk
    const area: Area
    var block: seq<int>          // lh.block, LOGSIZE entries
    var n: int                   // lh.n
    var outstanding: int
    var committing: bool
    var pinned: seq<Block>       // the modified buffer that bread(block[i]) finds, for each i < n

    /** The in-memory header names each pinned buffer exactly once. */
    ghost predicate Valid()
      reads this, disk
    {
      && |block| == LOGSIZE
      && area.Room(n) && |pinned| == n
      && WellFormed(disk.blocks, area)
      && Targetable(block[..n], area, |disk.blocks|)
      && |Contents()| == n
      && (committing ==> outstanding == 0)
    }

    /** The uncommitted updates. */
    ghost function Contents(): (m: map<int, Block>)
      requires 0 <= n <= |block| && |pinned| == n
      reads this
    {
      Zip(block[..n], pinned, n)
    }

    /** Between commits a machine that still has power has an empty header on disk. */
    ghost predicate Quiet()
      reads this, disk
    {
      disk.power > 0 ==> Cleared(disk.blocks, area)
    }

    /** initlog: attach to the disk and recover. */
    constructor (disk: Disk, area: Area)
      requires WellFormed(disk.blocks, area)
      modifies disk
      ensures Valid() && Quiet() && this.disk == disk && this.area == area
      ensures n == 0 && outstanding == 0 && !committing
      ensures disk.power == Spent(old(disk.power), |old(Targets(disk.blocks, area))| + 1)
      ensures disk.blocks == Redone(old(disk.blocks), area, old(Targets(disk.blocks, area)), old(disk.power))
    {
      this.disk, this.area := disk, area;
      block := seq(LOGSIZE, _ => 0);
      n, outstanding, committing, pinned := 0, 0, false, [];
      new;
      RecoverFromLog();
    }

    method ReadHead()
      requires Valid()
      modifies this`n, this`block
      ensures |block| == LOGSIZE && area.Room(n) && block[..n] == Targets(disk.blocks, area)
    {
      var head := disk.blocks[area.start];
      n := head[0];
      var i := 0;
      while i < n
        invariant 0 <= i <= n == head[0] <= LOGSIZE
        invariant |block| == LOGSIZE && block[..i] == head[1..1 + i]
      {
        block := block[i := head[1 + i]];
        assert block[..i + 1] == block[..i] + [head[1 + i]];
        i := i + 1;
      }
    }

    /** Returns whether the block reached the disk. */
    method WriteHead() returns (ok: bool)
      requires |block| == LOGSIZE && area.Room(n) && area.Within(disk.blocks)
      modifies disk
      ensures ok == (old(disk.power) > 0)
      ensures disk.power == Spent(old(disk.power), 1)
      ensures ok ==> disk.blocks == old(disk.blocks)[area.start := HeadBlock(old(disk.blocks)[area.start], block[..n])]
      ensures !ok ==> disk.blocks == old(disk.blocks)
    {
      var head := FormatHead(disk.blocks[area.start]);
      ok := disk.Write(area.start, head);
    }

    /** The header block with the log's block numbers in it. */
    method FormatHead(before: Block) returns (head: Block)
      requires 0 <= n <= |block| == LOGSIZE && |before| == WORDS
      ensures head == HeadBlock(before, block[..n])
    {
      head := before[0 := n];
      var i := 0;
      while i < n
        invariant 0 <= i <= n && |head| == WORDS && head[0] == n
        invariant forall j :: 0 <= j < i ==> head[j + 1] == block[j]
        invariant forall j :: i < j < WORDS ==> head[j] == before[j]
      {
        head := head[i + 1 := block[i]];
        i := i + 1;
      }
      HeadFormatted(head, before, block[..n]);
    }

    /** Copy the pinned buffers into the log, as far as the power lasts. */
    method WriteLog()
      requires Valid()
      modifies disk
      ensures disk.power == Spent(old(disk.power), n)
      ensures disk.blocks == Filled(old(disk.blocks), area, pinned, Min(old(disk.power), n))
      ensures disk.blocks[area.start] == old(disk.blocks)[area.start]
    {
      var tail := 0;
      ghost var vals := pinned;
      while tail < n
        invariant 0 <= tail <= n
        invariant disk.power == Spent(old(disk.power), tail)
        invariant disk.blocks == Filled(old(disk.blocks), area, vals, Min(old(disk.power), tail))
      {
        var _ := disk.Write(area.start + tail + 1, pinned[tail]);
        tail := tail + 1;
      }
      FilledAt(old(disk.blocks), area, pinned, Min(old(disk.power), n));
    }

    /** Copy the logged blocks home, as far as the power lasts; outside recovery, unpin them. */
    method InstallTrans(recovering: bool)
      requires |block| == LOGSIZE && area.Room(n) && area.Within(disk.blocks)
      requires Targetable(block[..n], area, |disk.blocks|)
      requires |pinned| == if recovering then 0 else n
      modifies this`pinned, disk
      ensures pinned == []
      ensures disk.power == Spent(old(disk.power), n)
      ensures disk.blocks == Placed(old(disk.blocks), block[..n], old(LogBlocks(disk.blocks, area, n)),
        Min(old(disk.power), n))
      ensures disk.blocks[area.start] == old(disk.blocks)[area.start]
    {
      var tail := 0;
      ghost var ts, vals := block[..n], LogBlocks(disk.blocks, area, n);
      while tail < n
        invariant 0 <= tail <= n
        invariant |pinned| == if recovering then 0 else n - tail
        invariant disk.power == Spent(old(disk.power), tail)
        invariant disk.blocks == Placed(old(disk.blocks), ts, vals, Min(old(disk.power), tail))
      {
        assert block[tail] == ts[tail];
        LogSpared(old(disk.blocks), area, ts, vals, Min(old(disk.power), tail), area.start + tail + 1);
        var lbuf := disk.blocks[area.start + tail + 1];
        var _ := disk.Write(block[tail], lbuf);
        if !recovering {
          pinned := pinned[1..];
        }
        tail := tail + 1;
      }
      LogSpared(old(disk.blocks), area, ts, vals, Min(old(disk.power), n), area.start);
    }

    /** What commit and recovery have in common: install, forget, erase the header. */
    method InstallAndErase(recovering: bool)
      requires |block| == LOGSIZE && area.Room(n) && area.Within(disk.blocks)
      requires Targetable(block[..n], area, |disk.blocks|)
      requires |pinned| == if recovering then 0 else n
      modifies this`n, this`pinned, disk
      ensures n == 0 && pinned == [] && |Contents()| == 0
      ensures disk.power == Spent(old(disk.power), old(n) + 1)
      ensures disk.blocks == Redone(old(disk.blocks), area, old(block[..n]), old(disk.power))
    {
      InstallTrans(recovering);
      n := 0;
      var _ := WriteHead();
      assert block[..0] == [];
    }

    /** Returns whether the header write, the commit point, reached the disk. */
    method Commit() returns (committed: bool)
      requires Valid() && Quiet() && committing
      modifies this`n, this`pinned, disk
      ensures Valid() && Quiet() && n == 0
      ensures committed == (old(n) > 0 && old(disk.power) > old(n))
      ensures disk.power == if old(n) == 0 then old(disk.power) else Spent(old(disk.power), 2 * old(n) + 2)
      ensures old(n) == 0 ==> disk.blocks == old(disk.blocks)
      ensures old(n) > 0 ==>
        disk.blocks == Committed(old(disk.blocks), area, old(block[..n]), old(pinned), old(disk.power))
    {
      committed := false;
      if n > 0 {
        ghost var d, ts, vals, p := disk.blocks, block[..n], pinned, disk.power;
        WriteLog();
        committed := WriteHead();
        ghost var logged := disk.blocks;
        InstallAndErase(false);
        assert !committed ==> disk.blocks == logged;
        CommitWellFormed(d, area, ts, vals, p);
      }
    }

    /** recover_from_log: finish what a committed but uninstalled transaction left. */
    method RecoverFromLog()
      requires Valid() && n == 0
      modifies this`n, this`pinned, this`block, disk
      ensures Valid() && Quiet() && n == 0
      ensures disk.power == Spent(old(disk.power), |old(Targets(disk.blocks, area))| + 1)
      ensures disk.blocks == Redone(old(disk.blocks), area, old(Targets(disk.blocks, area)), old(disk.power))
    {
      assert block[..0] == [];
      ReadHead();
      InstallAndErase(true);
      RecoveryIdempotent(old(disk.blocks), area, old(disk.power));
    }

    /** Returns false where the source would sleep. */
    method BeginOp() returns (admitted: bool)
      requires Valid()
      modifies this`outstanding
      ensures Valid()
      ensures admitted == (!committing && n + (old(outstanding) + 1) * MAXOPBLOCKS <= LOGSIZE)
      ensures outstanding == if admitted then old(outstanding) + 1 else old(outstanding)
    {
      if committing {
        return false;
      } else if n + (outstanding + 1) * MAXOPBLOCKS > LOGSIZE {
        return false;
      }
      outstanding := outstanding + 1;
      return true;
    }

    /** A modified buffer joins the transaction; a block already in it is absorbed. */
    method LogWrite(b: int, data: Block)
      requires Valid() && 0 <= b < |disk.blocks| && !area.Has(b)
      requires n < LOGSIZE && n < area.size - 1
      requires outstanding >= 1
      modifies this`n, this`pinned, this`block
      ensures Valid()
      ensures Contents() == old(Contents())[b := data]
      ensures n == if b in old(Contents()) then old(n) else old(n) + 1
    {
      hide WellFormed, Zip;
      ghost var ts := block[..n];
      var i := 0;
      while i < n && block[i] != b
        invariant 0 <= i <= n
        invariant b !in ts[..i]
      {
        i := i + 1;
      }
      block := block[i := b];
      ZipKeys(ts, pinned, n, b);
      assert ts[..n] == ts;
      if i == n {
        ZipAppend(ts, pinned, b, data);
        assert block[..n + 1] == ts + [b];
        pinned := pinned + [data];
        n := n + 1;
      } else {
        ZipAbsorb(ts, pinned, n, i, data);
        assert block[..n] == ts;
        pinned := pinned[i := data];
      }
    }

    /** The last operation to leave commits for everybody. */
    method EndOp() returns (committed: bool)
      requires Valid() && Quiet() && outstanding >= 1
      modifies this, disk
      ensures Valid() && Quiet() && !committing
      ensures outstanding == old(outstanding) - 1
      ensures if outstanding > 0 then n == old(n) && Contents() == old(Contents()) else n == 0
      ensures committed == (outstanding == 0 && old(n) > 0 && old(disk.power) > old(n))
      ensures disk.power == if outstanding > 0 ||
        old(n) == 0 then old(disk.power) else Spent(old(disk.power), 2 * old(n) + 2)
      ensures outstanding > 0 || old(n) == 0 ==> disk.blocks == old(disk.blocks)
      ensures outstanding == 0 && old(n) > 0 ==>
                disk.blocks == Committed(old(disk.blocks), area, old(block[..n]), old(pinned), old(disk.power))
    {
      committed := false;
      outstanding := outstanding - 1;
      if outstanding == 0 {
        committing := true;
        committed := Commit();
        committing := false;
      }
    }
  }

  // ---------------------------------------------------------------- whole lives of a machine

  datatype Change = Change(b: int, data: Block)

  /** The block updates of the system calls that share one commit, in the order of their log_writes. */
  type Txn = seq<Change>

  /** One life: power for some number of block writes, and the transactions attempted. */
  datatype Boot = Boot(power: nat, txns: seq<Txn>)

  ghost predicate OnDisk(txn: Txn, diskSize: nat) {
    forall i :: 0 <= i < |txn| ==> 0 <= txn[i].b < diskSize
  }

  ghost predicate OnDiskAll(txns: seq<Txn>, diskSize: nat) {
    forall i :: 0 <= i < |txns| ==> OnDisk(txns[i], diskSize)
  }

  /** The reference: every update happens, one after the other. */
  ghost function Applied(h: Image, txn: Txn): (r: Image)
    requires OnDisk(txn, |h|)
    ensures |r| == |h|
  {
    if txn == [] then h else
      var last := |txn| - 1;
      Applied(h, txn[..last])[txn[last].b := txn[last].data]
  }

  ghost function Pending(txn: Txn): (m: map<int, Block>) {
    if txn == [] then map[] else
      var last := |txn| - 1;
      Pending(txn[..last])[txn[last].b := txn[last].data]
  }

  /** Every update targets a home block, and every log_write finds room. */
  ghost predicate Loggable(txn: Txn, area: Area, diskSize: nat) {
    && OnDisk(txn, diskSize)
    && (forall i :: 0 <= i < |txn| ==> !area.Has(txn[i].b))
    && (forall i :: 0 <= i < |txn| ==> area.Room(|Pending(txn[..i])| + 1))
  }

  /** Block by block, the logged contents placed home are the pending updates. */
  lemma {:induction false} PlacedAt(h: Image, ts: seq<int>, vals: seq<Block>, k: nat, b: int)
    requires k <= |ts| && k <= |vals| && 0 <= b < |h|
    requires forall i :: 0 <= i < |ts| ==> 0 <= ts[i] < |h|
    ensures Placed(h, ts, vals, k)[b] == var m := Zip(ts, vals, k); if b in m then m[b] else h[b]
  {
    if k > 0 {
      PlacedAt(h, ts, vals, k - 1, b);
    }
  }

  lemma {:induction false} AppliedAt(h: Image, txn: Txn, b: int)
    requires 0 <= b < |h| && OnDisk(txn, |h|)
    ensures Applied(h, txn)[b] == if b in Pending(txn) then Pending(txn)[b] else h[b]
  {
    if txn != [] {
      AppliedAt(h, txn[..|txn| - 1], b);
    }
  }

  /** Absorption loses nothing: logging each block once has the effect of all the updates in order. */
  lemma LoggedIsApplied(h: Image, ts: seq<int>, vals: seq<Block>, txn: Txn)
    requires OnDisk(txn, |h|)
    requires forall i :: 0 <= i < |ts| ==> 0 <= ts[i] < |h|
    requires |vals| == |ts| && Zip(ts, vals, |ts|) == Pending(txn)
    ensures Placed(h, ts, vals, |ts|) == Applied(h, txn)
  {
    forall b | 0 <= b < |h|
      ensures Placed(h, ts, vals, |ts|)[b] == Applied(h, txn)[b]
    {
      PlacedAt(h, ts, vals, |ts|, b);
      AppliedAt(h, txn, b);
    }
  }

  /** The contents recovery would yield, the blocks still named by the header, and the power left. */
  datatype Outcome = Outcome(home: Image, inLog: nat, power: nat)

  /** A transaction of n blocks commits with its (n+1)-st write and is off the log after 2n+2. */
  ghost function AfterTxn(o: Outcome, txn: Txn): (r: Outcome)
    requires OnDisk(txn, |o.home|)
    ensures |r.home| == |o.home|
  {
    var n := |Pending(txn)|;
    if o.power == 0 || n == 0 then o
    else Outcome(if n < o.power then Applied(o.home, txn) else o.home,
                 if n < o.power < 2 * n + 2 then n else 0,
                 Spent(o.power, 2 * n + 2))
  }

  ghost function AfterTxns(o: Outcome, txns: seq<Txn>): (r: Outcome)
    requires OnDiskAll(txns, |o.home|)
    ensures |r.home| == |o.home|
  {
    if txns == [] then o else
      var last := |txns| - 1;
      AfterTxn(AfterTxns(o, txns[..last]), txns[last])
  }

  /** Recovery takes one write for each logged block and one to erase the header. */
  ghost function AfterRecovery(o: Outcome): (r: Outcome) {
    Outcome(o.home, if o.inLog < o.power then 0 else o.inLog, Spent(o.power, o.inLog + 1))
  }

  ghost predicate On(o: Outcome, d: Image, power: nat, area: Area) {
    && WellFormed(d, area)
    && o == Outcome(Recovered(d, area), |Targets(d, area)|, power)
  }

  lemma CommitOutcome(o: Outcome, d: Image, area: Area, ts: seq<int>, vals: seq<Block>, txn: Txn)
    requires Cleared(d, area) && On(o, d, o.power, area) && o.power > 0
    requires Targetable(ts, area, |d|) && |vals| == |ts| == |Pending(txn)| > 0 && Zip(ts, vals, |ts|) == Pending(txn)
    requires OnDisk(txn, |d|)
    ensures On(AfterTxn(o, txn), Committed(d, area, ts, vals, o.power), Spent(o.power, 2 * |ts| + 2), area)
  {
    CommitAtomic(d, area, ts, vals, o.power);
    LoggedIsApplied(o.home, ts, vals, txn);
  }

  /** The log_writes of one transaction. */
  method LogAll(log: Log, txn: Txn)
    requires log.Valid() && log.n == 0 && log.outstanding >= 1
    requires Loggable(txn, log.area, |log.disk.blocks|)
    modifies log`n, log`block, log`pinned
    ensures log.Valid() && log.Contents() == Pending(txn)
  {
    var i := 0;
    while i < |txn|
      invariant 0 <= i <= |txn|
      invariant log.Valid() && log.Contents() == Pending(txn[..i])
    {
      assert txn[..i + 1][..i] == txn[..i];
      log.LogWrite(txn[i].b, txn[i].data);
      i := i + 1;
    }
    assert txn[..i] == txn;
  }

  method RunTxn(log: Log, txn: Txn, ghost o: Outcome)
    requires log.Valid() && log.Quiet() && log.n == 0 && log.outstanding == 0 && !log.committing
    requires Loggable(txn, log.area, |log.disk.blocks|)
    requires On(o, log.disk.blocks, log.disk.power, log.area)
    modifies log, log.disk
    ensures log.Valid() && log.Quiet() && log.n == 0 && log.outstanding == 0 && !log.committing
    ensures On(AfterTxn(o, txn), log.disk.blocks, log.disk.power, log.area)
  {
    var admitted := log.BeginOp();
    LogAll(log, txn);
    ghost var d, ts, vals := log.disk.blocks, log.block[..log.n], log.pinned;
    var committed := log.EndOp();
    if o.power > 0 && |ts| > 0 {
      CommitOutcome(o, d, log.area, ts, vals, txn);
    }
  }

  ghost predicate Legal(txns: seq<Txn>, area: Area, diskSize: nat) {
    forall i :: 0 <= i < |txns| ==> Loggable(txns[i], area, diskSize)
  }

  method RunTxns(log: Log, txns: seq<Txn>, ghost o: Outcome)
    requires log.Valid() && log.Quiet() && log.n == 0 && log.outstanding == 0 && !log.committing
    requires Legal(txns, log.area, |log.disk.blocks|) && OnDiskAll(txns, |o.home|)
    requires On(o, log.disk.blocks, log.disk.power, log.area)
    modifies log, log.disk
    ensures On(AfterTxns(o, txns), log.disk.blocks, log.disk.power, log.area)
  {
    var i := 0;
    while i < |txns|
      invariant 0 <= i <= |txns|
      invariant log.Valid() && log.Quiet() && log.n == 0 && log.outstanding == 0 && !log.committing
      invariant |log.disk.blocks| == |o.home|
      invariant On(AfterTxns(o, txns[..i]), log.disk.blocks, log.disk.power, log.area)
    {
      assert txns[..i + 1][..i] == txns[..i];
      RunTxn(log, txns[i], AfterTxns(o, txns[..i]));
      i := i + 1;
    }
    assert txns[..i] == txns;
  }

  ghost function AfterBoot(o: Outcome, boot: Boot, area: Area): (r: Outcome)
    requires Legal(boot.txns, area, |o.home|)
    ensures |r.home| == |o.home|
  {
    AfterTxns(AfterRecovery(o.(power := boot.power)), boot.txns)
  }

  ghost function AfterBoots(o: Outcome, boots: seq<Boot>, area: Area): (r: Outcome)
    requires forall i :: 0 <= i < |boots| ==> Legal(boots[i].txns, area, |o.home|)
    ensures |r.home| == |o.home|
  {
    if boots == [] then o else
      var last := |boots| - 1;
      AfterBoot(AfterBoots(o, boots[..last], area), boots[last], area)
  }

  /** Power on, recover, run the transactions; the power may fail anywhere. */
  method RunBoot(disk: Disk, area: Area, boot: Boot, ghost o: Outcome)
    requires On(o, disk.blocks, disk.power, area)
    requires Legal(boot.txns, area, |disk.blocks|)
    modifies disk
    ensures On(AfterBoot(o, boot, area), disk.blocks, disk.power, area)
  {
    disk.power := boot.power;
    RecoveryIdempotent(disk.blocks, area, disk.power);
    var log := new Log(disk, area);
    RunTxns(log, boot.txns, AfterRecovery(o.(power := boot.power)));
  }

  ghost function AppliedAll(h: Image, txns: seq<Txn>): (r: Image)
    requires OnDiskAll(txns, |h|)
    ensures |r| == |h|
  {
    if txns == [] then h else
      var last := |txns| - 1;
      Applied(AppliedAll(h, txns[..last]), txns[last])
  }

  /** The block writes of a commit: the log blocks, the header, the home blocks, the header again. */
  ghost function Writes(txn: Txn): (n: nat) {
    if |Pending(txn)| == 0 then 0 else 2 * |Pending(txn)| + 2
  }

  ghost function WritesAll(txns: seq<Txn>): (n: nat) {
    if txns == [] then 0 else WritesAll(txns[..|txns| - 1]) + Writes(txns[|txns| - 1])
  }

  /** How many transactions are durable with that much power: all before the first whose header write is not reached. */
  ghost function Durable(power: nat, txns: seq<Txn>): (k: nat)
    ensures k <= |txns|
  {
    if txns == [] then 0 else
      var last := |txns| - 1;
      var k, n := Durable(power, txns[..last]), |Pending(txns[last])|;
      if k == last && (n == 0 || WritesAll(txns[..last]) + n < power) then k + 1 else k
  }

  lemma {:induction false} PowerLeft(o: Outcome, txns: seq<Txn>)
    requires OnDiskAll(txns, |o.home|)
    ensures AfterTxns(o, txns).power == Spent(o.power, WritesAll(txns))
  {
    if txns != [] {
      PowerLeft(o, txns[..|txns| - 1]);
    }
  }

  /** What survives a life is a prefix of its transactions, each of them whole. */
  lemma {:induction false} PrefixSurvives(o: Outcome, txns: seq<Txn>)
    requires OnDiskAll(txns, |o.home|)
    ensures AfterTxns(o, txns).home == AppliedAll(o.home, txns[..Durable(o.power, txns)])
    ensures Durable(o.power, txns) < |txns| ==> AfterTxns(o, txns).power == 0
  {
    if txns != [] {
      var last := |txns| - 1;
      var rest, txn := txns[..last], txns[last];
      PrefixSurvives(o, rest);
      PowerLeft(o, rest);
      var k, o' := Durable(o.power, rest), AfterTxns(o, rest);
      assert AfterTxns(o, txns) == AfterTxn(o', txn);
      if k < last {
        assert AfterTxn(o', txn) == o';
        assert rest[..k] == txns[..k];
      } else {
        assert rest[..k] == rest == txns[..k] && txns[..k + 1] == txns;
        assert AppliedAll(o.home, txns) == Applied(o'.home, txn);
        if |Pending(txn)| == 0 {
          assert txn == [];
        }
      }
    }
  }

  lemma {:induction false} AppliedBoth(h: Image, txns: seq<Txn>, more: seq<Txn>)
    requires OnDiskAll(txns, |h|) && OnDiskAll(more, |h|)
    ensures AppliedAll(h, txns + more) == AppliedAll(AppliedAll(h, txns), more)
  {
    if more == [] {
      assert txns + more == txns;
    } else {
      var last := |more| - 1;
      AppliedBoth(h, txns, more[..last]);
      assert (txns + more)[..|txns| + last] == txns + more[..last];
    }
  }

  ghost predicate LegalBoots(boots: seq<Boot>, area: Area, diskSize: nat) {
    forall i :: 0 <= i < |boots| ==> Legal(boots[i].txns, area, diskSize)
  }

  /** The transactions of all lives whose header write completed, in order. */
  ghost function DurableAll(o: Outcome, boots: seq<Boot>, area: Area): (txns: seq<Txn>)
    requires LegalBoots(boots, area, |o.home|)
    ensures OnDiskAll(txns, |o.home|)
  {
    if boots == [] then [] else
      var last := |boots| - 1;
      var start := AfterRecovery(AfterBoots(o, boots[..last], area).(power := boots[last].power));
      DurableAll(o, boots[..last], area) + boots[last].txns[..Durable(start.power, boots[last].txns)]
  }

  /** Many lives come to the durable transactions, each of them whole and in order. */
  lemma {:induction false} LivesSurvive(o: Outcome, boots: seq<Boot>, area: Area)
    requires LegalBoots(boots, area, |o.home|)
    ensures AfterBoots(o, boots, area).home == AppliedAll(o.home, DurableAll(o, boots, area))
  {
    if boots != [] {
      var last := |boots| - 1;
      LivesSurvive(o, boots[..last], area);
      var txns := boots[last].txns;
      var start := AfterRecovery(AfterBoots(o, boots[..last], area).(power := boots[last].power));
      PrefixSurvives(start, txns);
      AppliedBoth(o.home, DurableAll(o, boots[..last], area), txns[..Durable(start.power, txns)]);
    }
  }

  /** With an empty header the home blocks are what recovery would yield. */
  lemma SeenAtHome(o: Outcome, d: Image, power: nat, area: Area)
    requires On(o, d, power, area)
    ensures o.inLog == 0 ==> Home(d, area) == o.home
  {
  }

  /**
   Crash atomicity over whole lives: whatever the transactions, however often and wherever the
   power fails, recovery yields exactly the transactions whose header write completed; and so do
   the home blocks themselves when the header on disk is empty.
   */
  method Live(disk: Disk, area: Area, boots: seq<Boot>, ghost o: Outcome)
    requires On(o, disk.blocks, disk.power, area)
    requires LegalBoots(boots, area, |disk.blocks|)
    modifies disk
    ensures On(AfterBoots(o, boots, area), disk.blocks, disk.power, area)
    ensures Recovered(disk.blocks, area) == AppliedAll(o.home, DurableAll(o, boots, area))
    ensures Targets(disk.blocks, area) == [] ==>
      Home(disk.blocks, area) == AppliedAll(o.home, DurableAll(o, boots, area))
  {
    var i := 0;
    while i < |boots|
      invariant 0 <= i <= |boots|
      invariant |disk.blocks| == |o.home|
      invariant On(AfterBoots(o, boots[..i], area), disk.blocks, disk.power, area)
    {
      assert boots[..i + 1][..i] == boots[..i];
      RunBoot(disk, area, boots[i], AfterBoots(o, boots[..i], area));
      i := i + 1;
    }
    assert boots[..i] == boots;
    LivesSurvive(o, boots, area);
    SeenAtHome(AfterBoots(o, boots, area), disk.blocks, disk.power, area);
  }

  /**
   A recovery with power enough to finish, after any lives: the home blocks are the initial ones with
   exactly the durable transactions applied, and the log is empty.
   */
  method LiveAndRecover(disk: Disk, area: Area, boots: seq<Boot>, power: nat, ghost o: Outcome)
    requires On(o, disk.blocks, disk.power, area) && LegalBoots(boots, area, |disk.blocks|) && power > LOGSIZE
    modifies disk
    ensures Cleared(disk.blocks, area) && Home(disk.blocks, area) == AppliedAll(o.home, DurableAll(o, boots, area))
  {
    Live(disk, area, boots, o);
    RunBoot(disk, area, Boot(power, []), AfterBoots(o, boots, area));
  }
}
