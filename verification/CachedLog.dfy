/**
 The log of kernel/log.c on top of the buffer cache of kernel/bio.c: what write_log copies for a
 logged block, through bread, is what was last logged for it, and install_trans leaves every logged
 block on the disk and unpinned, whatever other processes read in the meantime.
 */
module CachedLog {
  import opened Basics
  import C = BufferCache
  import W = WriteAheadLog

  const ROOTDEV := 1

  function KeyOf(b: int): (k: C.Key) { C.Key(ROOTDEV, b) }

  predicate Among(k: C.Key, contents: map<int, W.Block>) { k.dev == ROOTDEV && k.blockno in contents }

  /** Block b is pinned in the cache, where its latest contents are `data`. */
  ghost predicate Holds(logged: set<C.Key>, latest: map<C.Key, W.Block>, b: int, data: W.Block) {
    KeyOf(b) in logged && C.At(latest, KeyOf(b)) == data
  }

  /** The pinned blocks are exactly those of the transaction, and their latest contents are its updates. */
  ghost predicate Coupled(logged: set<C.Key>, latest: map<C.Key, W.Block>, contents: map<int, W.Block>) {
    && (forall k :: k in logged <==> Among(k, contents))
    && (forall b :: b in contents ==> Holds(logged, latest, b, contents[b]))
  }

  /** log_write of the buffer i that process p holds, in the log and in the cache. */
  method LogWrite(cache: C.Cache, log: W.Log, p: int, i: int)
    requires cache.Valid() && log.Valid() && Coupled(cache.logged, cache.latest, log.Contents())
    requires 0 <= i < C.NBUF && cache.bufs[i].holder == Some(p) && cache.bufs[i].valid
    requires cache.bufs[i].key.dev == ROOTDEV
    requires 0 <= cache.bufs[i].key.blockno < |log.disk.blocks| && !log.area.Has(cache.bufs[i].key.blockno)
    requires log.n < LOGSIZE && log.n < log.area.size - 1 && log.outstanding >= 1
    modifies cache`bufs, cache`logged, cache`latest, log`n, log`pinned, log`block
    ensures cache.Valid() && log.Valid() && Coupled(cache.logged, cache.latest, log.Contents())
    ensures log.Contents() == old(log.Contents())[old(cache.bufs[i].key.blockno) := old(cache.bufs[i].data)]
    ensures cache.latest == old(cache.latest)[old(cache.bufs[i].key) := old(cache.bufs[i].data)]
  {
    hide C.AllOk, C.Unique, C.Anchored, C.Linked, C.Recency, W.WellFormed, W.Targetable, W.Zip;
    var b, data := cache.bufs[i].key.blockno, cache.bufs[i].data;
    log.LogWrite(b, data);
    cache.LogWrite(p, i);
  }

  // ---------------------------------------------------------------- other processes

  /** A step of another process that reads through the cache. */
  datatype ReaderOp = Ref(q: int, key: C.Key) | Lock(q: int, i: int) | Read(q: int, i: int) | Unlock(q: int, i: int)
    | Drop(q: int, i: int)

  /** Process p has no reference to any buffer. */
  predicate Away(bufs: seq<C.Buf>, p: int) { forall i :: 0 <= i < |bufs| ==> p !in bufs[i].users }

  predicate Unused(bufs: seq<C.Buf>, q: int, key: C.Key) {
    forall i :: 0 <= i < |bufs| && bufs[i].key == key ==> q !in bufs[i].users
  }

  lemma PlaceUnused(cache: C.Cache, q: int, key: C.Key)
    requires cache.Valid() && Unused(cache.bufs, q, key)
    ensures key in cache.place ==> 0 <= cache.place[key] < |cache.bufs| && q !in cache.bufs[cache.place[key]].users
    ensures key in cache.place ==> cache.bufs[cache.place[key]].key == key
  {
  }

  /** What the step does to the buffers, if another process than p can take it. */
  ghost predicate Stepped(op: ReaderOp, p: int, a: seq<C.Buf>, place: map<C.Key, int>, latest: map<C.Key, W.Block>,
          b: seq<C.Buf>)
    requires |a| == C.NBUF
  {
    if op.q == p then b == a
    else
      match op
      case Ref(q, key) =>
        if key.dev == 0 || !Unused(a, q, key) || (key !in place && forall i :: 0 <= i < C.NBUF ==> a[i].refcnt != 0)
        then b == a
        else exists i :: 0 <= i < C.NBUF && Took(a, b, i, key, q, key in place)
      case Lock(q, i) =>
        if 0 <= i < C.NBUF && q in a[i].users && a[i].holder.None?
        then b == a[i := a[i].(holder := Some(q))] else b == a
      case Read(q, i) =>
        if ReadyFor(a, q, i) then b == a[i := a[i].(valid := true, data := C.At(latest, a[i].key))] else b == a
      case Unlock(q, i) =>
        if ReadyFor(a, q, i) then b == a[i := a[i].(holder := None)] else b == a
      case Drop(q, i) =>
        if 0 <= i < C.NBUF && q in a[i].users && a[i].holder != Some(q)
        then b == a[i := C.Unreferenced(a[i], q)] else b == a
  }

  ghost predicate ReadyFor(a: seq<C.Buf>, q: int, i: int) {
    0 <= i < C.NBUF && i < |a| && a[i].holder == Some(q) && !a[i].dirty
  }

  /** A reference to the cached buffer i, or buffer i recycled. */
  ghost predicate Took(a: seq<C.Buf>, b: seq<C.Buf>, i: int, key: C.Key, q: int, cached: bool)
    requires 0 <= i < |a|
  {
    && (if cached then a[i].key == key else a[i].refcnt == 0)
    && b == a[i := if cached then C.Referenced(a[i], q) else C.Recycled(a[i], key, q)]
  }

  /** The step, if it can be taken: what is logged, what is latest and what is on disk stays. */
  method Other(cache: C.Cache, op: ReaderOp, p: int)
    requires cache.Valid() && Away(cache.bufs, p)
    modifies cache`bufs, cache`place, cache`next, cache`prev, cache`order, cache`stamp, cache`clock
    ensures cache.Valid() && Away(cache.bufs, p)
    ensures Stepped(op, p, old(cache.bufs), old(cache.place), cache.latest, cache.bufs)
  {
    hide C.AllOk, C.Unique, C.Anchored, C.Linked, C.Recency;
    if op.q == p {
      return;
    }
    match op
    case Ref(q, key) =>
      if key.dev != 0 && Unused(cache.bufs, q, key) {
        PlaceUnused(cache, q, key);
        ghost var a, cached := cache.bufs, key in cache.place;
        var b := cache.BgetRef(q, key);
        assert b != C.HEAD ==> Took(a, cache.bufs, b, key, q, cached);
      }
    case Lock(q, i) =>
      if 0 <= i < C.NBUF && q in cache.bufs[i].users && cache.bufs[i].holder.None? {
        cache.AcquireBuf(q, i);
      }
    case Read(q, i) =>
      if 0 <= i < C.NBUF && cache.bufs[i].holder == Some(q) && !cache.bufs[i].dirty {
        cache.Fill(q, i);
      }
    case Unlock(q, i) =>
      if 0 <= i < C.NBUF && cache.bufs[i].holder == Some(q) && !cache.bufs[i].dirty {
        cache.ReleaseBuf(q, i);
      }
    case Drop(q, i) =>
      if 0 <= i < C.NBUF && q in cache.bufs[i].users && cache.bufs[i].holder != Some(q) {
        cache.DropRef(q, i);
      }
  }

  datatype Moment = Moment(bufs: seq<C.Buf>, place: map<C.Key, int>)

  method Others(cache: C.Cache, ops: seq<ReaderOp>, p: int) returns (ghost seen: seq<Moment>)
    requires cache.Valid() && Away(cache.bufs, p)
    modifies cache`bufs, cache`place, cache`next, cache`prev, cache`order, cache`stamp, cache`clock
    ensures cache.Valid() && Away(cache.bufs, p) && |seen| == |ops| + 1
    ensures seen[0] == Moment(old(cache.bufs), old(cache.place)) && seen[|ops|] == Moment(cache.bufs, cache.place)
    ensures forall i :: 0 <= i <= |ops| ==> |seen[i].bufs| == C.NBUF
    ensures forall i :: 0 <= i < |ops| ==>
      Stepped(ops[i], p, seen[i].bufs, seen[i].place, cache.latest, seen[i + 1].bufs)
  {
    hide C.AllOk, C.Unique, C.Anchored, C.Linked, C.Recency, Stepped, Away;
    seen := [Moment(cache.bufs, cache.place)];
    for i := 0 to |ops|
      invariant cache.Valid() && Away(cache.bufs, p) && |seen| == i + 1
      invariant seen[0] == Moment(old(cache.bufs), old(cache.place)) && seen[i] == Moment(cache.bufs, cache.place)
      invariant forall j :: 0 <= j <= i ==> |seen[j].bufs| == C.NBUF
      invariant forall j :: 0 <= j < i ==>
        Stepped(ops[j], p, seen[j].bufs, seen[j].place, cache.latest, seen[j + 1].bufs)
    {
      Other(cache, ops[i], p);
      seen := seen + [Moment(cache.bufs, cache.place)];
    }
  }

  // ---------------------------------------------------------------- write_log's reads

  /** The sleep lock of block b's buffer is free, so bread need not wait. */
  predicate Idle(bufs: seq<C.Buf>, b: int) {
    forall i :: 0 <= i < |bufs| && bufs[i].key == KeyOf(b) ==> bufs[i].holder.None?
  }

  lemma InPlace(cache: C.Cache, b: int)
    requires cache.Valid() && KeyOf(b) in cache.logged
    ensures KeyOf(b) in cache.place && 0 <= cache.place[KeyOf(b)] < C.NBUF == |cache.bufs|
    ensures cache.bufs[cache.place[KeyOf(b)]].key == KeyOf(b)
  {
  }

  /** bread of a logged block, a copy of its contents, and brelse. */
  method CopyLogged(cache: C.Cache, p: int, b: int, ghost data: W.Block) returns (copy: W.Block)
    requires cache.Valid() && Holds(cache.logged, cache.latest, b, data)
    requires Away(cache.bufs, p) && Idle(cache.bufs, b)
    modifies cache`bufs, cache`place, cache`next, cache`prev, cache`order, cache`stamp, cache`clock
    ensures cache.Valid() && Away(cache.bufs, p) && copy == data
  {
    hide C.AllOk, C.Unique, C.Anchored, C.Linked, C.Recency;
    InPlace(cache, b);
    var i := cache.BgetRef(p, KeyOf(b));
    cache.AcquireBuf(p, i);
    cache.Fill(p, i);
    copy := cache.bufs[i].data;
    cache.ReleaseBuf(p, i);
    cache.DropRef(p, i);
  }

  /**
   write_log's reads.  Before each turn other processes take any steps; a turn whose buffer they hold is
   spent waiting.  What is copied is exactly the logged updates, in the order of the header.
   */
  method ReadLogged(cache: C.Cache, log: W.Log, p: int, turns: seq<seq<ReaderOp>>)
    returns (copies: seq<W.Block>, waits: nat)
    requires cache.Valid() && log.Valid() && Coupled(cache.logged, cache.latest, log.Contents()) && Away(cache.bufs, p)
    modifies cache`bufs, cache`place, cache`next, cache`prev, cache`order, cache`stamp, cache`clock
    ensures cache.Valid() && Away(cache.bufs, p)
    ensures copies <= log.pinned && (|copies| == log.n || |copies| + waits == |turns|)
  {
    hide C.AllOk, C.Unique, C.Anchored, C.Linked, C.Recency, C.At, W.WellFormed, W.Targetable, W.Zip, Away, Holds;
    copies, waits := [], 0;
    for t := 0 to |turns|
      invariant cache.Valid() && Away(cache.bufs, p) && |copies| <= log.n && copies == log.pinned[..|copies|]
      invariant |copies| == log.n || |copies| + waits == t
    {
      ghost var seen := Others(cache, turns[t], p);
      var i := |copies|;
      if i < log.n && Idle(cache.bufs, log.block[i]) {
        W.ZipAt(log.block[..log.n], log.pinned, log.n, i);
        var copy := CopyLogged(cache, p, log.block[i], log.pinned[i]);
        copies := copies + [copy];
      } else {
        waits := waits + 1;
      }
    }
  }

  // ---------------------------------------------------------------- install_trans

  /** Key k is among the first n blocks of the header. */
  ghost predicate Installed(k: C.Key, block: seq<int>, n: int)
    requires n <= |block|
  {
    k.dev == ROOTDEV && exists i :: 0 <= i < n && block[i] == k.blockno
  }

  /** install_trans's turn for block b, whose log block holds `data`: bread, memmove, bwrite, bunpin, brelse. */
  method InstallOne(cache: C.Cache, p: int, b: int, data: W.Block)
    requires cache.Valid() && Holds(cache.logged, cache.latest, b, data)
    requires Away(cache.bufs, p) && Idle(cache.bufs, b)
    modifies cache
    ensures cache.Valid() && Away(cache.bufs, p) && cache.logged == old(cache.logged) - {KeyOf(b)}
    ensures cache.disk == old(cache.disk)[KeyOf(b) := data] && cache.latest == old(cache.latest)[KeyOf(b) := data]
  {
    hide C.AllOk, C.Unique, C.Anchored, C.Linked, C.Recency;
    InPlace(cache, b);
    var i := cache.BgetRef(p, KeyOf(b));
    cache.AcquireBuf(p, i);
    cache.Fill(p, i);
    cache.Modify(p, i, data);
    cache.Bwrite(p, i);
    cache.Bunpin(p, i);
    cache.ReleaseBuf(p, i);
    cache.DropRef(p, i);
  }

  /** Where install_trans stands: the first `done` blocks are on the disk and unpinned, the others still to come. */
  ghost predicate Installing(block: seq<int>, pinned: seq<W.Block>, done: int, logged: set<C.Key>,
                             latest: map<C.Key, W.Block>, disk: map<C.Key, W.Block>,
                             latest0: map<C.Key, W.Block>, disk0: map<C.Key, W.Block>) {
    && 0 <= done <= |pinned| <= |block|
    && (forall i :: 0 <= i < done ==> C.At(disk, KeyOf(block[i])) == pinned[i])
    && (forall i :: done <= i < |pinned| ==> Holds(logged, latest, block[i], pinned[i]))
    && (forall k :: k in logged ==> Installed(k, block, |pinned|) && !Installed(k, block, done))
    && (forall k :: C.At(latest, k) == C.At(latest0, k))
    && (forall k :: !Installed(k, block, done) ==> C.At(disk, k) == C.At(disk0, k))
  }

  ghost predicate AllDistinct(block: seq<int>, n: int)
    requires n <= |block|
  {
    forall i, j :: 0 <= i < j < n ==> block[i] != block[j]
  }

  lemma InstallStep(block: seq<int>, pinned: seq<W.Block>, done: int, logged: set<C.Key>,
                    latest: map<C.Key, W.Block>, disk: map<C.Key, W.Block>,
                    latest0: map<C.Key, W.Block>, disk0: map<C.Key, W.Block>)
    requires Installing(block, pinned, done, logged, latest, disk, latest0, disk0) && done < |pinned|
    requires AllDistinct(block, |pinned|)
    ensures var k, data := KeyOf(block[done]), pinned[done];
            Installing(block, pinned, done + 1, logged - {k}, latest[k := data], disk[k := data], latest0, disk0)
  {
    assert Holds(logged, latest, block[done], pinned[done]);
    forall k
      ensures Installed(k, block, done + 1) <==> Installed(k, block, done) || k == KeyOf(block[done])
    {
      if Installed(k, block, done) {
        var i :| 0 <= i < done && block[i] == k.blockno;
        assert block[i] == k.blockno;
      }
    }
  }

  lemma InstallNext(block: seq<int>, pinned: seq<W.Block>, done: int, logged: set<C.Key>,
                    latest: map<C.Key, W.Block>, disk: map<C.Key, W.Block>,
                    latest0: map<C.Key, W.Block>, disk0: map<C.Key, W.Block>)
    requires Installing(block, pinned, done, logged, latest, disk, latest0, disk0)
    ensures 0 <= done <= |pinned| <= |block| && (done < |pinned| ==> Holds(logged, latest, block[done], pinned[done]))
    ensures forall k :: C.At(latest, k) == C.At(latest0, k)
  {
  }

  lemma StartInstalling(cache: C.Cache, log: W.Log)
    requires log.Valid() && Coupled(cache.logged, cache.latest, log.Contents())
    ensures Installing(log.block, log.pinned, 0, cache.logged, cache.latest, cache.disk, cache.latest, cache.disk)
    ensures AllDistinct(log.block, log.n)
  {
    forall i | 0 <= i < log.n
      ensures Holds(cache.logged, cache.latest, log.block[i], log.pinned[i])
    {
      W.ZipAt(log.block[..log.n], log.pinned, log.n, i);
    }
    forall k | k in cache.logged
      ensures Installed(k, log.block, log.n)
    {
      W.ZipKeys(log.block[..log.n], log.pinned, log.n, k.blockno);
    }
    forall i, j | 0 <= i < j < log.n
      ensures log.block[i] != log.block[j]
    {
      W.ZipDistinct(log.block[..log.n], log.pinned, log.n, i, j);
    }
  }

  /** The disk has exactly the updates `contents` on top of disk0. */
  ghost predicate Updated(disk0: map<C.Key, W.Block>, disk: map<C.Key, W.Block>, contents: map<int, W.Block>) {
    forall k :: C.At(disk, k) == if Among(k, contents) then contents[k.blockno] else C.At(disk0, k)
  }

  lemma AllInstalled(log: W.Log, logged: set<C.Key>, latest: map<C.Key, W.Block>, disk: map<C.Key, W.Block>,
                     latest0: map<C.Key, W.Block>, disk0: map<C.Key, W.Block>)
    requires log.Valid() && Installing(log.block, log.pinned, log.n, logged, latest, disk, latest0, disk0)
    ensures logged == {} && Updated(disk0, disk, log.Contents())
  {
    assert forall k :: k !in logged;
    forall k
      ensures C.At(disk, k) == if Among(k, log.Contents()) then log.Contents()[k.blockno] else C.At(disk0, k)
    {
      W.ZipKeys(log.block[..log.n], log.pinned, log.n, k.blockno);
      if Among(k, log.Contents()) {
        var i :| 0 <= i < log.n && log.block[i] == k.blockno;
        W.ZipAt(log.block[..log.n], log.pinned, log.n, i);
        assert C.At(disk, KeyOf(log.block[i])) == log.pinned[i];
      } else {
        assert !Installed(k, log.block, log.n);
      }
    }
  }

  /**
   install_trans after commit.  When all blocks are done, nothing is pinned, the disk has exactly the logged
   updates on top of what it had, and the latest contents of every block are as before.
   */
  method InstallLogged(cache: C.Cache, log: W.Log, p: int, turns: seq<seq<ReaderOp>>) returns (done: nat, waits: nat)
    requires cache.Valid() && log.Valid() && Coupled(cache.logged, cache.latest, log.Contents()) && Away(cache.bufs, p)
    modifies cache
    ensures cache.Valid() && Away(cache.bufs, p) && done <= log.n && (done == log.n || done + waits == |turns|)
    ensures forall k :: C.At(cache.latest, k) == C.At(old(cache.latest), k)
    ensures done == log.n ==> cache.logged == {} && Updated(old(cache.disk), cache.disk, log.Contents())
  {
    hide C.AllOk, C.Unique, C.Anchored, C.Linked, C.Recency, W.WellFormed, W.Targetable, W.Zip, Away, AllDistinct,
      Updated;
    hide Installing, Holds;
    done, waits := 0, 0;
    StartInstalling(cache, log);
    ghost var latest0, disk0 := cache.latest, cache.disk;
    for t := 0 to |turns|
      invariant cache.Valid() && Away(cache.bufs, p) && (done == log.n || done + waits == t)
      invariant Installing(log.block, log.pinned, done, cache.logged, cache.latest, cache.disk, latest0, disk0)
    {
      ghost var seen := Others(cache, turns[t], p);
      InstallNext(log.block, log.pinned, done, cache.logged, cache.latest, cache.disk, latest0, disk0);
      if done < log.n && Idle(cache.bufs, log.block[done]) {
        InstallStep(log.block, log.pinned, done, cache.logged, cache.latest, cache.disk, latest0, disk0);
        InstallOne(cache, p, log.block[done], log.pinned[done]);
        done := done + 1;
      } else {
        waits := waits + 1;
      }
    }
    InstallNext(log.block, log.pinned, done, cache.logged, cache.latest, cache.disk, latest0, disk0);
    if done == log.n {
      AllInstalled(log, cache.logged, cache.latest, cache.disk, latest0, disk0);
    }
  }
}
