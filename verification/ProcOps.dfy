/**
 The operations of kernel/proc.c and kernel/sleeplock.c from their first step to their last: exit, wait,
 sleep, wakeup, yield, acquiresleep and releasesleep, each run while no process lock is held.
 */
module ProcOps {
  import opened Basics
  import opened ProcState
  import opened ProcSteps
  import opened ProcProofs
  import opened Processes
  import opened ProcRuns

  // ---------------------------------------------------------------- wakeup loops

  /** No process lock is held. */
  ghost predicate Calm(s: State) { forall q :: s.IsProc(q) ==> s.procs[q].lock.None? }

  /** Process p went past all others from slot j on, woke those asleep on ch, and is at pc. */
  ghost predicate WokenFrom(a: seq<Proc>, b: seq<Proc>, p: int, j: int, ch: Option<Chan>, pc: Pc) {
    && |a| == |b| && 0 <= p < |a| && b[p] == a[p].(pc := pc)
    && forall q :: 0 <= q < |a| && q != p ==> b[q] == if q >= j then Woken(a[q], ch) else a[q]
  }

  lemma WokenNone(a: seq<Proc>, p: int, ch: Option<Chan>)
    requires 0 <= p < |a|
    ensures WokenFrom(a, a, p, |a|, ch, a[p].pc)
  {
  }

  lemma WokenOne(a: seq<Proc>, b: seq<Proc>, c: seq<Proc>, p: int, j: int, ch: Option<Chan>, pc': Pc, pc: Pc)
    requires 0 <= p < |a| && 0 <= j < |a| && b == a[j := Woken(a[j], ch)][p := a[p].(pc := pc')]
    requires WokenFrom(b, c, p, j + 1, ch, pc)
    ensures WokenFrom(a, c, p, j, ch, pc)
  {
  }

  lemma {:induction false} WakesParentAll(s: State, p: int) returns (steps: seq<Step>, t: State)
    requires Calm(s) && Runs(s, p) && s.procs[p].pc.WakeParent? && 0 <= s.procs[p].pc.j <= |s.procs|
    ensures Run(s, steps) == Some(t) && t == s.(procs := t.procs)
    ensures WokenFrom(s.procs, t.procs, p, s.procs[p].pc.j, ParentChan(s.procs[p]), WakeParent(|s.procs|))
    decreases |s.procs| - s.procs[p].pc.j
  {
    var j, ch := s.procs[p].pc.j, ParentChan(s.procs[p]);
    if j == |s.procs| {
      steps, t := [], s;
      WokenNone(s.procs, p, ch);
    } else {
      hide WokenFrom;
      var step := Exit(WakesParent(p));
      var u := Do(s, step);
      assert u == s.(procs := s.procs[j := Woken(s.procs[j], ch)][p := s.procs[p].(pc := WakeParent(j + 1))]);
      RunOne(s, step);
      hide Do, Enabled, Run;
      var rest;
      rest, t := WakesParentAll(u, p);
      steps := [step] + rest;
      RunBoth(s, [step], u, rest);
      WokenOne(s.procs, u.procs, t.procs, p, j, ch, WakeParent(j + 1), WakeParent(|s.procs|));
    }
  }

  lemma {:induction false} WakesInitAll(s: State, p: int) returns (steps: seq<Step>, t: State)
    requires Calm(s) && Runs(s, p) && s.procs[p].pc.WakeInit? && 0 <= s.procs[p].pc.j <= |s.procs|
    requires s.initWoken == s.procs[p].pc.j
    ensures Run(s, steps) == Some(t) && t == s.(procs := t.procs, initWoken := |s.procs|)
    ensures var pc := s.procs[p].pc;
      WokenFrom(s.procs, t.procs, p, pc.j, Some(OnProc(s.init)), WakeInit(pc.i, |s.procs|))
    decreases |s.procs| - s.procs[p].pc.j
  {
    var i, j, ch := s.procs[p].pc.i, s.procs[p].pc.j, Some(OnProc(s.init));
    if j == |s.procs| {
      steps, t := [], s;
      WokenNone(s.procs, p, ch);
    } else {
      hide WokenFrom;
      var step := Exit(WakesInit(p));
      var u := Do(s, step);
      assert u == s.(procs := s.procs[j := Woken(s.procs[j], ch)][p := s.procs[p].(pc := WakeInit(i, j + 1))],
                     initWoken := j + 1);
      RunOne(s, step);
      hide Do, Enabled, Run;
      var rest;
      rest, t := WakesInitAll(u, p);
      steps := [step] + rest;
      RunBoth(s, [step], u, rest);
      WokenOne(s.procs, u.procs, t.procs, p, j, ch, WakeInit(i, j + 1), WakeInit(i, |s.procs|));
    }
  }

  // ---------------------------------------------------------------- exit

  ghost predicate HasChildFrom(a: seq<Proc>, p: int, i: int) {
    exists q :: 0 <= i <= q < |a| && a[q].parent == Some(p)
  }

  function Adopted(x: Proc, p: int, init: int): (y: Proc) {
    if x.parent == Some(p) then x.(parent := Some(init)) else x
  }

  /** Every child of p from slot i on went to init, which was woken if there was one. */
  ghost predicate Reparented(a: seq<Proc>, b: seq<Proc>, p: int, init: int, i: int) {
    && |a| == |b| && 0 <= p < |a| && b[p] == a[p].(pc := WakeParent(0))
    && forall q :: 0 <= q < |a| && q != p ==>
         var y := if q >= i then Adopted(a[q], p, init) else a[q];
         b[q] == if HasChildFrom(a, p, i) then Woken(y, Some(OnProc(init))) else y
  }

  lemma PassedBy(a: seq<Proc>, b: seq<Proc>, c: seq<Proc>, p: int, init: int, i: int)
    requires 0 <= p < |a| && 0 <= i < |a| && a[i].parent != Some(p) && b == a[p := a[p].(pc := Reparent(i + 1))]
    requires a[p].parent != Some(p) && Reparented(b, c, p, init, i + 1)
    ensures Reparented(a, c, p, init, i)
  {
    if HasChildFrom(a, p, i) {
      var q :| 0 <= i <= q < |a| && a[q].parent == Some(p);
      assert b[q].parent == Some(p);
    }
    if HasChildFrom(b, p, i + 1) {
      var q :| i + 1 <= q < |b| && b[q].parent == Some(p);
      assert a[q].parent == Some(p);
    }
  }

  ghost predicate Given(a: seq<Proc>, b: seq<Proc>, p: int, init: int, i: int) {
    0 <= p < |a| && 0 <= i < |a| && b == a[i := a[i].(parent := Some(init))][p := a[p].(pc := WakeInit(i, 0))]
  }

  lemma GivenAway(a: seq<Proc>, b: seq<Proc>, c: seq<Proc>, d: seq<Proc>, p: int, init: int, i: int)
    requires 0 <= p < |a| && 0 <= i < |a| && a[i].parent == Some(p) && i != p && init != p && a[p].parent != Some(p)
    requires Given(a, b, p, init, i)
    requires WokenFrom(b, c, p, 0, Some(OnProc(init)), WakeInit(i, |a|))
    requires Reparented(c[p := c[p].(pc := Reparent(i + 1))], d, p, init, i + 1)
    ensures Reparented(a, d, p, init, i)
  {
    var c' := c[p := c[p].(pc := Reparent(i + 1))];
    assert a[i].parent == Some(p);
    forall q | 0 <= q < |a| && q != p
      ensures d[q] == Woken(if q >= i then Adopted(a[q], p, init) else a[q], Some(OnProc(init)))
    {
      assert c[q] == Woken(b[q], Some(OnProc(init)));
    }
  }

  lemma {:induction false} ReparentAll(s: State, p: int) returns (steps: seq<Step>, t: State)
    requires Calm(s) && Runs(s, p) && s.procs[p].pc.Reparent? && 0 <= s.procs[p].pc.i <= |s.procs|
    requires s.initWoken == |s.procs| && s.init != p && s.procs[p].parent != Some(p)
    ensures Run(s, steps) == Some(t) && t == s.(procs := t.procs)
    ensures Reparented(s.procs, t.procs, p, s.init, s.procs[p].pc.i)
    decreases |s.procs| - s.procs[p].pc.i
  {
    var i := s.procs[p].pc.i;
    if i == |s.procs| {
      steps := [Exit(PassBy(p))];
      t := Do(s, steps[0]);
      RunOne(s, steps[0]);
    } else if s.procs[i].parent != Some(p) {
      hide Reparented;
      var u := Do(s, Exit(PassBy(p)));
      assert u == s.(procs := s.procs[p := s.procs[p].(pc := Reparent(i + 1))]);
      RunOne(s, Exit(PassBy(p)));
      hide Do, Enabled, Run;
      var rest;
      rest, t := ReparentAll(u, p);
      steps := [Exit(PassBy(p))] + rest;
      RunBoth(s, [Exit(PassBy(p))], u, rest);
      PassedBy(s.procs, u.procs, t.procs, p, s.init, i);
    } else {
      steps, t := GiveAwayOne(s, p);
    }
  }

  lemma GiveAwayStep(s: State, p: int) returns (u: State, b: seq<Proc>)
    requires Calm(s) && Runs(s, p) && s.procs[p].pc.Reparent? && 0 <= s.procs[p].pc.i < |s.procs|
    requires s.procs[s.procs[p].pc.i].parent == Some(p) && s.procs[p].parent != Some(p)
    ensures var i := s.procs[p].pc.i;
      && Given(s.procs, b, p, s.init, i) && |b| == |s.procs| && b[p] == s.procs[p].(pc := WakeInit(i, 0))
      && Enabled(s, Exit(GiveAway(p))) && u == Do(s, Exit(GiveAway(p))) == s.(procs := b, initWoken := 0) && Calm(u)
  {
    u := Do(s, Exit(GiveAway(p)));
    b := u.procs;
  }

  lemma GiveAndWake(s: State, p: int) returns (steps: seq<Step>, w: State, b: seq<Proc>, c: seq<Proc>)
    requires Calm(s) && Runs(s, p) && s.procs[p].pc.Reparent? && 0 <= s.procs[p].pc.i < |s.procs|
    requires s.procs[s.procs[p].pc.i].parent == Some(p) && s.procs[p].parent != Some(p)
    ensures Run(s, steps) == Some(w) && Given(s.procs, b, p, s.init, s.procs[p].pc.i) && |c| == |s.procs|
    ensures WokenFrom(b, c, p, 0, Some(OnProc(s.init)), WakeInit(s.procs[p].pc.i, |c|)) && Calm(w)
    ensures w == s.(procs := c[p := c[p].(pc := Reparent(s.procs[p].pc.i + 1))], initWoken := |c|)
    ensures w.procs[p] == s.procs[p].(pc := Reparent(s.procs[p].pc.i + 1))
  {
    hide Reparented, WokenFrom, Calm, Given, Do, Enabled, Run;
    var u, wakes;
    u, b := GiveAwayStep(s, p);
    RunOne(s, Exit(GiveAway(p)));
    wakes, w, c := GivenWoken(u, p);
    steps := [Exit(GiveAway(p))] + wakes;
    RunBoth(s, [Exit(GiveAway(p))], u, wakes);
  }

  lemma GiveAwayOne(s: State, p: int) returns (steps: seq<Step>, t: State)
    requires Calm(s) && Runs(s, p) && s.procs[p].pc.Reparent? && 0 <= s.procs[p].pc.i < |s.procs|
    requires s.initWoken == |s.procs| && s.init != p && s.procs[p].parent != Some(p)
    requires s.procs[s.procs[p].pc.i].parent == Some(p)
    ensures Run(s, steps) == Some(t) && t == s.(procs := t.procs)
    ensures Reparented(s.procs, t.procs, p, s.init, s.procs[p].pc.i)
    decreases |s.procs| - s.procs[p].pc.i, 0
  {
    hide Reparented, WokenFrom, Calm, Given, Do, Enabled, Run;
    var before, w, b, c := GiveAndWake(s, p);
    var rest;
    rest, t := ReparentAll(w, p);
    steps := before + rest;
    RunBoth(s, before, w, rest);
    GivenAway(s.procs, b, c, t.procs, p, s.init, s.procs[p].pc.i);
  }

  lemma GivenWoken(s: State, p: int) returns (steps: seq<Step>, t: State, c: seq<Proc>)
    requires Calm(s) && Runs(s, p) && s.procs[p].pc.WakeInit? && s.procs[p].pc.j == s.initWoken == 0
    ensures Run(s, steps) == Some(t) && |c| == |s.procs| && c[p] == s.procs[p].(pc := WakeInit(s.procs[p].pc.i, |c|))
    ensures t == s.(procs := c[p := c[p].(pc := Reparent(s.procs[p].pc.i + 1))], initWoken := |c|)
    ensures WokenFrom(s.procs, c, p, 0, Some(OnProc(s.init)), WakeInit(s.procs[p].pc.i, |c|)) && Calm(t)
  {
    var i := s.procs[p].pc.i;
    var v;
    steps, v := WakesInitAll(s, p);
    c := v.procs;
    StillCalm(s.procs, c, p, 0, Some(OnProc(s.init)), WakeInit(i, |c|));
    t := Do(v, Exit(InitDone(p)));
    RunThen(s, steps, v, Exit(InitDone(p)));
    steps := steps + [Exit(InitDone(p))];
  }

  lemma StillCalm(a: seq<Proc>, b: seq<Proc>, p: int, j: int, ch: Option<Chan>, pc: Pc)
    requires WokenFrom(a, b, p, j, ch, pc)
    ensures |a| == |b| && 0 <= p < |a| && b[p] == a[p].(pc := pc)
    ensures forall q :: 0 <= q < |a| ==> b[q].lock == a[q].lock && (q != p ==> b[q].pc == a[q].pc)
    ensures forall q :: 0 <= q < |a| ==> b[q].parent == a[q].parent
  {
  }

  /** A process gives up its CPU inside sched, and the scheduler unlocks it. */
  lemma SwitchOut(s: State, p: int) returns (steps: seq<Step>, t: State)
    requires s.IsProc(p) && s.procs[p].cpu.Some? && s.IsCpu(s.procs[p].cpu.value)
    requires s.cpus[s.procs[p].cpu.value] == Running(p)
    requires var x := s.procs[p]; x.mode.Yielding? || (x.mode.Straight? && (x.pc.SleepSwitch? || x.pc.ExitSwitch?))
    ensures Run(s, steps) == Some(t)
    ensures t == s.(cpus := s.cpus[s.procs[p].cpu.value := Idle],
                    procs := s.procs[p := Saved(s.procs[p]).(lock := None)])
  {
    var c := s.procs[p].cpu.value;
    var u := Do(s, Sched(Switch(c)));
    t := Do(u, Sched(Unlock(c)));
    steps := [Sched(Switch(c))] + [Sched(Unlock(c))];
    RunOne(s, Sched(Switch(c)));
    RunThen(s, [Sched(Switch(c))], u, Sched(Unlock(c)));
    assert t.procs == s.procs[p := Saved(s.procs[p]).(lock := None)];
    assert t.cpus == s.cpus[c := Idle];
  }

  /** What the exit of p does to another process. */
  ghost function AfterExit(s: State, p: int, x: Proc): (y: Proc)
    requires s.IsProc(p)
  {
    var z := Adopted(x, p, s.init);
    Woken(if HasChildFrom(s.procs, p, 0) then Woken(z, Some(OnProc(s.init))) else z, ParentChan(s.procs[p]))
  }

  lemma ExitOthers(s: State, p: int, a: seq<Proc>, b: seq<Proc>)
    requires s.IsProc(p) && Reparented(s.procs[p := s.procs[p].(pc := Reparent(0))], a, p, s.init, 0)
    requires s.procs[p].parent != Some(p)
    requires WokenFrom(a, b, p, 0, ParentChan(s.procs[p]), WakeParent(|a|))
    ensures |b| == |s.procs| && b[p] == s.procs[p].(pc := WakeParent(|a|))
    ensures forall q :: s.IsProc(q) && q != p ==> b[q] == AfterExit(s, p, s.procs[q])
  {
    var a0 := s.procs[p := s.procs[p].(pc := Reparent(0))];
    if HasChildFrom(a0, p, 0) {
      var q :| 0 <= q < |a0| && a0[q].parent == Some(p);
      assert s.procs[q].parent == Some(p);
    }
    if HasChildFrom(s.procs, p, 0) {
      var q :| 0 <= q < |a0| && s.procs[q].parent == Some(p);
      assert a0[q].parent == Some(p);
    }
  }

  /** Up to the point where p takes its own lock to become a zombie. */
  lemma ExitPrepares(s: State, p: int) returns (steps: seq<Step>, t: State)
    requires Calm(s) && Enabled(s, Exit(Begin(p)))
    requires s.initWoken == |s.procs| && s.init != p && s.procs[p].parent != Some(p)
    ensures Run(s, steps) == Some(t) && t == s.(procs := t.procs, waitLock := Some(p)) && Calm(t)
    ensures |t.procs| == |s.procs| && t.procs[p] == s.procs[p].(pc := WakeParent(|s.procs|))
    ensures forall q :: s.IsProc(q) && q != p ==> t.procs[q] == AfterExit(s, p, s.procs[q])
  {
    hide Reparented, WokenFrom, AfterExit;
    var u := Do(s, Exit(Begin(p)));
    var gives, v := ReparentAll(u, p);
    ReparentedCalm(u.procs, v.procs, p, s.init, 0);
    var wakes;
    wakes, t := WakesParentAll(v, p);
    StillCalm(v.procs, t.procs, p, 0, ParentChan(s.procs[p]), WakeParent(|s.procs|));
    steps := [Exit(Begin(p))] + gives + wakes;
    hide Do, Enabled, Run;
    RunOne(s, Exit(Begin(p)));
    RunBoth(s, [Exit(Begin(p))], u, gives);
    RunBoth(s, [Exit(Begin(p))] + gives, v, wakes);
    ExitOthers(s, p, v.procs, t.procs);
  }

  lemma ReparentedCalm(a: seq<Proc>, b: seq<Proc>, p: int, init: int, i: int)
    requires Reparented(a, b, p, init, i)
    ensures |a| == |b| && 0 <= p < |a| && b[p] == a[p].(pc := WakeParent(0))
    ensures forall q :: 0 <= q < |a| ==> b[q].lock == a[q].lock
  {
  }

  /**
   exit: the children go to init, which is woken if there are any, the parent is woken, the status is
   kept in a zombie that no CPU runs, and wait_lock is free again.
   */
  lemma ExitCompletes(s: State, p: int, status: int) returns (steps: seq<Step>, t: State)
    requires Inv(s) && Calm(s) && Enabled(s, Exit(Begin(p)))
    ensures Run(s, steps) == Some(t) && |t.procs| == |s.procs|
    ensures t.procs[p] == s.procs[p].(state := ZOMBIE, xstate := status, pc := Dead, cpu := None)
    ensures forall q :: s.IsProc(q) && q != p ==> t.procs[q] == AfterExit(s, p, s.procs[q])
    ensures var x := s.procs[p];
      t == s.(procs := t.procs, cpus := s.cpus[x.cpu.value := Idle], exits := s.exits[x.pid := status],
              tomb := s.tomb[x.pid := p])
  {
    Known(s, p);
    hide Inv;
    var before, u := ExitPrepares(s, p);
    var step := Exit(BecomeZombie(p, status));
    var v := Do(u, step);
    var after;
    after, t := SwitchOut(v, p);
    steps := before + [step] + after;
    RunThen(s, before, u, step);
    RunBoth(s, before + [step], v, after);
  }

  // ---------------------------------------------------------------- wait

  predicate ZombieChild(x: Proc, p: int) { x.parent == Some(p) && x.state.ZOMBIE? }

  ghost predicate NoZombieFrom(a: seq<Proc>, p: int, i: int, k: int) {
    forall q :: 0 <= i <= q < k && q < |a| ==> !ZombieChild(a[q], p)
  }

  /** The scan of wait goes on to the first zombie child, or to the end. */
  lemma {:induction false} ScanAll(s: State, p: int) returns (steps: seq<Step>, k: int, kids: bool)
    requires Calm(s) && Runs(s, p) && s.procs[p].pc.Scan? && 0 <= s.procs[p].pc.i <= |s.procs|
    requires s.procs[p].parent != Some(p)
    ensures s.procs[p].pc.i <= k <= |s.procs| && NoZombieFrom(s.procs, p, s.procs[p].pc.i, k)
    ensures k < |s.procs| ==> ZombieChild(s.procs[k], p)
    ensures k == |s.procs| ==> (kids <==> s.procs[p].pc.kids || HasChildFrom(s.procs, p, s.procs[p].pc.i))
    ensures Run(s, steps) == Some(s.(procs := s.procs[p := s.procs[p].(pc := Scan(k, kids))]))
    decreases |s.procs| - s.procs[p].pc.i
  {
    var i := s.procs[p].pc.i;
    if i == |s.procs| || ZombieChild(s.procs[i], p) {
      steps, k, kids := [], i, s.procs[p].pc.kids;
      assert s.procs == s.procs[p := s.procs[p].(pc := Scan(k, kids))];
    } else {
      var u := Do(s, Wait(Look(p)));
      var rest;
      rest, k, kids := ScanAll(u, p);
      steps := [Wait(Look(p))] + rest;
      assert steps[1..] == rest;
      assert u.procs[p := u.procs[p].(pc := Scan(k, kids))] == s.procs[p := s.procs[p].(pc := Scan(k, kids))];
      ScannedOne(s.procs, u.procs, p, i, k);
    }
  }

  lemma ScannedOne(a: seq<Proc>, b: seq<Proc>, p: int, i: int, k: int)
    requires |a| == |b| && 0 <= i < |a| && 0 <= p < |a| && i + 1 <= k <= |a|
    requires a[p].parent != Some(p) && b == a[p := b[p]]
    requires b[p].parent == a[p].parent && b[p].state == a[p].state
    requires !ZombieChild(a[i], p) && NoZombieFrom(b, p, i + 1, k)
    ensures NoZombieFrom(a, p, i, k)
    ensures k < |a| ==> (ZombieChild(a[k], p) <==> ZombieChild(b[k], p))
    ensures HasChildFrom(a, p, i) <==> a[i].parent == Some(p) || HasChildFrom(b, p, i + 1)
  {
    forall q | i <= q < k
      ensures !ZombieChild(a[q], p)
    {
      assert q > i ==> !ZombieChild(b[q], p);
    }
    if HasChildFrom(a, p, i) {
      var q :| i <= q < |a| && a[q].parent == Some(p);
      assert b[q].parent == Some(p);
    }
    if HasChildFrom(b, p, i + 1) {
      var q :| i + 1 <= q < |b| && b[q].parent == Some(p);
      assert a[q].parent == Some(p);
    }
  }

  /** Into wait, and up to the slot where the scan stops. */
  lemma WaitScans(s: State, p: int) returns (steps: seq<Step>, k: int, kids: bool)
    requires Calm(s) && Enabled(s, Wait(Enter(p))) && s.procs[p].parent != Some(p)
    ensures 0 <= k <= |s.procs| && NoZombieFrom(s.procs, p, 0, k) && (k < |s.procs| ==> ZombieChild(s.procs[k], p))
    ensures k == |s.procs| ==> (kids <==> HasChildFrom(s.procs, p, 0))
    ensures Run(s, steps) ==
      Some(s.(procs := s.procs[p := s.procs[p].(pc := Scan(k, kids))], waitLock := Some(p)))
  {
    var u := Do(s, Wait(Enter(p)));
    var rest;
    rest, k, kids := ScanAll(u, p);
    steps := [Wait(Enter(p))] + rest;
    assert steps[1..] == rest;
    assert u.procs[p := u.procs[p].(pc := Scan(k, kids))] == s.procs[p := s.procs[p].(pc := Scan(k, kids))];
    ScannedSame(s.procs, u.procs, p, k);
  }

  lemma ScannedSame(a: seq<Proc>, b: seq<Proc>, p: int, k: int)
    requires |a| == |b| && 0 <= p < |a| && 0 <= k <= |a| && b == a[p := b[p]]
    requires b[p].parent == a[p].parent && b[p].state == a[p].state
    requires NoZombieFrom(b, p, 0, k)
    ensures NoZombieFrom(a, p, 0, k)
    ensures k < |a| ==> (ZombieChild(a[k], p) <==> ZombieChild(b[k], p))
    ensures HasChildFrom(a, p, 0) <==> HasChildFrom(b, p, 0)
  {
    forall q | 0 <= q < k
      ensures !ZombieChild(a[q], p)
    {
      assert !ZombieChild(b[q], p);
    }
    if HasChildFrom(a, p, 0) {
      var q :| 0 <= q < |a| && a[q].parent == Some(p);
      assert b[q].parent == Some(p);
    }
    if HasChildFrom(b, p, 0) {
      var q :| 0 <= q < |b| && b[q].parent == Some(p);
      assert a[q].parent == Some(p);
    }
  }

  /** The slot of a collected child, as the next fork will find it. */
  predicate Emptied(x: Proc, y: Proc) {
    y.state.UNUSED? && y.pid == 0 && y.parent.None? && y.xstate == 0 && !y.killed && y.chan.None? && y.lock == x.lock
  }

  /**
   wait with a zombie child: the first one in the table is collected, with its pid and status, and its
   slot is free.
   */
  lemma WaitCollects(s: State, p: int, q: int) returns (steps: seq<Step>, t: State, k: int)
    requires Inv(s) && Calm(s) && Enabled(s, Wait(Enter(p))) && s.IsProc(q) && ZombieChild(s.procs[q], p)
    ensures Run(s, steps) == Some(t) && 0 <= k <= q && NoZombieFrom(s.procs, p, 0, k) && ZombieChild(s.procs[k], p)
    ensures k != p && |t.procs| == |s.procs| && Emptied(s.procs[k], t.procs[k])
    ensures t == s.(procs := s.procs[k := t.procs[k]][p := s.procs[p].(pc := Free)],
                    reaps := s.reaps + [Reap(s.procs[k].pid, s.procs[k].xstate, p)])
  {
    Known(s, p);
    hide Inv;
    var before, kids;
    before, k, kids := WaitScans(s, p);
    assert ZombieChild(s.procs[q], p);
    var u := s.(procs := s.procs[p := s.procs[p].(pc := Scan(k, kids))], waitLock := Some(p));
    t := Do(u, Wait(Collect(p, true)));
    steps := before + [Wait(Collect(p, true))];
    RunThen(s, before, u, Wait(Collect(p, true)));
    assert t.procs == s.procs[k := t.procs[k]][p := s.procs[p].(pc := Free)];
  }

  /** wait without a zombie child returns at once if p has no children or was killed, and nothing changes. */
  lemma WaitReturns(s: State, p: int) returns (steps: seq<Step>)
    requires Inv(s) && Calm(s) && Enabled(s, Wait(Enter(p))) && NoZombieFrom(s.procs, p, 0, |s.procs|)
    requires !HasChildFrom(s.procs, p, 0) || s.procs[p].killed
    ensures Run(s, steps) == Some(s.(procs := s.procs[p := s.procs[p].(pc := Free)]))
  {
    Known(s, p);
    hide Inv;
    var before, k, kids := WaitScans(s, p);
    var u := s.(procs := s.procs[p := s.procs[p].(pc := Scan(k, kids))], waitLock := Some(p));
    var t := Do(u, Wait(End(p)));
    steps := before + [Wait(End(p))];
    RunThen(s, before, u, Wait(End(p)));
    assert t.procs == s.procs[p := s.procs[p].(pc := Free)];
  }

  /** What is left of p once sleep has switched away from it. */
  function Asleep(x: Proc, p: int, lk: Lock): (y: Proc) {
    x.(state := SLEEPING, chan := Some(ChanOf(lk, p)), pc := SleepWoke(lk), cpu := None, lock := None)
  }

  /** sleep, from the point where p has its own lock and lk: lk is free, and p is off its CPU. */
  lemma SleepCompletes(s: State, p: int) returns (steps: seq<Step>, t: State)
    requires Runs(s, p) && s.procs[p].pc.SleepBoth? && s.HasLock(s.procs[p].pc.lk)
    requires s.IsCpu(s.procs[p].cpu.value) && s.cpus[s.procs[p].cpu.value] == Running(p)
    ensures Run(s, steps) == Some(t)
    ensures var x := s.procs[p];
      && t == s.(procs := s.procs[p := Asleep(x, p, x.pc.lk)], cpus := s.cpus[x.cpu.value := Idle],
                 waitLock := t.waitLock, locks := t.locks, mons := t.mons)
      && t.waitLock == (if x.pc.lk.WaitLock? then None else s.waitLock)
      && t.locks == (if x.pc.lk.Inner? then s.locks[x.pc.lk.l := s.locks[x.pc.lk.l].(inner := None)] else s.locks)
      && t.mons == (if x.pc.lk.Guard? then s.mons[x.pc.lk.g := s.mons[x.pc.lk.g].(holder := None)] else s.mons)
  {
    var u := Do(s, Sleep(LetGo(p)));
    var v := Do(u, Sleep(Mark(p)));
    assert v.procs == s.procs[p := v.procs[p]];
    var after;
    after, t := SwitchOut(v, p);
    assert t.procs == s.procs[p := t.procs[p]];
    steps := [Sleep(LetGo(p))] + [Sleep(Mark(p))] + after;
    hide Do, Enabled, Run;
    RunOne(s, Sleep(LetGo(p)));
    RunThen(s, [Sleep(LetGo(p))], u, Sleep(Mark(p)));
    RunBoth(s, [Sleep(LetGo(p))] + [Sleep(Mark(p))], v, after);
  }

  /** wait with children but no zombie among them goes to sleep until a child wakes it. */
  lemma WaitSleeps(s: State, p: int) returns (steps: seq<Step>, t: State)
    requires Inv(s) && Calm(s) && Enabled(s, Wait(Enter(p))) && NoZombieFrom(s.procs, p, 0, |s.procs|)
    requires HasChildFrom(s.procs, p, 0) && !s.procs[p].killed
    ensures Run(s, steps) == Some(t)
    ensures t == s.(procs := s.procs[p := Asleep(s.procs[p], p, WaitLock)],
                    cpus := s.cpus[s.procs[p].cpu.value := Idle])
  {
    Known(s, p);
    hide Inv;
    var before, k, kids := WaitScans(s, p);
    var u := s.(procs := s.procs[p := s.procs[p].(pc := Scan(k, kids))], waitLock := Some(p));
    var v := Do(u, Wait(End(p)));
    assert v.procs[p] == s.procs[p].(lock := s.procs[p].cpu, pc := SleepBoth(WaitLock));
    var after;
    after, t := SleepCompletes(v, p);
    assert t.procs == s.procs[p := t.procs[p]];
    steps := before + [Wait(End(p))] + after;
    hide Do, Enabled, Run;
    RunThen(s, before, u, Wait(End(p)));
    RunBoth(s, before + [Wait(End(p))], v, after);
  }

  // ---------------------------------------------------------------- yield, sleep and wakeup

  /** A runnable process that was preempted, scheduled on CPU c. */
  lemma Resumes(s: State, p: int, c: int) returns (t: State)
    requires s.IsProc(p) && s.procs[p].state.RUNNABLE? && s.procs[p].lock.None? && s.procs[p].mode.Resumed?
    requires s.IsCpu(c) && s.cpus[c].Idle?
    ensures Run(s, [Sched(Schedule(c, p))] + [Sched(DropOwn(p))]) == Some(t)
    ensures t == s.(procs := s.procs[p := s.procs[p].(state := RUNNING, mode := Straight, cpu := Some(c))],
                    cpus := s.cpus[c := Running(p)])
  {
    var u := Do(s, Sched(Schedule(c, p)));
    t := Do(u, Sched(DropOwn(p)));
    assert t.procs == s.procs[p := t.procs[p]];
    hide Do, Enabled, Run;
    RunOne(s, Sched(Schedule(c, p)));
    RunThen(s, [Sched(Schedule(c, p))], u, Sched(DropOwn(p)));
  }

  /** A process that is preempted and scheduled again on its CPU goes on as if nothing had happened. */
  lemma YieldTransparent(s: State, p: int) returns (steps: seq<Step>)
    requires Inv(s) && Enabled(s, Sched(Yield(p)))
    ensures Run(s, [Sched(Yield(p))] + steps) == Some(s)
  {
    Known(s, p);
    hide Inv;
    var c := s.procs[p].cpu.value;
    var u := Do(s, Sched(Yield(p)));
    var out, v := SwitchOut(u, p);
    var t := Resumes(v, p, c);
    assert t.procs == s.procs && t.cpus == s.cpus;
    steps := out + ([Sched(Schedule(c, p))] + [Sched(DropOwn(p))]);
    hide Do, Enabled, Run;
    RunOne(s, Sched(Yield(p)));
    RunBoth(u, out, v, [Sched(Schedule(c, p))] + [Sched(DropOwn(p))]);
    RunBoth(s, [Sched(Yield(p))], u, steps);
  }

  /** sleep(ch) under spin lock g. */
  lemma SleepOnCompletes(s: State, p: int, ch: int) returns (steps: seq<Step>, t: State)
    requires Inv(s) && Enabled(s, Guarding(SleepOn(p, ch)))
    ensures Run(s, steps) == Some(t)
    ensures var g, x := s.procs[p].pc.g, s.procs[p];
      t == s.(procs := s.procs[p := Asleep(x, p, Guard(g, ch))], cpus := s.cpus[x.cpu.value := Idle],
              mons := s.mons[g := s.mons[g].(holder := None)])
  {
    Known(s, p);
    hide Inv;
    var u := Do(s, Guarding(SleepOn(p, ch)));
    var after;
    after, t := SleepCompletes(u, p);
    assert t.procs == s.procs[p := t.procs[p]];
    steps := [Guarding(SleepOn(p, ch))] + after;
    hide Do, Enabled, Run;
    RunOne(s, Guarding(SleepOn(p, ch)));
    RunBoth(s, [Guarding(SleepOn(p, ch))], u, after);
  }

  /** A process that was woken, scheduled on a free CPU, comes back from sleep with its spin lock held. */
  lemma SleepReturns(s: State, p: int, c: int) returns (t: State)
    requires s.IsProc(p) && s.procs[p].state.RUNNABLE? && s.procs[p].lock.None? && s.procs[p].mode.Straight?
    requires s.procs[p].pc.SleepWoke? && s.procs[p].pc.lk.Guard? && s.IsMon(s.procs[p].pc.lk.g)
    requires Unheld(s.mons[s.procs[p].pc.lk.g]) && s.IsCpu(c) && s.cpus[c].Idle?
    ensures var g := s.procs[p].pc.lk.g;
      && Run(s, [Sched(Schedule(c, p))] + [Sleep(Unlocked(p))] + [Guarding(Acquire(p, g))]) == Some(t)
      && t == s.(procs := s.procs[p := s.procs[p].(state := RUNNING, chan := None, pc := Inside(g), cpu := Some(c))],
                 cpus := s.cpus[c := Running(p)], mons := s.mons[g := s.mons[g].(holder := Some(p))])
  {
    var g := s.procs[p].pc.lk.g;
    var u := Do(s, Sched(Schedule(c, p)));
    var v := Do(u, Sleep(Unlocked(p)));
    t := Do(v, Guarding(Acquire(p, g)));
    assert t.procs == s.procs[p := t.procs[p]];
    hide Do, Enabled, Run;
    RunOne(s, Sched(Schedule(c, p)));
    RunThen(s, [Sched(Schedule(c, p))], u, Sleep(Unlocked(p)));
    RunThen(s, [Sched(Schedule(c, p))] + [Sleep(Unlocked(p))], v, Guarding(Acquire(p, g)));
  }

  lemma {:induction false} RingAll(s: State, p: int) returns (steps: seq<Step>, t: State)
    requires Calm(s) && Runs(s, p) && s.procs[p].pc.Ring? && 0 <= s.procs[p].pc.j <= |s.procs|
    requires s.IsMon(s.procs[p].pc.g) && s.mons[s.procs[p].pc.g].woken == s.procs[p].pc.j
    ensures Run(s, steps) == Some(t)
    ensures var g := s.procs[p].pc.g; t == s.(procs := t.procs, mons := s.mons[g := s.mons[g].(woken := |s.procs|)])
    ensures var pc := s.procs[p].pc;
      WokenFrom(s.procs, t.procs, p, pc.j, Some(OnChan(pc.g, pc.ch)), Ring(pc.g, pc.ch, |s.procs|))
    decreases |s.procs| - s.procs[p].pc.j
  {
    var g, j, ch := s.procs[p].pc.g, s.procs[p].pc.j, s.procs[p].pc.ch;
    if j == |s.procs| {
      steps, t := [], s;
      assert s.mons == s.mons[g := s.mons[g].(woken := |s.procs|)];
      WokenNone(s.procs, p, Some(OnChan(g, ch)));
    } else {
      hide WokenFrom;
      var step := Guarding(RingNext(p));
      var u := Do(s, step);
      var woken := s.procs[j := Woken(s.procs[j], Some(OnChan(g, ch)))];
      assert u == s.(procs := woken[p := s.procs[p].(pc := Ring(g, ch, j + 1))],
                     mons := s.mons[g := s.mons[g].(woken := j + 1)]);
      RunOne(s, step);
      hide Do, Enabled, Run;
      var rest;
      rest, t := RingAll(u, p);
      steps := [step] + rest;
      RunBoth(s, [step], u, rest);
      assert t.mons == s.mons[g := s.mons[g].(woken := |s.procs|)];
      WokenOne(s.procs, u.procs, t.procs, p, j, Some(OnChan(g, ch)), Ring(g, ch, j + 1), Ring(g, ch, |s.procs|));
    }
  }

  /** wakeup(ch): exactly the processes asleep on ch are RUNNABLE, and p goes on under its lock. */
  lemma WakeupCompletes(s: State, p: int, ch: int) returns (steps: seq<Step>, t: State)
    requires Inv(s) && Calm(s) && Enabled(s, Guarding(Wakeup(p, ch)))
    ensures Run(s, steps) == Some(t) && |t.procs| == |s.procs| && t.procs[p] == s.procs[p]
    ensures var g := s.procs[p].pc.g;
      && (forall q :: s.IsProc(q) && q != p ==> t.procs[q] == Woken(s.procs[q], Some(OnChan(g, ch))))
      && t == s.(procs := t.procs, mons := s.mons[g := s.mons[g].(chan := ch, woken := 0)])
  {
    var g := s.procs[p].pc.g;
    assert OnMonitor(s, g, p);
    hide Inv;
    var u := Do(s, Guarding(Wakeup(p, ch)));
    var rings, v := RingAll(u, p);
    t := Do(v, Guarding(RingDone(p)));
    assert t.mons == s.mons[g := s.mons[g].(chan := ch, woken := 0)];
    steps := [Guarding(Wakeup(p, ch))] + rings + [Guarding(RingDone(p))];
    hide Do, Enabled, Run;
    RunOne(s, Guarding(Wakeup(p, ch)));
    RunBoth(s, [Guarding(Wakeup(p, ch))], u, rings);
    RunThen(s, [Guarding(Wakeup(p, ch))] + rings, v, Guarding(RingDone(p)));
  }

  // ---------------------------------------------------------------- sleep locks

  lemma {:induction false} GiveAll(s: State, p: int) returns (steps: seq<Step>, t: State)
    requires Calm(s) && Runs(s, p) && s.procs[p].pc.GiveWake? && 0 <= s.procs[p].pc.j <= |s.procs|
    requires s.IsLock(s.procs[p].pc.l) && s.locks[s.procs[p].pc.l].woken == s.procs[p].pc.j
    ensures Run(s, steps) == Some(t)
    ensures var l := s.procs[p].pc.l; t == s.(procs := t.procs, locks := s.locks[l := s.locks[l].(woken := |s.procs|)])
    ensures var pc := s.procs[p].pc;
      WokenFrom(s.procs, t.procs, p, pc.j, Some(OnLock(pc.l)), GiveWake(pc.l, |s.procs|))
    decreases |s.procs| - s.procs[p].pc.j
  {
    var l, j := s.procs[p].pc.l, s.procs[p].pc.j;
    if j == |s.procs| {
      steps, t := [], s;
      assert s.locks == s.locks[l := s.locks[l].(woken := |s.procs|)];
      WokenNone(s.procs, p, Some(OnLock(l)));
    } else {
      hide WokenFrom;
      var step := Locking(GiveNext(p));
      var u := Do(s, step);
      var woken := s.procs[j := Woken(s.procs[j], Some(OnLock(l)))];
      assert u == s.(procs := woken[p := s.procs[p].(pc := GiveWake(l, j + 1))],
                     locks := s.locks[l := s.locks[l].(woken := j + 1)]);
      RunOne(s, step);
      hide Do, Enabled, Run;
      var rest;
      rest, t := GiveAll(u, p);
      steps := [step] + rest;
      RunBoth(s, [step], u, rest);
      assert t.locks == s.locks[l := s.locks[l].(woken := |s.procs|)];
      WokenOne(s.procs, u.procs, t.procs, p, j, Some(OnLock(l)), GiveWake(l, j + 1), GiveWake(l, |s.procs|));
    }
  }

  /** releasesleep: the lock is free, p has it no more, and exactly the processes asleep on it are RUNNABLE. */
  lemma ReleaseCompletes(s: State, p: int, l: int) returns (steps: seq<Step>, t: State)
    requires Inv(s) && Calm(s) && Enabled(s, Locking(Give(p, l)))
    ensures Run(s, steps) == Some(t) && |t.procs| == |s.procs|
    ensures t.procs[p] == s.procs[p].(has := s.procs[p].has - {l})
    ensures forall q :: s.IsProc(q) && q != p ==> t.procs[q] == Woken(s.procs[q], Some(OnLock(l)))
    ensures t == s.(procs := t.procs, locks := s.locks[l := SleepLock(None, false, 0, None, |s.procs|)])
  {
    hide Inv;
    var u := Do(s, Locking(Give(p, l)));
    var wakes, v := GiveAll(u, p);
    t := Do(v, Locking(GiveDone(p)));
    assert t.locks == s.locks[l := t.locks[l]];
    steps := [Locking(Give(p, l))] + wakes + [Locking(GiveDone(p))];
    hide Do, Enabled, Run;
    RunOne(s, Locking(Give(p, l)));
    RunBoth(s, [Locking(Give(p, l))], u, wakes);
    RunThen(s, [Locking(Give(p, l))] + wakes, v, Locking(GiveDone(p)));
  }

  /** acquiresleep of a free lock takes it; of a held one it goes to sleep on it. */
  lemma AcquireCompletes(s: State, p: int, l: int) returns (steps: seq<Step>, t: State)
    requires Inv(s) && Enabled(s, Locking(Take(p, l)))
    ensures Run(s, steps) == Some(t)
    ensures var x, k := s.procs[p], s.locks[l];
      if k.locked then
        t == s.(procs := s.procs[p := Asleep(x, p, Inner(l))], cpus := s.cpus[x.cpu.value := Idle])
      else
        t == s.(procs := s.procs[p := x.(has := x.has + {l}, pc := Free)],
                locks := s.locks[l := k.(locked := true, pid := x.pid, owner := Some(p))])
  {
    Known(s, p);
    hide Inv;
    var u := Do(s, Locking(Take(p, l)));
    RunOne(s, Locking(Take(p, l)));
    steps, t := [Locking(Take(p, l))], u;
    if s.locks[l].locked {
      var after;
      after, t := SleepCompletes(u, p);
      assert t.procs == s.procs[p := t.procs[p]] && t.locks == s.locks;
      hide Do, Enabled, Run;
      RunBoth(s, steps, u, after);
      steps := steps + after;
    }
  }
}
