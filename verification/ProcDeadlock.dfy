/**
 Freedom from deadlock: from every reachable state the holders of spin locks can go on by themselves
 until every spin lock, p->lock, wait_lock or other, is free.
 */
module ProcDeadlock {
  import opened Basics
  import opened ProcState
  import opened ProcSteps
  import opened ProcProofs
  import opened Processes
  import opened ProcRuns
  import opened ProcOps

  // ---------------------------------------------------------------- process locks

  /** The tables keep their sizes, and the locks of all processes but q are as they were. */
  ghost predicate OthersLocked(s: State, t: State, q: int) {
    |t.procs| == |s.procs| && forall r :: s.IsProc(r) && r != q ==> t.procs[r].lock == s.procs[r].lock
  }

  /** A process on a CPU that has its own lock gives it up. */
  lemma DropsOwn(s: State, q: int) returns (steps: seq<Step>, t: State)
    requires Solo(s, q) && s.procs[q].lock.Some? && s.procs[q].cpu.Some?
    requires s.IsCpu(s.procs[q].cpu.value) && s.cpus[s.procs[q].cpu.value] == Running(q)
    ensures Run(s, steps) == Some(t) && OthersLocked(s, t, q) && t.procs[q].lock.None?
  {
    var x := s.procs[q];
    assert HoldsOwn(x) && !x.pc.Dead?;
    if x.mode.Resumed? {
      steps, t := [Sched(DropOwn(q))], Do(s, Sched(DropOwn(q)));
      RunOne(s, Sched(DropOwn(q)));
    } else if x.mode.Yielding? || x.pc.SleepSwitch? || x.pc.ExitSwitch? {
      steps, t := SwitchOut(s, q);
    } else if x.pc.SleepBoth? {
      steps, t := SleepCompletes(s, q);
    } else if x.pc.SleepOwn? {
      steps, t := MarkAndSwitch(s, q);
    } else {
      steps, t := [Sleep(Unlocked(q))], Do(s, Sleep(Unlocked(q)));
      RunOne(s, Sleep(Unlocked(q)));
    }
  }

  lemma MarkAndSwitch(s: State, q: int) returns (steps: seq<Step>, t: State)
    requires Runs(s, q) && s.procs[q].pc.SleepOwn?
    requires s.IsCpu(s.procs[q].cpu.value) && s.cpus[s.procs[q].cpu.value] == Running(q)
    ensures Run(s, steps) == Some(t) && OthersLocked(s, t, q) && t.procs[q].lock.None?
  {
    var u := Do(s, Sleep(Mark(q)));
    var out;
    out, t := SwitchOut(u, q);
    RunOne(s, Sleep(Mark(q)));
    RunBoth(s, [Sleep(Mark(q))], u, out);
    steps := [Sleep(Mark(q))] + out;
  }

  lemma Unlocks(s: State, q: int) returns (steps: seq<Step>, t: State)
    requires Inv(s) && s.IsProc(q) && s.procs[q].lock.Some?
    ensures Run(s, steps) == Some(t) && OthersLocked(s, t, q) && t.procs[q].lock.None? && Inv(t)
  {
    Known(s, q);
    var c := s.procs[q].lock.value;
    if s.procs[q].cpu.Some? {
      steps, t := DropsOwn(s, q);
    } else {
      assert OnCpu(s, c, q);
      steps, t := [Sched(Unlock(c))], Do(s, Sched(Unlock(c)));
      RunOne(s, Sched(Unlock(c)));
    }
    RunsAreSafe(s, steps);
  }

  lemma {:induction false} CalmsDown(s: State, k: int) returns (steps: seq<Step>, t: State)
    requires Inv(s) && 0 <= k <= |s.procs| && forall q :: 0 <= q < k ==> s.procs[q].lock.None?
    ensures Run(s, steps) == Some(t) && Inv(t) && Calm(t)
    decreases |s.procs| - k
  {
    hide Inv, Run;
    if k == |s.procs| {
      steps, t := [], s;
      RunNone(s);
    } else if s.procs[k].lock.None? {
      steps, t := CalmsDown(s, k + 1);
    } else {
      var a, u := Unlocks(s, k);
      var b;
      b, t := CalmsDown(u, k + 1);
      RunBoth(s, a, u, b);
      steps := a + b;
    }
  }

  lemma RunNone(s: State)
    ensures Run(s, []) == Some(s)
  {
  }

  // ---------------------------------------------------------------- other spin locks

  /** At this program counter a process holds wait_lock, the inside of a sleep lock, or another spin lock. */
  predicate HoldsSpin(pc: Pc) {
    HoldsWait(pc) || pc.GiveWake? || pc.Inside? || pc.Ring? || pc.SleepBoth?
  }

  /** Process p holds no spin lock any more, and nobody took one. */
  ghost predicate Freer(s: State, t: State, p: int) {
    && Calm(t) && |t.procs| == |s.procs| && s.IsProc(p) && !HoldsSpin(t.procs[p].pc)
    && forall q :: s.IsProc(q) && HoldsSpin(t.procs[q].pc) ==> HoldsSpin(s.procs[q].pc)
  }

  /** What the invariant says of a process that runs. */
  ghost predicate RunsOk(s: State, p: int) {
    && Calm(s) && Runs(s, p) && Solo(s, p)
    && s.IsCpu(s.procs[p].cpu.value) && s.cpus[s.procs[p].cpu.value] == Running(p)
  }

  lemma WaitEnds(s: State, p: int) returns (steps: seq<Step>, t: State)
    requires RunsOk(s, p) && s.procs[p].pc.Scan?
    ensures Run(s, steps) == Some(t) && Freer(s, t, p)
  {
    var before, k, kids := ScanAll(s, p);
    var u := s.(procs := s.procs[p := s.procs[p].(pc := Scan(k, kids))]);
    var step := if k < |s.procs| then Wait(Collect(p, true)) else Wait(End(p));
    t := Do(u, step);
    RunThen(s, before, u, step);
    steps := before + [step];
    if t.procs[p].pc.SleepBoth? {
      var v := t;
      var after;
      after, t := SleepCompletes(v, p);
      RunBoth(s, steps, v, after);
      steps := steps + after;
    }
  }

  lemma GivesFree(a: seq<Proc>, b: seq<Proc>, p: int, init: int, i: int)
    requires Reparented(a, b, p, init, i)
    ensures |a| == |b| && forall q :: 0 <= q < |a| ==> b[q].lock == a[q].lock && (q != p ==> b[q].pc == a[q].pc)
  {
  }

  /** exit from where it wakes the parent. */
  lemma ExitEndsLate(s: State, p: int) returns (steps: seq<Step>, t: State)
    requires Calm(s) && Runs(s, p) && s.procs[p].pc.WakeParent? && 0 <= s.procs[p].pc.j <= |s.procs|
    requires s.IsCpu(s.procs[p].cpu.value) && s.cpus[s.procs[p].cpu.value] == Running(p)
    ensures Run(s, steps) == Some(t) && Freer(s, t, p)
  {
    hide WokenFrom;
    var wakes, u := WakesParentAll(s, p);
    StillCalm(s.procs, u.procs, p, s.procs[p].pc.j, ParentChan(s.procs[p]), WakeParent(|s.procs|));
    var step := Exit(BecomeZombie(p, 0));
    var v := Do(u, step);
    var out;
    out, t := SwitchOut(v, p);
    hide Run;
    RunThen(s, wakes, u, step);
    RunBoth(s, wakes + [step], v, out);
    steps := wakes + [step] + out;
  }

  lemma ExitEndsMiddle(s: State, p: int) returns (steps: seq<Step>, t: State)
    requires Calm(s) && Runs(s, p) && s.procs[p].pc.Reparent? && 0 <= s.procs[p].pc.i <= |s.procs|
    requires s.initWoken == |s.procs| && s.init != p && s.procs[p].parent != Some(p)
    requires s.IsCpu(s.procs[p].cpu.value) && s.cpus[s.procs[p].cpu.value] == Running(p)
    ensures Run(s, steps) == Some(t) && Freer(s, t, p)
  {
    hide Reparented, Run, Do;
    var gives, u := ReparentAll(s, p);
    ReparentedCalm(s.procs, u.procs, p, s.init, s.procs[p].pc.i);
    GivesFree(s.procs, u.procs, p, s.init, s.procs[p].pc.i);
    var late;
    late, t := ExitEndsLate(u, p);
    RunBoth(s, gives, u, late);
    steps := gives + late;
  }

  lemma ExitEndsEarly(s: State, p: int) returns (steps: seq<Step>, t: State)
    requires Calm(s) && Runs(s, p) && s.procs[p].pc.WakeInit? && 0 <= s.procs[p].pc.j <= |s.procs|
    requires 0 <= s.procs[p].pc.i < |s.procs|
    requires s.initWoken == s.procs[p].pc.j && s.init != p && s.procs[p].parent != Some(p)
    requires s.IsCpu(s.procs[p].cpu.value) && s.cpus[s.procs[p].cpu.value] == Running(p)
    ensures Run(s, steps) == Some(t) && Freer(s, t, p)
  {
    hide WokenFrom;
    var i, j := s.procs[p].pc.i, s.procs[p].pc.j;
    var wakes, u := WakesInitAll(s, p);
    StillCalm(s.procs, u.procs, p, j, Some(OnProc(s.init)), WakeInit(i, |s.procs|));
    var v := Do(u, Exit(InitDone(p)));
    hide Run;
    RunThen(s, wakes, u, Exit(InitDone(p)));
    hide Do, Enabled;
    var late;
    late, t := ExitEndsMiddle(v, p);
    RunBoth(s, wakes + [Exit(InitDone(p))], v, late);
    steps := wakes + [Exit(InitDone(p))] + late;
  }

  lemma ReleaseEnds(s: State, p: int) returns (steps: seq<Step>, t: State)
    requires RunsOk(s, p) && s.procs[p].pc.GiveWake? && s.locks[s.procs[p].pc.l].woken == s.procs[p].pc.j
    ensures Run(s, steps) == Some(t) && Freer(s, t, p)
  {
    hide WokenFrom;
    var l, j := s.procs[p].pc.l, s.procs[p].pc.j;
    var wakes, u := GiveAll(s, p);
    StillCalm(s.procs, u.procs, p, j, Some(OnLock(l)), GiveWake(l, |s.procs|));
    t := Do(u, Locking(GiveDone(p)));
    RunThen(s, wakes, u, Locking(GiveDone(p)));
    steps := wakes + [Locking(GiveDone(p))];
  }

  lemma InsideEnds(s: State, p: int) returns (t: State)
    requires RunsOk(s, p) && s.procs[p].pc.Inside?
    ensures Run(s, [Guarding(Release(p))]) == Some(t) && Freer(s, t, p)
  {
    t := Do(s, Guarding(Release(p)));
    RunOne(s, Guarding(Release(p)));
  }

  lemma WakeupEnds(s: State, p: int) returns (steps: seq<Step>, t: State)
    requires RunsOk(s, p) && s.procs[p].pc.Ring? && s.mons[s.procs[p].pc.g].woken == s.procs[p].pc.j
    ensures Run(s, steps) == Some(t) && Freer(s, t, p)
  {
    hide WokenFrom;
    var g, ch, j := s.procs[p].pc.g, s.procs[p].pc.ch, s.procs[p].pc.j;
    var rings, u := RingAll(s, p);
    StillCalm(s.procs, u.procs, p, j, Some(OnChan(g, ch)), Ring(g, ch, |s.procs|));
    var v := Do(u, Guarding(RingDone(p)));
    t := Do(v, Guarding(Release(p)));
    RunThen(s, rings, u, Guarding(RingDone(p)));
    RunThen(s, rings + [Guarding(RingDone(p))], v, Guarding(Release(p)));
    steps := rings + [Guarding(RingDone(p))] + [Guarding(Release(p))];
  }

  /** While no process lock is held, a process that holds a spin lock gets to where it lets go of it. */
  lemma LetsGo(s: State, p: int) returns (steps: seq<Step>, t: State)
    requires Inv(s) && Calm(s) && s.IsProc(p) && HoldsSpin(s.procs[p].pc)
    ensures Run(s, steps) == Some(t) && Freer(s, t, p) && Inv(t)
  {
    Known(s, p);
    var pc := s.procs[p].pc;
    if pc.GiveWake? {
      assert OnSleepLock(s, pc.l, p);
    }
    if pc.Ring? {
      assert OnMonitor(s, pc.g, p);
    }
    hide Run, Enabled, Do;
    steps, t := LetsGoBy(s, p);
    RunsAreSafe(s, steps);
  }

  lemma LetsGoBy(s: State, p: int) returns (steps: seq<Step>, t: State)
    requires Calm(s) && Solo(s, p) && HoldsSpin(s.procs[p].pc)
    requires s.procs[p].cpu.Some? ==> s.IsCpu(s.procs[p].cpu.value) && s.cpus[s.procs[p].cpu.value] == Running(p)
    requires s.procs[p].pc.GiveWake? ==> s.locks[s.procs[p].pc.l].woken == s.procs[p].pc.j
    requires s.procs[p].pc.Ring? ==> s.mons[s.procs[p].pc.g].woken == s.procs[p].pc.j
    ensures Run(s, steps) == Some(t) && Freer(s, t, p)
  {
    var pc := s.procs[p].pc;
    assert RunsOk(s, p) && !pc.SleepBoth?;
    hide Run, Enabled, Do, Freer;
    if pc.Scan? {
      steps, t := WaitEnds(s, p);
    } else if pc.Reparent? {
      steps, t := ExitEndsMiddle(s, p);
    } else if pc.WakeInit? {
      steps, t := ExitEndsEarly(s, p);
    } else if pc.WakeParent? {
      steps, t := ExitEndsLate(s, p);
    } else if pc.GiveWake? {
      steps, t := ReleaseEnds(s, p);
    } else if pc.Inside? {
      steps := [Guarding(Release(p))];
      t := InsideEnds(s, p);
    } else {
      steps, t := WakeupEnds(s, p);
    }
  }

  lemma {:induction false} AllLetGo(s: State, k: int) returns (steps: seq<Step>, t: State)
    requires Inv(s) && Calm(s) && 0 <= k <= |s.procs| && forall q :: 0 <= q < k ==> !HoldsSpin(s.procs[q].pc)
    ensures Run(s, steps) == Some(t) && Inv(t) && Calm(t)
    ensures forall q :: t.IsProc(q) ==> !HoldsSpin(t.procs[q].pc)
    decreases |s.procs| - k
  {
    hide Inv, Run, HoldsSpin, Calm;
    if k == |s.procs| {
      steps, t := [], s;
      RunNone(s);
    } else if !HoldsSpin(s.procs[k].pc) {
      steps, t := AllLetGo(s, k + 1);
    } else {
      var a, u := LetsGo(s, k);
      var b;
      b, t := AllLetGo(u, k + 1);
      RunBoth(s, a, u, b);
      steps := a + b;
    }
  }

  // ---------------------------------------------------------------- interrupt handlers

  /** A wakeup in progress in handler h goes on to its end. */
  lemma {:induction false} HandlerEnds(s: State, h: int) returns (steps: seq<Step>, t: State)
    requires Calm(s) && s.IsHandler(h) && s.handlers[h].Ringing? && s.IsMon(s.handlers[h].g)
    requires 0 <= s.handlers[h].j <= |s.procs|
    ensures Run(s, steps) == Some(t) && |t.procs| == |s.procs|
    ensures var g := s.handlers[h].g;
      t == s.(procs := t.procs, handlers := s.handlers[h := Quiet],
              mons := s.mons[g := s.mons[g].(handler := None, woken := 0)])
    ensures var y := s.handlers[h]; forall q :: s.IsProc(q) ==>
      t.procs[q] == if q >= y.j then Woken(s.procs[q], Some(OnChan(y.g, y.ch))) else s.procs[q]
    decreases |s.procs| - s.handlers[h].j
  {
    var y := s.handlers[h];
    if y.j == |s.procs| {
      steps, t := [Interrupt(IntrDone(h))], Do(s, Interrupt(IntrDone(h)));
      RunOne(s, Interrupt(IntrDone(h)));
    } else {
      var u := Do(s, Interrupt(IntrNext(h)));
      var rest;
      rest, t := HandlerEnds(u, h);
      steps := [Interrupt(IntrNext(h))] + rest;
      assert steps[1..] == rest;
      assert t.mons == s.mons[y.g := s.mons[y.g].(handler := None, woken := 0)];
    }
  }

  /** The wakeup of an interrupt handler: exactly the processes asleep on the channel are RUNNABLE. */
  lemma InterruptCompletes(s: State, h: int, g: int, ch: int) returns (steps: seq<Step>, t: State)
    requires Calm(s) && s.IsHandler(h) && s.handlers[h].Quiet? && s.IsMon(g) && Unheld(s.mons[g])
    ensures Run(s, [Interrupt(IntrBegin(h, g, ch))] + steps) == Some(t) && |t.procs| == |s.procs|
    ensures forall q :: s.IsProc(q) ==> t.procs[q] == Woken(s.procs[q], Some(OnChan(g, ch)))
    ensures t == s.(procs := t.procs, mons := s.mons[g := s.mons[g].(chan := ch, woken := 0)])
  {
    var u := Do(s, Interrupt(IntrBegin(h, g, ch)));
    steps, t := HandlerEnds(u, h);
    assert t.mons == s.mons[g := s.mons[g].(chan := ch, woken := 0)] && t.handlers == s.handlers;
    RunOne(s, Interrupt(IntrBegin(h, g, ch)));
    RunBoth(s, [Interrupt(IntrBegin(h, g, ch))], u, steps);
  }

  lemma HandlerKnown(s: State, h: int)
    requires Inv(s) && s.IsHandler(h) && s.handlers[h].Ringing?
    ensures s.IsMon(s.handlers[h].g) && 0 <= s.handlers[h].j <= |s.procs|
  {
  }

  lemma {:induction false} HandlersEnd(s: State, k: int) returns (steps: seq<Step>, t: State)
    requires Inv(s) && Calm(s) && 0 <= k <= |s.handlers| && forall h :: 0 <= h < k ==> s.handlers[h].Quiet?
    ensures Run(s, steps) == Some(t) && Inv(t) && Calm(t) && forall h :: t.IsHandler(h) ==> t.handlers[h].Quiet?
    ensures |t.procs| == |s.procs| && forall q :: s.IsProc(q) ==> t.procs[q].pc == s.procs[q].pc
    decreases |s.handlers| - k
  {
    hide Run;
    if k == |s.handlers| {
      steps, t := [], s;
      RunNone(s);
    } else if s.handlers[k].Quiet? {
      steps, t := HandlersEnd(s, k + 1);
    } else {
      HandlerKnown(s, k);
      hide Inv;
      var a, u := HandlerEnds(s, k);
      RunsAreSafe(s, a);
      var b;
      b, t := HandlersEnd(u, k + 1);
      RunBoth(s, a, u, b);
      steps := a + b;
    }
  }

  // ---------------------------------------------------------------- no deadlock

  /** Every spin lock is free. */
  ghost predicate AllFree(s: State) {
    && Calm(s) && s.waitLock.None?
    && (forall l :: s.IsLock(l) ==> s.locks[l].inner.None?)
    && (forall g :: s.IsMon(g) ==> Unheld(s.mons[g]))
  }

  lemma NobodyHolds(s: State)
    requires Inv(s) && Calm(s) && forall q :: s.IsProc(q) ==> !HoldsSpin(s.procs[q].pc)
    requires forall h :: s.IsHandler(h) ==> s.handlers[h].Quiet?
    ensures AllFree(s)
  {
    assert s.IsProc(s.init);
    forall p | s.IsProc(p)
      ensures s.waitLock != Some(p)
    {
      assert Solo(s, p);
    }
    forall l, p | s.IsLock(l) && s.IsProc(p)
      ensures s.locks[l].inner != Some(p)
    {
      assert OnSleepLock(s, l, p);
    }
    forall g, p | s.IsMon(g) && s.IsProc(p)
      ensures s.mons[g].holder != Some(p)
    {
      assert OnMonitor(s, g, p);
    }
    forall g, h | s.IsMon(g) && s.IsHandler(h)
      ensures s.mons[g].handler != Some(h)
    {
      assert OnHandler(s, g, h);
    }
    forall l | s.IsLock(l)
      ensures s.locks[l].inner.None?
    {
      assert OnSleepLock(s, l, s.init);
    }
    forall g | s.IsMon(g)
      ensures Unheld(s.mons[g])
    {
      assert OnMonitor(s, g, s.init);
    }
  }

  /** While every spin lock is free, a process in user code can begin every operation. */
  lemma NothingRefused(s: State, p: int)
    requires AllFree(s) && Runs(s, p) && s.procs[p].pc.Free?
    ensures Enabled(s, Sched(Yield(p))) && Enabled(s, Wait(Enter(p)))
    ensures s.procs[p].has == {} && p != s.init ==> Enabled(s, Exit(Begin(p)))
    ensures forall q :: s.IsProc(q) ==> Enabled(s, Sched(Kill(p, q)))
    ensures forall np :: s.IsProc(np) && s.procs[np].state.UNUSED? ==>
      Enabled(s, Fork(Alloc(p, np))) && Enabled(s, Fork(AllocFails(p, np)))
    ensures forall l :: s.IsLock(l) ==> Enabled(s, Locking(Take(p, l)))
    ensures forall l :: s.IsLock(l) && l in s.procs[p].has ==> Enabled(s, Locking(Give(p, l)))
    ensures forall g :: s.IsMon(g) ==> Enabled(s, Guarding(Acquire(p, g)))
    ensures forall h, g, ch :: s.IsHandler(h) && s.handlers[h].Quiet? && s.IsMon(g) ==>
      Enabled(s, Interrupt(IntrBegin(h, g, ch)))
  {
  }

  /** Under a spin lock it can sleep, wake others up, and let go. */
  lemma InsideNothingRefused(s: State, p: int, ch: int)
    requires Calm(s) && Runs(s, p) && s.procs[p].pc.Inside? && s.IsMon(s.procs[p].pc.g)
    ensures Enabled(s, Guarding(SleepOn(p, ch))) && Enabled(s, Guarding(Wakeup(p, ch)))
    ensures Enabled(s, Guarding(Release(p)))
  {
  }

  /** From every reachable state there is a run after which every spin lock is free. */
  lemma NoDeadlock(s: State) returns (steps: seq<Step>, t: State)
    requires Reachable(s)
    ensures Run(s, steps) == Some(t) && AllFree(t)
  {
    ReachableOk(s);
    hide Inv, Run, Reachable, HoldsSpin, AllFree;
    var a, u := CalmsDown(s, 0);
    var b, v := AllLetGo(u, 0);
    var c;
    c, t := HandlersEnd(v, 0);
    RunBoth(u, b, v, c);
    RunBoth(s, a, u, b + c);
    NobodyHolds(t);
    steps := a + (b + c);
  }
}
