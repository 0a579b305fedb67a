/**
 Every step of the process machine keeps the invariant.

 A step changes the process p it acts for and at most one other process q, so the invariant, which
 relates at most two processes or one process with one CPU or lock, is proved for p, for q,
 and for an arbitrary other choice of these.
 */
module ProcProofs {
  import opened Basics
  import opened ProcState
  import opened ProcSteps

  /** The process whose part of the state a scheduler step changes. */
  function SchedActor(s: State, step: SchedStep): (p: int) {
    if step.Unlock? || step.Switch? then
      if s.IsCpu(step.c) && !s.cpus[step.c].Idle? then s.cpus[step.c].p else s.init
    else step.p
  }

  /** The other process that p's next step looks at or changes. */
  function Other(s: State, p: int): (q: int)
    requires s.IsProc(p)
  {
    var pc := s.procs[p].pc;
    var q := if pc.Forking? || pc.ForkStart? then pc.np
             else if pc.Scan? || pc.Reparent? then pc.i
             else if pc.WakeInit? || pc.WakeParent? || pc.GiveWake? || pc.Ring? then pc.j
             else p;
    if s.IsProc(q) then q else p
  }

  predicate Allocates(step: ForkStep) { step.Alloc? || step.AllocFails? }

  ghost predicate SameRole(s: State, t: State, a: int) {
    |s.procs| == |t.procs| && s.IsProc(a) && RoleOf(s.procs[a], |s.procs|) == RoleOf(t.procs[a], |s.procs|)
  }

  // ---------------------------------------------------------------- one process

  lemma SchedSelf(s: State, step: SchedStep, p: int, q: int)
    requires SchedEnabled(s, step) && EnvOk(s.Ctx()) && p == SchedActor(s, step)
    requires q == (if step.Kill? then step.q else p)
    requires Solo(s, p) && Solo(s, q) && (step.Schedule? || step.Unlock? || step.Switch? ==> OnCpu(s, step.c, p))
    ensures Solo(DoSched(s, step), p)
  {
    hide EnvOk;
  }

  lemma SchedTouched(s: State, step: SchedStep, p: int, q: int)
    requires SchedEnabled(s, step) && EnvOk(s.Ctx()) && p == SchedActor(s, step)
    requires q == (if step.Kill? then step.q else p)
    requires Solo(s, p) && Solo(s, q) && (step.Schedule? || step.Unlock? || step.Switch? ==> OnCpu(s, step.c, p))
    requires p != q
    ensures Solo(DoSched(s, step), q)
  {
  }

  lemma SchedOthers(s: State, step: SchedStep, p: int, q: int, a: int)
    requires SchedEnabled(s, step) && EnvOk(s.Ctx()) && p == SchedActor(s, step)
    requires q == (if step.Kill? then step.q else p)
    requires Solo(s, p) && (step.Schedule? || step.Unlock? || step.Switch? ==> OnCpu(s, step.c, p)) && Solo(s, a)
    requires a != p && a != q
    ensures Solo(DoSched(s, step), a)
  {
  }

  lemma ForkSelf(s: State, step: ForkStep, p: int, q: int)
    requires ForkEnabled(s, step) && EnvOk(s.Ctx()) && p == step.p
    requires q == (if Allocates(step) then step.np else Other(s, p))
    requires Solo(s, p) && Solo(s, q) && Pair(s, p, q)
    ensures Solo(DoFork(s, step), p)
  {
    hide EnvOk;
  }

  lemma ForkTouched(s: State, step: ForkStep, p: int, q: int)
    requires ForkEnabled(s, step) && EnvOk(s.Ctx()) && p == step.p
    requires q == (if Allocates(step) then step.np else Other(s, p))
    requires Solo(s, p) && Solo(s, q) && Pair(s, p, q) && p != q
    ensures Solo(DoFork(s, step), q)
  {
  }

  lemma ForkOthers(s: State, step: ForkStep, p: int, q: int, a: int)
    requires ForkEnabled(s, step) && EnvOk(s.Ctx()) && p == step.p
    requires q == (if Allocates(step) then step.np else Other(s, p))
    requires Solo(s, p) && Solo(s, a) && a != p && a != q
    ensures Solo(DoFork(s, step), a)
  {
    hide EnvOk, OnCpuOk, OffCpuOk;
  }

  lemma EnterSelf(s: State, step: WaitStep, p: int, q: int)
    requires WaitEnabled(s, step) && EnvOk(s.Ctx()) && p == step.p && q == Other(s, p)
    requires Solo(s, p) && step.Enter?
    ensures Solo(DoWait(s, step), p)
  {
  }

  lemma LookSelf(s: State, step: WaitStep, p: int, q: int)
    requires WaitEnabled(s, step) && EnvOk(s.Ctx()) && p == step.p && q == Other(s, p)
    requires Solo(s, p) && step.Look?
    ensures Solo(DoWait(s, step), p)
  {
  }

  lemma CollectSelf(s: State, step: WaitStep, p: int, q: int)
    requires WaitEnabled(s, step) && EnvOk(s.Ctx()) && p == step.p && q == Other(s, p)
    requires Solo(s, p) && step.Collect?
    ensures Solo(DoWait(s, step), p)
  {
  }

  lemma EndSelf(s: State, step: WaitStep, p: int, q: int)
    requires WaitEnabled(s, step) && EnvOk(s.Ctx()) && p == step.p && q == Other(s, p)
    requires Solo(s, p) && step.End?
    ensures Solo(DoWait(s, step), p)
  {
  }

  lemma WaitSelf(s: State, step: WaitStep, p: int, q: int)
    requires WaitEnabled(s, step) && EnvOk(s.Ctx()) && p == step.p && q == Other(s, p)
    requires Solo(s, p)
    ensures Solo(DoWait(s, step), p)
  {
    if step.Enter? { EnterSelf(s, step, p, q); }
    else if step.Look? { LookSelf(s, step, p, q); }
    else if step.Collect? { CollectSelf(s, step, p, q); }
    else { EndSelf(s, step, p, q); }
  }

  lemma WaitTouched(s: State, step: WaitStep, p: int, q: int)
    requires WaitEnabled(s, step) && EnvOk(s.Ctx()) && p == step.p && q == Other(s, p)
    requires Solo(s, p) && Solo(s, q) && Pair(s, p, q) && p != q
    ensures Solo(DoWait(s, step), q)
  {
    hide EnvOk;
  }

  /** What a process is alone does not depend on who else holds wait_lock. */
  lemma OtherSolo(e: Env, e': Env, x: Proc, a: int)
    requires SoloOk(e, x, a) && e' == e.(waitLock := e'.waitLock) && e.waitLock != Some(a) && e'.waitLock != Some(a)
    ensures SoloOk(e', x, a)
  {
    hide ProcOk, PidOk, InRange;
    assert PidOk(e', x) && InRange(e', x.pc) by { WithoutWaitLock(e, e', x); }
  }

  lemma WithoutWaitLock(e: Env, e': Env, x: Proc)
    requires e' == e.(waitLock := e'.waitLock)
    ensures PidOk(e', x) == PidOk(e, x) && InRange(e', x.pc) == InRange(e, x.pc)
  {
  }

  lemma WaitOthers(s: State, step: WaitStep, p: int, q: int, a: int)
    requires WaitEnabled(s, step) && EnvOk(s.Ctx()) && p == step.p && q == Other(s, p)
    requires Solo(s, p) && Solo(s, a) && a != p && a != q
    ensures Solo(DoWait(s, step), a)
  {
    hide SoloOk, EnvOk;
    if !step.Enter? {
      Holder(s, p);
    }
    OtherSolo(s.Ctx(), DoWait(s, step).Ctx(), s.procs[a], a);
  }

  lemma ExitSelf(s: State, step: ExitStep, p: int, q: int)
    requires ExitEnabled(s, step) && EnvOk(s.Ctx()) && p == step.p && q == Other(s, p)
    requires Solo(s, p)
    ensures Solo(DoExit(s, step), p)
  {
  }

  /** A process whose lock is free is off its CPU if it sleeps, and may be made RUNNABLE. */
  lemma WokenProc(x: Proc, q: int, ch: Option<Chan>)
    requires ProcOk(x, q) && x.lock.None?
    ensures ProcOk(Woken(x, ch), q)
  {
  }

  lemma WokenPid(e: Env, x: Proc, ch: Option<Chan>)
    requires PidOk(e, x)
    ensures PidOk(e, Woken(x, ch))
  {
  }

  /** A process that another one wakes, or passes by, under wait_lock. */
  lemma {:induction false} WokenSolo(e: Env, e': Env, x: Proc, q: int, ch: Option<Chan>)
    requires SoloOk(e, x, q) && x.lock.None? && e' == e.(initWoken := e'.initWoken) && e.waitLock != Some(q)
    ensures SoloOk(e', Woken(x, ch), q)
  {
    hide ProcOk, PidOk, InRange;
    var y := Woken(x, ch);
    WokenProc(x, q, ch);
    WokenPid(e, x, ch);
    assert PidOk(e', y) by { WithoutInit(e, e', y); }
    assert InRange(e', y.pc) by { WithoutInit(e, e', y); }
  }

  lemma WithoutInit(e: Env, e': Env, x: Proc)
    requires e' == e.(initWoken := e'.initWoken)
    ensures PidOk(e', x) == PidOk(e, x) && InRange(e', x.pc) == InRange(e, x.pc)
  {
  }

  lemma AdoptedSolo(e: Env, e': Env, x: Proc, q: int)
    requires SoloOk(e, x, q) && x.parent.Some? && q != e.init && e' == e.(initWoken := e'.initWoken)
    requires e.waitLock != Some(q)
    requires 0 <= e.init < e.n
    ensures SoloOk(e', x.(parent := Some(e.init)), q)
  {
  }

  lemma InitHasNoParent(s: State, q: int)
    requires Solo(s, q) && s.procs[q].parent.Some?
    ensures q != s.init
  {
  }

  lemma Holder(s: State, p: int)
    requires Solo(s, p) && HoldsWait(s.procs[p].pc)
    ensures s.waitLock == Some(p)
  {
  }

  lemma ExitTouched(s: State, step: ExitStep, p: int, q: int)
    requires ExitEnabled(s, step) && EnvOk(s.Ctx()) && p == step.p && q == Other(s, p)
    requires Solo(s, p) && Solo(s, q) && Pair(s, p, q) && p != q
    ensures Solo(DoExit(s, step), q)
  {
    hide SoloOk, Woken;
    var x, t := s.procs[q], DoExit(s, step);
    Holder(s, p);
    if step.GiveAway? {
      InitHasNoParent(s, q);
      AdoptedSolo(s.Ctx(), t.Ctx(), x, q);
    } else if step.WakesInit? || step.WakesParent? {
      WokenSolo(s.Ctx(), t.Ctx(), x, q, if step.WakesInit? then Some(OnProc(s.init)) else ParentChan(s.procs[p]));
    }
  }

  lemma ExitOthers(s: State, step: ExitStep, p: int, q: int, a: int)
    requires ExitEnabled(s, step) && EnvOk(s.Ctx()) && p == step.p && q == Other(s, p)
    requires Solo(s, p) && Solo(s, a) && Pair(s, p, a) && a != p && a != q
    ensures Solo(DoExit(s, step), a)
  {
    hide EnvOk;
  }

  lemma TakeSelf(s: State, step: LockStep, p: int, q: int)
    requires LockEnabled(s, step) && EnvOk(s.Ctx()) && p == step.p && q == Other(s, p)
    requires Solo(s, p) && step.Take?
    ensures Solo(DoLock(s, step), p)
  {
  }

  lemma GiveSelf(s: State, step: LockStep, p: int, q: int)
    requires LockEnabled(s, step) && EnvOk(s.Ctx()) && p == step.p && q == Other(s, p)
    requires Solo(s, p) && step.Give?
    ensures Solo(DoLock(s, step), p)
  {
  }

  lemma GiveNextSelf(s: State, step: LockStep, p: int, q: int)
    requires LockEnabled(s, step) && EnvOk(s.Ctx()) && p == step.p && q == Other(s, p)
    requires Solo(s, p) && step.GiveNext?
    ensures Solo(DoLock(s, step), p)
  {
  }

  lemma GiveDoneSelf(s: State, step: LockStep, p: int, q: int)
    requires LockEnabled(s, step) && EnvOk(s.Ctx()) && p == step.p && q == Other(s, p)
    requires Solo(s, p) && step.GiveDone?
    ensures Solo(DoLock(s, step), p)
  {
  }

  lemma LockSelf(s: State, step: LockStep, p: int, q: int)
    requires LockEnabled(s, step) && EnvOk(s.Ctx()) && p == step.p && q == Other(s, p)
    requires Solo(s, p)
    ensures Solo(DoLock(s, step), p)
  {
    if step.Take? { TakeSelf(s, step, p, q); }
    else if step.Give? { GiveSelf(s, step, p, q); }
    else if step.GiveNext? { GiveNextSelf(s, step, p, q); }
    else { GiveDoneSelf(s, step, p, q); }
  }

  lemma RingNextSelf(s: State, step: GuardStep, p: int, q: int)
    requires GuardEnabled(s, step) && EnvOk(s.Ctx()) && p == step.p && q == Other(s, p)
    requires Solo(s, p) && step.RingNext?
    ensures Solo(DoGuard(s, step), p)
  {
  }

  lemma GuardSelfElse(s: State, step: GuardStep, p: int, q: int)
    requires GuardEnabled(s, step) && EnvOk(s.Ctx()) && p == step.p && q == Other(s, p)
    requires Solo(s, p) && !step.RingNext?
    ensures Solo(DoGuard(s, step), p)
  {
  }

  lemma GuardSelf(s: State, step: GuardStep, p: int, q: int)
    requires GuardEnabled(s, step) && EnvOk(s.Ctx()) && p == step.p && q == Other(s, p)
    requires Solo(s, p)
    ensures Solo(DoGuard(s, step), p)
  {
    if step.RingNext? { RingNextSelf(s, step, p, q); } else { GuardSelfElse(s, step, p, q); }
  }

  lemma LockTouched(s: State, step: LockStep, p: int, q: int)
    requires LockEnabled(s, step) && EnvOk(s.Ctx()) && p == step.p && q == Other(s, p)
    requires Solo(s, p) && Solo(s, q) && Pair(s, p, q) && p != q
    ensures Solo(DoLock(s, step), q)
  {
  }

  lemma GuardTouched(s: State, step: GuardStep, p: int, q: int)
    requires GuardEnabled(s, step) && EnvOk(s.Ctx()) && p == step.p && q == Other(s, p)
    requires Solo(s, p) && Solo(s, q) && Pair(s, p, q) && p != q
    ensures Solo(DoGuard(s, step), q)
  {
  }

  lemma LockOthers(s: State, step: LockStep, p: int, q: int, a: int)
    requires LockEnabled(s, step) && EnvOk(s.Ctx()) && p == step.p && q == Other(s, p)
    requires Solo(s, p) && Solo(s, a) && a != p && a != q
    ensures Solo(DoLock(s, step), a)
  {
  }

  lemma GuardOthers(s: State, step: GuardStep, p: int, q: int, a: int)
    requires GuardEnabled(s, step) && EnvOk(s.Ctx()) && p == step.p && q == Other(s, p)
    requires Solo(s, p) && Solo(s, a) && a != p && a != q
    ensures Solo(DoGuard(s, step), a)
  {
  }

  lemma LetGoSelf(s: State, step: SleepStep, p: int, q: int)
    requires SleepEnabled(s, step) && EnvOk(s.Ctx()) && p == step.p && q == Other(s, p)
    requires Solo(s, p) && step.LetGo?
    ensures Solo(DoSleep(s, step), p)
  {
    hide EnvOk;
  }

  lemma MarkSelf(s: State, step: SleepStep, p: int, q: int)
    requires SleepEnabled(s, step) && EnvOk(s.Ctx()) && p == step.p && q == Other(s, p)
    requires Solo(s, p) && step.Mark?
    ensures Solo(DoSleep(s, step), p)
  {
    hide EnvOk;
  }

  lemma UnlockedSelf(s: State, step: SleepStep, p: int, q: int)
    requires SleepEnabled(s, step) && EnvOk(s.Ctx()) && p == step.p && q == Other(s, p)
    requires Solo(s, p) && step.Unlocked?
    ensures Solo(DoSleep(s, step), p)
  {
    hide EnvOk;
  }

  lemma SleepSelf(s: State, step: SleepStep, p: int, q: int)
    requires SleepEnabled(s, step) && EnvOk(s.Ctx()) && p == step.p && q == Other(s, p)
    requires Solo(s, p)
    ensures Solo(DoSleep(s, step), p)
  {
    if step.LetGo? { LetGoSelf(s, step, p, q); }
    else if step.Mark? { MarkSelf(s, step, p, q); }
    else { UnlockedSelf(s, step, p, q); }
  }

  lemma SleepOthers(s: State, step: SleepStep, p: int, q: int, a: int)
    requires SleepEnabled(s, step) && EnvOk(s.Ctx()) && p == step.p && q == Other(s, p)
    requires Solo(s, p) && Solo(s, a) && a != p && a != q
    ensures Solo(DoSleep(s, step), a)
  {
    hide EnvOk, OnCpuOk, OffCpuOk;
  }

  // ---------------------------------------------------------------- one process and one CPU or sleep lock

  lemma SchedCpu(s: State, step: SchedStep, p: int, q: int, d: int, a: int)
    requires SchedEnabled(s, step) && p == SchedActor(s, step) && q == (if step.Kill? then step.q else p)
    requires Solo(s, p) && Solo(s, q) && (step.Schedule? || step.Unlock? || step.Switch? ==> OnCpu(s, step.c, p))
    requires OnCpu(s, d, a) && OnCpu(s, d, p) && OnCpu(s, d, q)
    requires (step.Schedule? || step.Unlock? || step.Switch? ==> OnCpu(s, step.c, a))
    ensures OnCpu(DoSched(s, step), d, a)
  {
  }

  lemma SchedSleepLock(s: State, step: SchedStep, p: int, q: int, k: int, a: int)
    requires SchedEnabled(s, step) && p == SchedActor(s, step) && q == (if step.Kill? then step.q else p)
    requires Solo(s, p) && Solo(s, q) && (step.Schedule? || step.Unlock? || step.Switch? ==> OnCpu(s, step.c, p))
    requires OnSleepLock(s, k, a) && OnSleepLock(s, k, p) && OnSleepLock(s, k, q)
    ensures OnSleepLock(DoSched(s, step), k, a)
  {
  }

  lemma ForkCpu(s: State, step: ForkStep, p: int, q: int, d: int, a: int)
    requires ForkEnabled(s, step) && p == step.p && q == (if Allocates(step) then step.np else Other(s, p))
    requires Solo(s, p) && Solo(s, q) && OnCpu(s, d, a) && OnCpu(s, d, p) && OnCpu(s, d, q)
    ensures OnCpu(DoFork(s, step), d, a)
  {
  }

  lemma ForkSleepLock(s: State, step: ForkStep, p: int, q: int, k: int, a: int)
    requires ForkEnabled(s, step) && p == step.p && q == (if Allocates(step) then step.np else Other(s, p))
    requires Solo(s, p) && Solo(s, q) && OnSleepLock(s, k, a) && OnSleepLock(s, k, p) && OnSleepLock(s, k, q)
    ensures OnSleepLock(DoFork(s, step), k, a)
  {
    hide EnvOk, PidOk, InRange, LockInRange;
  }

  lemma WaitCpu(s: State, step: WaitStep, p: int, q: int, d: int, a: int)
    requires WaitEnabled(s, step) && p == step.p && q == Other(s, p)
    requires Solo(s, p) && Solo(s, q) && OnCpu(s, d, a) && OnCpu(s, d, p) && OnCpu(s, d, q)
    ensures OnCpu(DoWait(s, step), d, a)
  {
  }

  lemma WaitSleepLock(s: State, step: WaitStep, p: int, q: int, k: int, a: int)
    requires WaitEnabled(s, step) && p == step.p && q == Other(s, p)
    requires Solo(s, p) && Solo(s, q) && OnSleepLock(s, k, a) && OnSleepLock(s, k, p) && OnSleepLock(s, k, q)
    ensures OnSleepLock(DoWait(s, step), k, a)
  {
    hide EnvOk, PidOk, InRange, LockInRange;
  }

  lemma ExitCpu(s: State, step: ExitStep, p: int, q: int, d: int, a: int)
    requires ExitEnabled(s, step) && p == step.p && q == Other(s, p)
    requires Solo(s, p) && Solo(s, q) && OnCpu(s, d, a) && OnCpu(s, d, p) && OnCpu(s, d, q)
    ensures OnCpu(DoExit(s, step), d, a)
  {
    hide EnvOk, OnCpuOk, OffCpuOk;
  }

  lemma ExitSleepLock(s: State, step: ExitStep, p: int, q: int, k: int, a: int)
    requires ExitEnabled(s, step) && p == step.p && q == Other(s, p)
    requires Solo(s, p) && Solo(s, q) && OnSleepLock(s, k, a) && OnSleepLock(s, k, p) && OnSleepLock(s, k, q)
    ensures OnSleepLock(DoExit(s, step), k, a)
  {
    hide EnvOk, PidOk, InRange, LockInRange;
  }

  lemma GuardSleepLock(s: State, step: GuardStep, p: int, q: int, k: int, a: int)
    requires GuardEnabled(s, step) && p == step.p && q == Other(s, p)
    requires Solo(s, p) && Solo(s, q) && OnSleepLock(s, k, a) && OnSleepLock(s, k, p) && OnSleepLock(s, k, q)
    ensures OnSleepLock(DoGuard(s, step), k, a)
  {
    hide EnvOk, PidOk, InRange, LockInRange;
  }

  lemma LockCpu(s: State, step: LockStep, p: int, q: int, d: int, a: int)
    requires LockEnabled(s, step) && p == step.p && q == Other(s, p)
    requires Solo(s, p) && Solo(s, q) && OnCpu(s, d, a) && OnCpu(s, d, p) && OnCpu(s, d, q)
    ensures OnCpu(DoLock(s, step), d, a)
  {
  }

  lemma GuardCpu(s: State, step: GuardStep, p: int, q: int, d: int, a: int)
    requires GuardEnabled(s, step) && p == step.p && q == Other(s, p)
    requires Solo(s, p) && Solo(s, q) && OnCpu(s, d, a) && OnCpu(s, d, p) && OnCpu(s, d, q)
    ensures OnCpu(DoGuard(s, step), d, a)
  {
  }

  lemma TakeGiveSleepLock(s: State, step: LockStep, p: int, k: int, a: int)
    requires LockEnabled(s, step) && p == step.p && (step.Take? || step.Give?)
    requires Solo(s, p) && OnSleepLock(s, k, a) && OnSleepLock(s, k, p) && OnSleepLock(s, step.l, p)
    ensures OnSleepLock(DoLock(s, step), k, a)
  {
  }

  lemma LockSleepLock(s: State, step: LockStep, p: int, q: int, k: int, a: int)
    requires LockEnabled(s, step) && p == step.p && q == Other(s, p)
    requires Solo(s, p) && Solo(s, q) && OnSleepLock(s, k, a) && OnSleepLock(s, k, p) && OnSleepLock(s, k, q)
    requires step.Take? || step.Give? ==> OnSleepLock(s, step.l, p)
    ensures OnSleepLock(DoLock(s, step), k, a)
  {
    if step.Take? || step.Give? {
      TakeGiveSleepLock(s, step, p, k, a);
    }
  }

  lemma SleepCpu(s: State, step: SleepStep, p: int, q: int, d: int, a: int)
    requires SleepEnabled(s, step) && p == step.p && q == Other(s, p)
    requires Solo(s, p) && Solo(s, q) && OnCpu(s, d, a) && OnCpu(s, d, p) && OnCpu(s, d, q)
    ensures OnCpu(DoSleep(s, step), d, a)
  {
    hide EnvOk, PidOk, InRange, LockInRange;
  }

  lemma LetGoSleepLock(s: State, step: SleepStep, p: int, q: int, k: int, a: int)
    requires SleepEnabled(s, step) && p == step.p && q == Other(s, p)
    requires Solo(s, p) && OnSleepLock(s, k, a) && OnSleepLock(s, k, p) && step.LetGo?
    ensures OnSleepLock(DoSleep(s, step), k, a)
  {
    hide EnvOk, PidOk;
  }

  lemma SleepSleepLockElse(s: State, step: SleepStep, p: int, q: int, k: int, a: int)
    requires SleepEnabled(s, step) && p == step.p && q == Other(s, p)
    requires Solo(s, p) && OnSleepLock(s, k, a) && OnSleepLock(s, k, p) && !step.LetGo?
    ensures OnSleepLock(DoSleep(s, step), k, a)
  {
    hide EnvOk, PidOk;
  }

  lemma SleepSleepLock(s: State, step: SleepStep, p: int, q: int, k: int, a: int)
    requires SleepEnabled(s, step) && p == step.p && q == Other(s, p)
    requires Solo(s, p) && OnSleepLock(s, k, a) && OnSleepLock(s, k, p)
    ensures OnSleepLock(DoSleep(s, step), k, a)
  {
    if step.LetGo? { LetGoSleepLock(s, step, p, q, k, a); } else { SleepSleepLockElse(s, step, p, q, k, a); }
  }

  // ---------------------------------------------------------------- one process and one spin lock

  lemma SchedMonitor(s: State, step: SchedStep, p: int, q: int, g: int, a: int)
    requires SchedEnabled(s, step) && p == SchedActor(s, step) && q == (if step.Kill? then step.q else p)
    requires Solo(s, p) && Solo(s, q) && (step.Schedule? || step.Unlock? || step.Switch? ==> OnCpu(s, step.c, p))
    requires OnMonitor(s, g, a) && OnMonitor(s, g, p) && OnMonitor(s, g, q)
    ensures OnMonitor(DoSched(s, step), g, a)
  {
  }

  lemma ForkMonitor(s: State, step: ForkStep, p: int, q: int, g: int, a: int)
    requires ForkEnabled(s, step) && p == step.p && q == (if Allocates(step) then step.np else Other(s, p))
    requires Solo(s, p) && Solo(s, q) && OnMonitor(s, g, a) && OnMonitor(s, g, p) && OnMonitor(s, g, q)
    ensures OnMonitor(DoFork(s, step), g, a)
  {
  }

  lemma WaitMonitor(s: State, step: WaitStep, p: int, q: int, g: int, a: int)
    requires WaitEnabled(s, step) && p == step.p && q == Other(s, p)
    requires Solo(s, p) && Solo(s, q) && OnMonitor(s, g, a) && OnMonitor(s, g, p) && OnMonitor(s, g, q)
    ensures OnMonitor(DoWait(s, step), g, a)
  {
    hide EnvOk, PidOk, InRange, LockInRange;
  }

  lemma ExitMonitor(s: State, step: ExitStep, p: int, q: int, g: int, a: int)
    requires ExitEnabled(s, step) && p == step.p && q == Other(s, p)
    requires Solo(s, p) && Solo(s, q) && OnMonitor(s, g, a) && OnMonitor(s, g, p) && OnMonitor(s, g, q)
    ensures OnMonitor(DoExit(s, step), g, a)
  {
    hide EnvOk, PidOk, InRange, LockInRange;
  }

  lemma LockMonitor(s: State, step: LockStep, p: int, q: int, g: int, a: int)
    requires LockEnabled(s, step) && p == step.p && q == Other(s, p)
    requires Solo(s, p) && Solo(s, q) && OnMonitor(s, g, a) && OnMonitor(s, g, p) && OnMonitor(s, g, q)
    ensures OnMonitor(DoLock(s, step), g, a)
  {
  }

  lemma SleepMonitor(s: State, step: SleepStep, p: int, q: int, g: int, a: int)
    requires SleepEnabled(s, step) && p == step.p && q == Other(s, p)
    requires Solo(s, p) && OnMonitor(s, g, a) && OnMonitor(s, g, p)
    ensures OnMonitor(DoSleep(s, step), g, a)
  {
    hide EnvOk, InRange, LockInRange;
  }

  lemma RingNextMonitor(s: State, step: GuardStep, p: int, q: int, g: int, a: int)
    requires GuardEnabled(s, step) && p == step.p && q == Other(s, p)
    requires Solo(s, p) && Solo(s, q) && OnMonitor(s, g, a) && OnMonitor(s, g, p) && OnMonitor(s, g, q)
    requires step.RingNext?
    ensures OnMonitor(DoGuard(s, step), g, a)
  {
  }

  lemma GuardMonitorElse(s: State, step: GuardStep, p: int, q: int, g: int, a: int)
    requires GuardEnabled(s, step) && p == step.p && q == Other(s, p)
    requires Solo(s, p) && Solo(s, q) && OnMonitor(s, g, a) && OnMonitor(s, g, p) && OnMonitor(s, g, q)
    requires !step.RingNext?
    ensures OnMonitor(DoGuard(s, step), g, a)
  {
  }

  lemma GuardMonitor(s: State, step: GuardStep, p: int, q: int, g: int, a: int)
    requires GuardEnabled(s, step) && p == step.p && q == Other(s, p)
    requires Solo(s, p) && Solo(s, q) && OnMonitor(s, g, a) && OnMonitor(s, g, p) && OnMonitor(s, g, q)
    ensures OnMonitor(DoGuard(s, step), g, a)
  {
    if step.RingNext? { RingNextMonitor(s, step, p, q, g, a); } else { GuardMonitorElse(s, step, p, q, g, a); }
  }

  // ---------------------------------------------------------------- two processes

  lemma SchedQuiet(s: State, step: SchedStep, p: int, q: int, a: int)
    requires SchedEnabled(s, step) && EnvOk(s.Ctx()) && p == SchedActor(s, step)
    requires q == (if step.Kill? then step.q else p)
    requires Solo(s, p) && Solo(s, q) && (step.Schedule? || step.Unlock? || step.Switch? ==> OnCpu(s, step.c, p))
    requires s.IsProc(a) && !step.Kill?
    ensures SameRole(s, DoSched(s, step), a)
  {
  }

  lemma WaitQuiet(s: State, step: WaitStep, p: int, q: int, a: int)
    requires WaitEnabled(s, step) && EnvOk(s.Ctx()) && p == step.p && q == Other(s, p)
    requires Solo(s, p) && Solo(s, q) && Pair(s, p, q) && s.IsProc(a) && step.Enter?
    ensures SameRole(s, DoWait(s, step), a)
  {
  }

  lemma ExitQuiet(s: State, step: ExitStep, p: int, q: int, a: int)
    requires ExitEnabled(s, step) && EnvOk(s.Ctx()) && p == step.p && q == Other(s, p)
    requires Solo(s, p) && Solo(s, q) && Pair(s, p, q) && s.IsProc(a) && (step.Begin? || step.InitDone?)
    ensures SameRole(s, DoExit(s, step), a)
  {
  }

  lemma GiveNextQuiet(s: State, step: LockStep, p: int, q: int, a: int)
    requires LockEnabled(s, step) && EnvOk(s.Ctx()) && p == step.p && q == Other(s, p)
    requires Solo(s, p) && Solo(s, q) && Pair(s, p, q) && s.IsProc(a) && step.GiveNext?
    ensures SameRole(s, DoLock(s, step), a)
  {
    hide EnvOk, PidOk, InRange, LockInRange;
  }

  lemma TakeQuiet(s: State, step: LockStep, p: int, q: int, a: int)
    requires LockEnabled(s, step) && EnvOk(s.Ctx()) && p == step.p && q == Other(s, p)
    requires Solo(s, p) && Solo(s, q) && Pair(s, p, q) && s.IsProc(a) && !step.GiveNext? && step.Take?
    ensures SameRole(s, DoLock(s, step), a)
  {
    hide EnvOk, PidOk, InRange, LockInRange;
  }

  lemma GiveQuiet(s: State, step: LockStep, p: int, q: int, a: int)
    requires LockEnabled(s, step) && EnvOk(s.Ctx()) && p == step.p && q == Other(s, p)
    requires Solo(s, p) && Solo(s, q) && Pair(s, p, q) && s.IsProc(a) && !step.GiveNext? && !step.Take?
    ensures SameRole(s, DoLock(s, step), a)
  {
    hide EnvOk, PidOk, InRange, LockInRange;
  }

  lemma LockQuietElse(s: State, step: LockStep, p: int, q: int, a: int)
    requires LockEnabled(s, step) && EnvOk(s.Ctx()) && p == step.p && q == Other(s, p)
    requires Solo(s, p) && Solo(s, q) && Pair(s, p, q) && s.IsProc(a) && !step.GiveNext?
    ensures SameRole(s, DoLock(s, step), a)
  {
    if step.Take? { TakeQuiet(s, step, p, q, a); } else { GiveQuiet(s, step, p, q, a); }
  }

  lemma LockQuiet(s: State, step: LockStep, p: int, q: int, a: int)
    requires LockEnabled(s, step) && EnvOk(s.Ctx()) && p == step.p && q == Other(s, p)
    requires Solo(s, p) && Solo(s, q) && Pair(s, p, q) && s.IsProc(a)
    ensures SameRole(s, DoLock(s, step), a)
  {
    if step.GiveNext? { GiveNextQuiet(s, step, p, q, a); } else { LockQuietElse(s, step, p, q, a); }
  }

  lemma RingNextQuiet(s: State, step: GuardStep, p: int, q: int, a: int)
    requires GuardEnabled(s, step) && EnvOk(s.Ctx()) && p == step.p && q == Other(s, p)
    requires Solo(s, p) && Solo(s, q) && Pair(s, p, q) && s.IsProc(a) && step.RingNext?
    ensures SameRole(s, DoGuard(s, step), a)
  {
  }

  lemma GuardQuietElse(s: State, step: GuardStep, p: int, q: int, a: int)
    requires GuardEnabled(s, step) && EnvOk(s.Ctx()) && p == step.p && q == Other(s, p)
    requires Solo(s, p) && Solo(s, q) && Pair(s, p, q) && s.IsProc(a) && !step.RingNext?
    ensures SameRole(s, DoGuard(s, step), a)
  {
  }

  lemma GuardQuiet(s: State, step: GuardStep, p: int, q: int, a: int)
    requires GuardEnabled(s, step) && EnvOk(s.Ctx()) && p == step.p && q == Other(s, p)
    requires Solo(s, p) && Solo(s, q) && Pair(s, p, q) && s.IsProc(a)
    ensures SameRole(s, DoGuard(s, step), a)
  {
    if step.RingNext? { RingNextQuiet(s, step, p, q, a); } else { GuardQuietElse(s, step, p, q, a); }
  }

  lemma SleepQuiet(s: State, step: SleepStep, p: int, q: int, a: int)
    requires SleepEnabled(s, step) && EnvOk(s.Ctx()) && p == step.p && q == Other(s, p)
    requires Solo(s, p) && s.IsProc(a) && (step.LetGo? ==> !s.procs[p].pc.lk.WaitLock?)
    ensures SameRole(s, DoSleep(s, step), a)
  {
    hide EnvOk, PidOk, InRange, LockInRange;
  }

  lemma KillPairs(s: State, p: int, q: int, a: int, b: int)
    requires SchedEnabled(s, Kill(p, q)) && EnvOk(s.Ctx()) && Pair(s, a, b)
    ensures Pair(DoSched(s, Kill(p, q)), a, b)
  {
  }

  lemma AllocPairs(s: State, p: int, q: int, a: int, b: int)
    requires ForkEnabled(s, Alloc(p, q)) && EnvOk(s.Ctx())
    requires Solo(s, p) && Solo(s, q) && Pair(s, p, q) && Pair(s, a, b) && Pair(s, a, p) && Pair(s, p, b)
    requires Pair(s, a, q) && Pair(s, q, b) && Solo(s, a) && Solo(s, b)
    ensures Pair(DoFork(s, Alloc(p, q)), a, b)
  {
    hide EnvOk;
  }

  lemma AllocFailsPairs(s: State, p: int, q: int, a: int, b: int)
    requires ForkEnabled(s, AllocFails(p, q)) && EnvOk(s.Ctx())
    requires Solo(s, p) && Solo(s, q) && Pair(s, p, q) && Pair(s, a, b) && Pair(s, a, p) && Pair(s, p, b)
    requires Pair(s, a, q) && Pair(s, q, b) && Solo(s, a) && Solo(s, b)
    ensures Pair(DoFork(s, AllocFails(p, q)), a, b)
  {
    hide EnvOk, OnCpuOk, OffCpuOk;
  }

  lemma SetParentPairs(s: State, p: int, q: int, a: int, b: int)
    requires ForkEnabled(s, SetParent(p)) && EnvOk(s.Ctx()) && q == Other(s, p)
    requires Solo(s, p) && Solo(s, q) && Pair(s, p, q) && Pair(s, a, b) && Pair(s, a, p) && Pair(s, p, b)
    requires Pair(s, a, q) && Pair(s, q, b)
    ensures Pair(DoFork(s, SetParent(p)), a, b)
  {
    hide EnvOk, PidOk, InRange, LockInRange;
  }

  lemma StartPairs(s: State, p: int, q: int, a: int, b: int)
    requires ForkEnabled(s, Start(p)) && EnvOk(s.Ctx()) && q == Other(s, p)
    requires Pair(s, p, q) && Pair(s, a, b) && Pair(s, a, p) && Pair(s, p, b) && Pair(s, a, q) && Pair(s, q, b)
    ensures Pair(DoFork(s, Start(p)), a, b)
  {
    hide EnvOk;
  }

  lemma LookPairs(s: State, p: int, q: int, a: int, b: int)
    requires WaitEnabled(s, Look(p)) && EnvOk(s.Ctx()) && q == Other(s, p)
    requires Solo(s, p) && Solo(s, q) && Pair(s, p, q) && Pair(s, a, b) && Pair(s, a, p) && Pair(s, p, b)
    requires Pair(s, a, q) && Pair(s, q, b)
    ensures Pair(DoWait(s, Look(p)), a, b)
  {
    hide EnvOk, OnCpuOk, OffCpuOk;
  }

  lemma CollectPairs(s: State, p: int, ok: bool, q: int, a: int, b: int)
    requires WaitEnabled(s, Collect(p, ok)) && EnvOk(s.Ctx()) && q == Other(s, p)
    requires Solo(s, p) && Solo(s, q) && Pair(s, p, q) && Pair(s, a, b) && Pair(s, a, p) && Pair(s, p, b)
    requires Pair(s, a, q) && Pair(s, q, b)
    ensures Pair(DoWait(s, Collect(p, ok)), a, b)
  {
    hide EnvOk, OnCpuOk, OffCpuOk;
  }

  lemma EndPairs(s: State, p: int, q: int, a: int, b: int)
    requires WaitEnabled(s, End(p)) && EnvOk(s.Ctx()) && q == Other(s, p)
    requires Solo(s, p) && Pair(s, a, b)
    ensures Pair(DoWait(s, End(p)), a, b)
  {
    hide EnvOk, PidOk, InRange, LockInRange;
  }

  lemma PassByPairs(s: State, p: int, q: int, a: int, b: int)
    requires ExitEnabled(s, PassBy(p)) && EnvOk(s.Ctx()) && q == Other(s, p)
    requires Solo(s, p) && Pair(s, a, b)
    ensures Pair(DoExit(s, PassBy(p)), a, b)
  {
    hide EnvOk, PidOk;
  }

  lemma GiveAwayPairs(s: State, p: int, q: int, a: int, b: int)
    requires ExitEnabled(s, GiveAway(p)) && EnvOk(s.Ctx()) && q == Other(s, p)
    requires Solo(s, p) && Pair(s, a, b) && Pair(s, a, p) && Pair(s, p, b) && Solo(s, a) && Solo(s, b)
    ensures Pair(DoExit(s, GiveAway(p)), a, b)
  {
    hide EnvOk, PidOk, InRange, LockInRange;
  }

  /** Being woken changes nothing in the role of a process but that it does not doze; init itself is woken. */
  lemma WokenRole(x: Proc, q: int, ch: Option<Chan>, n: int)
    requires ProcOk(x, q) && x.lock.None?
    ensures var r, r' := RoleOf(x, n), RoleOf(Woken(x, ch), n);
      r' == r.(dozing := r'.dozing) && (r'.dozing ==> r.dozing && ch != Some(OnProc(q)))
  {
  }

  lemma SoloProc(s: State, q: int)
    requires Solo(s, q)
    ensures ProcOk(s.procs[q], q)
  {
  }

  /** The roles after one round of the wakeup of init. */
  lemma WakesInitRole(s: State, p: int, q: int, a: int)
    requires ExitEnabled(s, WakesInit(p)) && q == Other(s, p) && Solo(s, p) && Solo(s, q) && s.IsProc(a)
    ensures var n := |s.procs|;
      var r, r' := RoleOf(s.procs[a], n), RoleOf(DoExit(s, WakesInit(p)).procs[a], n);
      r' == r.(dozing := r'.dozing) && (r'.dozing ==> r.dozing && (a == s.procs[p].pc.j ==> a != s.init))
  {
    hide SoloOk, RoleOf, ProcOk, Woken;
    SoloProc(s, q);
    var n, j := |s.procs|, s.procs[p].pc.j;
    assert q == j;
    if j != p {
      WokenRole(s.procs[j], j, Some(OnProc(s.init)), n);
    }
    OnwardRole(s.procs[p], n);
  }

  lemma OnwardRole(x: Proc, n: int)
    requires x.pc.WakeInit?
    ensures RoleOf(x.(pc := WakeInit(x.pc.i, x.pc.j + 1)), n) == RoleOf(x, n) && !RoleOf(x, n).dozing
  {
  }

  lemma WakesInitPairs(s: State, p: int, q: int, a: int, b: int)
    requires ExitEnabled(s, WakesInit(p)) && EnvOk(s.Ctx()) && q == Other(s, p)
    requires Solo(s, p) && Solo(s, q) && Pair(s, a, b) && Pair(s, a, p) && Pair(s, p, b)
    ensures Pair(DoExit(s, WakesInit(p)), a, b)
  {
    hide EnvOk, ProcOk, PidOk, InRange, RoleOf, RolesOk;
    WakesInitRole(s, p, q, a);
    WakesInitRole(s, p, q, b);
    var n, t := |s.procs|, DoExit(s, WakesInit(p));
    RolesOneOn(s.init, s.initWoken, t.initWoken, RoleOf(s.procs[a], n), RoleOf(t.procs[a], n), a,
               RoleOf(s.procs[b], n), RoleOf(t.procs[b], n), b);
  }

  lemma RolesOneOn(init: int, w: int, w': int, x: Role, x': Role, a: int, z: Role, z': Role, b: int)
    requires RolesOk(init, w, x, a, z, b) && w' == w + 1
    requires x' == x.(dozing := x'.dozing) && (x'.dozing ==> x.dozing && (a == w ==> a != init))
    requires z' == z.(dozing := z'.dozing)
    ensures RolesOk(init, w', x', a, z', b)
  {
  }

  lemma WakesParentPairs(s: State, p: int, q: int, a: int, b: int)
    requires ExitEnabled(s, WakesParent(p)) && EnvOk(s.Ctx()) && q == Other(s, p)
    requires Solo(s, p) && Solo(s, q) && Pair(s, a, b) && Pair(s, a, p) && Pair(s, p, b)
    ensures Pair(DoExit(s, WakesParent(p)), a, b)
  {
    hide EnvOk, PidOk;
  }

  lemma BecomeZombiePairs(s: State, p: int, status: int, q: int, a: int, b: int)
    requires ExitEnabled(s, BecomeZombie(p, status)) && EnvOk(s.Ctx()) && q == Other(s, p)
    requires Solo(s, p) && Pair(s, a, b) && Pair(s, a, p) && Pair(s, p, b) && Solo(s, a)
    ensures Pair(DoExit(s, BecomeZombie(p, status)), a, b)
  {
  }

  lemma LetGoPairs(s: State, p: int, q: int, a: int, b: int)
    requires SleepEnabled(s, LetGo(p)) && EnvOk(s.Ctx()) && s.procs[p].pc.lk.WaitLock?
    requires Solo(s, p) && Pair(s, a, b) && Pair(s, a, p) && Pair(s, p, b) && Solo(s, b)
    ensures Pair(DoSleep(s, LetGo(p)), a, b)
  {
  }

  lemma SchedPair(s: State, step: SchedStep, p: int, q: int, a: int, b: int)
    requires SchedEnabled(s, step) && EnvOk(s.Ctx()) && p == SchedActor(s, step)
    requires q == (if step.Kill? then step.q else p)
    requires AllSolo(s) && AllPairs(s) && s.IsProc(p) && s.IsProc(q) && s.IsProc(a) && s.IsProc(b)
    requires (step.Schedule? || step.Unlock? || step.Switch? ==> OnCpu(s, step.c, p))
    ensures Pair(DoSched(s, step), a, b)
  {
    hide SoloOk, RoleOf, RolesOk, EnvOk;
    if step.Kill? { KillPairs(s, p, q, a, b); } else { SchedQuiet(s, step, p, q, a); SchedQuiet(s, step, p, q, b); }
  }

  lemma ForkPair(s: State, step: ForkStep, p: int, q: int, a: int, b: int)
    requires ForkEnabled(s, step) && EnvOk(s.Ctx()) && p == step.p
    requires q == (if Allocates(step) then step.np else Other(s, p))
    requires AllSolo(s) && AllPairs(s) && s.IsProc(p) && s.IsProc(q) && s.IsProc(a) && s.IsProc(b)
    ensures Pair(DoFork(s, step), a, b)
  {
    hide SoloOk, RoleOf, RolesOk, EnvOk;
    if step.Alloc? { AllocPairs(s, p, q, a, b); }
    else if step.AllocFails? { AllocFailsPairs(s, p, q, a, b); }
    else if step.SetParent? { SetParentPairs(s, p, q, a, b); }
    else { StartPairs(s, p, q, a, b); }
  }

  lemma WaitPair(s: State, step: WaitStep, p: int, q: int, a: int, b: int)
    requires WaitEnabled(s, step) && EnvOk(s.Ctx()) && p == step.p && q == Other(s, p)
    requires AllSolo(s) && AllPairs(s) && s.IsProc(p) && s.IsProc(q) && s.IsProc(a) && s.IsProc(b)
    ensures Pair(DoWait(s, step), a, b)
  {
    hide SoloOk, RoleOf, RolesOk, EnvOk;
    if step.Enter? { WaitQuiet(s, step, p, q, a); WaitQuiet(s, step, p, q, b); }
    else if step.Look? { LookPairs(s, p, q, a, b); }
    else if step.Collect? { CollectPairs(s, p, step.ok, q, a, b); }
    else { EndPairs(s, p, q, a, b); }
  }

  lemma ExitPair(s: State, step: ExitStep, p: int, q: int, a: int, b: int)
    requires ExitEnabled(s, step) && EnvOk(s.Ctx()) && p == step.p && q == Other(s, p)
    requires AllSolo(s) && AllPairs(s) && s.IsProc(p) && s.IsProc(q) && s.IsProc(a) && s.IsProc(b)
    ensures Pair(DoExit(s, step), a, b)
  {
    hide SoloOk, RoleOf, RolesOk, EnvOk;
    if step.Begin? || step.InitDone? { ExitQuiet(s, step, p, q, a); ExitQuiet(s, step, p, q, b); }
    else if step.PassBy? { PassByPairs(s, p, q, a, b); }
    else if step.GiveAway? { GiveAwayPairs(s, p, q, a, b); }
    else if step.WakesInit? { WakesInitPairs(s, p, q, a, b); }
    else if step.WakesParent? { WakesParentPairs(s, p, q, a, b); }
    else { BecomeZombiePairs(s, p, step.status, q, a, b); }
  }

  lemma LockPair(s: State, step: LockStep, p: int, q: int, a: int, b: int)
    requires LockEnabled(s, step) && EnvOk(s.Ctx()) && p == step.p && q == Other(s, p)
    requires AllSolo(s) && AllPairs(s) && s.IsProc(p) && s.IsProc(q) && s.IsProc(a) && s.IsProc(b)
    ensures Pair(DoLock(s, step), a, b)
  {
    hide SoloOk, RoleOf, RolesOk, EnvOk;
    LockQuiet(s, step, p, q, a); LockQuiet(s, step, p, q, b);
  }

  lemma GuardPair(s: State, step: GuardStep, p: int, q: int, a: int, b: int)
    requires GuardEnabled(s, step) && EnvOk(s.Ctx()) && p == step.p && q == Other(s, p)
    requires AllSolo(s) && AllPairs(s) && s.IsProc(p) && s.IsProc(q) && s.IsProc(a) && s.IsProc(b)
    ensures Pair(DoGuard(s, step), a, b)
  {
    hide SoloOk, RoleOf, RolesOk, EnvOk;
    GuardQuiet(s, step, p, q, a); GuardQuiet(s, step, p, q, b);
  }

  lemma SleepPair(s: State, step: SleepStep, p: int, q: int, a: int, b: int)
    requires SleepEnabled(s, step) && EnvOk(s.Ctx()) && p == step.p && q == Other(s, p)
    requires AllSolo(s) && AllPairs(s) && s.IsProc(p) && s.IsProc(q) && s.IsProc(a) && s.IsProc(b)
    ensures Pair(DoSleep(s, step), a, b)
  {
    hide SoloOk, RoleOf, RolesOk, EnvOk;
    if step.LetGo? && s.procs[p].pc.lk.WaitLock? { LetGoPairs(s, p, q, a, b); }
    else { SleepQuiet(s, step, p, q, a); SleepQuiet(s, step, p, q, b); }
  }

  // ---------------------------------------------------------------- globals and exit statuses

  predicate SameSize(s: State, t: State) {
    |s.procs| == |t.procs| && |s.cpus| == |t.cpus| && |s.locks| == |t.locks| && |s.mons| == |t.mons| &&
    |s.handlers| == |t.handlers|
  }

  lemma SchedEnv(s: State, step: SchedStep, p: int)
    requires SchedEnabled(s, step) && EnvOk(s.Ctx()) && p == SchedActor(s, step) && Solo(s, p)
    ensures EnvOk(DoSched(s, step).Ctx()) && SameSize(s, DoSched(s, step))
  {
  }

  lemma ForkEnv(s: State, step: ForkStep, p: int)
    requires ForkEnabled(s, step) && EnvOk(s.Ctx()) && p == step.p && Solo(s, p)
    ensures EnvOk(DoFork(s, step).Ctx()) && SameSize(s, DoFork(s, step))
  {
  }

  lemma WaitEnv(s: State, step: WaitStep, p: int)
    requires WaitEnabled(s, step) && EnvOk(s.Ctx()) && p == step.p && Solo(s, p)
    ensures EnvOk(DoWait(s, step).Ctx()) && SameSize(s, DoWait(s, step))
  {
    hide ProcOk, PidOk;
  }

  lemma ExitEnv(s: State, step: ExitStep, p: int)
    requires ExitEnabled(s, step) && EnvOk(s.Ctx()) && p == step.p && Solo(s, p)
    ensures EnvOk(DoExit(s, step).Ctx()) && SameSize(s, DoExit(s, step))
  {
  }

  lemma LockEnv(s: State, step: LockStep, p: int)
    requires LockEnabled(s, step) && EnvOk(s.Ctx()) && p == step.p && Solo(s, p)
    ensures EnvOk(DoLock(s, step).Ctx()) && SameSize(s, DoLock(s, step))
  {
  }

  lemma GuardEnv(s: State, step: GuardStep, p: int)
    requires GuardEnabled(s, step) && EnvOk(s.Ctx()) && p == step.p && Solo(s, p)
    ensures EnvOk(DoGuard(s, step).Ctx()) && SameSize(s, DoGuard(s, step))
  {
  }

  lemma SleepEnv(s: State, step: SleepStep, p: int)
    requires SleepEnabled(s, step) && EnvOk(s.Ctx()) && p == step.p && Solo(s, p)
    ensures EnvOk(DoSleep(s, step).Ctx()) && SameSize(s, DoSleep(s, step))
  {
  }

  lemma SchedNames(s: State, step: SchedStep)
    requires SchedEnabled(s, step) && CpusNameProcs(s)
    ensures CpusNameProcs(DoSched(s, step))
  {
  }

  /** A process stays on its CPU or leaves it, and its lock is free, as before, or with its CPU. */
  predicate Tied(x: Proc, y: Proc) {
    (y.cpu.None? || y.cpu == x.cpu) && (y.lock.None? || y.lock == x.lock || y.lock == x.cpu)
  }

  lemma NamesKept(s: State, t: State)
    requires CpusNameProcs(s) && SameSize(s, t) && t.cpus == s.cpus && t.handlers == s.handlers
    requires forall a :: s.IsProc(a) ==> Tied(s.procs[a], t.procs[a])
    ensures CpusNameProcs(t)
  {
  }

  lemma ForkTied(s: State, step: ForkStep)
    requires ForkEnabled(s, step)
    ensures var t := DoFork(s, step);
      SameSize(s, t) && t.cpus == s.cpus && t.handlers == s.handlers &&
      forall a :: s.IsProc(a) ==> Tied(s.procs[a], t.procs[a])
  {
  }

  lemma WaitTied(s: State, step: WaitStep)
    requires WaitEnabled(s, step)
    ensures var t := DoWait(s, step);
      SameSize(s, t) && t.cpus == s.cpus && t.handlers == s.handlers &&
      forall a :: s.IsProc(a) ==> Tied(s.procs[a], t.procs[a])
  {
  }

  lemma ExitTied(s: State, step: ExitStep)
    requires ExitEnabled(s, step)
    ensures var t := DoExit(s, step);
      SameSize(s, t) && t.cpus == s.cpus && t.handlers == s.handlers &&
      forall a :: s.IsProc(a) ==> Tied(s.procs[a], t.procs[a])
  {
  }

  lemma LockTied(s: State, step: LockStep)
    requires LockEnabled(s, step)
    ensures var t := DoLock(s, step);
      SameSize(s, t) && t.cpus == s.cpus && t.handlers == s.handlers &&
      forall a :: s.IsProc(a) ==> Tied(s.procs[a], t.procs[a])
  {
  }

  lemma GuardTied(s: State, step: GuardStep)
    requires GuardEnabled(s, step)
    ensures var t := DoGuard(s, step);
      SameSize(s, t) && t.cpus == s.cpus && t.handlers == s.handlers &&
      forall a :: s.IsProc(a) ==> Tied(s.procs[a], t.procs[a])
  {
  }

  lemma SleepTied(s: State, step: SleepStep)
    requires SleepEnabled(s, step)
    ensures var t := DoSleep(s, step);
      SameSize(s, t) && t.cpus == s.cpus && t.handlers == s.handlers &&
      forall a :: s.IsProc(a) ==> Tied(s.procs[a], t.procs[a])
  {
  }

  /** What the exit statuses depend on in a process. */
  ghost predicate SameFate(s: State, t: State, a: int) {
    && |s.procs| == |t.procs| && s.IsProc(a)
    && s.procs[a].state.UNUSED? == t.procs[a].state.UNUSED? && s.procs[a].state.ZOMBIE? == t.procs[a].state.ZOMBIE?
    && s.procs[a].pid == t.procs[a].pid
    && s.reaps == t.reaps && s.exits == t.exits && s.tomb == t.tomb
  }

  lemma FatesKept(s: State, t: State)
    requires ReapsOk(s) && TombsOk(s) && |s.procs| == |t.procs| && forall a :: s.IsProc(a) ==> SameFate(s, t, a)
    requires s.reaps == t.reaps && s.exits == t.exits && s.tomb == t.tomb
    ensures ReapsOk(t) && TombsOk(t)
  {
    forall k, a | 0 <= k < |t.reaps| && t.IsProc(a) && !t.procs[a].state.UNUSED?
      ensures t.procs[a].pid != t.reaps[k].pid
    {
      assert SameFate(s, t, a);
    }
    forall d | d in t.exits && !Collected(t.reaps, d)
      ensures t.IsProc(t.tomb[d]) && t.procs[t.tomb[d]].state.ZOMBIE? && t.procs[t.tomb[d]].pid == d
    {
      assert SameFate(s, t, t.tomb[d]);
    }
  }

  lemma AllocFates(s: State, p: int, np: int)
    requires ForkEnabled(s, Alloc(p, np)) && EnvOk(s.Ctx()) && Solo(s, p) && ReapsOk(s) && TombsOk(s)
    ensures ReapsOk(DoFork(s, Alloc(p, np))) && TombsOk(DoFork(s, Alloc(p, np)))
  {
  }

  lemma AllocFailsFates(s: State, p: int, np: int)
    requires ForkEnabled(s, AllocFails(p, np)) && EnvOk(s.Ctx()) && Solo(s, p) && ReapsOk(s) && TombsOk(s)
    ensures ReapsOk(DoFork(s, AllocFails(p, np))) && TombsOk(DoFork(s, AllocFails(p, np)))
  {
  }

  lemma CollectFates(s: State, p: int, ok: bool, q: int)
    requires WaitEnabled(s, Collect(p, ok)) && q == s.procs[p].pc.i && ReapsOk(s) && TombsOk(s) && Solo(s, p)
    requires Solo(s, q)
    requires forall a :: s.IsProc(a) ==> Pair(s, q, a)
    ensures ReapsOk(DoWait(s, Collect(p, ok))) && TombsOk(DoWait(s, Collect(p, ok)))
  {
    var t := DoWait(s, Collect(p, ok));
    forall k, a | 0 <= k < |t.reaps| && t.IsProc(a) && !t.procs[a].state.UNUSED?
      ensures t.procs[a].pid != t.reaps[k].pid
    {
      assert Pair(s, q, a);
    }
    forall d | d in t.exits
      ensures Collected(t.reaps, d) || (t.IsProc(t.tomb[d]) && t.procs[t.tomb[d]].state.ZOMBIE? &&
        t.procs[t.tomb[d]].pid == d)
    {
      if Collected(s.reaps, d) {
        var k :| 0 <= k < |s.reaps| && s.reaps[k].pid == d;
        assert t.reaps[k].pid == d;
      } else if ok && d == s.procs[q].pid {
        assert t.reaps[|s.reaps|].pid == d;
      }
    }
  }

  lemma ZombieFates(s: State, p: int, status: int)
    requires ExitEnabled(s, BecomeZombie(p, status)) && EnvOk(s.Ctx()) && Solo(s, p) && ReapsOk(s) && TombsOk(s)
    ensures ReapsOk(DoExit(s, BecomeZombie(p, status))) && TombsOk(DoExit(s, BecomeZombie(p, status)))
  {
  }

  lemma SchedFate(s: State, step: SchedStep, a: int)
    requires SchedEnabled(s, step) && s.IsProc(a) && Solo(s, SchedActor(s, step))
    ensures SameFate(s, DoSched(s, step), a)
  {
  }

  lemma ForkFate(s: State, step: ForkStep, a: int)
    requires ForkEnabled(s, step) && s.IsProc(a) && !Allocates(step) && Pair(s, step.p, Other(s, step.p))
    ensures SameFate(s, DoFork(s, step), a)
  {
  }

  lemma WaitFate(s: State, step: WaitStep, a: int)
    requires WaitEnabled(s, step) && s.IsProc(a) && !step.Collect?
    ensures SameFate(s, DoWait(s, step), a)
  {
  }

  lemma ExitFate(s: State, step: ExitStep, a: int)
    requires ExitEnabled(s, step) && s.IsProc(a) && !step.BecomeZombie?
    ensures SameFate(s, DoExit(s, step), a)
  {
  }

  lemma LockFate(s: State, step: LockStep, a: int)
    requires LockEnabled(s, step) && s.IsProc(a)
    ensures SameFate(s, DoLock(s, step), a)
  {
  }

  lemma GuardFate(s: State, step: GuardStep, a: int)
    requires GuardEnabled(s, step) && s.IsProc(a)
    ensures SameFate(s, DoGuard(s, step), a)
  {
  }

  lemma SleepFate(s: State, step: SleepStep, a: int)
    requires SleepEnabled(s, step) && s.IsProc(a) && Solo(s, step.p)
    ensures SameFate(s, DoSleep(s, step), a)
  {
  }

  // ---------------------------------------------------------------- interrupt handlers

  /** Being woken from a channel keeps what a process is alone. */
  lemma RungSolo(e: Env, x: Proc, q: int, ch: Option<Chan>)
    requires SoloOk(e, x, q) && x.lock.None?
    ensures SoloOk(e, Woken(x, ch), q)
  {
    hide ProcOk, PidOk, InRange;
    WokenProc(x, q, ch);
    WokenPid(e, x, ch);
  }

  lemma IntrSolo(s: State, step: IntrStep, a: int)
    requires IntrEnabled(s, step) && Solo(s, a)
    ensures Solo(DoIntr(s, step), a)
  {
    hide SoloOk, Woken;
    var y := s.handlers[step.h];
    if step.IntrNext? && a == y.j {
      RungSolo(s.Ctx(), s.procs[a], a, Some(OnChan(y.g, y.ch)));
    }
    assert DoIntr(s, step).Ctx() == s.Ctx();
  }

  lemma IntrCpu(s: State, step: IntrStep, d: int, a: int)
    requires IntrEnabled(s, step) && OnCpu(s, d, a)
    ensures OnCpu(DoIntr(s, step), d, a)
  {
  }

  lemma IntrSleepLock(s: State, step: IntrStep, k: int, a: int)
    requires IntrEnabled(s, step) && OnSleepLock(s, k, a) && Solo(s, a)
    ensures OnSleepLock(DoIntr(s, step), k, a)
  {
    hide PidOk, InRange, LockInRange;
  }

  lemma IntrMonitor(s: State, step: IntrStep, g: int, a: int)
    requires IntrEnabled(s, step) && OnMonitor(s, g, a) && Solo(s, a)
    requires s.handlers[step.h].Ringing? ==> OnHandler(s, s.handlers[step.h].g, step.h)
    ensures OnMonitor(DoIntr(s, step), g, a)
  {
    hide PidOk, InRange, LockInRange;
  }

  lemma IntrHandler(s: State, step: IntrStep, g: int, h: int)
    requires IntrEnabled(s, step) && OnHandler(s, g, h) && OnHandler(s, g, step.h)
    requires s.handlers[step.h].Ringing? ==> OnHandler(s, s.handlers[step.h].g, h)
    requires IdleMonitorOk(|s.procs|, |s.handlers|, s.mons[g])
    ensures OnHandler(DoIntr(s, step), g, h)
  {
  }

  /** The roles after a step of a handler. */
  lemma IntrRole(s: State, step: IntrStep, a: int)
    requires IntrEnabled(s, step) && Solo(s, a)
    ensures var r, r' := RoleOf(s.procs[a], |s.procs|), RoleOf(DoIntr(s, step).procs[a], |s.procs|);
      r' == r.(dozing := r'.dozing) && (r'.dozing ==> r.dozing)
  {
    hide RoleOf, ProcOk;
    var y, x := s.handlers[step.h], s.procs[a];
    var ch := if y.Ringing? then Some(OnChan(y.g, y.ch)) else None;
    var x' := if step.IntrNext? && a == y.j then Woken(x, ch) else x;
    SoloProc(s, a);
    IntrProc(s, step, a, x');
    if step.IntrNext? && a == y.j {
      WokenRole(x, a, ch, |s.procs|);
    }
  }

  lemma IntrProc(s: State, step: IntrStep, a: int, x': Proc)
    requires IntrEnabled(s, step) && s.IsProc(a)
    requires var y := s.handlers[step.h];
      x' == if step.IntrNext? && a == y.j then Woken(s.procs[a], Some(OnChan(y.g, y.ch))) else s.procs[a]
    ensures DoIntr(s, step).procs[a] == x'
  {
    hide Woken;
  }

  lemma RolesLessDozing(init: int, w: int, x: Role, x': Role, a: int, z: Role, z': Role, b: int)
    requires RolesOk(init, w, x, a, z, b)
    requires x' == x.(dozing := x'.dozing) && (x'.dozing ==> x.dozing) && z' == z.(dozing := z'.dozing)
    ensures RolesOk(init, w, x', a, z', b)
  {
  }

  lemma IntrPair(s: State, step: IntrStep, a: int, b: int)
    requires IntrEnabled(s, step) && Solo(s, a) && Solo(s, b) && Pair(s, a, b)
    ensures Pair(DoIntr(s, step), a, b)
  {
    hide SoloOk, RoleOf, RolesOk;
    var n, t := |s.procs|, DoIntr(s, step);
    IntrRole(s, step, a);
    IntrRole(s, step, b);
    RolesLessDozing(s.init, s.initWoken, RoleOf(s.procs[a], n), RoleOf(t.procs[a], n), a,
                    RoleOf(s.procs[b], n), RoleOf(t.procs[b], n), b);
  }

  lemma IntrEnv(s: State, step: IntrStep)
    requires IntrEnabled(s, step) && EnvOk(s.Ctx()) && CpusNameProcs(s)
    ensures EnvOk(DoIntr(s, step).Ctx()) && CpusNameProcs(DoIntr(s, step)) && SameSize(s, DoIntr(s, step))
  {
    hide EnvOk;
    assert DoIntr(s, step).Ctx() == s.Ctx();
  }

  lemma IntrFate(s: State, step: IntrStep, a: int)
    requires IntrEnabled(s, step) && s.IsProc(a)
    ensures SameFate(s, DoIntr(s, step), a)
  {
  }

  /** A step that leaves the locks that handlers hold alone keeps what is known of handlers. */
  ghost predicate SparesHandlers(s: State, t: State, g: int) {
    && s.IsMon(g) && t.IsMon(g) && t.handlers == s.handlers && t.mons[g].handler == s.mons[g].handler
    && (s.mons[g].handler.Some? ==> t.mons[g] == s.mons[g])
  }

  lemma HandlerSpared(s: State, t: State, g: int, h: int)
    requires OnHandler(s, g, h) && SparesHandlers(s, t, g)
    ensures OnHandler(t, g, h)
  {
  }

  lemma SchedSpares(s: State, step: SchedStep, g: int)
    requires SchedEnabled(s, step) && s.IsMon(g)
    ensures SparesHandlers(s, DoSched(s, step), g)
  {
  }

  lemma ForkSpares(s: State, step: ForkStep, g: int)
    requires ForkEnabled(s, step) && s.IsMon(g)
    ensures SparesHandlers(s, DoFork(s, step), g)
  {
  }

  lemma WaitSpares(s: State, step: WaitStep, g: int)
    requires WaitEnabled(s, step) && s.IsMon(g)
    ensures SparesHandlers(s, DoWait(s, step), g)
  {
  }

  lemma ExitSpares(s: State, step: ExitStep, g: int)
    requires ExitEnabled(s, step) && s.IsMon(g)
    ensures SparesHandlers(s, DoExit(s, step), g)
  {
  }

  lemma LockSpares(s: State, step: LockStep, g: int)
    requires LockEnabled(s, step) && s.IsMon(g)
    ensures SparesHandlers(s, DoLock(s, step), g)
  {
  }

  lemma GuardSpares(s: State, step: GuardStep, g: int)
    requires GuardEnabled(s, step) && OnMonitor(s, g, step.p)
    ensures SparesHandlers(s, DoGuard(s, step), g)
  {
  }

  lemma SleepSpares(s: State, step: SleepStep, g: int)
    requires SleepEnabled(s, step) && OnMonitor(s, g, step.p)
    ensures SparesHandlers(s, DoSleep(s, step), g)
  {
  }

  // ---------------------------------------------------------------- the whole table

  function Actor(s: State, step: Step): (p: int) {
    match step
    case Sched(t) => SchedActor(s, t)
    case Fork(t) => t.p
    case Wait(t) => t.p
    case Exit(t) => t.p
    case Locking(t) => t.p
    case Guarding(t) => t.p
    case Sleep(t) => t.p
    case Interrupt(t) => s.init
  }

  function Partner(s: State, step: Step): (q: int) {
    var p := Actor(s, step);
    if step.Sched? then (if step.sched.Kill? then step.sched.q else p)
    else if step.Fork? && Allocates(step.fork) then step.fork.np
    else if s.IsProc(p) && !step.Interrupt? then Other(s, p)
    else p
  }

  lemma StepSolo(s: State, step: Step, a: int)
    requires Inv(s) && Enabled(s, step) && s.IsProc(a)
    ensures Solo(Do(s, step), a)
  {
    hide SoloOk, PairOk, EnvOk;
    var p, q := Actor(s, step), Partner(s, step);
    match step
    case Sched(t) =>
      if a == p { SchedSelf(s, t, p, q); }
      else if a == q { SchedTouched(s, t, p, q); }
      else { SchedOthers(s, t, p, q, a); }
    case Fork(t) =>
      if a == p { ForkSelf(s, t, p, q); }
      else if a == q { ForkTouched(s, t, p, q); }
      else { ForkOthers(s, t, p, q, a); }
    case Wait(t) =>
      if a == p { WaitSelf(s, t, p, q); }
      else if a == q { WaitTouched(s, t, p, q); }
      else { WaitOthers(s, t, p, q, a); }
    case Exit(t) =>
      if a == p { ExitSelf(s, t, p, q); }
      else if a == q { ExitTouched(s, t, p, q); }
      else { ExitOthers(s, t, p, q, a); }
    case Locking(t) =>
      if a == p { LockSelf(s, t, p, q); }
      else if a == q { LockTouched(s, t, p, q); }
      else { LockOthers(s, t, p, q, a); }
    case Guarding(t) =>
      if a == p { GuardSelf(s, t, p, q); }
      else if a == q { GuardTouched(s, t, p, q); }
      else { GuardOthers(s, t, p, q, a); }
    case Sleep(t) => if a == p { SleepSelf(s, t, p, q); } else { SleepOthers(s, t, p, q, a); }
    case Interrupt(t) => IntrSolo(s, t, a);
  }

  lemma StepEnv(s: State, step: Step)
    requires Inv(s) && Enabled(s, step)
    ensures EnvOk(Do(s, step).Ctx()) && CpusNameProcs(Do(s, step)) && SameSize(s, Do(s, step))
  {
    var p, q := Actor(s, step), Partner(s, step);
    match step
    case Sched(t) => SchedEnv(s, t, p); SchedNames(s, t);
    case Fork(t) => ForkEnv(s, t, p); ForkTied(s, t); NamesKept(s, DoFork(s, t));
    case Wait(t) => WaitEnv(s, t, p); WaitTied(s, t); NamesKept(s, DoWait(s, t));
    case Exit(t) => ExitEnv(s, t, p); ExitTied(s, t); NamesKept(s, DoExit(s, t));
    case Locking(t) => LockEnv(s, t, p); LockTied(s, t); NamesKept(s, DoLock(s, t));
    case Guarding(t) => GuardEnv(s, t, p); GuardTied(s, t); NamesKept(s, DoGuard(s, t));
    case Sleep(t) => SleepEnv(s, t, p); SleepTied(s, t); NamesKept(s, DoSleep(s, t));
    case Interrupt(t) => IntrEnv(s, t);
  }

  lemma StepPair(s: State, step: Step, a: int, b: int)
    requires Inv(s) && Enabled(s, step) && s.IsProc(a) && s.IsProc(b)
    ensures Pair(Do(s, step), a, b)
  {
    var p, q := Actor(s, step), Partner(s, step);
    match step
    case Sched(t) => SchedPair(s, t, p, q, a, b);
    case Fork(t) => ForkPair(s, t, p, q, a, b);
    case Wait(t) => WaitPair(s, t, p, q, a, b);
    case Exit(t) => ExitPair(s, t, p, q, a, b);
    case Locking(t) => LockPair(s, t, p, q, a, b);
    case Guarding(t) => GuardPair(s, t, p, q, a, b);
    case Sleep(t) => SleepPair(s, t, p, q, a, b);
    case Interrupt(t) => IntrPair(s, t, a, b);
  }

  lemma StepCpu(s: State, step: Step, d: int, a: int)
    requires Inv(s) && Enabled(s, step) && s.IsCpu(d) && s.IsProc(a)
    ensures OnCpu(Do(s, step), d, a)
  {
    var p, q := Actor(s, step), Partner(s, step);
    match step
    case Sched(t) => SchedCpu(s, t, p, q, d, a);
    case Fork(t) => ForkCpu(s, t, p, q, d, a);
    case Wait(t) => WaitCpu(s, t, p, q, d, a);
    case Exit(t) => ExitCpu(s, t, p, q, d, a);
    case Locking(t) => LockCpu(s, t, p, q, d, a);
    case Guarding(t) => GuardCpu(s, t, p, q, d, a);
    case Sleep(t) => SleepCpu(s, t, p, q, d, a);
    case Interrupt(t) => IntrCpu(s, t, d, a);
  }

  lemma StepSleepLock(s: State, step: Step, k: int, a: int)
    requires Inv(s) && Enabled(s, step) && s.IsLock(k) && s.IsProc(a)
    ensures OnSleepLock(Do(s, step), k, a)
  {
    var p, q := Actor(s, step), Partner(s, step);
    match step
    case Sched(t) => SchedSleepLock(s, t, p, q, k, a);
    case Fork(t) => ForkSleepLock(s, t, p, q, k, a);
    case Wait(t) => WaitSleepLock(s, t, p, q, k, a);
    case Exit(t) => ExitSleepLock(s, t, p, q, k, a);
    case Locking(t) => LockSleepLock(s, t, p, q, k, a);
    case Guarding(t) => GuardSleepLock(s, t, p, q, k, a);
    case Sleep(t) => SleepSleepLock(s, t, p, q, k, a);
    case Interrupt(t) => IntrSleepLock(s, t, k, a);
  }

  lemma StepMonitor(s: State, step: Step, g: int, a: int)
    requires Inv(s) && Enabled(s, step) && s.IsMon(g) && s.IsProc(a)
    ensures OnMonitor(Do(s, step), g, a)
  {
    var p, q := Actor(s, step), Partner(s, step);
    match step
    case Sched(t) => SchedMonitor(s, t, p, q, g, a);
    case Fork(t) => ForkMonitor(s, t, p, q, g, a);
    case Wait(t) => WaitMonitor(s, t, p, q, g, a);
    case Exit(t) => ExitMonitor(s, t, p, q, g, a);
    case Locking(t) => LockMonitor(s, t, p, q, g, a);
    case Guarding(t) => GuardMonitor(s, t, p, q, g, a);
    case Sleep(t) => SleepMonitor(s, t, p, q, g, a);
    case Interrupt(t) => IntrMonitor(s, t, g, a);
  }

  lemma StepSpares(s: State, step: Step, g: int)
    requires Inv(s) && Enabled(s, step) && s.IsMon(g) && !step.Interrupt?
    ensures SparesHandlers(s, Do(s, step), g)
  {
    match step
    case Sched(t) => SchedSpares(s, t, g);
    case Fork(t) => ForkSpares(s, t, g);
    case Wait(t) => WaitSpares(s, t, g);
    case Exit(t) => ExitSpares(s, t, g);
    case Locking(t) => LockSpares(s, t, g);
    case Guarding(t) => GuardSpares(s, t, g);
    case Sleep(t) => SleepSpares(s, t, g);
  }

  lemma StepHandler(s: State, step: Step, g: int, h: int)
    requires Inv(s) && Enabled(s, step) && s.IsMon(g) && s.IsHandler(h)
    ensures OnHandler(Do(s, step), g, h)
  {
    if step.Interrupt? {
      assert OnMonitor(s, g, s.init);
      IntrHandler(s, step.intr, g, h);
    } else {
      StepSpares(s, step, g);
      HandlerSpared(s, Do(s, step), g, h);
    }
  }

  /** Steps that neither make a pid, nor a zombie, nor collect one. */
  predicate Fateless(step: Step) {
    && !(step.Fork? && Allocates(step.fork))
    && !(step.Wait? && step.wait.Collect?)
    && !(step.Exit? && step.exit.BecomeZombie?)
  }

  lemma StepFate(s: State, step: Step, a: int)
    requires Inv(s) && Enabled(s, step) && s.IsProc(a) && Fateless(step)
    ensures SameFate(s, Do(s, step), a)
  {
    match step
    case Sched(t) => SchedFate(s, t, a);
    case Fork(t) => ForkFate(s, t, a);
    case Wait(t) => WaitFate(s, t, a);
    case Exit(t) => ExitFate(s, t, a);
    case Locking(t) => LockFate(s, t, a);
    case Guarding(t) => GuardFate(s, t, a);
    case Sleep(t) => SleepFate(s, t, a);
    case Interrupt(t) => IntrFate(s, t, a);
  }

  lemma StepFates(s: State, step: Step)
    requires Inv(s) && Enabled(s, step)
    ensures ReapsOk(Do(s, step)) && TombsOk(Do(s, step))
  {
    if Fateless(step) {
      forall a | s.IsProc(a)
        ensures SameFate(s, Do(s, step), a)
      {
        StepFate(s, step, a);
      }
      StepFate(s, step, s.init);
      FatesKept(s, Do(s, step));
    } else if step.Fork? {
      if step.fork.Alloc? { AllocFates(s, step.fork.p, step.fork.np); }
      else { AllocFailsFates(s, step.fork.p, step.fork.np); }
    } else if step.Wait? {
      CollectFates(s, step.wait.p, step.wait.ok, Partner(s, step));
    } else {
      ZombieFates(s, step.exit.p, step.exit.status);
    }
  }

  /** Every step of every process and CPU keeps the invariant. */
  lemma StepKeeps(s: State, step: Step)
    requires Inv(s) && Enabled(s, step)
    ensures Inv(Do(s, step))
  {
    var t := Do(s, step);
    StepEnv(s, step);
    StepFates(s, step);
    forall a | t.IsProc(a) ensures Solo(t, a) { StepSolo(s, step, a); }
    forall a, b | t.IsProc(a) && t.IsProc(b) ensures Pair(t, a, b) { StepPair(s, step, a, b); }
    forall d, a | t.IsCpu(d) && t.IsProc(a) ensures OnCpu(t, d, a) { StepCpu(s, step, d, a); }
    forall k, a | t.IsLock(k) && t.IsProc(a) ensures OnSleepLock(t, k, a) { StepSleepLock(s, step, k, a); }
    forall g, a | t.IsMon(g) && t.IsProc(a) ensures OnMonitor(t, g, a) { StepMonitor(s, step, g, a); }
    forall g, h | t.IsMon(g) && t.IsHandler(h) ensures OnHandler(t, g, h) { StepHandler(s, step, g, h); }
  }
}
