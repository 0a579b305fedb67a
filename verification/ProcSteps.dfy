/**
 The steps of the process machine: when each can be taken and what it does.
 */
module ProcSteps {
  import opened Basics
  import opened ProcState

  datatype SchedStep =
    | Schedule(c: int, p: int) | Unlock(c: int) | Switch(c: int) | DropOwn(p: int) | Yield(p: int)
      | Kill(p: int, q: int)

  /** `AllocFails` is a fork that finds a slot but no memory, and gives the slot back. */
  datatype ForkStep = Alloc(p: int, np: int) | AllocFails(p: int, np: int) | SetParent(p: int) | Start(p: int)

  /** `ok` says whether copyout of the exit status succeeds. */
  datatype WaitStep = Enter(p: int) | Look(p: int) | Collect(p: int, ok: bool) | End(p: int)

  datatype ExitStep =
    | Begin(p: int) | PassBy(p: int) | GiveAway(p: int) | WakesInit(p: int) | InitDone(p: int) | WakesParent(p: int)
    | BecomeZombie(p: int, status: int)

  /** acquiresleep and releasesleep. */
  datatype LockStep = Take(p: int, l: int) | Give(p: int, l: int) | GiveNext(p: int) | GiveDone(p: int)

  /** Code under a spin lock that sleeps on a channel, in a loop around its check, or calls wakeup. */
  datatype GuardStep =
    | Acquire(p: int, g: int) | SleepOn(p: int, ch: int) | Wakeup(p: int, ch: int) | RingNext(p: int) | RingDone(p: int)
    | Release(p: int)

  /** The wakeup of an interrupt handler under a spin lock. */
  datatype IntrStep = IntrBegin(h: int, g: int, ch: int) | IntrNext(h: int) | IntrDone(h: int)

  datatype SleepStep = LetGo(p: int) | Mark(p: int) | Unlocked(p: int)

  datatype Step =
    | Sched(sched: SchedStep) | Fork(fork: ForkStep) | Wait(wait: WaitStep)
    | Exit(exit: ExitStep) | Locking(lock: LockStep) | Guarding(guard: GuardStep) | Sleep(sleep: SleepStep)
    | Interrupt(intr: IntrStep)

  /** A CPU is executing process p's code, outside yield. */
  predicate Runs(s: State, p: int) {
    s.IsProc(p) && s.procs[p].cpu.Some? && s.procs[p].mode.Straight?
  }

  /** wakeup's loop can go past process j: it is the caller or its lock is free. */
  predicate CanWake(s: State, p: int, j: int)
    requires s.IsProc(j)
  {
    j == p || s.procs[j].lock.None?
  }

  // ---------------------------------------------------------------- when a step can be taken

  predicate SchedEnabled(s: State, step: SchedStep) {
    match step
    case Schedule(c, p) =>
      s.IsCpu(c) && s.cpus[c].Idle? && s.IsProc(p) && s.procs[p].lock.None? && s.procs[p].state.RUNNABLE?
    case Unlock(c) => s.IsCpu(c) && s.cpus[c].After? && s.IsProc(s.cpus[c].p)
    case Switch(c) =>
      && s.IsCpu(c) && s.cpus[c].Running? && s.IsProc(s.cpus[c].p)
      && var x := s.procs[s.cpus[c].p];
         x.mode.Yielding? || (x.mode.Straight? && (x.pc.SleepSwitch? || x.pc.ExitSwitch?))
    case DropOwn(p) => s.IsProc(p) && s.procs[p].cpu.Some? && s.procs[p].mode.Resumed?
    case Yield(p) => Runs(s, p) && NoLock(s.procs[p].pc) && s.procs[p].lock.None?
    case Kill(p, q) => Runs(s, p) && s.procs[p].pc.Free? && s.IsProc(q) && s.procs[q].lock.None?
  }

  predicate ForkEnabled(s: State, step: ForkStep) {
    && Runs(s, step.p)
    && var pc := s.procs[step.p].pc;
       match step
       case Alloc(p, np) => pc.Free? && s.IsProc(np) && s.procs[np].lock.None? && s.procs[np].state.UNUSED?
       case AllocFails(p, np) => pc.Free? && s.IsProc(np) && s.procs[np].lock.None? && s.procs[np].state.UNUSED?
       case SetParent(p) => pc.Forking? && s.IsProc(pc.np) && s.waitLock.None?
       case Start(p) => pc.ForkStart? && s.IsProc(pc.np) && s.procs[pc.np].lock.None?
  }

  predicate WaitEnabled(s: State, step: WaitStep) {
    && Runs(s, step.p)
    && var pc := s.procs[step.p].pc;
       match step
       case Enter(p) => (pc.Free? || pc == SleepRelock(WaitLock)) && s.waitLock.None?
       case Look(p) =>
         && pc.Scan? && s.IsProc(pc.i)
         && (s.procs[pc.i].parent == Some(p) ==> s.procs[pc.i].lock.None? && !s.procs[pc.i].state.ZOMBIE?)
       case Collect(p, ok) =>
         && pc.Scan? && s.IsProc(pc.i)
         && s.procs[pc.i].parent == Some(p) && s.procs[pc.i].lock.None? && s.procs[pc.i].state.ZOMBIE?
       case End(p) => pc.Scan? && pc.i == |s.procs| && s.procs[p].lock.None?
  }

  predicate ExitEnabled(s: State, step: ExitStep) {
    && Runs(s, step.p)
    && var pc := s.procs[step.p].pc;
       match step
       case Begin(p) => pc.Free? && s.procs[p].has == {} && p != s.init && s.waitLock.None?
       case PassBy(p) => pc.Reparent? && (s.IsProc(pc.i) ==> s.procs[pc.i].parent != Some(p))
       case GiveAway(p) => pc.Reparent? && s.IsProc(pc.i) && s.procs[pc.i].parent == Some(p)
       case WakesInit(p) => pc.WakeInit? && s.IsProc(pc.j) && CanWake(s, p, pc.j)
       case InitDone(p) => pc.WakeInit? && pc.j == |s.procs|
       case WakesParent(p) => pc.WakeParent? && s.IsProc(pc.j) && CanWake(s, p, pc.j)
       case BecomeZombie(p, status) => pc.WakeParent? && pc.j == |s.procs| && s.procs[p].lock.None?
  }

  predicate LockEnabled(s: State, step: LockStep) {
    && Runs(s, step.p)
    && var pc := s.procs[step.p].pc;
       match step
       case Take(p, l) =>
         && (pc.Free? || pc == SleepRelock(Inner(l))) && s.IsLock(l) && s.locks[l].inner.None?
         && (s.locks[l].locked ==> s.procs[p].lock.None?)
       case Give(p, l) => pc.Free? && l in s.procs[p].has && s.IsLock(l) && s.locks[l].inner.None?
       case GiveNext(p) => pc.GiveWake? && s.IsLock(pc.l) && s.IsProc(pc.j) && CanWake(s, p, pc.j)
       case GiveDone(p) => pc.GiveWake? && s.IsLock(pc.l) && pc.j == |s.procs|
  }

  predicate Unheld(k: Monitor) { k.holder.None? && k.handler.None? }

  predicate IntrEnabled(s: State, step: IntrStep) {
    && s.IsHandler(step.h)
    && var y := s.handlers[step.h];
       match step
       case IntrBegin(h, g, ch) => y.Quiet? && s.IsMon(g) && Unheld(s.mons[g])
       case IntrNext(h) => y.Ringing? && s.IsMon(y.g) && s.IsProc(y.j) && s.procs[y.j].lock.None?
       case IntrDone(h) => y.Ringing? && s.IsMon(y.g) && y.j == |s.procs|
  }

  predicate GuardEnabled(s: State, step: GuardStep) {
    && Runs(s, step.p)
    && var pc := s.procs[step.p].pc;
       match step
       case Acquire(p, g) =>
         && (pc.Free? || (pc.SleepRelock? && pc.lk.Guard? && pc.lk.g == g)) && s.IsMon(g) && Unheld(s.mons[g])
       case SleepOn(p, ch) => pc.Inside? && s.IsMon(pc.g) && s.procs[p].lock.None?
       case Wakeup(p, ch) => pc.Inside? && s.IsMon(pc.g)
       case RingNext(p) => pc.Ring? && s.IsMon(pc.g) && s.IsProc(pc.j) && CanWake(s, p, pc.j)
       case RingDone(p) => pc.Ring? && s.IsMon(pc.g) && pc.j == |s.procs|
       case Release(p) => pc.Inside? && s.IsMon(pc.g)
  }

  predicate SleepEnabled(s: State, step: SleepStep) {
    && Runs(s, step.p)
    && var pc := s.procs[step.p].pc;
       match step
       case LetGo(p) => pc.SleepBoth? && s.HasLock(pc.lk)
       case Mark(p) => pc.SleepOwn?
       case Unlocked(p) => pc.SleepWoke?
  }

  predicate Enabled(s: State, step: Step) {
    match step
    case Sched(t) => SchedEnabled(s, t)
    case Fork(t) => ForkEnabled(s, t)
    case Wait(t) => WaitEnabled(s, t)
    case Exit(t) => ExitEnabled(s, t)
    case Locking(t) => LockEnabled(s, t)
    case Guarding(t) => GuardEnabled(s, t)
    case Sleep(t) => SleepEnabled(s, t)
    case Interrupt(t) => IntrEnabled(s, t)
  }

  // ---------------------------------------------------------------- what a step does

  function Woken(x: Proc, ch: Option<Chan>): (y: Proc) {
    if x.state.SLEEPING? && x.chan == ch then x.(state := RUNNABLE) else x
  }

  /** One round of wakeup's loop by process p, past p itself, and on to `pc`. */
  function WakeNext(s: State, p: int, j: int, ch: Option<Chan>, pc: Pc): (t: State)
    requires s.IsProc(p) && s.IsProc(j)
  {
    s.(procs := s.procs[j := Woken(s.procs[j], ch)][p := s.procs[p].(pc := pc)])
  }

  function Goto(s: State, p: int, pc: Pc): (t: State)
    requires s.IsProc(p)
  {
    s.With(p, s.procs[p].(pc := pc))
  }

  /** allocproc's new process, switched to at forkret; the mark that kill sets is the one found in the slot. */
  function NewProc(p: int, pid: int, killed: bool): (x: Proc) {
    Proc(USED, Free, Resumed, None, None, None, pid, 0, killed, None, Some(p), {})
  }

  /** freeproc. */
  function Freed(x: Proc): (y: Proc) {
    x.(state := UNUSED, pc := Free, mode := Resumed, chan := None, parent := None, pid := 0, xstate := 0,
      killed := false)
  }

  /** What swtch leaves behind of a process that goes off the CPU. */
  function Saved(x: Proc): (y: Proc) {
    x.(cpu := None,
       mode := if x.mode.Yielding? then Resumed else x.mode,
       pc := if x.mode.Yielding? then x.pc else if x.pc.SleepSwitch? then SleepWoke(x.pc.lk) else Dead)
  }

  function ParentChan(x: Proc): (ch: Option<Chan>) {
    if x.parent.Some? then Some(OnProc(x.parent.value)) else None
  }

  function Killed(x: Proc): (y: Proc) {
    x.(killed := true, state := if x.state.SLEEPING? then RUNNABLE else x.state)
  }

  function DoSched(s: State, step: SchedStep): (t: State)
    requires SchedEnabled(s, step)
  {
    match step
    case Schedule(c, p) =>
      s.With(p, s.procs[p].(state := RUNNING, lock := Some(c), cpu := Some(c))).WithCpu(c, Running(p))
    case Unlock(c) =>
      var p := s.cpus[c].p;
      s.With(p, s.procs[p].(lock := None)).WithCpu(c, Idle)
    case Switch(c) =>
      var p := s.cpus[c].p;
      s.With(p, Saved(s.procs[p])).WithCpu(c, After(p))
    case DropOwn(p) => s.With(p, s.procs[p].(lock := None, mode := Straight))
    case Yield(p) => s.With(p, s.procs[p].(lock := s.procs[p].cpu, state := RUNNABLE, mode := Yielding))
    case Kill(p, q) => s.With(q, Killed(s.procs[q]))
  }

  function DoFork(s: State, step: ForkStep): (t: State)
    requires ForkEnabled(s, step)
  {
    var pc := s.procs[step.p].pc;
    match step
    case Alloc(p, np) =>
      Goto(s.(nextpid := s.nextpid + 1).With(np, NewProc(p, s.nextpid, s.procs[np].killed)), p, Forking(np))
    case AllocFails(p, np) => s.(nextpid := s.nextpid + 1).With(np, Freed(NewProc(p, s.nextpid, s.procs[np].killed)))
    case SetParent(p) => Goto(s.With(pc.np, s.procs[pc.np].(parent := Some(p))), p, ForkStart(pc.np))
    case Start(p) => Goto(s.With(pc.np, s.procs[pc.np].(state := RUNNABLE)), p, Free)
  }

  /** A zombie child is collected unless copyout fails. */
  function Reaped(s: State, p: int, i: int, ok: bool): (t: State)
    requires s.IsProc(p) && s.IsProc(i)
  {
    if !ok then s
    else s.(reaps := s.reaps + [Reap(s.procs[i].pid, s.procs[i].xstate, p)]).With(i, Freed(s.procs[i]))
  }

  function DoWait(s: State, step: WaitStep): (t: State)
    requires WaitEnabled(s, step)
  {
    var pc := s.procs[step.p].pc;
    match step
    case Enter(p) => Goto(s.(waitLock := Some(p)), p, Scan(0, false))
    case Look(p) => Goto(s, p, Scan(pc.i + 1, pc.kids || s.procs[pc.i].parent == Some(p)))
    case Collect(p, ok) => Goto(Reaped(s, p, pc.i, ok).(waitLock := None), p, Free)
    case End(p) =>
      if !pc.kids || s.procs[p].killed then Goto(s.(waitLock := None), p, Free)
      else s.With(p, s.procs[p].(lock := s.procs[p].cpu, pc := SleepBoth(WaitLock)))
  }

  function DoExit(s: State, step: ExitStep): (t: State)
    requires ExitEnabled(s, step)
  {
    var pc := s.procs[step.p].pc;
    match step
    case Begin(p) => Goto(s.(waitLock := Some(p)), p, Reparent(0))
    case PassBy(p) => Goto(s, p, if s.IsProc(pc.i) then Reparent(pc.i + 1) else WakeParent(0))
    case GiveAway(p) =>
      Goto(s.With(pc.i, s.procs[pc.i].(parent := Some(s.init))).(initWoken := 0), p, WakeInit(pc.i, 0))
    case WakesInit(p) =>
      WakeNext(s, p, pc.j, Some(OnProc(s.init)), WakeInit(pc.i, pc.j + 1)).(initWoken := pc.j + 1)
    case InitDone(p) => Goto(s, p, Reparent(pc.i + 1))
    case WakesParent(p) => WakeNext(s, p, pc.j, ParentChan(s.procs[p]), WakeParent(pc.j + 1))
    case BecomeZombie(p, status) =>
      var x := s.procs[p];
      s.With(p, x.(state := ZOMBIE, xstate := status, lock := x.cpu, pc := ExitSwitch))
       .(waitLock := None, exits := s.exits[x.pid := status], tomb := s.tomb[x.pid := p])
  }

  function DoLock(s: State, step: LockStep): (t: State)
    requires LockEnabled(s, step)
  {
    var x := s.procs[step.p];
    match step
    case Take(p, l) =>
      if s.locks[l].locked then
        s.With(p, x.(lock := x.cpu, pc := SleepBoth(Inner(l)))).WithLock(l, s.locks[l].(inner := Some(p)))
      else
        s.With(p, x.(has := x.has + {l}, pc := Free))
         .WithLock(l, s.locks[l].(locked := true, pid := x.pid, owner := Some(p)))
    case Give(p, l) =>
      s.With(p, x.(has := x.has - {l}, pc := GiveWake(l, 0)))
       .WithLock(l, s.locks[l].(inner := Some(p), locked := false, pid := 0, owner := None, woken := 0))
    case GiveNext(p) =>
      WakeNext(s, p, x.pc.j, Some(OnLock(x.pc.l)), GiveWake(x.pc.l, x.pc.j + 1))
        .WithLock(x.pc.l, s.locks[x.pc.l].(woken := x.pc.j + 1))
    case GiveDone(p) => Goto(s.WithLock(x.pc.l, s.locks[x.pc.l].(inner := None)), p, Free)
  }

  function DoGuard(s: State, step: GuardStep): (t: State)
    requires GuardEnabled(s, step)
  {
    var x := s.procs[step.p];
    match step
    case Acquire(p, g) => Goto(s.WithMon(g, s.mons[g].(holder := Some(p))), p, Inside(g))
    case SleepOn(p, ch) => s.With(p, x.(lock := x.cpu, pc := SleepBoth(Guard(x.pc.g, ch))))
    case Wakeup(p, ch) => Goto(s.WithMon(x.pc.g, s.mons[x.pc.g].(chan := ch)), p, Ring(x.pc.g, ch, 0))
    case RingNext(p) =>
      WakeNext(s, p, x.pc.j, Some(OnChan(x.pc.g, x.pc.ch)), Ring(x.pc.g, x.pc.ch, x.pc.j + 1))
        .WithMon(x.pc.g, s.mons[x.pc.g].(woken := x.pc.j + 1))
    case RingDone(p) => Goto(s.WithMon(x.pc.g, s.mons[x.pc.g].(woken := 0)), p, Inside(x.pc.g))
    case Release(p) => Goto(s.WithMon(x.pc.g, s.mons[x.pc.g].(holder := None)), p, Free)
  }

  function WithHandler(s: State, h: int, y: Handler): (t: State)
    requires s.IsHandler(h)
  {
    s.(handlers := s.handlers[h := y])
  }

  function DoIntr(s: State, step: IntrStep): (t: State)
    requires IntrEnabled(s, step)
  {
    var y := s.handlers[step.h];
    match step
    case IntrBegin(h, g, ch) => WithHandler(s.WithMon(g, s.mons[g].(handler := Some(h), chan := ch)), h,
      Ringing(g, ch, 0))
    case IntrNext(h) =>
      WithHandler(s.With(y.j, Woken(s.procs[y.j], Some(OnChan(y.g, y.ch)))).WithMon(y.g,
        s.mons[y.g].(woken := y.j + 1)),
                  h, y.(j := y.j + 1))
    case IntrDone(h) => WithHandler(s.WithMon(y.g, s.mons[y.g].(handler := None, woken := 0)), h, Quiet)
  }

  function DoSleep(s: State, step: SleepStep): (t: State)
    requires SleepEnabled(s, step)
  {
    var x := s.procs[step.p];
    match step
    case LetGo(p) =>
      if x.pc.lk.WaitLock? then Goto(s.(waitLock := None), p, SleepOwn(WaitLock))
      else if x.pc.lk.Inner? then Goto(s.WithLock(x.pc.lk.l, s.locks[x.pc.lk.l].(inner := None)), p, SleepOwn(x.pc.lk))
      else Goto(s.WithMon(x.pc.lk.g, s.mons[x.pc.lk.g].(holder := None)), p, SleepOwn(x.pc.lk))
    case Mark(p) => s.With(p, x.(state := SLEEPING, chan := Some(ChanOf(x.pc.lk, p)), pc := SleepSwitch(x.pc.lk)))
    case Unlocked(p) => s.With(p, x.(chan := None, lock := None, pc := SleepRelock(x.pc.lk)))
  }

  function Do(s: State, step: Step): (t: State)
    requires Enabled(s, step)
  {
    match step
    case Sched(t) => DoSched(s, t)
    case Fork(t) => DoFork(s, t)
    case Wait(t) => DoWait(s, t)
    case Exit(t) => DoExit(s, t)
    case Locking(t) => DoLock(s, t)
    case Guarding(t) => DoGuard(s, t)
    case Sleep(t) => DoSleep(s, t)
    case Interrupt(t) => DoIntr(s, t)
  }
}
