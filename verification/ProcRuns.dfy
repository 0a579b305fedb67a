/**
 Runs of the process machine taken apart: what fork and kill achieve, and where exit statuses come from.
 */
module ProcRuns {
  import opened Basics
  import opened ProcState
  import opened ProcSteps
  import opened ProcProofs
  import opened Processes

  // ---------------------------------------------------------------- runs in parts

  lemma RunOne(s: State, step: Step)
    requires Enabled(s, step)
    ensures Run(s, [step]) == Some(Do(s, step))
  {
    assert [step][1..] == [];
  }

  lemma {:induction false} RunBoth(s: State, a: seq<Step>, t: State, b: seq<Step>)
    requires Run(s, a) == Some(t)
    ensures Run(s, a + b) == Run(t, b)
    decreases |a|
  {
    hide Enabled, Do;
    if a == [] {
      assert a + b == b;
    } else {
      RunBoth(Do(s, a[0]), a[1..], t, b);
      assert (a + b)[1..] == a[1..] + b;
    }
  }

  lemma RunThen(s: State, a: seq<Step>, t: State, step: Step)
    requires Run(s, a) == Some(t) && Enabled(t, step)
    ensures Run(s, a + [step]) == Some(Do(t, step))
  {
    hide Enabled, Do, Run;
    RunOne(t, step);
    RunBoth(s, a, t, [step]);
  }

  lemma RunNext(s: State, steps: seq<Step>)
    requires Run(s, steps).Some? && |steps| > 0
    ensures Enabled(s, steps[0]) && Run(s, steps) == Run(Do(s, steps[0]), steps[1..])
  {
    hide Enabled, Do;
  }

  lemma RunThree(s: State, a: Step, b: Step, c: Step)
    requires Run(s, [a, b, c]).Some?
    ensures Enabled(s, a) && Enabled(Do(s, a), b) && Enabled(Do(Do(s, a), b), c)
    ensures Run(s, [a, b, c]) == Some(Do(Do(Do(s, a), b), c))
  {
    hide Enabled, Do;
    assert [a, b, c][1..] == [b, c] && [b, c][1..] == [c] && [c][1..] == [];
    RunNext(s, [a, b, c]);
    RunNext(Do(s, a), [b, c]);
    RunNext(Do(Do(s, a), b), [c]);
  }

  /** What the invariant says of a process by itself, and of its pid. */
  lemma Known(s: State, p: int)
    requires Inv(s) && s.IsProc(p)
    ensures Solo(s, p) && EnvOk(s.Ctx())
    ensures s.procs[p].cpu.Some? ==> s.IsCpu(s.procs[p].cpu.value) && s.cpus[s.procs[p].cpu.value] == Running(p)
  {
    if s.procs[p].cpu.Some? {
      assert OnCpu(s, s.procs[p].cpu.value, p);
    }
  }

  lemma FreshPid(s: State, q: int)
    requires Inv(s) && s.IsProc(q) && !s.procs[q].state.UNUSED?
    ensures s.procs[q].pid < s.nextpid
  {
    hide Pair, OnCpu, OnSleepLock, OnMonitor, OnHandler, ReapsOk, TombsOk;
    assert Solo(s, q);
  }

  // ---------------------------------------------------------------- fork

  /** A fork that nobody gets in between of: a runnable child of p with a pid of its own, and p goes on. */
  lemma ForkMakesChild(s: State, p: int, np: int, t: State)
    requires Reachable(s) && Run(s, [Fork(Alloc(p, np)), Fork(SetParent(p)), Fork(Start(p))]) == Some(t)
    ensures s.IsProc(p) && s.IsProc(np) && p != np && |t.procs| == |s.procs|
    ensures var x := t.procs[np];
      x.state.RUNNABLE? && x.parent == Some(p) && x.pid == s.nextpid && x.pc.Free? && x.mode.Resumed?
    ensures t.procs[np].killed == s.procs[np].killed
    ensures forall q :: s.IsProc(q) && !s.procs[q].state.UNUSED? ==> s.procs[q].pid != t.procs[np].pid
    ensures forall c :: t.IsCpu(c) && t.cpus[c].Idle? ==> Enabled(t, Sched(Schedule(c, np)))
    ensures t == s.(nextpid := s.nextpid + 1, procs := s.procs[np := t.procs[np]])
  {
    hide Reachable, Run;
    RunThree(s, Fork(Alloc(p, np)), Fork(SetParent(p)), Fork(Start(p)));
    ReachableOk(s);
    Known(s, p);
    forall q | s.IsProc(q) && !s.procs[q].state.UNUSED?
      ensures s.procs[q].pid < s.nextpid
    {
      FreshPid(s, q);
    }
    hide Inv;
    var u := DoFork(s, Alloc(p, np));
    var v := DoFork(u, SetParent(p));
    assert t == DoFork(v, Start(p));
    assert t.procs[p] == s.procs[p];
  }

  /** Whatever happened since allocproc, the last step of fork makes the child runnable. */
  lemma ForkedChildRuns(s: State, p: int, c: int)
    requires Reachable(s) && Enabled(s, Fork(Start(p)))
    ensures var np, t := s.procs[p].pc.np, Do(s, Fork(Start(p)));
      && t == s.(procs := t.procs) && t.procs == s.procs[p := t.procs[p]][np := t.procs[np]]
      && t.procs[p] == s.procs[p].(pc := Free)
      && s.procs[np].state.USED? && t.procs[np] == s.procs[np].(state := RUNNABLE) && t.procs[np].parent == Some(p)
      && (t.IsCpu(c) && t.cpus[c].Idle? ==> Enabled(t, Sched(Schedule(c, np))))
  {
    ReachableOk(s);
    assert Pair(s, p, s.procs[p].pc.np) && Solo(s, p);
  }

  // ---------------------------------------------------------------- kill

  /** The victim is marked, is not left asleep, and nothing else changes. */
  lemma KillMarks(s: State, p: int, q: int)
    requires Enabled(s, Sched(Kill(p, q)))
    ensures var x, t := s.procs[q], Do(s, Sched(Kill(p, q)));
      && t == s.(procs := s.procs[q := t.procs[q]]) && t.procs[q].killed && !t.procs[q].state.SLEEPING?
      && t.procs[q] == x.(killed := true, state := t.procs[q].state)
      && (t.procs[q].state == x.state || (x.state.SLEEPING? && t.procs[q].state.RUNNABLE?))
  {
  }

  /** As long as slot q holds the process with pid d, that process is marked as killed. */
  predicate Doomed(s: State, q: int, d: int) {
    && s.IsProc(q) && d < s.nextpid
    && (s.procs[q].state.UNUSED? || (s.procs[q].pid == d ==> s.procs[q].killed))
  }

  /** If the slot is UNUSED, it is on no CPU and nobody's child to be. */
  ghost predicate Vacant(s: State, q: int) {
    s.IsProc(q) && s.procs[q].state.UNUSED? ==>
      && s.procs[q].cpu.None?
      && forall p :: s.IsProc(p) && (s.procs[p].pc.Forking? || s.procs[p].pc.ForkStart?) ==> s.procs[p].pc.np != q
  }

  lemma NotForked(s: State, q: int)
    requires Inv(s) && s.IsProc(q)
    ensures Vacant(s, q)
  {
    assert Solo(s, q);
    forall p | s.IsProc(p)
      ensures Pair(s, p, q)
    {
    }
  }

  /** The slot is free, has a new pid, or has the same process, killed if it was. */
  predicate Goes(s: State, t: State, q: int) {
    && |s.procs| == |t.procs| && s.IsProc(q) && s.nextpid <= t.nextpid
    && (|| t.procs[q].state.UNUSED?
        || s.nextpid <= t.procs[q].pid
        || (!s.procs[q].state.UNUSED? && t.procs[q].pid == s.procs[q].pid && (s.procs[q].killed ==> t.procs[q].killed)))
  }

  /** The mark of a slot that is UNUSED afterwards is the one it had; a slot that is freed has none. */
  predicate MarkLeft(x: Proc, y: Proc) {
    y.state.UNUSED? ==> y.killed == (x.state.UNUSED? && x.killed)
  }

  lemma SchedGoes(s: State, step: SchedStep, q: int)
    requires SchedEnabled(s, step) && s.IsProc(q) && Vacant(s, q)
    ensures Goes(s, DoSched(s, step), q)
  {
  }

  lemma ForkGoes(s: State, step: ForkStep, q: int)
    requires ForkEnabled(s, step) && s.IsProc(q) && Vacant(s, q)
    ensures Goes(s, DoFork(s, step), q)
  {
  }

  lemma WaitGoes(s: State, step: WaitStep, q: int)
    requires WaitEnabled(s, step) && s.IsProc(q) && Vacant(s, q)
    ensures Goes(s, DoWait(s, step), q) && MarkLeft(s.procs[q], DoWait(s, step).procs[q])
  {
  }

  lemma ExitGoes(s: State, step: ExitStep, q: int)
    requires ExitEnabled(s, step) && s.IsProc(q) && Vacant(s, q)
    ensures Goes(s, DoExit(s, step), q) && MarkLeft(s.procs[q], DoExit(s, step).procs[q])
  {
  }

  lemma LockGoes(s: State, step: LockStep, q: int)
    requires LockEnabled(s, step) && s.IsProc(q) && Vacant(s, q)
    ensures Goes(s, DoLock(s, step), q) && MarkLeft(s.procs[q], DoLock(s, step).procs[q])
  {
  }

  lemma GuardGoes(s: State, step: GuardStep, q: int)
    requires GuardEnabled(s, step) && s.IsProc(q) && Vacant(s, q)
    ensures Goes(s, DoGuard(s, step), q) && MarkLeft(s.procs[q], DoGuard(s, step).procs[q])
  {
  }

  lemma SleepGoes(s: State, step: SleepStep, q: int)
    requires SleepEnabled(s, step) && s.IsProc(q) && Vacant(s, q)
    ensures Goes(s, DoSleep(s, step), q) && MarkLeft(s.procs[q], DoSleep(s, step).procs[q])
  {
  }

  lemma IntrGoes(s: State, step: IntrStep, q: int)
    requires IntrEnabled(s, step) && s.IsProc(q) && Vacant(s, q)
    ensures Goes(s, DoIntr(s, step), q) && MarkLeft(s.procs[q], DoIntr(s, step).procs[q])
  {
  }

  lemma DoomedStep(s: State, step: Step, q: int, d: int)
    requires Inv(s) && Enabled(s, step) && Doomed(s, q, d)
    ensures Doomed(Do(s, step), q, d)
  {
    NotForked(s, q);
    hide Inv, Vacant, SchedEnabled, ForkEnabled, WaitEnabled, ExitEnabled, LockEnabled, GuardEnabled, SleepEnabled;
    hide IntrEnabled, DoSched, DoFork, DoWait, DoExit, DoLock, DoGuard, DoSleep, DoIntr;
    match step
    case Sched(x) => SchedGoes(s, x, q);
    case Fork(x) => ForkGoes(s, x, q);
    case Wait(x) => WaitGoes(s, x, q);
    case Exit(x) => ExitGoes(s, x, q);
    case Locking(x) => LockGoes(s, x, q);
    case Guarding(x) => GuardGoes(s, x, q);
    case Sleep(x) => SleepGoes(s, x, q);
    case Interrupt(x) => IntrGoes(s, x, q);
  }

  /** Once killed, a process is marked until it is gone, whatever is done in between. */
  lemma {:induction false} KillSticks(s: State, steps: seq<Step>, q: int, d: int)
    requires Inv(s) && Run(s, steps).Some? && Doomed(s, q, d)
    ensures Doomed(Run(s, steps).value, q, d)
    decreases |steps|
  {
    hide Enabled, Do, Inv;
    if |steps| > 0 {
      StepKeeps(s, steps[0]);
      DoomedStep(s, steps[0], q, d);
      KillSticks(Do(s, steps[0]), steps[1..], q, d);
    }
  }

  // ---------------------------------------------------------------- children that are born killed

  predicate Victim(step: Step, q: int) { step.Sched? && step.sched.Kill? && step.sched.q == q }

  predicate FailedIn(step: Step, q: int) { step.Fork? && step.fork.AllocFails? && step.fork.np == q }

  /** What the mark of a slot that is UNUSED afterwards comes from. */
  ghost predicate MarkFrom(s: State, step: Step, t: State, q: int) {
    && |t.procs| == |s.procs| && s.IsProc(q)
    && (t.procs[q].state.UNUSED? ==>
          (t.procs[q].killed <==>
             s.procs[q].state.UNUSED? && (Victim(step, q) || (s.procs[q].killed && !FailedIn(step, q)))))
  }

  lemma MarkStep(s: State, step: Step, q: int)
    requires Inv(s) && Enabled(s, step) && s.IsProc(q)
    ensures MarkFrom(s, step, Do(s, step), q)
  {
    NotForked(s, q);
    hide Inv, SchedEnabled, ForkEnabled, WaitEnabled, ExitEnabled, LockEnabled, GuardEnabled, SleepEnabled;
    hide IntrEnabled, DoSched, DoFork, DoWait, DoExit, DoLock, DoGuard, DoSleep, DoIntr;
    match step
    case Sched(x) => SchedMark(s, x, q);
    case Fork(x) => ForkMark(s, x, q);
    case Wait(x) => WaitGoes(s, x, q);
    case Exit(x) => ExitGoes(s, x, q);
    case Locking(x) => LockGoes(s, x, q);
    case Guarding(x) => GuardGoes(s, x, q);
    case Sleep(x) => SleepGoes(s, x, q);
    case Interrupt(x) => IntrGoes(s, x, q);
  }

  lemma SchedMark(s: State, step: SchedStep, q: int)
    requires SchedEnabled(s, step) && s.IsProc(q) && Vacant(s, q)
    ensures MarkFrom(s, Sched(step), DoSched(s, step), q)
  {
  }

  lemma ForkMark(s: State, step: ForkStep, q: int)
    requires ForkEnabled(s, step) && s.IsProc(q) && Vacant(s, q)
    ensures MarkFrom(s, Fork(step), DoFork(s, step), q)
  {
  }

  /** No step of the run is kill(0): a kill that finds an UNUSED slot, whose pid is 0. */
  ghost predicate NoKillZero(s: State, steps: seq<Step>)
    decreases |steps|
  {
    steps != [] && Enabled(s, steps[0]) ==>
      && (forall q :: s.IsProc(q) && s.procs[q].state.UNUSED? ==> !Victim(steps[0], q))
      && NoKillZero(Do(s, steps[0]), steps[1..])
  }

  ghost predicate Unmarked(s: State) {
    forall q :: s.IsProc(q) && s.procs[q].state.UNUSED? ==> !s.procs[q].killed
  }

  /** Without kill(0) no UNUSED slot is marked, and so every child is born unmarked. */
  lemma {:induction false} StaysUnmarked(s: State, steps: seq<Step>)
    requires Inv(s) && Unmarked(s) && NoKillZero(s, steps) && Run(s, steps).Some?
    ensures Unmarked(Run(s, steps).value)
    decreases |steps|
  {
    hide Enabled, Do, Inv;
    if steps != [] {
      var t := Do(s, steps[0]);
      forall q | t.IsProc(q)
        ensures s.IsProc(q) && MarkFrom(s, steps[0], t, q)
      {
        SameTable(s, steps[0]);
        MarkStep(s, steps[0], q);
      }
      StepKeeps(s, steps[0]);
      StaysUnmarked(t, steps[1..]);
    }
  }

  lemma SameTable(s: State, step: Step)
    requires Inv(s) && Enabled(s, step)
    ensures |Do(s, step).procs| == |s.procs|
  {
    hide Enabled, Do, Inv;
    StepEnv(s, step);
  }

  lemma ReachableThen(s: State, step: Step)
    requires Reachable(s) && Enabled(s, step)
    ensures Reachable(Do(s, step))
  {
    hide Enabled, Do, Run, Boot;
    var n: nat, cpus: nat, locks: nat, mons: nat, handlers: nat, steps: seq<Step> :| n > 0 &&
      Run(Boot(n, cpus, locks, mons, handlers), steps) == Some(s);
    RunThen(Boot(n, cpus, locks, mons, handlers), steps, s, step);
  }

  lemma RunFork(s: State, p: int, np: int)
    requires Enabled(s, Fork(Alloc(p, np))) && p != np && s.waitLock.None?
    ensures Run(s, [Fork(Alloc(p, np)), Fork(SetParent(p)), Fork(Start(p))]).Some?
  {
    var u := Do(s, Fork(Alloc(p, np)));
    var v := Do(u, Fork(SetParent(p)));
    assert Enabled(v, Fork(Start(p)));
    hide Do, Enabled, Run;
    RunOne(s, Fork(Alloc(p, np)));
    RunThen(s, [Fork(Alloc(p, np))], u, Fork(SetParent(p)));
    RunThen(s, [Fork(Alloc(p, np))] + [Fork(SetParent(p))], v, Fork(Start(p)));
    assert [Fork(Alloc(p, np))] + [Fork(SetParent(p))] + [Fork(Start(p))]
        == [Fork(Alloc(p, np)), Fork(SetParent(p)), Fork(Start(p))];
  }

  /** kill(0) marks an UNUSED slot; the next child made in that slot is killed before it has run. */
  lemma KillZeroDoomsChild(s: State, p: int, np: int) returns (t: State)
    requires Reachable(s) && Enabled(s, Sched(Kill(p, np))) && s.procs[np].state.UNUSED? && s.waitLock.None?
    ensures Run(Do(s, Sched(Kill(p, np))), [Fork(Alloc(p, np)), Fork(SetParent(p)), Fork(Start(p))]) == Some(t)
    ensures t.IsProc(np) && t.procs[np].state.RUNNABLE? && t.procs[np].parent == Some(p) && t.procs[np].killed
  {
    ReachableOk(s);
    Known(s, np);
    hide Inv, Run;
    var u := Do(s, Sched(Kill(p, np)));
    ReachableThen(s, Sched(Kill(p, np)));
    RunFork(u, p, np);
    t := Run(u, [Fork(Alloc(p, np)), Fork(SetParent(p)), Fork(Start(p))]).value;
    ForkMakesChild(u, p, np, t);
  }

  // ---------------------------------------------------------------- exit statuses

  /** Step i of the run was the exit, with that status, of the process that had that pid. */
  predicate ExitedAt(s: State, steps: seq<Step>, i: int, pid: int, status: int) {
    && 0 <= i < |steps| && steps[i].Exit? && steps[i].exit.BecomeZombie? && steps[i].exit.status == status
    && var u := Run(s, steps[..i]);
       u.Some? && u.value.IsProc(steps[i].exit.p) && u.value.procs[steps[i].exit.p].pid == pid
  }

  lemma ExitsSame(s: State, step: Step)
    requires Enabled(s, step) && !(step.Exit? && step.exit.BecomeZombie?)
    ensures Do(s, step).exits == s.exits
  {
    match step
    case Sched(x) => assert SchedEnabled(s, x) && DoSched(s, x).exits == s.exits;
    case Fork(x) => assert ForkEnabled(s, x) && DoFork(s, x).exits == s.exits;
    case Wait(x) => assert WaitEnabled(s, x) && DoWait(s, x).exits == s.exits;
    case Exit(x) => assert ExitEnabled(s, x) && DoExit(s, x).exits == s.exits;
    case Locking(x) => assert LockEnabled(s, x) && DoLock(s, x).exits == s.exits;
    case Guarding(x) => assert GuardEnabled(s, x) && DoGuard(s, x).exits == s.exits;
    case Sleep(x) => assert SleepEnabled(s, x) && DoSleep(s, x).exits == s.exits;
    case Interrupt(x) => assert IntrEnabled(s, x) && DoIntr(s, x).exits == s.exits;
  }

  lemma ExitsStep(s: State, step: Step, d: int)
    requires Enabled(s, step) && d in Do(s, step).exits
    ensures (d in s.exits && Do(s, step).exits[d] == s.exits[d]) || ExitedAt(s, [step], 0, d, Do(s, step).exits[d])
  {
    if step.Exit? && step.exit.BecomeZombie? {
      assert [step][..0] == [];
    } else {
      ExitsSame(s, step);
    }
  }

  /** The exit statuses on record are the arguments of exit. */
  lemma {:induction false} ExitsOfRun(s: State, steps: seq<Step>, d: int) returns (i: int)
    requires Run(s, steps).Some? && d in Run(s, steps).value.exits
    ensures var v := Run(s, steps).value.exits[d];
      (i == -1 && d in s.exits && s.exits[d] == v) || ExitedAt(s, steps, i, d, v)
    decreases |steps|
  {
    hide Enabled, Do;
    i := -1;
    if |steps| > 0 {
      var u := Do(s, steps[0]);
      i := ExitsOfRun(u, steps[1..], d);
      if i == -1 {
        ExitsStep(s, steps[0], d);
        if !(d in s.exits && u.exits[d] == s.exits[d]) {
          i := 0;
          assert steps[..0] == [] == [steps[0]][..0];
        }
      } else {
        i := i + 1;
        assert steps[..i][1..] == steps[1..][..i - 1];
      }
    }
  }

  /** What wait returns is the argument that the process with that pid gave to exit. */
  lemma CollectedIsExitArgument(n: nat, cpus: nat, locks: nat, mons: nat, handlers: nat, steps: seq<Step>, k: int)
    returns (i: int)
    requires n > 0 && Run(Boot(n, cpus, locks, mons, handlers), steps).Some?
    requires 0 <= k < |Run(Boot(n, cpus, locks, mons, handlers), steps).value.reaps|
    ensures var s := Boot(n, cpus, locks, mons, handlers); var r := Run(s, steps).value.reaps[k];
      ExitedAt(s, steps, i, r.pid, r.status)
  {
    hide Run, ExitedAt;
    var s := Boot(n, cpus, locks, mons, handlers);
    var t := Run(s, steps).value;
    assert Reachable(t);
    CollectedRight(t, k);
    i := ExitsOfRun(s, steps, t.reaps[k].pid);
  }
}
