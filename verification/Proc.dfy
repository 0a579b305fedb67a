/**
 What the process machine promises in every reachable state: exit and wait, single execution,
 no lost wakeup, and mutual exclusion of sleep locks.
 */
module Processes {
  import opened Basics
  import opened ProcState
  import opened ProcSteps
  import opened ProcProofs

  // ---------------------------------------------------------------- runs

  /** After userinit: init is RUNNABLE in slot 0, every CPU is in its scheduler, every lock is free. */
  function Boot(n: nat, cpus: nat, locks: nat, mons: nat, handlers: nat): (s: State)
    requires n > 0
  {
    var unused := Proc(UNUSED, Free, Resumed, None, None, None, 0, 0, false, None, None, {});
    State(seq(n, _ => unused)[0 := unused.(state := RUNNABLE, pid := 1)], seq(cpus, _ => Idle),
          seq(locks, _ => SleepLock(None, false, 0, None, n)),
          seq(mons, _ => Monitor(None, None, 0, 0)), seq(handlers, _ => Quiet), None, 0, 2, n, map[], map[], [])
  }

  lemma BootOk(n: nat, cpus: nat, locks: nat, mons: nat, handlers: nat)
    requires n > 0
    ensures Inv(Boot(n, cpus, locks, mons, handlers))
  {
  }

  /** The state after a sequence of steps, each enabled where it is taken; None if one is not. */
  function Run(s: State, steps: seq<Step>): (r: Option<State>)
    decreases |steps|
  {
    if |steps| == 0 then Some(s)
    else if Enabled(s, steps[0]) then Run(Do(s, steps[0]), steps[1..])
    else None
  }

  /** Every interleaving of any processes on any CPUs stays within the invariant. */
  lemma {:induction false} RunsAreSafe(s: State, steps: seq<Step>)
    requires Inv(s) && Run(s, steps).Some?
    ensures Inv(Run(s, steps).value)
    decreases |steps|
  {
    if |steps| > 0 {
      StepKeeps(s, steps[0]);
      RunsAreSafe(Do(s, steps[0]), steps[1..]);
    }
  }

  ghost predicate Reachable(t: State) {
    exists n: nat, cpus: nat, locks: nat, mons: nat, handlers: nat, steps: seq<Step> :: n > 0 &&
      Run(Boot(n, cpus, locks, mons, handlers), steps) == Some(t)
  }

  lemma ReachableOk(t: State)
    requires Reachable(t)
    ensures Inv(t)
  {
    var n: nat, cpus: nat, locks: nat, mons: nat, handlers: nat, steps: seq<Step> :| n > 0 &&
      Run(Boot(n, cpus, locks, mons, handlers), steps) == Some(t);
    BootOk(n, cpus, locks, mons, handlers);
    RunsAreSafe(Boot(n, cpus, locks, mons, handlers), steps);
  }

  // ---------------------------------------------------------------- exit and wait

  /** With wait_lock free, no process is asleep in wait while it has a zombie child. */
  lemma NoLostExit(s: State, p: int, q: int)
    requires Reachable(s) && s.waitLock.None? && s.IsProc(p) && s.IsProc(q)
    requires s.procs[q].parent == Some(p) && s.procs[q].state.ZOMBIE?
    ensures !(s.procs[p].state.SLEEPING? && s.procs[p].chan == Some(OnProc(p))) && !Dozing(s.procs[p], WaitLock)
  {
    ReachableOk(s);
    assert Pair(s, p, q) && Solo(s, p);
  }

  /** A parent is never UNUSED, USED or a zombie, whether wait_lock is free or not. */
  lemma ParentsAlive(s: State, p: int, q: int)
    requires Reachable(s) && s.IsProc(q) && s.procs[q].parent == Some(p)
    ensures s.IsProc(p) && p != q && Alive(s.procs[p])
  {
    ReachableOk(s);
    assert Solo(s, q);
    assert Pair(s, p, q);
  }

  /** No pid is collected twice. */
  lemma CollectedOnce(s: State, k: int, m: int)
    requires Reachable(s) && 0 <= k < m < |s.reaps|
    ensures s.reaps[k].pid != s.reaps[m].pid
  {
    ReachableOk(s);
  }

  /** Each collected status is the one its pid exited with. */
  lemma CollectedRight(s: State, k: int)
    requires Reachable(s) && 0 <= k < |s.reaps|
    ensures s.reaps[k].pid in s.exits && s.reaps[k].status == s.exits[s.reaps[k].pid]
  {
    ReachableOk(s);
  }

  /** Every process that exited has been collected, or is a zombie that still holds its status. */
  lemma NoExitLost(s: State, d: int)
    requires Reachable(s) && d in s.exits
    ensures Collected(s.reaps, d) ||
      exists p :: s.IsProc(p) && s.procs[p].state.ZOMBIE? && s.procs[p].pid == d && s.procs[p].xstate == s.exits[d]
  {
    ReachableOk(s);
    if !Collected(s.reaps, d) {
      assert Solo(s, s.tomb[d]);
    }
  }

  /** freeproc runs only on a process that no CPU is executing or has yet to unlock. */
  lemma FreedOffCpu(s: State, p: int, ok: bool, c: int)
    requires Reachable(s) && Enabled(s, Wait(Collect(p, ok))) && s.IsCpu(c)
    ensures s.cpus[c] != Running(s.procs[p].pc.i) && s.cpus[c] != After(s.procs[p].pc.i)
  {
    ReachableOk(s);
    assert OnCpu(s, c, s.procs[p].pc.i) && Solo(s, s.procs[p].pc.i);
  }

  /** So does the freeproc of a fork that finds no memory. */
  lemma FailedForkOffCpu(s: State, p: int, np: int, c: int)
    requires Reachable(s) && Enabled(s, Fork(AllocFails(p, np))) && s.IsCpu(c)
    ensures s.cpus[c] != Running(np) && s.cpus[c] != After(np)
    ensures Do(s, Fork(AllocFails(p, np))).procs[np].state.UNUSED?
    ensures Do(s, Fork(AllocFails(p, np))).procs[np].parent.None?
  {
    ReachableOk(s);
    assert OnCpu(s, c, np) && Solo(s, np);
  }

  /** wait returns without a child only if the caller has no children or was killed. */
  lemma WaitFailsRightly(s: State, p: int, q: int)
    requires Reachable(s) && Enabled(s, Wait(End(p))) && s.IsProc(q) && s.procs[q].parent == Some(p)
    ensures s.procs[p].killed || Do(s, Wait(End(p))).procs[p].pc == SleepBoth(WaitLock)
  {
    ReachableOk(s);
    assert Pair(s, p, q);
  }

  // ---------------------------------------------------------------- single execution

  /** A RUNNING process is current on exactly one CPU. */
  lemma RunsOnce(s: State, p: int)
    requires Reachable(s) && s.IsProc(p) && s.procs[p].state.RUNNING?
    ensures s.procs[p].cpu.Some? && s.IsCpu(s.procs[p].cpu.value)
    ensures forall c :: s.IsCpu(c) ==> (s.cpus[c] == Running(p) <==> c == s.procs[p].cpu.value)
  {
    ReachableOk(s);
    assert Solo(s, p);
    forall c | s.IsCpu(c)
      ensures s.cpus[c] == Running(p) <==> c == s.procs[p].cpu.value
    {
      assert OnCpu(s, c, p);
    }
  }

  /** No two CPUs execute one process, and each holds p->lock whenever its process is inside sched. */
  lemma OneCpuEach(s: State, c: int, d: int)
    requires Reachable(s) && s.IsCpu(c) && s.IsCpu(d) && c != d && !s.cpus[c].Idle? && !s.cpus[d].Idle?
    ensures s.cpus[c].p != s.cpus[d].p
  {
    ReachableOk(s);
    var p := s.cpus[c].p;
    assert OnCpu(s, c, p) && OnCpu(s, d, p) && Solo(s, p);
  }

  // ---------------------------------------------------------------- sleep locks

  /** At most one process holds a sleep lock. */
  lemma SleepLockExclusive(s: State, l: int, p: int, q: int)
    requires Reachable(s) && s.IsLock(l) && s.IsProc(p) && s.IsProc(q) && l in s.procs[p].has && l in s.procs[q].has
    ensures p == q && s.locks[l].locked
  {
    ReachableOk(s);
    assert OnSleepLock(s, l, p) && OnSleepLock(s, l, q);
  }

  /** holdingsleep's test, on locked and pid, is right for every running process. */
  lemma HoldingSleepExact(s: State, l: int, p: int)
    requires Reachable(s) && s.IsLock(l) && s.IsProc(p) && s.procs[p].cpu.Some?
    ensures l in s.procs[p].has <==> s.locks[l].locked && s.locks[l].pid == s.procs[p].pid
  {
    ReachableOk(s);
    assert OnSleepLock(s, l, p) && Solo(s, p);
    if s.locks[l].locked && s.locks[l].owner != Some(p) {
      var o := s.locks[l].owner.value;
      assert OnSleepLock(s, l, o) && Solo(s, o) && Pair(s, o, p);
    }
  }

  /** With the inner lock free, a process sleeps on a sleep lock only while the lock is held. */
  lemma NoLostRelease(s: State, l: int, p: int)
    requires Reachable(s) && s.IsLock(l) && s.IsProc(p) && s.locks[l].inner.None? && Dozing(s.procs[p], Inner(l))
    ensures s.locks[l].locked && exists q :: s.IsProc(q) && l in s.procs[q].has
  {
    ReachableOk(s);
    assert OnSleepLock(s, l, p);
    assert OnSleepLock(s, l, s.locks[l].owner.value);
  }

  /** When releasesleep's wakeup is done, everybody who was asleep on the lock is RUNNABLE or beyond. */
  lemma WakeupReachesAll(s: State, p: int, q: int)
    requires Reachable(s) && Enabled(s, Locking(GiveDone(p))) && s.IsProc(q)
    ensures !Dozing(s.procs[q], Inner(s.procs[p].pc.l))
  {
    ReachableOk(s);
    assert OnSleepLock(s, s.procs[p].pc.l, q) && OnSleepLock(s, s.procs[p].pc.l, p);
  }

  // ---------------------------------------------------------------- no lost wakeup

  /**
   wakeup(ch) by the holder of spin lock g: when it is done, nobody who let go of g inside sleep on
   ch, after a last check under g, is still asleep there.
   */
  lemma NoLostWakeup(s: State, p: int, q: int)
    requires Reachable(s) && Enabled(s, Guarding(RingDone(p))) && s.IsProc(q)
    ensures !Dozing(s.procs[q], Guard(s.procs[p].pc.g, s.procs[p].pc.ch))
  {
    ReachableOk(s);
    assert OnMonitor(s, s.procs[p].pc.g, q) && OnMonitor(s, s.procs[p].pc.g, p);
  }

  /** The same for the wakeup of an interrupt handler. */
  lemma NoLostInterrupt(s: State, h: int, q: int)
    requires Reachable(s) && Enabled(s, Interrupt(IntrDone(h))) && s.IsProc(q)
    ensures !Dozing(s.procs[q], Guard(s.handlers[h].g, s.handlers[h].ch))
  {
    ReachableOk(s);
    assert OnMonitor(s, s.handlers[h].g, q) && OnHandler(s, s.handlers[h].g, h);
  }

  /** Exit's wakeup of the parent is done when the child becomes a zombie. */
  lemma ParentWoken(s: State, p: int, status: int, q: int)
    requires Reachable(s) && Enabled(s, Exit(BecomeZombie(p, status))) && s.procs[p].parent == Some(q)
    ensures s.IsProc(q) && !Dozing(s.procs[q], WaitLock)
  {
    ReachableOk(s);
    assert Solo(s, p) && Pair(s, q, p);
  }

  /** A spin lock has at most one holder. */
  lemma GuardExclusive(s: State, g: int, p: int, q: int)
    requires Reachable(s) && s.IsMon(g) && s.IsProc(p) && s.IsProc(q) && HoldsGuard(s.procs[p].pc, g)
    requires HoldsGuard(s.procs[q].pc, g)
    ensures p == q
  {
    ReachableOk(s);
    assert OnMonitor(s, g, p) && OnMonitor(s, g, q);
  }
}
