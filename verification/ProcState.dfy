/**
 The process table of kernel/proc.c and the sleep locks of kernel/sleeplock.c, as a machine whose
 steps any CPUs may interleave.

 A process is at a program counter inside one of the source's operations; a CPU runs a process
 or the scheduler.  A step is a lock operation, a context switch, or a critical section that
 takes one lock, does not sleep and does not switch; it is enabled when the locks it takes are
 free.  p->lock is owned by a CPU, since the scheduler takes it on one side of a context switch
 and the process drops it on the other side.  The other spin locks are owned by the process that
 took them, which keeps its CPU because interrupts are off.
 */
module ProcState {
  import opened Basics

  datatype RunState = UNUSED | USED | SLEEPING | RUNNABLE | RUNNING | ZOMBIE

  /**
   What a process can sleep under: wait_lock, the spin lock inside a sleep lock, or any other spin
   lock g (a pipe's, the log's, the disk driver's, ...) together with one of the channels used under it.
   */
  datatype Lock = WaitLock | Inner(l: int) | Guard(g: int, ch: int)

  /** What a process sleeps on: itself in wait, a sleep lock, or a channel under a spin lock. */
  datatype Chan = OnProc(p: int) | OnLock(l: int) | OnChan(g: int, ch: int)

  datatype Pc =
    | Free                                          // user code, or kernel code that holds no spin lock
    | Forking(np: int) | ForkStart(np: int)         // fork: before and after the child's parent is set
    | Scan(i: int, kids: bool)                      // wait: looking at slot i
    | Reparent(i: int) | WakeInit(i: int, j: int)   // exit: giving slot i away, waking init about it
    | WakeParent(j: int) | ExitSwitch | Dead        // exit: waking the parent; a zombie leaving its CPU; gone
    | GiveWake(l: int, j: int)                      // releasesleep: waking slot j
    | Inside(g: int) | Ring(g: int, ch: int, j: int) // holding spin lock g; and in wakeup(ch), waking slot j
    | SleepBoth(lk: Lock) | SleepOwn(lk: Lock)      // sleep: with lk and p->lock; with p->lock alone
    | SleepSwitch(lk: Lock) | SleepWoke(lk: Lock)   // sleep: SLEEPING and in sched; to be resumed there
    | SleepRelock(lk: Lock)                         // sleep: about to take lk again

  /** Preemption: inside yield before the switch, or switched to with p->lock still to be dropped. */
  datatype Mode = Straight | Yielding | Resumed

  /** `cpu`, `maker` (who is forking it) and `has` (its sleep locks) are history. */
  datatype Proc = Proc(
    state: RunState, pc: Pc, mode: Mode, lock: Option<int>, chan: Option<Chan>, parent: Option<int>,
    pid: int, xstate: int, killed: bool, cpu: Option<int>, maker: Option<int>, has: set<int>)

  datatype Cpu = Idle | Running(p: int) | After(p: int)

  /**
   `owner` (whose pid the source keeps) and `woken` (how many processes releasesleep's wakeup has
   passed, all of them when it is not running) are history.
   */
  datatype SleepLock = SleepLock(inner: Option<int>, locked: bool, pid: int, owner: Option<int>, woken: int)

  /**
   A spin lock that wakeup is called under, held by a process or by an interrupt handler; `chan` and `woken`
   (the channel of the wakeup under way and how many processes it has passed) are history.
   */
  datatype Monitor = Monitor(holder: Option<int>, handler: Option<int>, chan: int, woken: int)

  /** An interrupt handler, on whatever CPU: idle, or in wakeup(ch) under spin lock g, waking slot j. */
  datatype Handler = Quiet | Ringing(g: int, ch: int, j: int)

  /** A child collected by wait. */
  datatype Reap = Reap(pid: int, status: int, parent: int)

  /**
   What a process's own part of the invariant depends on besides the process: n slots, m sleep locks, k
   other locks.
   */
  datatype Env = Env(
    n: int, m: int, k: int, waitLock: Option<int>, init: int, initWoken: int, nextpid: int, exits: map<int, int>)

  /**
   `initWoken` (how many processes reparent's wakeup of init has passed, all of them when it is not
   running), `exits` (the status of every pid that exited), `tomb` (its slot) and `reaps` are history.
   */
  datatype State = State(
    procs: seq<Proc>, cpus: seq<Cpu>, locks: seq<SleepLock>, mons: seq<Monitor>, handlers: seq<Handler>,
    waitLock: Option<int>,
    init: int, nextpid: int, initWoken: int, exits: map<int, int>, tomb: map<int, int>, reaps: seq<Reap>)
  {
    predicate IsProc(p: int) { 0 <= p < |procs| }
    predicate IsCpu(c: int) { 0 <= c < |cpus| }
    predicate IsLock(l: int) { 0 <= l < |locks| }
    predicate IsMon(g: int) { 0 <= g < |mons| }
    predicate IsHandler(h: int) { 0 <= h < |handlers| }
    predicate HasLock(lk: Lock) { (lk.Inner? ==> IsLock(lk.l)) && (lk.Guard? ==> IsMon(lk.g)) }

    function Ctx(): (e: Env) {
      Env(|procs|, |locks|, |mons|, waitLock, init, initWoken, nextpid, exits)
    }

    function With(p: int, x: Proc): (s: State)
      requires IsProc(p)
    {
      this.(procs := procs[p := x])
    }

    function WithCpu(c: int, u: Cpu): (s: State)
      requires IsCpu(c)
    {
      this.(cpus := cpus[c := u])
    }

    function WithLock(l: int, k: SleepLock): (s: State)
      requires IsLock(l)
    {
      this.(locks := locks[l := k])
    }

    function WithMon(g: int, k: Monitor): (s: State)
      requires IsMon(g)
    {
      this.(mons := mons[g := k])
    }
  }

  // ---------------------------------------------------------------- what a program counter means

  predicate HoldsOwn(x: Proc) {
    || x.mode != Straight
    || x.pc.SleepBoth? || x.pc.SleepOwn? || x.pc.SleepSwitch? || x.pc.SleepWoke? || x.pc.ExitSwitch?
  }

  predicate HoldsWait(pc: Pc) {
    pc.Scan? || pc.Reparent? || pc.WakeInit? || pc.WakeParent? || pc == SleepBoth(WaitLock)
  }

  predicate HoldsInner(pc: Pc, l: int) {
    (pc.GiveWake? && pc.l == l) || pc == SleepBoth(Inner(l))
  }

  predicate HoldsGuard(pc: Pc, g: int) {
    ((pc.Inside? || pc.Ring?) && pc.g == g) || (pc.SleepBoth? && pc.lk.Guard? && pc.lk.g == g)
  }

  /** Where an interrupt can make the process yield. */
  predicate NoLock(pc: Pc) {
    pc.Free? || pc.Forking? || pc.ForkStart? || pc.SleepRelock?
  }

  function ChanOf(lk: Lock, p: int): (c: Chan) {
    if lk.WaitLock? then OnProc(p) else if lk.Inner? then OnLock(lk.l) else OnChan(lk.g, lk.ch)
  }

  /** Past the release of `lk` inside sleep and not woken yet. */
  predicate Dozing(x: Proc, lk: Lock) {
    x.pc == SleepOwn(lk) || ((x.pc == SleepSwitch(lk) || x.pc == SleepWoke(lk)) && x.state.SLEEPING?)
  }

  predicate Alive(x: Proc) {
    x.state.RUNNING? || x.state.RUNNABLE? || x.state.SLEEPING?
  }

  predicate Exiting(pc: Pc) {
    pc.Reparent? || pc.WakeInit? || pc.WakeParent? || pc.ExitSwitch? || pc.Dead?
  }

  // ---------------------------------------------------------------- the invariant

  /** The state field a process has while a CPU runs it. */
  function OnCpuState(x: Proc): (r: RunState) {
    if x.mode.Yielding? then RUNNABLE
    else if x.pc.SleepSwitch? then SLEEPING
    else if x.pc.ExitSwitch? then ZOMBIE
    else RUNNING
  }

  ghost predicate OffCpuOk(x: Proc) {
    match x.state
    case UNUSED => x.pc.Free? && x.mode.Resumed? && x.has == {} && x.parent.None?
    case USED => x.pc.Free? && x.mode.Resumed? && x.has == {}
    case RUNNABLE => if x.mode.Straight? then x.pc.SleepWoke? else x.mode.Resumed? && NoLock(x.pc)
    case SLEEPING => x.mode.Straight? && x.pc.SleepWoke?
    case ZOMBIE => x.mode.Straight? && x.pc.Dead? && x.has == {}
    case RUNNING => false
  }

  ghost predicate OnCpuOk(x: Proc) {
    && x.lock == (if HoldsOwn(x) then x.cpu else None)
    && x.state == OnCpuState(x)
    && (!x.mode.Straight? ==> NoLock(x.pc))
    && !x.pc.Dead?
    && (Exiting(x.pc) ==> x.has == {})
  }

  /** One process by itself. */
  ghost predicate ProcOk(x: Proc, p: int) {
    && (if x.cpu.Some? then OnCpuOk(x) else OffCpuOk(x))
    && (x.state.SLEEPING? ==> x.chan == Some(ChanOf(x.pc.lk, p)))
  }

  ghost predicate LockInRange(e: Env, lk: Lock) {
    (lk.Inner? ==> 0 <= lk.l < e.m) && (lk.Guard? ==> 0 <= lk.g < e.k)
  }

  /** Program counters speak about existing slots and locks. */
  ghost predicate InRange(e: Env, pc: Pc) {
    match pc
    case Forking(np) => 0 <= np < e.n
    case ForkStart(np) => 0 <= np < e.n
    case Scan(i, kids) => 0 <= i <= e.n
    case Reparent(i) => 0 <= i <= e.n
    case WakeInit(i, j) => 0 <= i < e.n && 0 <= j <= e.n
    case WakeParent(j) => 0 <= j <= e.n
    case GiveWake(l, j) => 0 <= l < e.m && 0 <= j <= e.n
    case Inside(g) => 0 <= g < e.k
    case Ring(g, ch, j) => 0 <= g < e.k && 0 <= j <= e.n
    case SleepBoth(lk) => LockInRange(e, lk)
    case SleepOwn(lk) => LockInRange(e, lk)
    case SleepSwitch(lk) => LockInRange(e, lk)
    case SleepWoke(lk) => LockInRange(e, lk)
    case SleepRelock(lk) => LockInRange(e, lk)
    case _ => true
  }

  /** A pid is in use, is nobody's, or is a zombie's with its exit status. */
  ghost predicate PidOk(e: Env, x: Proc) {
    && (!x.state.UNUSED? ==> 0 < x.pid < e.nextpid && (x.state.ZOMBIE? <==> x.pid in e.exits))
    && (x.state.ZOMBIE? && x.pid in e.exits ==> e.exits[x.pid] == x.xstate)
  }

  /** What holds of process p alone. */
  ghost predicate SoloOk(e: Env, x: Proc, p: int) {
    && ProcOk(x, p) && InRange(e, x.pc) && PidOk(e, x)
    && (e.waitLock == Some(p) <==> HoldsWait(x.pc))
    && (x.parent.Some? ==> 0 <= x.parent.value < e.n && x.parent.value != p)
    && (HoldsWait(x.pc) ==> e.initWoken == (if x.pc.WakeInit? then x.pc.j else e.n))
    && (p == e.init ==> Alive(x) && !Exiting(x.pc) && x.parent.None?)
  }

  /** What the other processes depend on in a process, n being the size of the table. */
  datatype Role = Role(
    unused: bool, used: bool, alive: bool, zombie: bool, pid: int, parent: Option<int>, maker: Option<int>,
    making: Option<int>,   // the slot it is filling in fork
    named: bool,           // and whether it is the child's parent already
    disowned: int,         // in exit: below this, no child is its own any more
    scanned: int,          // in wait: below this, no child was a zombie
    kids: bool,            //   and whether a child was seen
    dozing: bool,          // past the release of wait_lock in wait's sleep, not woken yet
    woken: int)            // in exit: below this, its parent has been woken

  function RoleOf(x: Proc, n: int): (r: Role) {
    var pc := x.pc;
    Role(x.state.UNUSED?, x.state.USED?, Alive(x), x.state.ZOMBIE?, x.pid, x.parent, x.maker,
         if pc.Forking? || pc.ForkStart? then Some(pc.np) else None,
         pc.ForkStart?,
         if pc.Reparent? then pc.i
         else if pc.WakeInit? then pc.i + 1
         else if pc.WakeParent? || pc.ExitSwitch? || pc.Dead? then n
         else 0,
         if pc.Scan? then pc.i else if pc == SleepBoth(WaitLock) then n else 0,
         (pc.Scan? && pc.kids) || pc == SleepBoth(WaitLock),
         Dozing(x, WaitLock),
         if pc.WakeParent? then pc.j else 0)
  }

  /** A slot being filled by fork belongs to one forking process. */
  ghost predicate ForkOk(x: Role, p: int, z: Role, q: int) {
    x.making == Some(q) ==> z.used && z.maker == Some(p) && z.parent == (if x.named then Some(p) else None)
  }

  /**
   A process p and its child q.  The parent is alive, and has no children left once it is far
   enough into exit.  A parent that scans for zombies, or is about to sleep in wait, has seen none
   behind it.  A parent asleep in wait has a zombie child only if it is init and is about to be
   woken, and has no child that is past waking it.
   */
  ghost predicate ChildOk(init: int, initWoken: int, x: Role, p: int, z: Role, q: int) {
    && x.alive && x.disowned <= q
    && (q < x.scanned ==> !z.zombie && x.kids)
    && (x.dozing ==> (z.zombie ==> p == init && initWoken <= p) && z.woken <= p)
  }

  ghost predicate RolesOk(init: int, initWoken: int, x: Role, p: int, z: Role, q: int) {
    && ForkOk(x, p, z, q)
    && (z.parent == Some(p) ==> ChildOk(init, initWoken, x, p, z, q))
    && (p != q && !x.unused && !z.unused ==> x.pid != z.pid)
  }

  /** What holds between processes p and q. */
  ghost predicate PairOk(e: Env, x: Proc, p: int, z: Proc, q: int) {
    RolesOk(e.init, e.initWoken, RoleOf(x, e.n), p, RoleOf(z, e.n), q)
  }

  /** CPU c and process p: a CPU runs one process, or holds the lock of the one it just ran. */
  ghost predicate CpuOk(u: Cpu, c: int, x: Proc, p: int) {
    && (u == Running(p) <==> x.cpu == Some(c))
    && (u == After(p) <==> x.cpu.None? && x.lock == Some(c))
  }

  /** Sleep lock l and process p: its owner, and why p may sleep on it. */
  ghost predicate LockOk(n: int, k: SleepLock, l: int, x: Proc, p: int) {
    && (k.inner == Some(p) <==> HoldsInner(x.pc, l))
    && (k.owner == Some(p) <==> l in x.has)
    && (k.owner == Some(p) ==> k.pid == x.pid)
    && (x.pc == SleepBoth(Inner(l)) ==> k.locked)
    && (x.pc.GiveWake? && x.pc.l == l ==> !k.locked)
    && (HoldsInner(x.pc, l) ==> k.woken == (if x.pc.GiveWake? then x.pc.j else n))
    && (Dozing(x, Inner(l)) ==> k.locked || k.woken <= p)
  }

  /** Spin lock g and process p: who holds it, and that nobody already passed by a wakeup sleeps on its channel. */
  ghost predicate MonitorOk(k: Monitor, g: int, x: Proc, p: int) {
    && (k.holder == Some(p) <==> HoldsGuard(x.pc, g))
    && (HoldsGuard(x.pc, g) ==> k.woken == (if x.pc.Ring? then x.pc.j else 0) && (x.pc.Ring? ==> k.chan == x.pc.ch))
    && (Dozing(x, Guard(g, k.chan)) ==> k.woken <= p)
  }

  /** One of the n processes or m handlers holds it, or it is idle. */
  ghost predicate IdleMonitorOk(n: int, m: int, k: Monitor) {
    && (k.holder.Some? ==> 0 <= k.holder.value < n) && (k.handler.Some? ==> 0 <= k.handler.value < m)
    && (k.holder.None? || k.handler.None?) && (k.holder.None? && k.handler.None? ==> k.woken == 0)
  }

  /** Spin lock g and interrupt handler h: who holds it, and how far the handler's wakeup has got. */
  ghost predicate HandlerOk(k: Monitor, g: int, y: Handler, h: int) {
    && (k.handler == Some(h) <==> y.Ringing? && y.g == g)
    && (y.Ringing? && y.g == g ==> k.woken == y.j && k.chan == y.ch)
  }

  /** Whatever nobody holds is idle. */
  ghost predicate EnvOk(e: Env) {
    && 0 <= e.init < e.n && e.nextpid > 0
    && (e.waitLock.Some? ==> 0 <= e.waitLock.value < e.n)
    && (e.waitLock.None? ==> e.initWoken == e.n)
    && (forall d :: d in e.exits ==> d < e.nextpid)
  }

  ghost predicate IdleLockOk(n: int, k: SleepLock) {
    && (k.locked <==> k.owner.Some?)
    && (k.owner.Some? ==> 0 <= k.owner.value < n)
    && (k.inner.Some? ==> 0 <= k.inner.value < n)
    && (k.inner.None? ==> k.woken == n)
  }

  // ---------------------------------------------------------------- exit statuses

  ghost predicate Collected(reaps: seq<Reap>, d: int) {
    exists k :: 0 <= k < |reaps| && reaps[k].pid == d
  }

  /** Every collected status is that of an exit, of a pid not in use any more, and is collected once. */
  ghost predicate ReapsOk(s: State) {
    && (forall k :: 0 <= k < |s.reaps| ==> s.reaps[k].pid in s.exits && s.reaps[k].status == s.exits[s.reaps[k].pid])
    && (forall k, m :: 0 <= k < m < |s.reaps| ==> s.reaps[k].pid != s.reaps[m].pid)
    && (forall k, p :: 0 <= k < |s.reaps| && s.IsProc(p) && !s.procs[p].state.UNUSED? ==>
         s.procs[p].pid != s.reaps[k].pid)
  }

  /** Every exit is collected or still in its slot. */
  ghost predicate TombsOk(s: State) {
    forall d :: d in s.exits ==>
      && d in s.tomb
      && (Collected(s.reaps, d) || (s.IsProc(s.tomb[d]) && s.procs[s.tomb[d]].state.ZOMBIE? &&
           s.procs[s.tomb[d]].pid == d))
  }

  // ---------------------------------------------------------------- the whole

  ghost predicate Solo(s: State, a: int) {
    s.IsProc(a) && SoloOk(s.Ctx(), s.procs[a], a)
  }

  ghost predicate Pair(s: State, a: int, b: int) {
    s.IsProc(a) && s.IsProc(b) && PairOk(s.Ctx(), s.procs[a], a, s.procs[b], b)
  }

  ghost predicate OnCpu(s: State, d: int, a: int) {
    s.IsCpu(d) && s.IsProc(a) && CpuOk(s.cpus[d], d, s.procs[a], a)
  }

  ghost predicate OnSleepLock(s: State, k: int, a: int) {
    && s.IsLock(k) && s.IsProc(a)
    && IdleLockOk(|s.procs|, s.locks[k]) && LockOk(|s.procs|, s.locks[k], k, s.procs[a], a)
  }

  ghost predicate OnMonitor(s: State, g: int, a: int) {
    s.IsMon(g) && s.IsProc(a) && IdleMonitorOk(|s.procs|, |s.handlers|, s.mons[g]) &&
      MonitorOk(s.mons[g], g, s.procs[a], a)
  }

  ghost predicate OnHandler(s: State, g: int, h: int) {
    s.IsMon(g) && s.IsHandler(h) && HandlerOk(s.mons[g], g, s.handlers[h], h)
  }

  /** CPUs, processes and handlers name each other within the tables. */
  ghost predicate CpusNameProcs(s: State) {
    && (forall c :: s.IsCpu(c) && !s.cpus[c].Idle? ==> s.IsProc(s.cpus[c].p))
    && (forall a :: s.IsProc(a) && s.procs[a].cpu.Some? ==> s.IsCpu(s.procs[a].cpu.value))
    && (forall a :: s.IsProc(a) && s.procs[a].lock.Some? ==> s.IsCpu(s.procs[a].lock.value))
    && (forall h :: s.IsHandler(h) && s.handlers[h].Ringing? ==>
          s.IsMon(s.handlers[h].g) && 0 <= s.handlers[h].j <= |s.procs|)
  }

  ghost predicate AllSolo(s: State) {
    forall a :: s.IsProc(a) ==> Solo(s, a)
  }

  ghost predicate AllPairs(s: State) {
    forall a, b :: s.IsProc(a) && s.IsProc(b) ==> Pair(s, a, b)
  }

  ghost predicate Inv(s: State) {
    && EnvOk(s.Ctx()) && CpusNameProcs(s) && AllSolo(s) && AllPairs(s)
    && (forall d, a :: s.IsCpu(d) && s.IsProc(a) ==> OnCpu(s, d, a))
    && (forall k, a :: s.IsLock(k) && s.IsProc(a) ==> OnSleepLock(s, k, a))
    && (forall g, a :: s.IsMon(g) && s.IsProc(a) ==> OnMonitor(s, g, a))
    && (forall g, h :: s.IsMon(g) && s.IsHandler(h) ==> OnHandler(s, g, h))
    && ReapsOk(s) && TombsOk(s)
  }
}
