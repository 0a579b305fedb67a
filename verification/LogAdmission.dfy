/**
 Admission control of kernel/log.c: begin_op, log_write and end_op interleaved in any order by
 any number of system calls, each step atomic under log.lock.
 */
module LogAdmission {
  import opened Basics

  /**
   `used[i]` counts the blocks that the i-th active operation has added to the transaction;
   `log.outstanding` is the number of active operations, `log.lh.n` the number of logged blocks.
   */
  datatype State = State(used: seq<nat>, logged: set<int>, committing: bool) {
    function N(): nat { |logged| }
    function Outstanding(): nat { |used| }
  }

  datatype Step = Begin | Write(op: nat, b: int) | End(op: nat) | Committed

  const BOOT := State([], {}, false)

  function Sum(s: seq<nat>): (t: nat) { if s == [] then 0 else Sum(s[..|s| - 1]) + s[|s| - 1] }

  /** log_write's test for "too big a transaction", with `size` the superblock's nlog. */
  predicate Panics(s: State, size: nat) { s.N() >= LOGSIZE || s.N() >= size as int - 1 }

  /** The step can be taken: it neither sleeps nor panics, and stays within its operation's budget. */
  predicate Enabled(s: State, step: Step, size: nat) {
    match step
    case Begin => !s.committing && s.N() + (s.Outstanding() + 1) * MAXOPBLOCKS <= LOGSIZE
    case Write(op, b) => op < |s.used| && !Panics(s, size) && (b !in s.logged ==> s.used[op] < MAXOPBLOCKS)
    case End(op) => op < |s.used|
    case Committed => s.committing
  }

  function After(s: State, step: Step): (s': State) {
    match step
    case Begin => s.(used := s.used + [0])
    case Write(op, b) =>
      if op >= |s.used| || b in s.logged then s
      else s.(used := s.used[op := s.used[op] + 1], logged := s.logged + {b})
    case End(op) =>
      if op >= |s.used| then s else
        var rest := s.used[..op] + s.used[op + 1..];
        s.(used := rest, committing := s.committing || rest == [])
    case Committed => State(s.used, {}, false)
  }

  /** The state an interleaving reaches. */
  function Reached(steps: seq<Step>): (s: State) {
    if steps == [] then BOOT else After(Reached(steps[..|steps| - 1]), steps[|steps| - 1])
  }

  predicate Run(steps: seq<Step>, size: nat) {
    steps == [] || (Run(steps[..|steps| - 1], size) && Enabled(Reached(steps[..|steps| - 1]), steps[|steps| - 1], size))
  }

  /**
   Commit runs alone, what is logged belongs to active operations or is being committed, and the log
   always has room for what the active operations may still add.
   */
  ghost predicate Inv(s: State) {
    && (s.committing ==> s.Outstanding() == 0)
    && (s.logged != {} ==> s.committing || s.Outstanding() > 0)
    && (forall i :: 0 <= i < |s.used| ==> s.used[i] <= MAXOPBLOCKS)
    && s.N() + (s.Outstanding() * MAXOPBLOCKS - Sum(s.used)) <= LOGSIZE
  }

  // ---------------------------------------------------------------- sums

  lemma {:induction false} SumSplit(a: seq<nat>, b: seq<nat>)
    ensures Sum(a + b) == Sum(a) + Sum(b)
  {
    if b == [] {
      assert a + b == a;
    } else {
      var last := |b| - 1;
      SumSplit(a, b[..last]);
      assert (a + b)[..|a + b| - 1] == a + b[..last];
    }
  }

  lemma SumAt(s: seq<nat>, i: nat)
    requires i < |s|
    ensures Sum(s) == Sum(s[..i]) + s[i] + Sum(s[i + 1..])
  {
    SumSplit(s[..i], [s[i]]);
    SumSplit(s[..i] + [s[i]], s[i + 1..]);
    assert s == s[..i] + [s[i]] + s[i + 1..];
    assert Sum([s[i]]) == s[i];
  }

  lemma SumAppend(s: seq<nat>, x: nat)
    ensures Sum(s + [x]) == Sum(s) + x
  {
    assert (s + [x])[..|s|] == s;
  }

  lemma SumReplace(s: seq<nat>, i: nat, x: nat)
    requires i < |s|
    ensures Sum(s[i := x]) == Sum(s) - s[i] + x
  {
    SumAt(s, i);
    SumAt(s[i := x], i);
    assert s[i := x][..i] == s[..i] && s[i := x][i + 1..] == s[i + 1..];
  }

  lemma SumRemove(s: seq<nat>, i: nat)
    requires i < |s|
    ensures Sum(s[..i] + s[i + 1..]) == Sum(s) - s[i]
  {
    SumAt(s, i);
    SumSplit(s[..i], s[i + 1..]);
  }

  lemma {:induction false} SumBound(s: seq<nat>)
    requires forall i :: 0 <= i < |s| ==> s[i] <= MAXOPBLOCKS
    ensures Sum(s) <= |s| * MAXOPBLOCKS
    ensures Sum(s) == |s| * MAXOPBLOCKS ==> forall i :: 0 <= i < |s| ==> s[i] == MAXOPBLOCKS
  {
    if s != [] {
      SumBound(s[..|s| - 1]);
    }
  }

  // ---------------------------------------------------------------- safety

  lemma WriteKeepsInv(s: State, op: nat, b: int, size: nat)
    requires Inv(s) && Enabled(s, Write(op, b), size)
    ensures Inv(After(s, Write(op, b)))
  {
    hide Sum;
    SumReplace(s.used, op, s.used[op] + 1);
  }

  lemma StepKeepsInv(s: State, step: Step, size: nat)
    requires Inv(s) && Enabled(s, step, size)
    ensures Inv(After(s, step))
  {
    hide Sum;
    match step
    case Begin => SumAppend(s.used, 0);
    case Write(op, b) => WriteKeepsInv(s, op, b, size);
    case End(op) => SumRemove(s.used, op);
    case Committed =>
  }

  /** In every interleaving: committing implies outstanding = 0, and lh.n plus the unused budgets fits the log. */
  lemma {:induction false} RunsAreSafe(steps: seq<Step>, size: nat)
    requires Run(steps, size)
    ensures Inv(Reached(steps))
  {
    if steps != [] {
      var last := |steps| - 1;
      RunsAreSafe(steps[..last], size);
      StepKeepsInv(Reached(steps[..last]), steps[last], size);
    }
  }

  /** end_op starts a commit if and only if no other operation is left, and leaves the others' budgets alone. */
  lemma LastOutCommits(steps: seq<Step>, size: nat, op: nat)
    requires Run(steps, size) && Enabled(Reached(steps), End(op), size)
    ensures var s, t := Reached(steps), After(Reached(steps), End(op));
      && t.Outstanding() == s.Outstanding() - 1 && t.logged == s.logged && (t.committing <==> t.Outstanding() == 0)
      && (forall i :: 0 <= i < |t.used| ==> t.used[i] == s.used[if i < op then i else i + 1])
  {
    hide Run, Reached, Sum;
    RunsAreSafe(steps, size);
  }

  /** From every state, when the active operations end and the commit is done, the log is as at boot. */
  lemma {:induction false} LogDrains(steps: seq<Step>, size: nat) returns (more: seq<Step>)
    requires Run(steps, size)
    ensures Run(steps + more, size) && Reached(steps + more) == BOOT && Enabled(Reached(steps + more), Begin, size)
    decreases |Reached(steps).used|, Reached(steps).committing
  {
    hide Run, Reached;
    RunsAreSafe(steps, size);
    var s := Reached(steps);
    if s.used == [] && !s.committing {
      more := [];
      assert steps + more == steps && s == BOOT;
    } else {
      var step := if s.committing then Committed else End(0);
      RunExtends(steps, step, size);
      var rest := LogDrains(steps + [step], size);
      more := [step] + rest;
      assert steps + more == steps + [step] + rest;
    }
  }

  /**
   With nlog at least LOGSIZE + 1 no operation with budget left ever makes log_write panic, be it
   an append or an absorbed write: a panic needs all budgets used up and the log exactly full.
   */
  lemma PanicMeansExhausted(steps: seq<Step>, size: nat)
    requires Run(steps, size) && size >= LOGSIZE + 1 && Panics(Reached(steps), size)
    ensures var s := Reached(steps);
            s.N() == LOGSIZE && forall i :: 0 <= i < |s.used| ==> s.used[i] == MAXOPBLOCKS
  {
    RunsAreSafe(steps, size);
    SumBound(Reached(steps).used);
  }

  /** Then log_write panics exactly when the log is full, whether or not the block is in it already. */
  lemma PanicIffFull(steps: seq<Step>, size: nat)
    requires Run(steps, size) && size >= LOGSIZE + 1
    ensures var s := Reached(steps);
            && (Panics(s, size) <==> s.N() == LOGSIZE)
            && (Panics(s, size) ==> forall i :: 0 <= i < |s.used| ==> s.used[i] == MAXOPBLOCKS)
  {
    if Panics(Reached(steps), size) {
      PanicMeansExhausted(steps, size);
    }
  }

  // ---------------------------------------------------------------- the exact condition

  function Blocks(k: nat): (s: set<int>)
    ensures |s| == k && forall b :: b in s <==> 0 <= b < k
  {
    if k == 0 then {} else Blocks(k - 1) + {k - 1}
  }

  /** Three operations are active and have logged blocks 0 .. k-1 between them, ten each in turn. */
  function Filling(k: nat): (s: State) {
    State([Share(k, 0), Share(k, 10), Share(k, 20)], Blocks(k), false)
  }

  function Share(k: nat, start: nat): (u: nat) {
    if k <= start then 0 else if k >= start + 10 then 10 else k - start
  }

  function Fill(k: nat): (steps: seq<Step>) {
    if k == 0 then [Begin, Begin, Begin] else Fill(k - 1) + [Write((k - 1) / 10, k - 1)]
  }

  lemma {:induction false} RunExtends(steps: seq<Step>, step: Step, size: nat)
    requires Run(steps, size) && Enabled(Reached(steps), step, size)
    ensures Run(steps + [step], size) && Reached(steps + [step]) == After(Reached(steps), step)
  {
    assert (steps + [step])[..|steps + [step]| - 1] == steps;
  }

  lemma NoSteps(size: nat)
    ensures Run([], size) && Reached([]) == BOOT
  {
  }

  lemma ThreeBegin(size: nat)
    ensures Run([Begin, Begin, Begin], size) && Reached([Begin, Begin, Begin]) == State([0, 0, 0], {}, false)
  {
    hide Run, Reached;
    NoSteps(size);
    var one := [] + [Begin];
    var two := one + [Begin];
    RunExtends([], Begin, size);
    RunExtends(one, Begin, size);
    RunExtends(two, Begin, size);
    assert two + [Begin] == [Begin, Begin, Begin];
  }

  lemma ShareStep(k: nat, op: nat)
    requires 1 <= k <= LOGSIZE && op == (k - 1) / 10
    ensures op <= 2 && Share(k - 1, 10 * op) < 10
    ensures Share(k, 0) == Share(k - 1, 0) + if op == 0 then 1 else 0
    ensures Share(k, 10) == Share(k - 1, 10) + if op == 1 then 1 else 0
    ensures Share(k, 20) == Share(k - 1, 20) + if op == 2 then 1 else 0
  {
  }

  lemma {:induction false} FillingStep(k: nat, size: nat, op: nat)
    requires 1 <= k <= LOGSIZE && k < size && op == (k - 1) / 10
    ensures var step := Write(op, k - 1);
            Enabled(Filling(k - 1), step, size) && After(Filling(k - 1), step) == Filling(k)
  {
    hide Share, Blocks;
    ShareStep(k, op);
    BlocksStep(k);
    var used := Filling(k - 1).used;
    if op == 0 {
      assert Filling(k).used == used[0 := used[0] + 1];
    } else if op == 1 {
      assert Filling(k).used == used[1 := used[1] + 1];
    } else {
      assert Filling(k).used == used[2 := used[2] + 1];
    }
  }

  lemma BlocksStep(k: nat)
    requires k >= 1
    ensures Blocks(k) == Blocks(k - 1) + {k - 1}
  {
  }

  lemma {:induction false} FillReaches(k: nat, size: nat)
    requires k <= LOGSIZE && k < size
    ensures Run(Fill(k), size) && Reached(Fill(k)) == Filling(k)
  {
    if k == 0 {
      ThreeBegin(size);
    } else {
      FillReaches(k - 1, size);
      FillingStep(k, size, (k - 1) / 10);
      RunExtends(Fill(k - 1), Write((k - 1) / 10, k - 1), size);
    }
  }

  /** An operation is about to add a new block within its budget, and log_write panics. */
  ghost predicate BudgetedAppendPanics(s: State, size: nat) {
    Panics(s, size) && exists op: nat :: op < |s.used| && s.used[op] < MAXOPBLOCKS
  }

  ghost predicate BudgetsSafe(size: nat) {
    forall steps :: Run(steps, size) ==> !BudgetedAppendPanics(Reached(steps), size)
  }

  lemma Unsafe(steps: seq<Step>, size: nat, op: nat)
    requires Run(steps, size) && Panics(Reached(steps), size)
    requires op < |Reached(steps).used| && Reached(steps).used[op] < MAXOPBLOCKS
    ensures !BudgetsSafe(size)
  {
    hide Run, Reached;
    assert BudgetedAppendPanics(Reached(steps), size);
  }

  lemma ShortLogPanics(size: nat)
    requires size <= LOGSIZE
    ensures !BudgetsSafe(size)
  {
    hide Run, Reached, BudgetsSafe;
    if size == 0 {
      ThreeBegin(size);
      Unsafe([Begin, Begin, Begin], size, 0);
    } else {
      FillReaches(size - 1, size);
      Unsafe(Fill(size - 1), size, (size - 1) / 10);
    }
  }

  /**
   The exact condition: budgeted appends are safe in every interleaving if and only if
   nlog >= LOGSIZE + 1.  mkfs sets nlog = LOGSIZE, one block short of it.
   */
  lemma BudgetsSafeIffRoom(size: nat)
    ensures BudgetsSafe(size) <==> size >= LOGSIZE + 1
  {
    if size >= LOGSIZE + 1 {
      forall steps | Run(steps, size)
        ensures !BudgetedAppendPanics(Reached(steps), size)
      {
        if Panics(Reached(steps), size) {
          PanicMeansExhausted(steps, size);
        }
      }
    } else {
      ShortLogPanics(size);
    }
  }

  /**
   Even a large enough log refuses an absorbed write once it is full: an operation that has added exactly its
   MAXOPBLOCKS blocks, block 0 among them, cannot write block 0 again.
   */
  lemma FullLogRefusesAbsorption(size: nat)
    requires size >= LOGSIZE + 1
    ensures Run(Fill(LOGSIZE), size) && Panics(Reached(Fill(LOGSIZE)), size)
    ensures var s := Reached(Fill(LOGSIZE)); 0 in s.logged && |s.used| > 0 && s.used[0] == MAXOPBLOCKS
    ensures After(Reached(Fill(LOGSIZE)), Write(0, 0)) == Reached(Fill(LOGSIZE))
  {
    FillReaches(LOGSIZE, size);
  }
}
