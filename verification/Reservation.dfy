/** Log space reservation (log.c: begin_op, log_write, end_op) as a machine over
    the steps of concurrent file-system calls. */
module Reservation {
  import opened Counting
  import opened Params
  import opened Wrappers

  /** log absorption: a block number already in the header is not added again. */
  function Absorb(blocks: seq<nat>, b: nat): (r: seq<nat>) {
    if b in blocks then blocks else blocks + [b]
  }

  predicate MayBegin(n: nat, outstanding: nat, committing: bool) {
    !committing && n + (outstanding + 1) * MAXOPBLOCKS <= LOGSIZE
  }

  /** The tests log_write makes before it takes log.lock. */
  predicate MayLog(n: nat, outstanding: nat, size: nat) {
    n < LOGSIZE && n < size - 1 && outstanding >= 1
  }

  datatype EndResult = Panic | Commit | Wake

  function EndOutcome(outstanding: nat, committing: bool): (r: EndResult)
    requires outstanding > 0
  {
    if committing then Panic else if outstanding == 1 then Commit else Wake
  }

  /** A running call: the blocks it has logged, and the one it is about to
      enter, having passed log_write's tests. */
  datatype Op = Op(own: set<nat>, passed: Option<nat>)

  /** log.lh, log.outstanding, log.committing, and the calls between begin_op
      and end_op. */
  datatype State = State(blocks: seq<nat>, outstanding: nat, committing: bool, ops: seq<Op>)

  datatype Step =
    | Begin
    | Pass(i: nat, b: nat)   // log_write: the tests outside the lock
    | Enter(i: nat)          // log_write: absorption and append, under the lock
    | End(i: nat)
    | Clear                  // commit: log.lh.n = 0
    | Committed              // end_op: log.committing = 0

  const Initial := State([], 0, false, [])

  function Drop(ops: seq<Op>, i: nat): (r: seq<Op>)
    requires i < |ops|
  {
    ops[..i] + ops[i + 1..]
  }

  /** One step. Pass carries the budget hypothesis on callers: an operation
      logs at most MAXOPBLOCKS different blocks. */
  ghost predicate Next(s: State, s': State, step: Step, size: nat) {
    match step
    case Begin =>
      && MayBegin(|s.blocks|, s.outstanding, s.committing)
      && s' == s.(outstanding := s.outstanding + 1, ops := s.ops + [Op({}, None)])
    case Pass(i, b) =>
      && i < |s.ops| && s.ops[i].passed.None?
      && MayLog(|s.blocks|, s.outstanding, size)
      && |s.ops[i].own + {b}| <= MAXOPBLOCKS
      && s' == s.(ops := s.ops[i := s.ops[i].(passed := Some(b))])
    case Enter(i) =>
      && i < |s.ops| && s.ops[i].passed.Some?
      && var b := s.ops[i].passed.value;
         s' == s.(blocks := Absorb(s.blocks, b), ops := s.ops[i := Op(s.ops[i].own + {b}, None)])
    case End(i) =>
      && i < |s.ops| && s.ops[i].passed.None? && s.outstanding > 0
      && EndOutcome(s.outstanding, s.committing) != Panic
      && s' == s.(outstanding := s.outstanding - 1, ops := Drop(s.ops, i),
                  committing := EndOutcome(s.outstanding, s.committing).Commit?)
    case Clear =>
      && s.committing && s' == s.(blocks := [])
    case Committed =>
      && s.committing && s.blocks == [] && s' == s.(committing := false)
  }

  ghost predicate Run(states: seq<State>, steps: seq<Step>, size: nat) {
    && |states| == |steps| + 1
    && states[0] == Initial
    && forall k :: 0 <= k < |steps| ==> Next(states[k], states[k + 1], steps[k], size)
  }

  // The invariant.

  function Spent(ops: seq<Op>): (n: nat) {
    if ops == [] then 0 else Spent(ops[..|ops| - 1]) + |ops[|ops| - 1].own|
  }

  ghost predicate OpOk(op: Op, blocks: seq<nat>) {
    && |op.own| <= MAXOPBLOCKS
    && (forall b :: b in op.own ==> b in blocks)
    && (op.passed.Some? ==> |op.own + {op.passed.value}| <= MAXOPBLOCKS)
  }

  ghost predicate Inv(s: State) {
    && s.outstanding == |s.ops|
    && Distinct(s.blocks)
    && (forall i :: 0 <= i < |s.ops| ==> OpOk(s.ops[i], s.blocks))
    && (s.committing ==> s.ops == [])
    && |s.blocks| + |s.ops| * MAXOPBLOCKS - Spent(s.ops) <= LOGSIZE
  }

  lemma {:induction false} SpentUpdate(ops: seq<Op>, i: nat, op: Op)
    requires i < |ops|
    ensures Spent(ops[i := op]) == Spent(ops) - |ops[i].own| + |op.own|
    decreases |ops|
  {
    var n := |ops| - 1;
    if i < n {
      SpentUpdate(ops[..n], i, op);
      assert ops[i := op][..n] == ops[..n][i := op];
    } else {
      assert ops[i := op][..n] == ops[..n];
    }
  }

  lemma {:induction false} SpentDrop(ops: seq<Op>, i: nat)
    requires i < |ops|
    ensures Spent(Drop(ops, i)) == Spent(ops) - |ops[i].own|
    decreases |ops|
  {
    var n := |ops| - 1;
    if i < n {
      SpentDrop(ops[..n], i);
      assert Drop(ops, i)[..n - 1] == Drop(ops[..n], i);
    } else {
      assert Drop(ops, i) == ops[..n];
    }
  }

  lemma EnterKeeps(s: State, s': State, i: nat, size: nat)
    requires Inv(s) && Next(s, s', Enter(i), size)
    ensures Inv(s')
  {
    var b := s.ops[i].passed.value;
    var op := Op(s.ops[i].own + {b}, None);
    SpentUpdate(s.ops, i, op);
    assert b in s.ops[i].own ==> op.own == s.ops[i].own;
    forall j | 0 <= j < |s'.ops| ensures OpOk(s'.ops[j], s'.blocks) {
      if j != i {
        assert s'.ops[j] == s.ops[j];
      }
    }
  }

  lemma EndKeeps(s: State, s': State, i: nat, size: nat)
    requires Inv(s) && Next(s, s', End(i), size)
    ensures Inv(s')
  {
    SpentDrop(s.ops, i);
    assert OpOk(s.ops[i], s.blocks);
    forall j | 0 <= j < |s'.ops| ensures OpOk(s'.ops[j], s'.blocks) {
      assert s'.ops[j] == s.ops[if j < i then j else j + 1];
    }
  }

  /** Every step keeps the invariant. */
  lemma StepKeeps(s: State, s': State, step: Step, size: nat)
    requires Inv(s) && Next(s, s', step, size)
    ensures Inv(s')
  {
    match step
    case Begin =>
      assert s'.ops[..|s.ops|] == s.ops;
    case Pass(i, b) =>
      SpentUpdate(s.ops, i, s.ops[i].(passed := Some(b)));
    case Enter(i) =>
      EnterKeeps(s, s', i, size);
    case End(i) =>
      EndKeeps(s, s', i, size);
    case Clear =>
    case Committed =>
  }

  /** In every run: the header numbers and what the running calls may still
      add fit the log, they are distinct, and commit runs alone. */
  lemma {:induction false} RunInvariant(states: seq<State>, steps: seq<Step>, size: nat)
    requires Run(states, steps, size)
    ensures forall k :: 0 <= k < |states| ==> Inv(states[k])
    decreases |steps|
  {
    if steps != [] {
      var n := |steps|;
      assert Run(states[..n], steps[..n - 1], size);
      RunInvariant(states[..n], steps[..n - 1], size);
      assert Inv(states[..n][n - 1]);
      StepKeeps(states[n - 1], states[n], steps[n - 1], size);
    }
  }

  /** end_op never meets its panic, whatever calls are running. */
  lemma CommittingPanicUnreachable(states: seq<State>, steps: seq<Step>, size: nat, k: nat)
    requires Run(states, steps, size) && k < |states| && states[k].ops != []
    ensures states[k].outstanding > 0
    ensures EndOutcome(states[k].outstanding, states[k].committing) != Panic
  {
    RunInvariant(states, steps, size);
  }

  /** A block that passed log_write's tests earlier, before other calls logged
      theirs, still has its slot in lh.block when the lock is taken. */
  lemma EnterInBounds(states: seq<State>, steps: seq<Step>, size: nat, k: nat, i: nat)
    requires Run(states, steps, size) && k < |states|
    requires i < |states[k].ops| && states[k].ops[i].passed.Some?
    ensures |Absorb(states[k].blocks, states[k].ops[i].passed.value)| <= LOGSIZE
  {
    RunInvariant(states, steps, size);
    var s := states[k];
    var b := s.ops[i].passed.value;
    EnterKeeps(s, s.(blocks := Absorb(s.blocks, b), ops := s.ops[i := Op(s.ops[i].own + {b}, None)]), i, size);
    SpentBound(s.ops[i := Op(s.ops[i].own + {b}, None)], Absorb(s.blocks, b));
  }

  lemma {:induction false} SpentBound(ops: seq<Op>, blocks: seq<nat>)
    requires forall i :: 0 <= i < |ops| ==> OpOk(ops[i], blocks)
    ensures Spent(ops) <= |ops| * MAXOPBLOCKS
  {
    if ops != [] {
      SpentBound(ops[..|ops| - 1], blocks);
    }
  }

  /** end_op panics exactly during a commit; otherwise it commits exactly when it was
      the last call. */
  lemma EndIs(outstanding: nat, committing: bool)
    requires outstanding > 0
    ensures var r := EndOutcome(outstanding, committing);
            (r == Panic <==> committing) && (r == Commit <==> !committing && outstanding == 1)
  {
  }

  /** A call that logs a block and ends: the commit clears the log, and the next call
      may begin with all of it. */
  lemma LogReused(size: nat) returns (states: seq<State>, steps: seq<Step>)
    requires size >= 2
    ensures Run(states, steps, size) && steps == [Begin, Pass(0, 7), Enter(0), End(0), Clear, Committed, Begin]
    ensures states[4].committing && states[4].blocks == [7] && states[5].blocks == []
    ensures !states[6].committing && states[7] == State([], 1, false, [Op({}, None)])
  {
    var idle, op := Op({}, None), Op({7}, None);
    steps := [Begin, Pass(0, 7), Enter(0), End(0), Clear, Committed, Begin];
    states := [Initial, State([], 1, false, [idle]), State([], 1, false, [Op({}, Some(7))]), State([7], 1, false, [op]),
               State([7], 0, true, []), State([], 0, true, []), Initial, State([], 1, false, [idle])];
    assert Next(states[0], states[1], steps[0], size) && Next(states[6], states[7], steps[6], size);
    assert {} + {7} == {7} && Next(states[1], states[2], steps[1], size) && Next(states[2], states[3], steps[2], size);
    assert Drop([op], 0) == [] && Next(states[3], states[4], steps[3], size);
    assert Next(states[4], states[5], steps[4], size) && Next(states[5], states[6], steps[5], size);
  }

  // When "too big a transaction" can strike a call that keeps to its budget.

  /** In every run a block new to its call, within the call's budget, is let in. */
  ghost predicate BudgetSuffices(size: nat) {
    forall states: seq<State>, steps: seq<Step>, i, b | Run(states, steps, size) && NewBlock(states[|steps|], i, b) ::
      MayLog(|states[|steps|].blocks|, states[|steps|].outstanding, size)
  }

  ghost predicate NewBlock(s: State, i: nat, b: nat) {
    i < |s.ops| && s.ops[i].passed.None? && b !in s.ops[i].own && |s.ops[i].own| < MAXOPBLOCKS
  }

  /** The reservation covers the first test of log_write but not the second:
      the log must be larger than LOGSIZE blocks. mkfs.c makes it LOGSIZE. */
  lemma BudgetSufficesIff(size: nat)
    ensures BudgetSuffices(size) <==> size > LOGSIZE
  {
    if size > LOGSIZE {
      forall states: seq<State>, steps: seq<Step>, i, b | Run(states, steps, size) && NewBlock(states[|steps|], i, b)
        ensures MayLog(|states[|steps|].blocks|, states[|steps|].outstanding, size)
      {
        RunInvariant(states, steps, size);
        RoomLeft(states[|steps|], i);
      }
    } else {
      var k := if size == 0 then 0 else size - 1;
      var states, steps := FillRun(k, size);
      Unfilled(k);
      assert NewBlock(states[|steps|], Turn(k), k);
    }
  }

  lemma RoomLeft(s: State, i: nat)
    requires Inv(s) && i < |s.ops| && |s.ops[i].own| < MAXOPBLOCKS
    ensures |s.blocks| < LOGSIZE
  {
    SpentDrop(s.ops, i);
    SpentBound(Drop(s.ops, i), s.blocks);
  }

  /** A call whose block the header already holds is refused, although absorption
      would have taken it. */
  ghost predicate RefusesAbsorbed(size: nat) {
    exists states: seq<State>, steps: seq<Step>, i: nat, b: nat ::
      Run(states, steps, size) && HoldsBlock(states[|steps|], i, b)
      && !MayLog(|states[|steps|].blocks|, states[|steps|].outstanding, size)
  }

  ghost predicate HoldsBlock(s: State, i: nat, b: nat) {
    i < |s.ops| && s.ops[i].passed.None? && b in s.ops[i].own && b in s.blocks
  }

  /** It can happen in every log that takes a block at all. */
  lemma AbsorbedBlockRefusedIff(size: nat)
    ensures RefusesAbsorbed(size) <==> size >= 2
  {
    if size >= 2 {
      var k := if size > LOGSIZE then LOGSIZE else size - 1;
      var states, steps := FillRun(k, size);
      assert Filled(k).ops[0] == Filling(0, k) && Filled(k).blocks[0] == 0;
      assert HoldsBlock(states[|steps|], 0, 0);
    } else {
      forall states: seq<State>, steps: seq<Step>, i: nat, b: nat | Run(states, steps, size)
        ensures !HoldsBlock(states[|steps|], i, b)
      {
        RunBound(states, steps, size, |steps|);
      }
    }
  }

  // How many blocks a commit can find. The tests of log_write come before its lock,
  // so several calls may pass them at the same count.

  function Passing(ops: seq<Op>): (n: nat)
    ensures n <= |ops|
  {
    if ops == [] then 0
    else Passing(ops[..|ops| - 1]) + (if ops[|ops| - 1].passed.Some? then 1 else 0)
  }

  lemma {:induction false} PassingUpdate(ops: seq<Op>, i: nat, op: Op)
    requires i < |ops|
    ensures Passing(ops[i := op]) ==
            Passing(ops) - (if ops[i].passed.Some? then 1 else 0) + (if op.passed.Some? then 1 else 0)
    decreases |ops|
  {
    var n := |ops| - 1;
    if i < n {
      PassingUpdate(ops[..n], i, op);
      assert ops[i := op][..n] == ops[..n][i := op];
    } else {
      assert ops[i := op][..n] == ops[..n];
    }
  }

  lemma {:induction false} PassingDrop(ops: seq<Op>, i: nat)
    requires i < |ops| && ops[i].passed.None?
    ensures Passing(Drop(ops, i)) == Passing(ops)
    decreases |ops|
  {
    var n := |ops| - 1;
    if i < n {
      PassingDrop(ops[..n], i);
      assert Drop(ops, i)[..n - 1] == Drop(ops[..n], i);
    } else {
      assert Drop(ops, i) == ops[..n];
    }
  }

  function Cap(size: nat): (n: nat) { if size <= 1 then 0 else size + 1 }

  /** The most blocks a commit can find. */
  function MaxLogged(size: nat): (n: nat) { if Cap(size) < LOGSIZE then Cap(size) else LOGSIZE }

  ghost predicate Bounded(s: State, size: nat) {
    |s.ops| <= 3 && |s.blocks| + Passing(s.ops) <= Cap(size)
  }

  lemma BoundStep(s: State, s': State, step: Step, size: nat)
    requires Inv(s) && Bounded(s, size) && Next(s, s', step, size)
    ensures Bounded(s', size)
  {
    match step
    case Begin => assert s'.ops[..|s.ops|] == s.ops;
    case Pass(i, b) => PassingUpdate(s.ops, i, s.ops[i].(passed := Some(b)));
    case Enter(i) => PassingUpdate(s.ops, i, Op(s.ops[i].own + {s.ops[i].passed.value}, None));
    case End(i) => PassingDrop(s.ops, i);
    case Clear =>
    case Committed =>
  }

  lemma {:induction false} RunBound(states: seq<State>, steps: seq<Step>, size: nat, k: nat)
    requires Run(states, steps, size) && k < |states|
    ensures Inv(states[k]) && Bounded(states[k], size) && |states[k].blocks| <= MaxLogged(size)
    decreases k
  {
    hide Next;
    RunInvariant(states, steps, size);
    if k > 0 {
      RunBound(states, steps, size, k - 1);
      BoundStep(states[k - 1], states[k], steps[k - 1], size);
    }
    SpentBound(states[k].ops, states[k].blocks);
  }

  /** In every run, a commit finds fewer than m blocks. */
  ghost predicate CommitsWithin(size: nat, m: nat) {
    forall states: seq<State>, steps: seq<Step> | Run(states, steps, size) && states[|steps|].committing ::
      |states[|steps|].blocks| < m
  }

  /** Exactly when every run grants a bound on what a commit finds. */
  lemma CommitsWithinIff(size: nat, m: nat)
    ensures CommitsWithin(size, m) <==> MaxLogged(size) < m
  {
    if MaxLogged(size) < m {
      forall states: seq<State>, steps: seq<Step> | Run(states, steps, size) && states[|steps|].committing
        ensures |states[|steps|].blocks| < m
      {
        RunBound(states, steps, size, |steps|);
      }
    } else {
      var states, steps := FullCommit(size);
    }
  }

  /** commit needs fewer blocks than buffers, for a buffer to read the log with, and
      fewer than the log's size, after its header. Every run grants both just when log
      and cache are larger than LOGSIZE, or the log holds nothing. param.h and mkfs.c
      make both LOGSIZE. */
  lemma CommitGrantedIff(size: nat, nbuf: nat)
    ensures CommitsWithin(size, nbuf) && CommitsWithin(size, size)
            <==> (size > LOGSIZE && nbuf > LOGSIZE) || (size == 1 && nbuf > 0)
    ensures !CommitsWithin(LOGSIZE, LOGSIZE)
  {
    CommitsWithinIff(size, nbuf);
    CommitsWithinIff(size, size);
    CommitsWithinIff(LOGSIZE, LOGSIZE);
  }

  // A run of three calls that log 0, 1, 2, ... and share them evenly.

  /** Whose turn it is to log block k: nine blocks each, then one more each. */
  function Turn(k: nat): (j: nat)
    ensures k < LOGSIZE ==> j < 3
  {
    if k < 9 then 0 else if k < 18 then 1 else if k < 27 then 2 else k - 27
  }

  function Filling(j: nat, k: nat): (op: Op) {
    Op((set b: nat | b < k && Turn(b) == j), None)
  }

  lemma FillingGrows(j: nat, k: nat)
    ensures Filling(j, k + 1).own == if j == Turn(k) then Filling(j, k).own + {k} else Filling(j, k).own
  {
  }

  lemma {:induction false} FillingSize(j: nat, k: nat)
    requires j < 3
    ensures |Filling(j, k).own| == (if k <= 9 * j then 0 else if k < 9 * j + 9 then k - 9 * j else 9)
                                   + (if k > 27 + j then 1 else 0)
  {
    if k == 0 {
      assert Filling(j, 0).own == {};
    } else {
      FillingSize(j, k - 1);
      FillingGrows(j, k - 1);
    }
  }

  function Filled(k: nat): (s: State) {
    State(seq(k, i requires 0 <= i < k => i), 3, false, seq(3, j requires 0 <= j < 3 => Filling(j, k)))
  }

  lemma Unfilled(k: nat)
    requires k < LOGSIZE
    ensures NewBlock(Filled(k), Turn(k), k)
  {
    var j := Turn(k);
    FillingSize(j, k);
    assert Filled(k).ops[j] == Filling(j, k);
  }

  lemma Grown(k: nat)
    requires k < LOGSIZE
    ensures var op := Filled(k).ops[Turn(k)];
            Filled(k).ops[Turn(k) := Op(op.own + {k}, None)] == Filled(k + 1).ops
    ensures Absorb(Filled(k).blocks, k) == Filled(k + 1).blocks
  {
    var grown := Filled(k).ops[Turn(k) := Op(Filled(k).ops[Turn(k)].own + {k}, None)];
    forall j: nat | j < 3 ensures Filled(k + 1).ops[j] == grown[j] {
      FillingGrows(j, k);
    }
  }

  lemma Started(size: nat) returns (states: seq<State>, steps: seq<Step>)
    ensures Run(states, steps, size) && states[|steps|] == Filled(0)
  {
    var empty := Op({}, None);
    var s1, s2 := State([], 1, false, [empty]), State([], 2, false, [empty, empty]);
    states, steps := [Initial, s1, s2, Filled(0)], [Begin, Begin, Begin];
    forall j: nat | j < 3 ensures Filling(j, 0) == empty {}
    assert Filled(0) == State([], 3, false, [empty, empty, empty]);
    assert Next(Initial, s1, Begin, size) && Next(s1, s2, Begin, size) && Next(s2, Filled(0), Begin, size);
  }

  lemma OneMore(k: nat, size: nat) returns (mid: State)
    requires k < LOGSIZE && k < size - 1
    ensures Next(Filled(k), mid, Pass(Turn(k), k), size)
    ensures Next(mid, Filled(k + 1), Enter(Turn(k)), size)
  {
    var s, i := Filled(k), Turn(k);
    mid := s.(ops := s.ops[i := s.ops[i].(passed := Some(k))]);
    Unfilled(k);
    Grown(k);
    assert mid.ops[i := Op(s.ops[i].own + {k}, None)] == Filled(k + 1).ops;
  }

  lemma {:induction false} FillRun(k: nat, size: nat) returns (states: seq<State>, steps: seq<Step>)
    requires k <= LOGSIZE && (k == 0 || k < size)
    ensures Run(states, steps, size) && states[|steps|] == Filled(k)
  {
    if k == 0 {
      states, steps := Started(size);
    } else {
      var init, first := FillRun(k - 1, size);
      var mid := OneMore(k - 1, size);
      hide Next, Filled;
      states, steps := init + [mid, Filled(k)], first + [Pass(Turn(k - 1), k - 1), Enter(Turn(k - 1))];
    }
  }

  // The run that fills the log furthest: all calls with budget left pass the tests
  // at the last count that lets them, then enter, then end.

  lemma Extend(states: seq<State>, steps: seq<Step>, size: nat, s: State, step: Step)
    requires Run(states, steps, size) && Next(states[|steps|], s, step, size)
    ensures Run(states + [s], steps + [step], size)
  {
    hide Next;
  }

  /** One call passes the tests with block b. */
  lemma PassOn(states: seq<State>, steps: seq<Step>, size: nat, i: nat, b: nat)
      returns (states': seq<State>, steps': seq<Step>)
    requires Run(states, steps, size) && i < |states[|steps|].ops| && states[|steps|].ops[i].passed.None?
    requires var s := states[|steps|]; MayLog(|s.blocks|, s.outstanding, size) && |s.ops[i].own| < MAXOPBLOCKS
    ensures Run(states', steps', size)
    ensures var s := states[|steps|];
            states'[|steps'|] == s.(ops := s.ops[i := s.ops[i].(passed := Some(b))])
  {
    var s := states[|steps|];
    var s' := s.(ops := s.ops[i := s.ops[i].(passed := Some(b))]);
    assert b in s.ops[i].own ==> s.ops[i].own + {b} == s.ops[i].own;
    Extend(states, steps, size, s', Pass(i, b));
    states', steps' := states + [s'], steps + [Pass(i, b)];
  }

  /** It then enters the block, which nobody has logged. */
  lemma EnterOn(states: seq<State>, steps: seq<Step>, size: nat, i: nat)
      returns (states': seq<State>, steps': seq<Step>)
    requires Run(states, steps, size) && i < |states[|steps|].ops| && states[|steps|].ops[i].passed.Some?
    requires states[|steps|].ops[i].passed.value !in states[|steps|].blocks
    ensures Run(states', steps', size)
    ensures var s := states[|steps|];
            var b := s.ops[i].passed.value;
            states'[|steps'|] == s.(blocks := s.blocks + [b], ops := s.ops[i := Op(s.ops[i].own + {b}, None)])
  {
    var s := states[|steps|];
    var b := s.ops[i].passed.value;
    var s' := s.(blocks := s.blocks + [b], ops := s.ops[i := Op(s.ops[i].own + {b}, None)]);
    Extend(states, steps, size, s', Enter(i));
    states', steps' := states + [s'], steps + [Enter(i)];
  }

  /** All calls end; the last one commits. */
  lemma {:induction false} EndAll(states: seq<State>, steps: seq<Step>, size: nat)
      returns (states': seq<State>, steps': seq<Step>)
    requires Run(states, steps, size)
    requires var s := states[|steps|];
             s.ops != [] && s.outstanding == |s.ops| && !s.committing
             && forall i :: 0 <= i < |s.ops| ==> s.ops[i].passed.None?
    ensures Run(states', steps', size) && states'[|steps'|].committing
    ensures states'[|steps'|].blocks == states[|steps|].blocks
    decreases |states[|steps|].ops|
  {
    var s := states[|steps|];
    var s' := s.(outstanding := s.outstanding - 1, ops := Drop(s.ops, 0), committing := s.outstanding == 1);
    Extend(states, steps, size, s', End(0));
    states', steps' := states + [s'], steps + [End(0)];
    if |s.ops| > 1 {
      states', steps' := EndAll(states', steps', size);
    }
  }

  /** Calls first, ..., 2, which have budget left, pass the tests together at count k. */
  lemma PassTogether(k: nat, size: nat, first: nat) returns (states: seq<State>, steps: seq<Step>)
    requires size == k + 2 && k <= 28 && first == (if k <= 27 then 0 else 1)
    ensures Run(states, steps, size)
    ensures var s := states[|steps|];
            && s.blocks == Filled(k).blocks && s.outstanding == 3 && !s.committing && |s.ops| == 3
            && forall j :: 0 <= j < 3 ==>
                 s.ops[j].passed == (if j < first then None else Some(k + j - first))
  {
    states, steps := FillRun(k, size);
    for i := first to 3
      invariant Run(states, steps, size)
      invariant var s := states[|steps|];
                && s.blocks == Filled(k).blocks && s.outstanding == 3 && !s.committing && |s.ops| == 3
                && forall j :: 0 <= j < 3 ==>
                     s.ops[j] == Filling(j, k).(passed := if first <= j < i then Some(k + j - first) else None)
    {
      FillingSize(i, k);
      states, steps := PassOn(states, steps, size, i, k + i - first);
    }
  }

  lemma EnterTogether(k: nat, size: nat, first: nat) returns (states: seq<State>, steps: seq<Step>)
    requires size == k + 2 && k <= 28 && first == (if k <= 27 then 0 else 1)
    ensures Run(states, steps, size)
    ensures var s := states[|steps|];
            && |s.blocks| == k + 3 - first && s.outstanding == 3 && !s.committing && |s.ops| == 3
            && forall j :: 0 <= j < 3 ==> s.ops[j].passed.None?
  {
    states, steps := PassTogether(k, size, first);
    for i := first to 3
      invariant Run(states, steps, size)
      invariant var s := states[|steps|];
                && s.blocks == Filled(k + i - first).blocks && s.outstanding == 3 && !s.committing && |s.ops| == 3
                && forall j :: 0 <= j < 3 ==>
                     s.ops[j].passed == (if j < i then None else Some(k + j - first))
    {
      states, steps := EnterOn(states, steps, size, i);
    }
  }

  /** A run whose commit finds as many blocks as any can. */
  lemma FullCommit(size: nat) returns (states: seq<State>, steps: seq<Step>)
    ensures Run(states, steps, size) && states[|steps|].committing
    ensures |states[|steps|].blocks| == MaxLogged(size)
  {
    if size <= 1 {
      states, steps := FillRun(0, size);
    } else if size > LOGSIZE {
      states, steps := FillRun(LOGSIZE, size);
    } else {
      states, steps := EnterTogether(size - 2, size, if size <= 29 then 0 else 1);
    }
    states, steps := EndAll(states, steps, size);
  }
}
