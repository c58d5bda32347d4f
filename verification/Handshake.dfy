/** The generation handshake and the migration built on it: any number of operations and
    one coordinator, one step per atomic access, over any number of migrations. */
module Handshake {
  import opened Options

  const WORD: nat := 0x1_0000_0000

  function Word(x: nat): nat {
    x % WORD
  }

  /** Where an operation stands. The words are generations as loaded from the header;
      `gen` is the generation that was current when the operation was confirmed, whose
      representation it uses. */
  datatype Op =
    | Out
    | LoadGen
    | Increment(word: nat)
    | Recheck(word: nat)
    | Undo(word: nat)
    | Held(word: nat, gen: nat)

  /** Where the coordinator stands in a migration. A migration that only changes the
      layout has no tag to store. */
  datatype Coordinator =
    | Rest
    | ReadGen(tag: Option<nat>)
    | StoreTag(was: nat, newTag: nat)
    | StoreGen(was: nat)
    | Drain(was: nat)
    | DropOld

  /** `generation`, `tag` and `inFlight` are the header. `gen` is the generation counted
      without wrapping, and `live` the generations whose representations exist. */
  datatype State = State(
    generation: nat,
    tag: nat,
    inFlight: seq<int>,
    ops: seq<Op>,
    coordinator: Coordinator,
    gen: nat,
    live: set<nat>)

  datatype Action =
    | Enter(t: nat)
    | StepOp(t: nat)
    | Exit(t: nat)
    | BeginMigration(tag: Option<nat>)
    | StepCoordinator

  ghost predicate Enabled(s: State, a: Action) {
    match a
    case Enter(t) => t < |s.ops| && s.ops[t].Out?
    case StepOp(t) => t < |s.ops| && !s.ops[t].Out? && !s.ops[t].Held?
    case Exit(t) => t < |s.ops| && s.ops[t].Held?
    case BeginMigration(_) => s.coordinator.Rest?
    case StepCoordinator => !s.coordinator.Rest?
  }

  function Goto(s: State, t: nat, op: Op): State
    requires t < |s.ops|
  {
    s.(ops := s.ops[t := op])
  }

  function Count(s: State, word: nat, delta: int): State
    requires |s.inFlight| == 2
  {
    s.(inFlight := s.inFlight[word % 2 := s.inFlight[word % 2] + delta])
  }

  function OpStep(s: State, t: nat): State
    requires t < |s.ops| && |s.inFlight| == 2
  {
    match s.ops[t]
    case Out => s
    case LoadGen => Goto(s, t, Increment(s.generation))
    case Increment(w) => Goto(Count(s, w, 1), t, Recheck(w))
    case Recheck(w) => Goto(s, t, if s.generation == w then Held(w, s.gen) else Undo(w))
    case Undo(w) => Goto(Count(s, w, -1), t, LoadGen)
    case Held(_, _) => s
  }

  function CoordinatorStep(s: State): State
    requires |s.inFlight| == 2
  {
    match s.coordinator
    case Rest => s
    case ReadGen(tag) =>
      s.(coordinator := if tag.Some? then StoreTag(s.generation, tag.value) else StoreGen(s.generation))
    case StoreTag(was, tag) => s.(tag := tag, coordinator := StoreGen(was))
    case StoreGen(was) =>
      s.(generation := Word(was + 1), gen := s.gen + 1, coordinator := Drain(was))
    case Drain(was) => s.(coordinator := if s.inFlight[was % 2] == 0 then DropOld else Drain(was))
    case DropOld => s.(live := s.live - {s.gen - 1}, coordinator := Rest)
  }

  function Next(s: State, a: Action): State
    requires Enabled(s, a) && |s.inFlight| == 2
  {
    match a
    case Enter(t) => Goto(s, t, LoadGen)
    case StepOp(t) => OpStep(s, t)
    case Exit(t) => Goto(Count(s, s.ops[t].word, -1), t, Out)
    case BeginMigration(tag) => s.(live := s.live + {s.gen + 1}, coordinator := ReadGen(tag))
    case StepCoordinator => CoordinatorStep(s)
  }

  ghost predicate Init(s: State) {
    && s.generation == s.tag == 0 && s.inFlight == [0, 0] && s.coordinator == Rest && s.gen == 0
    && s.live == {0} && forall t :: 0 <= t < |s.ops| ==> s.ops[t].Out?
  }

  // ---------------------------------------------------------------- what is kept

  /** The operation is counted in flight with parity `p`: it is held, or between its
      increment and its recheck or undo. */
  predicate Counted(op: Op, p: nat) {
    (op.Recheck? || op.Undo? || op.Held?) && op.word % 2 == p
  }

  ghost function CountedOps(ops: seq<Op>, p: nat): set<nat> {
    set t: nat | t < |ops| && Counted(ops[t], p)
  }

  ghost predicate Exact(s: State) {
    && |s.inFlight| == 2
    && s.inFlight[0] == |CountedOps(s.ops, 0)| && s.inFlight[1] == |CountedOps(s.ops, 1)|
  }

  /** The coordinator has bumped the generation and not seen the old one drained. */
  predicate Draining(c: Coordinator) {
    c.Drain?
  }

  ghost predicate OpOk(s: State, op: Op) {
    op.Held? ==>
      && op.word == Word(op.gen)
      && (op.gen == s.gen || (Draining(s.coordinator) && op.gen + 1 == s.gen))
  }

  ghost predicate CoordinatorOk(s: State) {
    match s.coordinator
    case Rest => s.live == {s.gen}
    case ReadGen(_) => s.live == {s.gen, s.gen + 1}
    case StoreTag(was, _) => s.live == {s.gen, s.gen + 1} && was == Word(s.gen)
    case StoreGen(was) => s.live == {s.gen, s.gen + 1} && was == Word(s.gen)
    case Drain(was) => s.gen > 0 && s.live == {s.gen - 1, s.gen} && was == Word(s.gen - 1)
    case DropOld => s.gen > 0 && s.live == {s.gen - 1, s.gen}
  }

  ghost predicate Inv(s: State) {
    && Exact(s) && s.generation == Word(s.gen) && CoordinatorOk(s)
    && forall t :: 0 <= t < |s.ops| ==> OpOk(s, s.ops[t])
  }

  lemma InitInv(s: State)
    requires Init(s)
    ensures Inv(s)
  {
    assert CountedOps(s.ops, 0) == {} && CountedOps(s.ops, 1) == {};
  }

  /** The operations counted, `t` aside. */
  ghost function OtherOps(ops: seq<Op>, p: nat, t: nat): set<nat> {
    set u: nat | u < |ops| && u != t && Counted(ops[u], p)
  }

  lemma CountOne(ops: seq<Op>, p: nat, t: nat)
    requires t < |ops|
    ensures |CountedOps(ops, p)| == |OtherOps(ops, p, t)| + if Counted(ops[t], p) then 1 else 0
  {
    assert CountedOps(ops, p) == OtherOps(ops, p, t) + if Counted(ops[t], p) then {t} else {};
  }

  lemma MovedCount(ops: seq<Op>, t: nat, op: Op, p: nat)
    requires t < |ops|
    ensures |CountedOps(ops[t := op], p)|
         == |CountedOps(ops, p)| + (if Counted(op, p) then 1 else 0) - (if Counted(ops[t], p) then 1 else 0)
  {
    CountOne(ops, p, t);
    CountOne(ops[t := op], p, t);
    assert OtherOps(ops[t := op], p, t) == OtherOps(ops, p, t);
  }

  /** An operation moves, with its count. */
  lemma OpKeeps(s: State, s': State, t: nat, op: Op)
    requires Inv(s) && t < |s.ops| && OpOk(s, op) && |s'.inFlight| == 2
    requires s' == s.(ops := s.ops[t := op], inFlight := s'.inFlight)
    requires forall p :: 0 <= p < 2 ==>
               s'.inFlight[p] == s.inFlight[p] + (if Counted(op, p) then 1 else 0) - (if Counted(s.ops[t], p) then 1 else 0)
    ensures Inv(s')
  {
    MovedCount(s.ops, t, op, 0);
    MovedCount(s.ops, t, op, 1);
    forall u | 0 <= u < |s.ops| ensures OpOk(s', s'.ops[u]) { assert OpOk(s, s.ops[u]); }
  }

  lemma StepOpKeeps(s: State, t: nat)
    requires Inv(s) && Enabled(s, StepOp(t))
    ensures Inv(OpStep(s, t))
  {
    OpKeeps(s, OpStep(s, t), t, OpStep(s, t).ops[t]);
  }

  lemma ExitKeeps(s: State, t: nat)
    requires Inv(s) && Enabled(s, Exit(t))
    ensures Inv(Next(s, Exit(t)))
  {
    OpKeeps(s, Next(s, Exit(t)), t, Out);
  }

  /** A drained parity has nothing held: what is left of the old generation is gone. */
  lemma DrainedHasNoOps(s: State, t: nat)
    requires Inv(s) && s.coordinator.Drain? && s.inFlight[s.coordinator.was % 2] == 0 && t < |s.ops|
    ensures !s.ops[t].Held? || s.ops[t].gen == s.gen
  {
    var p := s.coordinator.was % 2;
    assert OpOk(s, s.ops[t]);
    assert CountedOps(s.ops, p) == {};
    assert t !in CountedOps(s.ops, p);
  }

  lemma CoordinatorKeeps(s: State)
    requires Inv(s) && !s.coordinator.Rest?
    ensures Inv(CoordinatorStep(s))
  {
    var s' := CoordinatorStep(s);
    forall t | 0 <= t < |s.ops| ensures OpOk(s', s'.ops[t]) {
      assert OpOk(s, s.ops[t]);
      if s.coordinator.Drain? && s'.coordinator.DropOld? { DrainedHasNoOps(s, t); }
    }
  }

  lemma BeginKeeps(s: State, tag: Option<nat>)
    requires Inv(s) && s.coordinator.Rest?
    ensures Inv(Next(s, BeginMigration(tag)))
  {
    var s' := Next(s, BeginMigration(tag));
    forall t | 0 <= t < |s.ops| ensures OpOk(s', s'.ops[t]) { assert OpOk(s, s.ops[t]); }
  }

  lemma KeepsInv(s: State, a: Action)
    requires Inv(s) && Enabled(s, a)
    ensures Inv(Next(s, a))
  {
    match a
    case Enter(t) => OpKeeps(s, Next(s, a), t, LoadGen);
    case StepOp(t) => StepOpKeeps(s, t);
    case Exit(t) => ExitKeeps(s, t);
    case BeginMigration(tag) => BeginKeeps(s, tag);
    case StepCoordinator => CoordinatorKeeps(s);
  }

  // ---------------------------------------------------------------- over whole runs

  ghost predicate StepAt(run: seq<State>, acts: seq<Action>, i: nat) {
    && i < |acts| && i + 1 < |run|
    && |run[i].inFlight| == 2 && Enabled(run[i], acts[i]) && run[i + 1] == Next(run[i], acts[i])
  }

  ghost predicate IsRun(run: seq<State>, acts: seq<Action>) {
    |run| == |acts| + 1 && Init(run[0]) && forall i :: 0 <= i < |acts| ==> StepAt(run, acts, i)
  }

  lemma {:induction false} EveryStateInv(run: seq<State>, acts: seq<Action>, n: nat)
    requires IsRun(run, acts) && n < |run|
    ensures Inv(run[n])
    decreases n
  {
    if n == 0 {
      InitInv(run[0]);
    } else {
      EveryStateInv(run, acts, n - 1);
      assert StepAt(run, acts, n - 1);
      KeepsInv(run[n - 1], acts[n - 1]);
    }
  }

  /** No run is left out: whatever step is enabled next can be taken. */
  lemma RunExtends(run: seq<State>, acts: seq<Action>, a: Action)
    requires IsRun(run, acts) && Enabled(run[|acts|], a)
    ensures |run[|acts|].inFlight| == 2 && IsRun(run + [Next(run[|acts|], a)], acts + [a])
  {
    EveryStateInv(run, acts, |acts|);
    var longer, more := run + [Next(run[|acts|], a)], acts + [a];
    forall i | 0 <= i < |more| ensures StepAt(longer, more, i) {
      if i < |acts| { assert StepAt(run, acts, i); }
    }
  }

  /** The counters are exactly the operations held or between increment and recheck or
      undo, whatever the generation has wrapped to. */
  lemma CountersAreExact(run: seq<State>, acts: seq<Action>, n: nat, p: nat)
    requires IsRun(run, acts) && n < |run| && p < 2
    ensures |run[n].inFlight| == 2 && run[n].inFlight[p] == |CountedOps(run[n].ops, p)|
  {
    EveryStateInv(run, acts, n);
  }

  /** No representation is dropped while an operation uses it. */
  lemma RepresentationsOutlive(run: seq<State>, acts: seq<Action>, n: nat, t: nat)
    requires IsRun(run, acts) && n < |run| && t < |run[n].ops| && run[n].ops[t].Held?
    ensures run[n].ops[t].gen in run[n].live
  {
    EveryStateInv(run, acts, n);
    assert OpOk(run[n], run[n].ops[t]);
  }

  /** When the wait for the old generation returns, no operation confirmed on it or on an
      earlier one remains, and none will be confirmed on it again. */
  lemma DrainMeansGone(run: seq<State>, acts: seq<Action>, n: nat, later: nat, t: nat)
    requires IsRun(run, acts) && n < |acts| && run[n].coordinator.Drain? && run[n + 1].coordinator.DropOld?
    requires n < later < |run| && t < |run[later].ops| && run[later].ops[t].Held?
    ensures run[n].gen > 0 && run[later].ops[t].gen >= run[n].gen
    decreases later
  {
    EveryStateInv(run, acts, n);
    assert StepAt(run, acts, n);
    EveryStateInv(run, acts, later);
    assert OpOk(run[later], run[later].ops[t]);
    GenGrows(run, acts, n + 1, later);
    if run[later].ops[t].gen < run[later].gen && run[later].gen == run[n].gen {
      DrainOnce(run, acts, n + 1, later);
    }
  }

  /** Until the generation is bumped again, no wait for the one before is going on. */
  lemma {:induction false} DrainOnce(run: seq<State>, acts: seq<Action>, i: nat, n: nat)
    requires IsRun(run, acts) && i <= n < |run| && !run[i].coordinator.Drain? && run[i].gen == run[n].gen
    ensures !run[n].coordinator.Drain?
    decreases n
  {
    if i < n {
      assert StepAt(run, acts, n - 1);
      GenGrows(run, acts, i, n - 1);
      DrainOnce(run, acts, i, n - 1);
    }
  }

  lemma {:induction false} GenGrows(run: seq<State>, acts: seq<Action>, i: nat, n: nat)
    requires IsRun(run, acts) && i <= n < |run|
    ensures run[i].gen <= run[n].gen
    decreases n
  {
    if i < n {
      assert StepAt(run, acts, n - 1);
      GenGrows(run, acts, i, n - 1);
    }
  }

  // ---------------------------------------------------------------- getting in

  /** A call of `enter_op` by `t` that began with state `i` and has not returned in state `n`. */
  ghost predicate EnterCall(run: seq<State>, acts: seq<Action>, t: nat, i: nat, n: nat) {
    && IsRun(run, acts) && 0 < i <= n < |run| && acts[i - 1] == Enter(t)
    && forall k :: i <= k <= n ==> t < |run[k].ops| && !run[k].ops[t].Out? && !run[k].ops[t].Held?
  }

  /** How often `t` finds, at its recheck, that it must undo its increment. */
  ghost function Undos(run: seq<State>, acts: seq<Action>, t: nat, lo: nat, hi: nat): nat
    requires |run| == |acts| + 1 && lo <= hi < |run|
    decreases hi
  {
    if lo == hi then 0
    else Undos(run, acts, t, lo, hi - 1) + if acts[hi - 1] == StepOp(t) && BeginsUndo(run[hi], t) then 1 else 0
  }

  predicate BeginsUndo(s: State, t: nat) {
    t < |s.ops| && s.ops[t].Undo?
  }

  ghost function OwnSteps(acts: seq<Action>, t: nat, lo: nat, hi: nat): nat
    requires lo <= hi <= |acts|
    decreases hi
  {
    if lo == hi then 0 else OwnSteps(acts, t, lo, hi - 1) + if acts[hi - 1] == StepOp(t) then 1 else 0
  }

  /** How far a round of the loop has come; the undo belongs to the round before. */
  function Place(op: Op): int {
    match op
    case Out => 0
    case LoadGen => 0
    case Increment(_) => 1
    case Recheck(_) => 2
    case Undo(_) => -1
    case Held(_, _) => 3
  }

  /** The generation the operation works with, as it was at the load. */
  predicate Loaded(op: Op, gen: nat) {
    op.Increment? || op.Recheck? ==> op.word == Word(gen)
  }

  lemma OpMoves(s: State, a: Action, t: nat)
    requires Enabled(s, a) && |s.inFlight| == 2 && t < |s.ops| && !s.ops[t].Out? && !s.ops[t].Held?
    ensures t < |Next(s, a).ops|
    ensures var op, op' := s.ops[t], Next(s, a).ops[t];
            if a == StepOp(t) then
              match op
              case LoadGen => op' == Increment(s.generation)
              case Increment(w) => op' == Recheck(w)
              case Recheck(w) => op' == if s.generation == w then Held(w, s.gen) else Undo(w)
              case Undo(_) => op' == LoadGen
            else op' == op
  {
  }

  /** The steps of a call are exactly four for each round that is undone, and those of the
      round it is in. */
  lemma {:induction false} StepsOfCall(run: seq<State>, acts: seq<Action>, t: nat, i: nat, n: nat)
    requires EnterCall(run, acts, t, i, n)
    ensures OwnSteps(acts, t, i, n) == 4 * Undos(run, acts, t, i, n) + Place(run[n].ops[t])
    decreases n
  {
    assert StepAt(run, acts, n - 1);
    if i < n {
      StepsOfCall(run, acts, t, i, n - 1);
      OpMoves(run[n - 1], acts[n - 1], t);
    }
  }

  /** Rounds undone by state `n` are paid for by bumps up to the state `m` of the last load. */
  ghost predicate PaidBy(run: seq<State>, acts: seq<Action>, t: nat, i: nat, m: nat, n: nat)
    requires |run| == |acts| + 1 && i <= m <= n < |run| && t < |run[n].ops|
  {
    Undos(run, acts, t, i, n) + run[i].gen <= run[m].gen && Loaded(run[n].ops[t], run[m].gen)
  }

  lemma PaidByNext(run: seq<State>, acts: seq<Action>, t: nat, i: nat, m: nat, n: nat) returns (m': nat)
    requires EnterCall(run, acts, t, i, n) && i <= m < n && PaidBy(run, acts, t, i, m, n - 1)
    ensures i <= m' <= n && PaidBy(run, acts, t, i, m', n)
  {
    assert StepAt(run, acts, n - 1);
    EveryStateInv(run, acts, n - 1);
    OpMoves(run[n - 1], acts[n - 1], t);
    GenGrows(run, acts, m, n - 1);
    GenGrows(run, acts, n - 1, n);
    m' := if acts[n - 1] != StepOp(t) || run[n - 1].ops[t].Increment? then m else n - 1;
  }

  lemma {:induction false} UndosPaidBy(run: seq<State>, acts: seq<Action>, t: nat, i: nat, n: nat) returns (m: nat)
    requires EnterCall(run, acts, t, i, n)
    ensures i <= m <= n && PaidBy(run, acts, t, i, m, n)
    decreases n
  {
    assert StepAt(run, acts, i - 1);
    if i == n {
      m := i;
    } else {
      m := UndosPaidBy(run, acts, t, i, n - 1);
      m := PaidByNext(run, acts, t, i, m, n);
    }
  }

  /** In every run a call of `enter_op` goes round again only when the generation has been
      bumped between its load and its recheck, each time by another bump, and takes at most
      three steps beyond the four of each such round. */
  lemma UndosChargedToBumps(run: seq<State>, acts: seq<Action>, t: nat, i: nat, n: nat)
    requires EnterCall(run, acts, t, i, n)
    ensures run[i].gen <= run[n].gen && Undos(run, acts, t, i, n) <= run[n].gen - run[i].gen
    ensures OwnSteps(acts, t, i, n) <= 4 * (run[n].gen - run[i].gen) + 2
  {
    var m := UndosPaidBy(run, acts, t, i, n);
    GenGrows(run, acts, i, n);
    GenGrows(run, acts, m, n);
    StepsOfCall(run, acts, t, i, n);
  }

  /** `t` loads the generation at step `m` and rechecks it at step `n`. */
  ghost predicate LoadsAndRechecks(run: seq<State>, acts: seq<Action>, t: nat, m: nat, n: nat) {
    && IsRun(run, acts) && m < n < |acts| && acts[m] == acts[n] == StepOp(t)
    && t < |run[m].ops| && run[m].ops[t].LoadGen? && t < |run[n].ops| && run[n].ops[t].Recheck?
    && forall k :: m < k < n ==> t < |run[k].ops| && (run[k].ops[t].Increment? || run[k].ops[t].Recheck?)
  }

  lemma {:induction false} StillLoaded(run: seq<State>, acts: seq<Action>, t: nat, m: nat, n: nat, k: nat)
    requires LoadsAndRechecks(run, acts, t, m, n) && m < k <= n
    ensures t < |run[k].ops| && Loaded(run[k].ops[t], run[m].gen)
    decreases k
  {
    assert StepAt(run, acts, k - 1);
    OpMoves(run[k - 1], acts[k - 1], t);
    if k == m + 1 {
      EveryStateInv(run, acts, m);
    } else {
      StillLoaded(run, acts, t, m, n, k - 1);
    }
  }

  /** In every run an operation gets in at its recheck if and only if the generation has not
      been bumped since its load, but for whole turns of the 32 bits; it is then held on the
      generation current at the recheck, and otherwise undoes its increment. */
  lemma GetsInIffNoBump(run: seq<State>, acts: seq<Action>, t: nat, m: nat, n: nat)
    requires LoadsAndRechecks(run, acts, t, m, n)
    ensures t < |run[n + 1].ops| && run[m].gen <= run[n].gen
    ensures run[n + 1].ops[t] == if (run[n].gen - run[m].gen) % WORD == 0 then Held(Word(run[n].gen), run[n].gen)
                                 else Undo(Word(run[m].gen))
  {
    StillLoaded(run, acts, t, m, n, n);
    EveryStateInv(run, acts, n);
    GenGrows(run, acts, m, n);
    assert StepAt(run, acts, n);
    OpMoves(run[n], acts[n], t);
    WholeTurns(run[n].gen, run[m].gen);
  }

  lemma WholeTurns(x: nat, y: nat)
    requires y <= x
    ensures Word(x) == Word(y) <==> (x - y) % WORD == 0
  {
  }

  /** In every run the wait for the old generation returns, at a look at the counter, if and
      only if no operation is counted with its parity. */
  lemma DrainReturnsIff(run: seq<State>, acts: seq<Action>, n: nat)
    requires IsRun(run, acts) && n < |acts| && acts[n] == StepCoordinator && run[n].coordinator.Drain?
    ensures run[n].gen > 0 && run[n].coordinator.was == Word(run[n].gen - 1)
    ensures run[n + 1].coordinator == if NoneCounted(run[n].ops, (run[n].gen - 1) % 2) then DropOld else run[n].coordinator
  {
    EveryStateInv(run, acts, n);
    assert StepAt(run, acts, n);
    var p := (run[n].gen - 1) % 2;
    assert run[n].coordinator.was % 2 == p;
    NoneIffEmpty(run[n].ops, p);
  }

  ghost predicate NoneCounted(ops: seq<Op>, p: nat) {
    forall t :: 0 <= t < |ops| ==> !Counted(ops[t], p)
  }

  lemma NoneIffEmpty(ops: seq<Op>, p: nat)
    ensures NoneCounted(ops, p) <==> |CountedOps(ops, p)| == 0
  {
    if |CountedOps(ops, p)| == 0 {
      forall t | 0 <= t < |ops| ensures !Counted(ops[t], p) { assert t !in CountedOps(ops, p); }
    }
    if NoneCounted(ops, p) {
      assert CountedOps(ops, p) == {};
    }
  }

  /** Leaving takes the operation off its counter. */
  lemma ExitLeaves(run: seq<State>, acts: seq<Action>, n: nat, t: nat)
    requires IsRun(run, acts) && n < |acts| && acts[n] == Exit(t)
    ensures t < |run[n].ops| && run[n].ops[t].Held? && run[n + 1].ops == run[n].ops[t := Out]
    ensures var p := run[n].ops[t].gen % 2;
            |run[n + 1].inFlight| == |run[n].inFlight| == 2 && run[n + 1].inFlight[p] == run[n].inFlight[p] - 1
  {
    EveryStateInv(run, acts, n);
    assert StepAt(run, acts, n) && OpOk(run[n], run[n].ops[t]);
  }

  /** A migration that began with state `i` and has not ended in state `n`. */
  ghost predicate Migration(run: seq<State>, acts: seq<Action>, i: nat, n: nat) {
    && IsRun(run, acts) && 0 < i <= n < |run| && acts[i - 1].BeginMigration?
    && forall k :: i <= k <= n ==> !run[k].coordinator.Rest?
  }

  ghost function CoordinatorSteps(acts: seq<Action>, lo: nat, hi: nat): nat
    requires lo <= hi <= |acts|
    decreases hi
  {
    if lo == hi then 0 else CoordinatorSteps(acts, lo, hi - 1) + if acts[hi - 1] == StepCoordinator then 1 else 0
  }

  /** How often the coordinator looks at the counter and goes on waiting. */
  ghost function Waits(run: seq<State>, acts: seq<Action>, lo: nat, hi: nat): nat
    requires |run| == |acts| + 1 && lo <= hi < |run|
    decreases hi
  {
    if lo == hi then 0
    else Waits(run, acts, lo, hi - 1) + if acts[hi - 1] == StepCoordinator && run[hi - 1].coordinator.Drain?
                                             && run[hi].coordinator.Drain? then 1 else 0
  }

  function CoordinatorPlace(c: Coordinator): nat {
    match c
    case Rest => 0
    case ReadGen(_) => 0
    case StoreTag(_, _) => 1
    case StoreGen(_) => 2
    case Drain(_) => 3
    case DropOld => 4
  }

  /** Only the wait for the old generation takes more than one step: a migration that is not
      waiting ends within five. */
  lemma {:induction false} MigrationOnlyWaits(run: seq<State>, acts: seq<Action>, i: nat, n: nat)
    requires Migration(run, acts, i, n)
    ensures CoordinatorSteps(acts, i, n) <= Waits(run, acts, i, n) + CoordinatorPlace(run[n].coordinator)
    decreases n
  {
    assert StepAt(run, acts, n - 1);
    if i < n {
      MigrationOnlyWaits(run, acts, i, n - 1);
    }
  }

  // ---------------------------------------------------------------- tags

  /** The tag asked for with each generation: the first has tag zero, and a migration that
      asks for none keeps the one before. */
  ghost function Requested(acts: seq<Action>): (tags: seq<nat>)
    ensures |tags| > 0
  {
    if |acts| == 0 then [0]
    else
      var before, a := Requested(acts[..|acts| - 1]), acts[|acts| - 1];
      if !a.BeginMigration? then before
      else before + [if a.tag.Some? then a.tag.value else before[|before| - 1]]
  }

  /** How the header's tag stands to the tags asked for. Until the new tag is stored it is
      the current generation's; once it is stored, and before the generation is bumped, it
      is that of the generation to come. */
  ghost predicate TagsAre(s: State, tags: seq<nat>) {
    match s.coordinator
    case ReadGen(tag) =>
      && |tags| == s.gen + 2 && s.tag == tags[s.gen]
      && tags[s.gen + 1] == if tag.Some? then tag.value else tags[s.gen]
    case StoreTag(_, newTag) => |tags| == s.gen + 2 && s.tag == tags[s.gen] && tags[s.gen + 1] == newTag
    case StoreGen(_) => |tags| == s.gen + 2 && s.tag == tags[s.gen + 1]
    case _ => |tags| == s.gen + 1 && s.tag == tags[s.gen]
  }

  lemma KeepsTags(s: State, a: Action, tags: seq<nat>, more: seq<nat>)
    requires |s.inFlight| == 2 && Enabled(s, a) && |tags| > 0 && TagsAre(s, tags)
    requires more == if !a.BeginMigration? then tags
                     else tags + [if a.tag.Some? then a.tag.value else tags[|tags| - 1]]
    ensures TagsAre(Next(s, a), more)
  {
  }

  lemma {:induction false} TagsInRuns(run: seq<State>, acts: seq<Action>, n: nat)
    requires IsRun(run, acts) && n < |run|
    ensures TagsAre(run[n], Requested(acts[..n]))
    decreases n
  {
    if n > 0 {
      TagsInRuns(run, acts, n - 1);
      assert StepAt(run, acts, n - 1);
      assert acts[..n][..n - 1] == acts[..n - 1];
      KeepsTags(run[n - 1], acts[n - 1], Requested(acts[..n - 1]), Requested(acts[..n]));
    }
  }

  /** In every run an operation that has seen a generation finds the tag asked for with it
      or with a later one; only between the store of the next tag and the bump is it later
      than the current one. */
  lemma TagIsNotOlder(run: seq<State>, acts: seq<Action>, n: nat, t: nat) returns (h: nat)
    requires IsRun(run, acts) && n < |run| && t < |run[n].ops| && run[n].ops[t].Held?
    ensures h < |Requested(acts[..n])| && run[n].tag == Requested(acts[..n])[h]
    ensures run[n].ops[t].gen <= run[n].gen <= h
    ensures h == if run[n].coordinator.StoreGen? then run[n].gen + 1 else run[n].gen
  {
    EveryStateInv(run, acts, n);
    assert OpOk(run[n], run[n].ops[t]);
    TagsInRuns(run, acts, n);
    h := if run[n].coordinator.StoreGen? then run[n].gen + 1 else run[n].gen;
  }
}
