/** Whole calls on the ring: how a push or a pop ends, and what a push's retries are due to.
    Everything is said for positions that do not wrap and for words. */
module RingCalls {
  import opened RingMachine
  import opened RingProofs
  import opened RingWords

  // ---------------------------------------------------------------- a push

  predicate Pushing(s: State, t: nat) {
    t < |s.producers| && !s.producers[t].Idle?
  }

  /** A push of `obs` by `t` that began with state `i` and has not returned in state `n`. */
  ghost predicate PushCall(m: Mode, run: seq<State>, acts: seq<Action>, t: nat, obs: Observation, i: nat, n: nat) {
    && IsRun(m, run, acts) && 0 < i <= n < |run| && acts[i - 1] == BeginPush(t, obs)
    && forall k :: i <= k <= n ==> Pushing(run[k], t)
  }

  predicate IsStepOf(a: Action, t: nat) {
    (a.StepPush? || a.WeakFail?) && a.t == t
  }

  lemma OthersStay(m: Mode, s: State, a: Action, t: nat)
    requires |s.slots| == RING_CAPACITY && Enabled(s, a) && Pushing(s, t) && !IsStepOf(a, t)
    ensures t < |Next(m, s, a).producers| && Next(m, s, a).producers[t] == s.producers[t]
  {
  }

  lemma SameObservation(m: Mode, s: State, a: Action, t: nat)
    requires |s.slots| == RING_CAPACITY && Enabled(s, a) && Pushing(s, t) && Pushing(Next(m, s, a), t)
    requires s.producers[t].Write? ==> s.producers[t].done <= 4
    ensures var p := Next(m, s, a).producers[t]; p.obs == s.producers[t].obs && (p.Write? ==> p.done <= 4)
  {
    if !IsStepOf(a, t) {
      OthersStay(m, s, a, t);
    }
  }

  lemma {:induction false} CallsObservation(m: Mode, run: seq<State>, acts: seq<Action>, t: nat, obs: Observation,
                                            i: nat, n: nat)
    requires PushCall(m, run, acts, t, obs, i, n)
    ensures var p := run[n].producers[t]; p.obs == obs && (p.Write? ==> p.done <= 4)
    decreases n
  {
    assert StepAt(m, run, acts, n - 1);
    assert Pushing(run[n], t);
    if i < n {
      CallsObservation(m, run, acts, t, obs, i, n - 1);
      assert Pushing(run[n - 1], t);
      SameObservation(m, run[n - 1], acts[n - 1], t);
    }
  }

  lemma Returns(m: Mode, s: State, a: Action, t: nat)
    requires |s.slots| == RING_CAPACITY && Enabled(s, a) && Pushing(s, t)
    requires t < |Next(m, s, a).producers| && Next(m, s, a).producers[t].Idle?
    requires s.producers[t].Write? ==> s.producers[t].done <= 4
    ensures a == StepPush(t)
    ensures match s.producers[t]
            case ReadSequence(_, pos) => Lead(m, s.slots[IndexOf(pos)].sequence, pos) < 0
            case Write(_, _, done) => done == 4
            case _ => false
  {
    if !IsStepOf(a, t) {
      OthersStay(m, s, a, t);
    }
  }

  /** A push ends by publishing its own observation, or at a sequence load that finds the
      sequence behind. */
  lemma PushEnds(m: Mode, run: seq<State>, acts: seq<Action>, t: nat, obs: Observation, i: nat, n: nat)
    requires PushCall(m, run, acts, t, obs, i, n) && n < |acts|
    requires t < |run[n + 1].producers| && run[n + 1].producers[t].Idle?
    ensures acts[n] == StepPush(t) && run[n].producers[t].obs == obs
    ensures PushSucceeds(run, acts, t, n) || run[n].producers[t].ReadSequence?
  {
    assert StepAt(m, run, acts, n) && Pushing(run[n], t);
    CallsObservation(m, run, acts, t, obs, i, n);
    Returns(m, run[n], acts[n], t);
  }

  /** In every run a push that is past the gates publishes its observation, or is refused at
      an access that finds every slot claimed and not released. */
  lemma PushedOrFull(run: seq<State>, acts: seq<Action>, t: nat, obs: Observation, i: nat, n: nat)
    requires PushCall(Unbounded, run, acts, t, obs, i, n) && n < |acts|
    requires t < |run[n + 1].producers| && run[n + 1].producers[t].Idle?
    ensures run[n].producers[t].obs == obs
    ensures PushSucceeds(run, acts, t, n) || run[n].tail - Freed(run[n]) == RING_CAPACITY
  {
    PushEnds(Unbounded, run, acts, t, obs, i, n);
    if run[n].producers[t].ReadSequence? {
      RefusedOnlyWhenFull(run, acts, n, t);
    }
  }

  /** On words it may also be refused because more than half a turn of claims, but for a lap,
      were made since the step `k` of the call that read the tail. */
  lemma WordPushedOrFullOrStale(run: seq<State>, acts: seq<Action>, t: nat, obs: Observation, i: nat, n: nat)
    returns (k: nat)
    requires PushCall(Wrapping, run, acts, t, obs, i, n) && n < |acts| && ClaimsFree(run, acts, n)
    requires t < |run[n + 1].producers| && run[n + 1].producers[t].Idle?
    ensures run[n].producers[t].obs == obs
    ensures || PushSucceeds(run, acts, t, n)
            || |run[n].claimed| - Released(run[n]) == RING_CAPACITY
            || (i <= k + 1 && TailReadAt(run, t, k, n) && |run[n].claimed| - |run[k].claimed| > HALF_WORD - RING_CAPACITY)
  {
    k := 0;
    PushEnds(Wrapping, run, acts, t, obs, i, n);
    if run[n].producers[t].ReadSequence? {
      k := RefusedFullOrStale(run, acts, t, n);
      assert StepAt(Wrapping, run, acts, i - 1);
      assert run[i - 1].producers[t].Idle?;
    }
  }

  // ---------------------------------------------------------------- what a push's retries are due to

  predicate IsReload(p: Producer, p': Producer) {
    (p.Claim? || p.ReadTail?) && p'.ReadSequence?
  }

  predicate Reloads(s: State, a: Action, s': State, t: nat) {
    IsStepOf(a, t) && t < |s.producers| && t < |s'.producers| && IsReload(s.producers[t], s'.producers[t])
  }

  /** Another producer claims a position. */
  predicate OtherClaims(s: State, a: Action, s': State, t: nat) {
    a.StepPush? && a.t != t && |s'.claimed| > |s.claimed|
  }

  /** How often, from state `lo` to state `hi`, `t` reads the tail again, its exchange fails
      for no reason, another producer claims, and `t` takes a step at all. */
  datatype Tally = Tally(reloads: nat, failures: nat, claims: nat, steps: nat)

  function Counted(n: Tally, s: State, a: Action, s': State, t: nat): Tally {
    Tally(n.reloads + if Reloads(s, a, s', t) then 1 else 0,
          n.failures + if a == WeakFail(t) then 1 else 0,
          n.claims + if OtherClaims(s, a, s', t) then 1 else 0,
          n.steps + if IsStepOf(a, t) then 1 else 0)
  }

  ghost function Counts(run: seq<State>, acts: seq<Action>, t: nat, lo: nat, hi: nat): Tally
    requires |run| == |acts| + 1 && lo <= hi < |run|
    decreases hi
  {
    if lo == hi then Tally(0, 0, 0, 0)
    else Counted(Counts(run, acts, t, lo, hi - 1), run[hi - 1], acts[hi - 1], run[hi], t)
  }

  /** How far a push has come in its round, and after its claim. */
  function Place(p: Producer): nat {
    match p
    case Idle => 0
    case ReadSequence(_, _) => 0
    case Claim(_, _) => 1
    case ReadTail(_) => 1
    case Write(_, _, done) => 2 + done
  }

  /** Every reload is paid for, and a position that is not the tail has paid for the next. */
  predicate Paid(n: Tally, p: Producer, tail: nat) {
    && n.steps == 2 * n.reloads + Place(p)
    && n.reloads + (if Behind(p, tail) then 1 else 0) <= n.failures + n.claims
  }

  predicate Behind(p: Producer, tail: nat) {
    match p
    case ReadSequence(_, pos) => pos != tail
    case Claim(_, pos) => pos != tail
    case ReadTail(_) => true
    case _ => false
  }

  /** The slot of the tail is not ahead of it. */
  predicate TailNotAhead(m: Mode, s: State) {
    |s.slots| == RING_CAPACITY && Lead(m, s.slots[IndexOf(s.tail)].sequence, s.tail) <= 0
  }

  lemma OwnStepPaid(m: Mode, s: State, a: Action, t: nat, n: Tally)
    requires TailNotAhead(m, s) && Enabled(s, a) && Pushing(s, t) && IsStepOf(a, t) && Paid(n, s.producers[t], s.tail)
    requires Pushing(Next(m, s, a), t)
    ensures Paid(Counted(n, s, a, Next(m, s, a), t), Next(m, s, a).producers[t], Next(m, s, a).tail)
  {
  }

  lemma OtherStepPaid(m: Mode, s: State, a: Action, t: nat, n: Tally)
    requires |s.slots| == RING_CAPACITY && Enabled(s, a) && Pushing(s, t) && !IsStepOf(a, t)
    requires Paid(n, s.producers[t], s.tail)
    ensures t < |Next(m, s, a).producers|
    ensures Paid(Counted(n, s, a, Next(m, s, a), t), Next(m, s, a).producers[t], Next(m, s, a).tail)
  {
    OthersStay(m, s, a, t);
    TailMovesByClaim(m, s, a);
  }

  lemma TailMovesByClaim(m: Mode, s: State, a: Action)
    requires |s.slots| == RING_CAPACITY && Enabled(s, a)
    ensures Next(m, s, a).tail != s.tail ==> a.StepPush? && |Next(m, s, a).claimed| > |s.claimed|
  {
  }

  lemma {:induction false} CallPaid(m: Mode, run: seq<State>, acts: seq<Action>, t: nat, obs: Observation, i: nat, n: nat)
    requires PushCall(m, run, acts, t, obs, i, n) && forall k :: i <= k <= n ==> TailNotAhead(m, run[k])
    ensures Paid(Counts(run, acts, t, i, n), run[n].producers[t], run[n].tail)
    decreases n
  {
    assert StepAt(m, run, acts, n - 1);
    assert Pushing(run[n], t);
    if i < n {
      CallPaid(m, run, acts, t, obs, i, n - 1);
      assert Pushing(run[n - 1], t) && TailNotAhead(m, run[n - 1]);
      if IsStepOf(acts[n - 1], t) {
        OwnStepPaid(m, run[n - 1], acts[n - 1], t, Counts(run, acts, t, i, n - 1));
      } else {
        OtherStepPaid(m, run[n - 1], acts[n - 1], t, Counts(run, acts, t, i, n - 1));
      }
    }
  }

  /** Each time the push reads the tail again, another producer has claimed a position or
      the exchange has failed for no reason, each time another; and the push takes at most
      seven steps beyond two for each of those. */
  predicate Charged(n: Tally) {
    n.reloads <= n.failures + n.claims && n.steps <= 2 * (n.failures + n.claims) + 6
  }

  lemma CallCharged(m: Mode, run: seq<State>, acts: seq<Action>, t: nat, obs: Observation, i: nat, n: nat)
    requires PushCall(m, run, acts, t, obs, i, n) && forall k :: i <= k <= n ==> TailNotAhead(m, run[k])
    ensures Charged(Counts(run, acts, t, i, n))
  {
    CallPaid(m, run, acts, t, obs, i, n);
    CallsObservation(m, run, acts, t, obs, i, n);
  }

  lemma TailSlotLead(s: State)
    requires Inv(s)
    ensures TailNotAhead(Unbounded, s) && TailNotAhead(Wrapping, Words(s))
  {
    TailSequence(s);
    SameIndex(s.tail);
    WordDifference(s.slots[IndexOf(s.tail)].sequence, s.tail);
  }

  /** In every run. */
  lemma PushRetriesCharged(run: seq<State>, acts: seq<Action>, t: nat, obs: Observation, i: nat, n: nat)
    requires PushCall(Unbounded, run, acts, t, obs, i, n)
    ensures Charged(Counts(run, acts, t, i, n))
  {
    forall k | i <= k <= n ensures TailNotAhead(Unbounded, run[k]) {
      EveryStateInv(run, acts, k);
      TailSlotLead(run[k]);
    }
    CallCharged(Unbounded, run, acts, t, obs, i, n);
  }

  /** On words, too. */
  lemma WordPushRetriesCharged(run: seq<State>, acts: seq<Action>, t: nat, obs: Observation, i: nat, n: nat)
    requires PushCall(Wrapping, run, acts, t, obs, i, n) && ClaimsFree(run, acts, n)
    ensures Charged(Counts(run, acts, t, i, n))
  {
    forall k | i <= k <= n ensures TailNotAhead(Wrapping, run[k]) {
      WordRunIsImage(run, acts, k);
      TailSlotLead(Lifted(run[0], acts, k));
    }
    CallCharged(Wrapping, run, acts, t, obs, i, n);
  }

  // ---------------------------------------------------------------- a pop

  /** A pop that began with state `i` and has not returned in state `n`. */
  ghost predicate PopCall(m: Mode, run: seq<State>, acts: seq<Action>, i: nat, n: nat) {
    && IsRun(m, run, acts) && 0 < i <= n < |run| && acts[i - 1] == BeginPop
    && forall k :: i <= k <= n ==> !run[k].consumer.Waiting?
  }

  ghost function PopSteps(acts: seq<Action>, lo: nat, hi: nat): nat
    requires lo <= hi <= |acts|
    decreases hi
  {
    if lo == hi then 0 else PopSteps(acts, lo, hi - 1) + if acts[hi - 1] == StepPop then 1 else 0
  }

  function PopPlace(c: Consumer): nat {
    match c
    case Waiting => 0
    case CheckSequence(_) => 0
    case Read(_, done, _) => 1 + done
    case Release(_, _) => 5
    case StoreHead(_, _) => 6
  }

  lemma PopMoves(m: Mode, s: State, a: Action)
    requires |s.slots| == RING_CAPACITY && Enabled(s, a) && !s.consumer.Waiting? && (s.consumer.Read? ==> s.consumer.done <= 3)
    ensures var s' := Next(m, s, a);
            if a != StepPop then s'.consumer == s.consumer && s'.popped == s.popped
            else if s'.consumer.Waiting? then
              if s.consumer.StoreHead? then s'.popped == s.popped + [s.consumer.obs]
              else s.consumer.CheckSequence? && s'.popped == s.popped
            else PopPlace(s'.consumer) == PopPlace(s.consumer) + 1 && s'.popped == s.popped
                 && (s'.consumer.Read? ==> s'.consumer.done <= 3)
  {
  }

  /** A pop has no loop. */
  lemma {:induction false} PopIsStraight(m: Mode, run: seq<State>, acts: seq<Action>, i: nat, n: nat)
    requires PopCall(m, run, acts, i, n)
    ensures PopSteps(acts, i, n) == PopPlace(run[n].consumer) && run[n].popped == run[i].popped
    ensures run[n].consumer.Read? ==> run[n].consumer.done <= 3
    decreases n
  {
    assert StepAt(m, run, acts, n - 1);
    if i < n {
      PopIsStraight(m, run, acts, i, n - 1);
      PopMoves(m, run[n - 1], acts[n - 1]);
    }
  }

  /** A pop returns nothing after one step, or after seven steps the observation it adds to
      what has been popped. */
  lemma PopEnds(m: Mode, run: seq<State>, acts: seq<Action>, i: nat, n: nat)
    requires PopCall(m, run, acts, i, n) && n < |acts| && run[n + 1].consumer.Waiting?
    ensures acts[n] == StepPop
    ensures if run[n].consumer.CheckSequence? then PopSteps(acts, i, n + 1) == 1 && run[n + 1].popped == run[i].popped
            else PopSteps(acts, i, n + 1) == 7 && |run[n + 1].popped| == |run[i].popped| + 1
                 && run[i].popped <= run[n + 1].popped
  {
    assert StepAt(m, run, acts, n);
    PopIsStraight(m, run, acts, i, n);
    PopMoves(m, run[n], acts[n]);
  }
}
