/** Runs of the ring on words in which a push waits for whole turns of the positions: one
    is refused by an empty ring, and one claims a slot that is still in use. */
module RingStale {
  import opened RingMachine
  import opened RingProofs
  import opened RingWords

  // ---------------------------------------------------------------- building runs

  /** The run ends in `w`. */
  ghost predicate EndsIn(run: seq<State>, acts: seq<Action>, w: State) {
    IsRun(Wrapping, run, acts) && run[|acts|] == w
  }

  lemma Extends(run: seq<State>, acts: seq<Action>, w: State, a: Action)
    requires EndsIn(run, acts, w) && |w.slots| == RING_CAPACITY && Enabled(w, a)
    ensures EndsIn(run + [Next(Wrapping, w, a)], acts + [a], Next(Wrapping, w, a))
  {
    var longer, more := run + [Next(Wrapping, w, a)], acts + [a];
    forall i | 0 <= i < |more| ensures StepAt(Wrapping, longer, more, i) {
      if i < |acts| { assert StepAt(Wrapping, run, acts, i); }
    }
  }

  predicate IsBy(a: Action, t: nat) {
    (a.BeginPush? || a.StepPush? || a.WeakFail?) && a.t == t
  }

  /** The actions begin with `first`, and none of the others is by thread 0. */
  ghost predicate WaitsAfter(acts: seq<Action>, first: seq<Action>) {
    first <= acts && forall k :: |first| <= k < |acts| ==> !IsBy(acts[k], 0)
  }

  /** Some run on words gets to the image of `s`, with thread 0 waiting after `first`. */
  ghost predicate Live(s: State, first: seq<Action>) {
    Inv(s) && exists run, acts :: EndsIn(run, acts, Words(s)) && WaitsAfter(acts, first)
  }

  lemma Take(s: State, first: seq<Action>, a: Action)
    requires Live(s, first) && Enabled(s, a) && FreeClaim(Words(s), a) && !IsBy(a, 0)
    ensures Live(TrueNext(s, a), first)
  {
    StepOnWords(s, a);
    TrueKeepsInv(s, a);
    var run, acts :| EndsIn(run, acts, Words(s)) && WaitsAfter(acts, first);
    Extends(run, acts, Words(s), a);
    assert WaitsAfter(acts + [a], first);
  }

  lemma Starts(s: State)
    requires Init(s)
    ensures Inv(s) && EndsIn([s], [], Words(s))
  {
    InitInv(s);
    WordsAtStart(s);
  }

  /** A step before thread 0 begins to wait. */
  lemma TakeFirst(run: seq<State>, first: seq<Action>, s: State, a: Action) returns (longer: seq<State>)
    requires Inv(s) && EndsIn(run, first, Words(s)) && Enabled(s, a) && FreeClaim(Words(s), a)
    ensures EndsIn(longer, first + [a], Words(TrueNext(s, a))) && Live(TrueNext(s, a), first + [a])
  {
    StepOnWords(s, a);
    TrueKeepsInv(s, a);
    Extends(run, first, Words(s), a);
    longer := run + [Next(Wrapping, Words(s), a)];
    assert WaitsAfter(first + [a], first + [a]);
  }

  // ---------------------------------------------------------------- a whole push

  /** The states agree but for the slots. */
  predicate SameButSlots(s: State, s': State) {
    s'.(slots := s.slots) == s
  }

  lemma ToClaim(s: State, first: seq<Action>, t: nat, obs: Observation)
    requires Live(s, first) && 0 < t < |s.producers| && s.producers[t].Idle? && Fits(obs) && s.tail < Freed(s) + RING_CAPACITY
    ensures Live(SetProducer(s, t, Claim(obs, s.tail)), first)
  {
    Take(s, first, BeginPush(t, obs));
    var loading := SetProducer(s, t, ReadSequence(obs, s.tail));
    assert PositionOk(s, s.tail);
    Take(loading, first, StepPush(t));
    assert TruePush(loading, t) == SetProducer(s, t, Claim(obs, s.tail));
  }

  lemma {:induction false} Finish(s: State, first: seq<Action>, t: nat) returns (s': State)
    requires Live(s, first) && 0 < t < |s.producers| && s.producers[t].Write?
    ensures Live(s', first) && SameButSlots(SetProducer(s, t, Idle), s')
    decreases if s.producers[t].done < 5 then 5 - s.producers[t].done else 0
  {
    assert ProducerOk(s, s.producers[t]);
    Take(s, first, StepPush(t));
    var next := PushStep(Unbounded, s, t);
    if s.producers[t].done < 4 {
      s' := Finish(next, first, t);
      assert SetProducer(next, t, Idle).producers == SetProducer(s, t, Idle).producers;
    } else {
      s' := next;
    }
  }

  /** A push with a slot free for it gets through. */
  lemma PushOnce(s: State, first: seq<Action>, t: nat, obs: Observation) returns (s': State)
    requires Live(s, first) && 0 < t < |s.producers| && s.producers[t].Idle? && Fits(obs) && s.tail < Freed(s) + RING_CAPACITY
    ensures Live(s', first) && SameButSlots(s.(tail := s.tail + 1, claimed := s.claimed + [obs]), s')
  {
    ToClaim(s, first, t, obs);
    var ready := SetProducer(s, t, Claim(obs, s.tail));
    TailSlot(ready);
    Take(ready, first, StepPush(t));
    assert Claimed(ready, t, obs) == Claimed(s, t, obs);
    s' := Finish(Claimed(s, t, obs), first, t);
    assert SetProducer(Claimed(s, t, obs), t, Idle).producers == s.producers;
  }

  // ---------------------------------------------------------------- a whole pop

  predicate NobodyWrites(producers: seq<Producer>) {
    forall t :: 0 <= t < |producers| ==> !producers[t].Write?
  }

  lemma {:induction false} FinishPop(s: State, first: seq<Action>) returns (s': State)
    requires Live(s, first) && (s.consumer.Read? || s.consumer.Release? || s.consumer.StoreHead?)
    ensures Live(s', first) && SameButSlots(s.(head := s.head + 1, consumer := Waiting, popped := s'.popped), s')
    decreases if s.consumer.Read? then 6 - s.consumer.done else if s.consumer.Release? then 1 else 0
  {
    Take(s, first, StepPop);
    var next := PopStep(Unbounded, s);
    if s.consumer.StoreHead? {
      s' := next;
    } else {
      s' := FinishPop(next, first);
    }
  }

  /** A pop of what is published gets it. */
  lemma PopOnce(s: State, first: seq<Action>) returns (s': State)
    requires Live(s, first) && s.consumer.Waiting? && s.head < s.tail && NobodyWrites(s.producers)
    ensures Live(s', first) && SameButSlots(s.(head := s.head + 1, popped := s'.popped), s')
  {
    Take(s, first, BeginPop);
    var checks := s.(consumer := CheckSequence(s.head));
    assert PositionOk(s, s.head);
    Take(checks, first, StepPop);
    s' := FinishPop(PopStep(Unbounded, checks), first);
  }

  // ---------------------------------------------------------------- many of them

  /** Nothing is in flight but what waits, and everything claimed is popped. */
  ghost predicate Drained(s: State, first: seq<Action>) {
    Live(s, first) && s.consumer.Waiting? && s.head == s.tail && NobodyWrites(s.producers)
  }

  /** `t` pushes `obs` and it is popped, `n` times. */
  lemma {:induction false} PushedAndPopped(s: State, first: seq<Action>, t: nat, obs: Observation, n: nat) returns (s': State)
    requires Drained(s, first) && 0 < t < |s.producers| && s.producers[t].Idle? && Fits(obs)
    ensures Drained(s', first) && s'.producers == s.producers && s'.tail == s.tail + n
    decreases n
  {
    if n == 0 {
      s' := s;
    } else {
      var before := PushedAndPopped(s, first, t, obs, n - 1);
      var pushed := PushOnce(before, first, t, obs);
      s' := PopOnce(pushed, first);
    }
  }

  /** `t` pushes `obs` to a drained ring `n` times. */
  lemma {:induction false} Pushed(s: State, first: seq<Action>, t: nat, obs: Observation, n: nat) returns (s': State)
    requires Drained(s, first) && 0 < t < |s.producers| && s.producers[t].Idle? && Fits(obs) && n <= RING_CAPACITY
    ensures Live(s', first) && s'.producers == s.producers && s'.consumer.Waiting? && s'.head == s.head && s'.tail == s.tail + n
    ensures |s'.claimed| == s'.tail && forall i :: s.tail <= i < s'.tail ==> s'.claimed[i] == obs
    decreases n
  {
    if n == 0 {
      s' := s;
    } else {
      var before := Pushed(s, first, t, obs, n - 1);
      s' := PushOnce(before, first, t, obs);
    }
  }

  // ---------------------------------------------------------------- a stale position

  /** The first position from `n` on that has slot 0. */
  function NextLap(n: nat): (q: nat)
    ensures n <= q < n + RING_CAPACITY && IndexOf(q) == 0
  {
    (n + RING_CAPACITY - 1) / RING_CAPACITY * RING_CAPACITY
  }

  /** A run that ends in a sequence load by thread 0, which read its position at the start
      and has not moved since, when `n` observations have been claimed and all popped. */
  ghost predicate WaitedOut(run: seq<State>, acts: seq<Action>, obs: Observation, n: nat) {
    && IsRun(Wrapping, run, acts) && |acts| > 0 && acts[|acts| - 1] == StepPush(0)
    && WaitsAfter(acts[..|acts| - 1], [BeginPush(0, obs)])
    && var s := run[|acts| - 1];
       && |s.producers| > 0 && s.producers[0] == ReadSequence(obs, 0)
       && |s.claimed| == n && s.popped == s.claimed && s.consumer.Waiting?
  }

  ghost predicate Refused(run: seq<State>) {
    |run| > 0 && |run[|run| - 1].producers| > 0 && run[|run| - 1].producers[0].Idle?
  }

  lemma StaleAnswer(s: State, obs: Observation)
    requires Inv(s) && s.head == s.tail && s.consumer.Waiting? && |s.producers| > 0
    requires s.producers[0] == ReadSequence(obs, 0)
    ensures PushStep(Wrapping, Words(s), 0).producers[0].Idle? <==> NextLap(s.tail) % WORD >= HALF_WORD
  {
    assert PositionOk(s, NextLap(s.tail));
    ReadSequenceOnWords(s, 0);
  }

  /** After any number of claims there is a run in which a push that read the tail before
      them meets the empty ring; it is refused if and only if the slot's sequence is, up
      to whole turns, half a turn or more ahead. */
  lemma StaleRefusedIff(start: State, obs: Observation, n: nat) returns (run: seq<State>, acts: seq<Action>)
    requires Init(start) && |start.producers| >= 2 && Fits(obs)
    ensures WaitedOut(run, acts, obs, n)
    ensures Refused(run) <==> NextLap(n) % WORD >= HALF_WORD
  {
    Starts(start);
    var first := [BeginPush(0, obs)];
    var begun := TakeFirst([start], [], start, BeginPush(0, obs));
    var waits := SetProducer(start, 0, ReadSequence(obs, 0));
    var s := PushedAndPopped(waits, first, 1, obs, n);
    StaleAnswer(s, obs);
    var before, steps :| EndsIn(before, steps, Words(s)) && WaitsAfter(steps, first);
    Extends(before, steps, Words(s), StepPush(0));
    run, acts := before + [PushStep(Wrapping, Words(s), 0)], steps + [StepPush(0)];
    assert run[|steps|] == Words(s) && acts[..|steps|] == steps;
  }

  /** Fewer than half a turn of claims is not few enough: after one less than that, a push
      to the empty ring is refused. */
  lemma StaleRefused(start: State, obs: Observation) returns (run: seq<State>, acts: seq<Action>)
    requires Init(start) && |start.producers| >= 2 && Fits(obs)
    ensures WaitedOut(run, acts, obs, HALF_WORD - 1) && Refused(run)
  {
    run, acts := StaleRefusedIff(start, obs, HALF_WORD - 1);
    assert NextLap(HALF_WORD - 1) == HALF_WORD;
  }

  // ---------------------------------------------------------------- a late exchange

  /** Some run on words goes on from `run` to `w`. */
  ghost predicate Reached(run: seq<State>, acts: seq<Action>, w: State) {
    exists longer, more :: EndsIn(longer, more, w) && run <= longer && acts <= more
  }

  lemma ReachedNext(run: seq<State>, acts: seq<Action>, w: State, a: Action)
    requires Reached(run, acts, w) && |w.slots| == RING_CAPACITY && Enabled(w, a)
    ensures Reached(run, acts, Next(Wrapping, w, a))
  {
    var longer, more :| EndsIn(longer, more, w) && run <= longer && acts <= more;
    Extends(longer, more, w, a);
  }

  /** On words a pop returns what is in the slot, if the sequence says it is there. */
  lemma PopReturnsSlot(run: seq<State>, acts: seq<Action>, w: State) returns (w': State)
    requires Reached(run, acts, w) && w.consumer.Waiting? && |w.slots| == RING_CAPACITY
    requires w.slots[IndexOf(w.head)].sequence == Add(Wrapping, w.head, 1)
    ensures Reached(run, acts, w') && w'.claimed == w.claimed
    ensures w'.popped == w.popped + [Unpack(w.slots[IndexOf(w.head)])]
  {
    ReachedNext(run, acts, w, BeginPop);
    var checks := w.(consumer := CheckSequence(w.head));
    ReachedNext(run, acts, checks, StepPop);
    w' := PopLoads(run, acts, w.(consumer := Read(w.head, 0, Slot(0, 0, 0, 0, 0))));
  }

  lemma PopLoads(run: seq<State>, acts: seq<Action>, w: State) returns (w': State)
    requires Reached(run, acts, w) && |w.slots| == RING_CAPACITY && w.consumer == Read(w.head, 0, Slot(0, 0, 0, 0, 0))
    ensures Reached(run, acts, w') && w'.claimed == w.claimed
    ensures w'.popped == w.popped + [Unpack(w.slots[IndexOf(w.head)])]
  {
    ReachedNext(run, acts, w, StepPop);
    var w1 := PopStep(Wrapping, w);
    ReachedNext(run, acts, w1, StepPop);
    var w2 := PopStep(Wrapping, w1);
    ReachedNext(run, acts, w2, StepPop);
    var w3 := PopStep(Wrapping, w2);
    ReachedNext(run, acts, w3, StepPop);
    var w4 := PopStep(Wrapping, w3);
    assert w4.consumer == Release(w.head, Unpack(w.slots[IndexOf(w.head)]));
    ReachedNext(run, acts, w4, StepPop);
    var w5 := PopStep(Wrapping, w4);
    ReachedNext(run, acts, w5, StepPop);
    w' := PopStep(Wrapping, w5);
  }

  /** Thread 0 is about to exchange for position 0, a whole turn late, on a full ring. */
  ghost predicate TurnLate(s: State, late: Observation, obs: Observation) {
    && Inv(s) && s.consumer.Waiting? && s.tail == WORD && s.head == WORD - RING_CAPACITY && NobodyWrites(s.producers)
    && |s.producers| > 0 && s.producers[0] == Claim(late, 0) && s.claimed[s.head] == obs
  }

  /** How thread 0 gets to its exchange: it reads the tail and the sequence at the start. */
  function UpToClaim(late: Observation): seq<Action> {
    [BeginPush(0, late), StepPush(0)]
  }

  lemma StartsClaim(start: State, late: Observation)
    requires Init(start) && |start.producers| > 0 && Fits(late)
    ensures Live(SetProducer(start, 0, Claim(late, 0)), UpToClaim(late))
  {
    Starts(start);
    var begun := TakeFirst([start], [], start, BeginPush(0, late));
    var loading := SetProducer(start, 0, ReadSequence(late, 0));
    assert [] + [BeginPush(0, late)] == [BeginPush(0, late)];
    var loaded := TakeFirst(begun, [BeginPush(0, late)], loading, StepPush(0));
    assert TruePush(loading, 0) == SetProducer(start, 0, Claim(late, 0));
    assert [BeginPush(0, late)] + [StepPush(0)] == UpToClaim(late);
  }

  lemma GetsTurnLate(start: State, late: Observation, obs: Observation) returns (s: State)
    requires Init(start) && |start.producers| >= 2 && Fits(late) && Fits(obs)
    ensures TurnLate(s, late, obs) && Live(s, UpToClaim(late))
  {
    StartsClaim(start, late);
    var first, waits := UpToClaim(late), SetProducer(start, 0, Claim(late, 0));
    var drained := PushedAndPopped(waits, first, 1, obs, WORD - RING_CAPACITY);
    s := Pushed(drained, first, 1, obs, RING_CAPACITY);
  }

  /** The exchange and the first store of the late push, on words. */
  lemma Overwrites(run: seq<State>, acts: seq<Action>, s: State, late: Observation, obs: Observation) returns (w: State)
    requires TurnLate(s, late, obs) && EndsIn(run, acts, Words(s))
    ensures Reached(run, acts + [StepPush(0)], w)
    ensures w.consumer.Waiting? && w.claimed == s.claimed + [late] && w.popped == s.popped
    ensures |w.slots| == RING_CAPACITY && w.slots[IndexOf(w.head)].sequence == Add(Wrapping, w.head, 1)
    ensures Unpack(w.slots[IndexOf(w.head)]) == obs.(instanceId := late.instanceId)
  {
    assert PositionOk(s, s.head) && IndexOf(s.head) == 0;
    PackRoundTrip(s.slots[0], obs);
    var words := Words(s);
    assert words.slots[0] == WordSlot(s.slots[0]) && words.producers[0] == Claim(late, 0);
    Extends(run, acts, words, StepPush(0));
    var claims := PushStep(Wrapping, words, 0);
    ReachedNext(run, acts + [StepPush(0)], claims, StepPush(0));
    w := PushStep(Wrapping, claims, 0);
  }

  /** A turn of claims between the sequence load and the exchange is too many: in some run
      thread 0 loads the sequence, waits for 2^32 claims, and at step `n` claims a slot not
      popped yet; the next pop returns an observation that mixes the two pushes, where
      another was claimed. */
  lemma LateClaimTears(start: State, late: Observation, obs: Observation)
    returns (run: seq<State>, acts: seq<Action>, n: nat)
    requires Init(start) && |start.producers| >= 2 && Fits(late) && Fits(obs) && late.instanceId != obs.instanceId
    ensures IsRun(Wrapping, run, acts) && n < |acts| && acts[n] == StepPush(0)
    ensures WaitsAfter(acts[..n], UpToClaim(late)) && |run[n].claimed| == WORD
    ensures var s, k := run[|acts|], WORD - RING_CAPACITY;
            && |s.popped| == k + 1 && |s.claimed| == WORD + 1
            && s.claimed[k] == obs && s.popped[k] == obs.(instanceId := late.instanceId) && !(s.popped <= s.claimed)
  {
    var s := GetsTurnLate(start, late, obs);
    var before, steps :| EndsIn(before, steps, Words(s)) && WaitsAfter(steps, UpToClaim(late));
    var w := Overwrites(before, steps, s, late, obs);
    var w' := PopReturnsSlot(before, steps + [StepPush(0)], w);
    run, acts :| EndsIn(run, acts, w') && before <= run && steps + [StepPush(0)] <= acts;
    n := |steps|;
    assert acts[..n] == steps && run[n] == before[n];
  }
}
