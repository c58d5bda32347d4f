/** What every run of the ring keeps, with positions that do not wrap. */
module RingProofs {
  import opened RingMachine

  /** How many positions have been released: the consumer releases a slot before it
      moves `head`. */
  function Freed(s: State): nat {
    if s.consumer.StoreHead? then s.consumer.pos + 1 else s.head
  }

  /** The slot holds the observation. */
  predicate Holds(slot: Slot, obs: Observation) {
    Fits(obs) && slot.instanceId == obs.instanceId && slot.kindAndFlags == Pack(obs)
    && slot.producer == obs.producer && slot.latencyTicks == obs.latencyTicks
  }

  /** The first `done` fields, in the order they are stored. */
  predicate HoldsFirst(slot: Slot, obs: Observation, done: nat) {
    && (done > 0 ==> slot.instanceId == obs.instanceId)
    && (done > 1 ==> slot.kindAndFlags == Pack(obs))
    && (done > 2 ==> slot.producer == obs.producer)
    && (done > 3 ==> slot.latencyTicks == obs.latencyTicks)
  }

  /** The first `done` fields, in the order they are loaded. */
  predicate LoadedFirst(got: Slot, obs: Observation, done: nat) {
    && (done > 0 ==> got.kindAndFlags == Pack(obs))
    && (done > 1 ==> got.instanceId == obs.instanceId)
    && (done > 2 ==> got.latencyTicks == obs.latencyTicks)
    && (done > 3 ==> got.producer == obs.producer)
  }

  predicate WritesAt(p: Producer, q: nat) {
    p.Write? && p.pos == q
  }

  ghost predicate SomeoneWrites(producers: seq<Producer>, q: nat) {
    exists t :: 0 <= t < |producers| && WritesAt(producers[t], q)
  }

  /** A position claimed is being written or published with the claim's observation; one
      not claimed yet is free. */
  ghost predicate PositionOk(s: State, q: nat)
    requires |s.slots| == RING_CAPACITY
  {
    var slot := s.slots[IndexOf(q)];
    if q < s.tail then
      || (slot.sequence == q && SomeoneWrites(s.producers, q))
      || (slot.sequence == q + 1 && q < |s.claimed| && Holds(slot, s.claimed[q]))
    else slot.sequence == q
  }

  ghost predicate ProducerOk(s: State, p: Producer)
    requires |s.slots| == RING_CAPACITY
  {
    match p
    case Idle => true
    case ReadSequence(obs, pos) => Fits(obs) && pos <= s.tail
    case Claim(obs, pos) => Fits(obs) && pos < Freed(s) + RING_CAPACITY
    case ReadTail(obs) => Fits(obs)
    case Write(obs, pos, done) =>
      && Fits(obs) && Freed(s) <= pos < s.tail && pos < |s.claimed| && s.claimed[pos] == obs && done <= 4
      && s.slots[IndexOf(pos)].sequence == pos && HoldsFirst(s.slots[IndexOf(pos)], obs, done)
  }

  ghost predicate ConsumerOk(s: State)
    requires |s.slots| == RING_CAPACITY
  {
    match s.consumer
    case Waiting => true
    case CheckSequence(pos) => pos == s.head
    case Read(pos, done, got) =>
      && pos == s.head < s.tail && pos < |s.claimed| && done <= 3 && s.slots[IndexOf(pos)].sequence == pos + 1
      && LoadedFirst(got, s.claimed[pos], done)
    case Release(pos, obs) =>
      pos == s.head < s.tail && pos < |s.claimed| && obs == s.claimed[pos] && s.slots[IndexOf(pos)].sequence == pos + 1
    case StoreHead(pos, obs) => pos == s.head < s.tail && pos < |s.claimed| && obs == s.claimed[pos]
  }

  ghost predicate Positions(s: State)
    requires |s.slots| == RING_CAPACITY
  {
    forall q :: Freed(s) <= q < Freed(s) + RING_CAPACITY ==> PositionOk(s, q)
  }

  ghost predicate Producers(s: State)
    requires |s.slots| == RING_CAPACITY
  {
    && (forall t :: 0 <= t < |s.producers| ==> ProducerOk(s, s.producers[t]))
    && (forall t, u :: 0 <= t < |s.producers| && 0 <= u < |s.producers| && t != u && s.producers[t].Write? ==>
          !WritesAt(s.producers[u], s.producers[t].pos))
  }

  ghost predicate Counts(s: State) {
    && |s.claimed| == s.tail && s.head <= Freed(s) <= s.tail <= Freed(s) + RING_CAPACITY
    && s.popped == s.claimed[..s.head]
  }

  ghost predicate Inv(s: State) {
    |s.slots| == RING_CAPACITY && Counts(s) && Positions(s) && Producers(s) && ConsumerOk(s)
  }

  /** Positions that share a slot are whole laps apart. */
  lemma SameSlot(f: nat, pos: nat) returns (q: nat)
    ensures f <= q < f + RING_CAPACITY && IndexOf(q) == IndexOf(pos)
    ensures q < pos ==> q + RING_CAPACITY <= pos
  {
    var d := (pos - f) % RING_CAPACITY;
    q := f + d;
  }

  lemma PackRoundTrip(slot: Slot, obs: Observation)
    requires Holds(slot, obs)
    ensures Unpack(slot) == obs
  {
  }

  lemma InitInv(s: State)
    requires Init(s)
    ensures Inv(s)
  {
  }

  // ---------------------------------------------------------------- producers

  lemma StillWritten(producers: seq<Producer>, t: nat, p: Producer, q: nat)
    requires t < |producers| && (WritesAt(producers[t], q) ==> WritesAt(p, q))
    ensures SomeoneWrites(producers, q) ==> SomeoneWrites(producers[t := p], q)
  {
    if SomeoneWrites(producers, q) {
      var u :| 0 <= u < |producers| && WritesAt(producers[u], q);
      assert WritesAt(producers[t := p][u], q);
    }
  }

  /** A producer moves on without touching the ring. */
  lemma MoveKeeps(s: State, t: nat, p: Producer)
    requires Inv(s) && t < |s.producers| && !s.producers[t].Write? && !p.Write? && ProducerOk(s, p)
    ensures Inv(SetProducer(s, t, p))
  {
    var s' := SetProducer(s, t, p);
    forall q | Freed(s') <= q < Freed(s') + RING_CAPACITY ensures PositionOk(s', q) {
      assert PositionOk(s, q);
      StillWritten(s.producers, t, p, q);
    }
    assert forall u :: 0 <= u < |s.producers| ==> ProducerOk(s, s.producers[u]);
  }

  /** A sequence not behind the position shows that the position is in the current lap. */
  lemma NotFull(s: State, pos: nat)
    requires Inv(s) && s.slots[IndexOf(pos)].sequence >= pos
    ensures pos < Freed(s) + RING_CAPACITY
  {
    var q := SameSlot(Freed(s), pos);
    assert PositionOk(s, q);
  }

  /** A sequence behind a position that is not past the tail shows that every slot is
      claimed and not released. */
  lemma Full(s: State, pos: nat)
    requires Inv(s) && s.slots[IndexOf(pos)].sequence < pos <= s.tail
    ensures s.tail == Freed(s) + RING_CAPACITY
  {
    var q := SameSlot(Freed(s), pos);
    assert PositionOk(s, q);
  }

  lemma ReadSequenceKeeps(s: State, t: nat)
    requires Inv(s) && t < |s.producers| && s.producers[t].ReadSequence?
    ensures Inv(PushStep(Unbounded, s, t))
  {
    var obs, pos := s.producers[t].obs, s.producers[t].pos;
    assert ProducerOk(s, s.producers[t]);
    var sequence := s.slots[IndexOf(pos)].sequence;
    if sequence == pos {
      NotFull(s, pos);
      MoveKeeps(s, t, Claim(obs, pos));
    } else if sequence < pos {
      MoveKeeps(s, t, Idle);
    } else {
      MoveKeeps(s, t, ReadTail(obs));
    }
  }

  function Claimed(s: State, t: nat, obs: Observation): State
    requires t < |s.producers|
  {
    SetProducer(s, t, Write(obs, s.tail, 0)).(tail := s.tail + 1, claimed := s.claimed + [obs])
  }

  lemma ClaimKeeps(s: State, t: nat, obs: Observation)
    requires Inv(s) && t < |s.producers| && s.producers[t].Claim? && s.producers[t].obs == obs
    requires s.tail < Freed(s) + RING_CAPACITY
    ensures Inv(Claimed(s, t, obs))
  {
    var s', w := Claimed(s, t, obs), Write(obs, s.tail, 0);
    assert ProducerOk(s, s.producers[t]) && PositionOk(s, s.tail);
    forall q | Freed(s') <= q < Freed(s') + RING_CAPACITY ensures PositionOk(s', q) {
      assert PositionOk(s, q);
      StillWritten(s.producers, t, w, q);
      if q == s.tail { assert WritesAt(s'.producers[t], q); }
    }
    forall u | 0 <= u < |s.producers| ensures ProducerOk(s', s'.producers[u]) {
      assert ProducerOk(s, s.producers[u]);
    }
  }

  /** Storing into the slot of the position being written changes no other position. */
  lemma StoreKeeps(s: State, t: nat, slot: Slot, p: Producer)
    requires Inv(s) && t < |s.producers| && s.producers[t].Write?
    requires var w, i := s.producers[t], IndexOf(s.producers[t].pos);
             if p.Idle? then slot.sequence == w.pos + 1 && Holds(slot, w.obs)
             else p.Write? && p.pos == w.pos && p.obs == w.obs && p.done <= 4 && slot.sequence == w.pos
                  && HoldsFirst(slot, w.obs, p.done)
    ensures Inv(SetProducer(SetSlot(s, IndexOf(s.producers[t].pos), slot), t, p))
  {
    var w, i := s.producers[t], IndexOf(s.producers[t].pos);
    var s' := SetProducer(SetSlot(s, i, slot), t, p);
    assert ProducerOk(s, w);
    forall q | Freed(s') <= q < Freed(s') + RING_CAPACITY ensures PositionOk(s', q) {
      assert PositionOk(s, q);
      if q == w.pos {
        if p.Write? { assert WritesAt(s'.producers[t], q); }
      } else {
        OtherSlot(s, w.pos, q);
        StillWritten(s.producers, t, p, q);
      }
    }
    forall u | 0 <= u < |s.producers| && u != t ensures ProducerOk(s', s'.producers[u]) {
      assert ProducerOk(s, s.producers[u]);
      if s.producers[u].Write? { OtherSlot(s, w.pos, s.producers[u].pos); }
    }
    if s.consumer.Read? || s.consumer.Release? { OtherSlot(s, w.pos, s.head); }
  }

  lemma OtherSlot(s: State, p: nat, q: nat)
    requires Freed(s) <= p < Freed(s) + RING_CAPACITY && Freed(s) <= q < Freed(s) + RING_CAPACITY && p != q
    ensures IndexOf(p) != IndexOf(q)
  {
  }

  lemma WriteKeeps(s: State, t: nat)
    requires Inv(s) && t < |s.producers| && s.producers[t].Write?
    ensures Inv(PushStep(Unbounded, s, t))
  {
    var w := s.producers[t];
    var slot := s.slots[IndexOf(w.pos)];
    assert ProducerOk(s, w);
    if w.done < 4 {
      StoreKeeps(s, t, StoreField(slot, w.obs, w.done), Write(w.obs, w.pos, w.done + 1));
    } else {
      StoreKeeps(s, t, slot.(sequence := w.pos + 1), Idle);
    }
  }

  lemma PushKeeps(s: State, t: nat)
    requires Inv(s) && t < |s.producers|
    ensures Inv(PushStep(Unbounded, s, t))
  {
    assert ProducerOk(s, s.producers[t]);
    match s.producers[t]
    case Idle =>
    case ReadSequence(obs, pos) => ReadSequenceKeeps(s, t);
    case Claim(obs, pos) =>
      if s.tail == pos {
        ClaimKeeps(s, t, obs);
      } else {
        MoveKeeps(s, t, ReadSequence(obs, s.tail));
      }
    case ReadTail(obs) => MoveKeeps(s, t, ReadSequence(obs, s.tail));
    case Write(obs, pos, done) => WriteKeeps(s, t);
  }

  // ---------------------------------------------------------------- the consumer

  /** The consumer moves on without touching the ring. */
  lemma ConsumerMoves(s: State, c: Consumer)
    requires Inv(s) && !s.consumer.StoreHead? && !c.StoreHead? && ConsumerOk(s.(consumer := c))
    ensures Inv(s.(consumer := c))
  {
    var s' := s.(consumer := c);
    forall q | Freed(s') <= q < Freed(s') + RING_CAPACITY ensures PositionOk(s', q) { assert PositionOk(s, q); }
    forall u | 0 <= u < |s.producers| ensures ProducerOk(s', s'.producers[u]) { assert ProducerOk(s, s.producers[u]); }
  }

  lemma ReadKeeps(s: State)
    requires Inv(s) && s.consumer.Read?
    ensures Inv(PopStep(Unbounded, s))
  {
    var pos, done := s.consumer.pos, s.consumer.done;
    var slot := s.slots[IndexOf(pos)];
    assert PositionOk(s, pos);
    var now := LoadField(s.consumer.got, slot, done);
    if done == 3 {
      PackRoundTrip(now, s.claimed[pos]);
      ConsumerMoves(s, Release(pos, Unpack(now)));
    } else {
      ConsumerMoves(s, Read(pos, done + 1, now));
    }
  }

  lemma ReleasedPosition(s: State, q: nat)
    requires Inv(s) && s.consumer.Release? && Freed(s) < q <= Freed(s) + RING_CAPACITY
    ensures PositionOk(PopStep(Unbounded, s), q)
  {
    if q < Freed(s) + RING_CAPACITY {
      assert PositionOk(s, q);
      OtherSlot(s, s.consumer.pos, q);
    } else {
      assert IndexOf(q) == IndexOf(s.consumer.pos);
    }
  }

  lemma ReleasedProducer(s: State, t: nat)
    requires Inv(s) && s.consumer.Release? && t < |s.producers|
    ensures ProducerOk(PopStep(Unbounded, s), s.producers[t])
  {
    assert ProducerOk(s, s.producers[t]);
    if s.producers[t].Write? && s.producers[t].pos != s.consumer.pos {
      OtherSlot(s, s.consumer.pos, s.producers[t].pos);
    }
  }

  lemma ReleaseKeeps(s: State)
    requires Inv(s) && s.consumer.Release?
    ensures Inv(PopStep(Unbounded, s))
  {
    var s' := PopStep(Unbounded, s);
    forall q | Freed(s') <= q < Freed(s') + RING_CAPACITY ensures PositionOk(s', q) { ReleasedPosition(s, q); }
    forall u | 0 <= u < |s.producers| ensures ProducerOk(s', s'.producers[u]) { ReleasedProducer(s, u); }
  }

  lemma StoreHeadKeeps(s: State)
    requires Inv(s) && s.consumer.StoreHead?
    ensures Inv(PopStep(Unbounded, s))
  {
    var s' := PopStep(Unbounded, s);
    forall q | Freed(s') <= q < Freed(s') + RING_CAPACITY ensures PositionOk(s', q) { assert PositionOk(s, q); }
    forall u | 0 <= u < |s.producers| ensures ProducerOk(s', s'.producers[u]) { assert ProducerOk(s, s.producers[u]); }
  }

  lemma PopKeeps(s: State)
    requires Inv(s)
    ensures Inv(PopStep(Unbounded, s))
  {
    match s.consumer
    case Waiting =>
    case CheckSequence(pos) =>
      assert PositionOk(s, pos);
      ConsumerMoves(s, PopStep(Unbounded, s).consumer);
    case Read(_, _, _) => ReadKeeps(s);
    case Release(_, _) => ReleaseKeeps(s);
    case StoreHead(_, _) => StoreHeadKeeps(s);
  }

  lemma KeepsInv(s: State, a: Action)
    requires Inv(s) && Enabled(s, a)
    ensures Inv(Next(Unbounded, s, a))
  {
    match a
    case BeginPush(t, obs) => MoveKeeps(s, t, ReadSequence(obs, s.tail));
    case StepPush(t) => PushKeeps(s, t);
    case WeakFail(t) =>
      assert ProducerOk(s, s.producers[t]);
      MoveKeeps(s, t, ReadSequence(s.producers[t].obs, s.tail));
    case BeginPop => ConsumerMoves(s, CheckSequence(s.head));
    case StepPop => PopKeeps(s);
  }

  // ---------------------------------------------------------------- over whole runs

  lemma {:induction false} EveryStateInv(run: seq<State>, acts: seq<Action>, n: nat)
    requires IsRun(Unbounded, run, acts) && n < |run|
    ensures Inv(run[n])
    decreases n
  {
    if n == 0 {
      InitInv(run[0]);
    } else {
      EveryStateInv(run, acts, n - 1);
      assert StepAt(Unbounded, run, acts, n - 1);
      KeepsInv(run[n - 1], acts[n - 1]);
    }
  }

  /** No run is left out: whatever step is enabled next can be taken. */
  lemma RunExtends(run: seq<State>, acts: seq<Action>, a: Action)
    requires IsRun(Unbounded, run, acts) && Enabled(run[|acts|], a)
    ensures |run[|acts|].slots| == RING_CAPACITY
    ensures IsRun(Unbounded, run + [Next(Unbounded, run[|acts|], a)], acts + [a])
  {
    EveryStateInv(run, acts, |acts|);
    var longer, more := run + [Next(Unbounded, run[|acts|], a)], acts + [a];
    forall i | 0 <= i < |more| ensures StepAt(Unbounded, longer, more, i) {
      if i < |acts| { assert StepAt(Unbounded, run, acts, i); }
    }
  }

  /** Pops return the claims' observations in claim order, each once, whole, and nothing
      else; and the ring never holds more than its capacity unreleased. */
  lemma PoppedInClaimOrder(run: seq<State>, acts: seq<Action>, n: nat)
    requires IsRun(Unbounded, run, acts) && n < |run|
    ensures var s := run[n];
            && |s.claimed| == s.tail && |s.popped| == s.head && s.popped <= s.claimed
            && Freed(s) <= s.tail <= Freed(s) + RING_CAPACITY && s.tail - s.head <= RING_CAPACITY + 1
  {
    EveryStateInv(run, acts, n);
  }

  /** History is only ever added to. */
  lemma HistoryGrows(m: Mode, s: State, a: Action)
    requires |s.slots| == RING_CAPACITY && Enabled(s, a)
    ensures s.claimed <= Next(m, s, a).claimed && s.popped <= Next(m, s, a).popped
  {
  }

  lemma {:induction false} HistoryGrowsInRuns(m: Mode, run: seq<State>, acts: seq<Action>, i: nat, n: nat)
    requires IsRun(m, run, acts) && i <= n < |run|
    ensures run[i].claimed <= run[n].claimed && run[i].popped <= run[n].popped
    decreases n
  {
    if i < n {
      HistoryGrowsInRuns(m, run, acts, i, n - 1);
      assert StepAt(m, run, acts, n - 1);
      HistoryGrows(m, run[n - 1], acts[n - 1]);
    }
  }

  /** The push of thread `t` returns true at step `n`. */
  ghost predicate PushSucceeds(run: seq<State>, acts: seq<Action>, t: nat, n: nat) {
    n < |acts| && |run| == |acts| + 1 && acts[n] == StepPush(t) && t < |run[n].producers|
    && run[n].producers[t].Write? && run[n].producers[t].done == 4
  }

  /** A push that returns true is popped exactly once, at the place of its claim, with the
      fields it was given, in every later state with that many pops. */
  lemma PushedIsPopped(run: seq<State>, acts: seq<Action>, t: nat, n: nat, later: nat)
    requires IsRun(Unbounded, run, acts) && PushSucceeds(run, acts, t, n) && n < later < |run|
    ensures var w := run[n].producers[t];
            && w.pos < |run[later].claimed| && run[later].claimed[w.pos] == w.obs
            && (w.pos < |run[later].popped| ==> run[later].popped[w.pos] == w.obs)
  {
    EveryStateInv(run, acts, n);
    assert ProducerOk(run[n], run[n].producers[t]);
    HistoryGrowsInRuns(Unbounded, run, acts, n, later);
    PoppedInClaimOrder(run, acts, later);
  }

  /** Two pushes that return true at different steps claimed different places. */
  lemma PlacesDiffer(run: seq<State>, acts: seq<Action>, t: nat, n: nat, u: nat, m: nat)
    requires IsRun(Unbounded, run, acts) && n < m && PushSucceeds(run, acts, t, n) && PushSucceeds(run, acts, u, m)
    ensures run[n].producers[t].pos != run[m].producers[u].pos
  {
    var pos := run[n].producers[t].pos;
    EveryStateInv(run, acts, n);
    assert StepAt(Unbounded, run, acts, n);
    PublishedAfter(run[n], t);
    StaysPublished(run, acts, n + 1, m, pos);
    EveryStateInv(run, acts, m);
    assert ProducerOk(run[m], run[m].producers[u]);
  }

  /** Position `pos` is claimed and nobody is writing it any more. */
  ghost predicate Done(s: State, pos: nat) {
    pos < s.tail && !SomeoneWrites(s.producers, pos)
  }

  lemma PublishedAfter(s: State, t: nat)
    requires Inv(s) && t < |s.producers| && s.producers[t].Write? && s.producers[t].done == 4
    ensures Done(PushStep(Unbounded, s, t), s.producers[t].pos)
  {
    assert ProducerOk(s, s.producers[t]);
  }

  lemma DoneStays(s: State, a: Action, pos: nat)
    requires Inv(s) && Enabled(s, a) && Done(s, pos)
    ensures Done(Next(Unbounded, s, a), pos)
  {
    var s' := Next(Unbounded, s, a);
    forall u | 0 <= u < |s'.producers| ensures !WritesAt(s'.producers[u], pos) {
      assert !WritesAt(s.producers[u], pos);
    }
  }

  lemma {:induction false} StaysPublished(run: seq<State>, acts: seq<Action>, i: nat, n: nat, pos: nat)
    requires IsRun(Unbounded, run, acts) && i <= n < |run| && Done(run[i], pos)
    ensures Done(run[n], pos)
    decreases n
  {
    if i < n {
      StaysPublished(run, acts, i, n - 1, pos);
      EveryStateInv(run, acts, n - 1);
      assert StepAt(Unbounded, run, acts, n - 1);
      DoneStays(run[n - 1], acts[n - 1], pos);
    }
  }

  /** A push past the gates is refused exactly in a state in which as many claimed
      positions as there are slots have not been released. */
  lemma RefusedIffFull(s: State, t: nat)
    requires Inv(s) && t < |s.producers| && s.producers[t].ReadSequence?
    ensures PushStep(Unbounded, s, t).producers[t].Idle? ==> s.tail - Freed(s) == RING_CAPACITY
    ensures s.tail - Freed(s) == RING_CAPACITY && s.producers[t].pos == s.tail ==>
            PushStep(Unbounded, s, t).producers[t].Idle?
  {
    var pos := s.producers[t].pos;
    assert ProducerOk(s, s.producers[t]);
    if s.slots[IndexOf(pos)].sequence < pos {
      Full(s, pos);
    } else {
      NotFull(s, pos);
    }
  }

  /** A pop misses only what is not there yet: nothing is claimed, or the producer that
      claimed the next place is still writing it. */
  lemma MissedIsUnpublished(s: State)
    requires Inv(s) && s.consumer.CheckSequence?
    ensures PopStep(Unbounded, s).consumer.Waiting? <==> s.head == s.tail || SomeoneWrites(s.producers, s.head)
  {
    assert PositionOk(s, s.head);
    forall u | 0 <= u < |s.producers| && WritesAt(s.producers[u], s.head)
      ensures s.slots[IndexOf(s.head)].sequence == s.head
    {
      assert ProducerOk(s, s.producers[u]);
    }
  }

  /** In every run a push past the gates that is refused finds, at the very access that
      decides it, every slot claimed and not released. */
  lemma RefusedOnlyWhenFull(run: seq<State>, acts: seq<Action>, n: nat, t: nat)
    requires IsRun(Unbounded, run, acts) && n < |acts| && acts[n] == StepPush(t) && t < |run[n].producers|
    requires run[n].producers[t].ReadSequence? && t < |run[n + 1].producers| && run[n + 1].producers[t].Idle?
    ensures run[n].tail - Freed(run[n]) == RING_CAPACITY
  {
    EveryStateInv(run, acts, n);
    assert StepAt(Unbounded, run, acts, n);
    RefusedIffFull(run[n], t);
  }

  /** In every run a pop returns nothing exactly when, at its check, the next place is not
      claimed or still being written. */
  lemma PopMissesInRuns(run: seq<State>, acts: seq<Action>, n: nat)
    requires IsRun(Unbounded, run, acts) && n < |acts| && acts[n] == StepPop && run[n].consumer.CheckSequence?
    ensures run[n + 1].consumer.Waiting? <==> run[n].head == run[n].tail || SomeoneWrites(run[n].producers, run[n].head)
  {
    EveryStateInv(run, acts, n);
    assert StepAt(Unbounded, run, acts, n);
    MissedIsUnpublished(run[n]);
  }
}
