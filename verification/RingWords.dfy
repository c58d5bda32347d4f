/** The ring on 32-bit words: which of its steps are those of the ring on unbounded
    positions, and what it keeps when some are not. */
module RingWords {
  import opened RingMachine
  import opened RingProofs

  function Word(x: nat): nat {
    x % WORD
  }

  function WordSlot(slot: Slot): Slot {
    slot.(sequence := Word(slot.sequence))
  }

  function WordProducer(p: Producer): Producer {
    match p
    case Idle => p
    case ReadSequence(obs, pos) => ReadSequence(obs, Word(pos))
    case Claim(obs, pos) => Claim(obs, Word(pos))
    case ReadTail(obs) => p
    case Write(obs, pos, done) => Write(obs, Word(pos), done)
  }

  function WordConsumer(c: Consumer): Consumer {
    match c
    case Waiting => c
    case CheckSequence(pos) => CheckSequence(Word(pos))
    case Read(pos, done, got) => Read(Word(pos), done, got)
    case Release(pos, obs) => Release(Word(pos), obs)
    case StoreHead(pos, obs) => StoreHead(Word(pos), obs)
  }

  function WordSlots(slots: seq<Slot>): (w: seq<Slot>)
    ensures |w| == |slots| && forall i :: 0 <= i < |slots| ==> w[i] == WordSlot(slots[i])
  {
    seq(|slots|, i requires 0 <= i < |slots| => WordSlot(slots[i]))
  }

  function WordProducers(ps: seq<Producer>): (w: seq<Producer>)
    ensures |w| == |ps| && forall t :: 0 <= t < |ps| ==> w[t] == WordProducer(ps[t])
  {
    seq(|ps|, t requires 0 <= t < |ps| => WordProducer(ps[t]))
  }

  /** The state as the code keeps it. */
  function Words(s: State): State {
    State(Word(s.head), Word(s.tail), WordSlots(s.slots), WordProducers(s.producers), WordConsumer(s.consumer),
          s.claimed, s.popped)
  }

  // ---------------------------------------------------------------- arithmetic

  lemma SameIndex(x: nat)
    ensures IndexOf(Word(x)) == IndexOf(x)
  {
    assert x == x / WORD * WORD + Word(x);
    assert WORD == RING_CAPACITY * 0x10_0000;
  }

  lemma AddAgrees(x: nat, n: nat)
    ensures Add(Wrapping, Word(x), n) == Word(x + n)
  {
  }

  /** The words of two numbers less than a whole turn apart differ if the numbers do. */
  lemma SameWord(x: nat, y: nat)
    requires x - y < WORD && y - x < WORD
    ensures Word(x) == Word(y) <==> x == y
  {
  }

  function Sign(x: int): int {
    if x < 0 then -1 else if x == 0 then 0 else 1
  }

  /** The signed difference of words has the sign of the true difference exactly when the
      sequence is not, up to whole turns, half a turn or more ahead. */
  lemma LeadAgrees(sequence: nat, pos: nat)
    requires pos - sequence <= HALF_WORD
    ensures Sign(Lead(Wrapping, Word(sequence), Word(pos))) == Sign(sequence - pos)
            <==> sequence <= pos || 0 < (sequence - pos) % WORD < HALF_WORD
  {
    WordDifference(sequence, pos);
    var d := (sequence - pos) % WORD;
    if sequence < pos {
      assert d == sequence - pos + WORD;
    }
  }

  lemma WordDifference(x: nat, y: nat)
    ensures (Word(x) - Word(y)) % WORD == (x - y) % WORD
  {
    assert x - y == (x / WORD - y / WORD) * WORD + (Word(x) - Word(y));
  }

  // ---------------------------------------------------------------- one step

  /** A slot's sequence is within a lap of the tail. */
  lemma SequenceRange(s: State, pos: nat)
    requires Inv(s) && pos <= s.tail
    ensures pos - RING_CAPACITY <= s.slots[IndexOf(pos)].sequence < s.tail + RING_CAPACITY
  {
    var q := SameSlot(Freed(s), pos);
    assert PositionOk(s, q);
  }

  lemma SetWordSlot(slots: seq<Slot>, i: nat, slot: Slot)
    requires i < |slots|
    ensures WordSlots(slots[i := slot]) == WordSlots(slots)[i := WordSlot(slot)]
  {
  }

  lemma SetWordProducer(ps: seq<Producer>, t: nat, p: Producer)
    requires t < |ps|
    ensures WordProducers(ps[t := p]) == WordProducers(ps)[t := WordProducer(p)]
  {
  }

  lemma MoveAgrees(s: State, t: nat, p: Producer)
    requires t < |s.producers|
    ensures SetProducer(Words(s), t, WordProducer(p)) == Words(SetProducer(s, t, p))
  {
    SetWordProducer(s.producers, t, p);
  }

  lemma WriteAgrees(s: State, t: nat)
    requires Inv(s) && t < |s.producers| && s.producers[t].Write?
    ensures PushStep(Wrapping, Words(s), t) == Words(PushStep(Unbounded, s, t))
  {
    var w := s.producers[t];
    SameIndex(w.pos);
    var i := IndexOf(w.pos);
    if w.done < 4 {
      SetWordSlot(s.slots, i, StoreField(s.slots[i], w.obs, w.done));
      SetWordProducer(s.producers, t, Write(w.obs, w.pos, w.done + 1));
    } else {
      AddAgrees(w.pos, 1);
      SetWordSlot(s.slots, i, s.slots[i].(sequence := w.pos + 1));
      SetWordProducer(s.producers, t, Idle);
    }
  }

  lemma PopAgrees(s: State)
    requires Inv(s) && !s.consumer.Waiting?
    ensures PopStep(Wrapping, Words(s)) == Words(PopStep(Unbounded, s))
  {
    var pos := s.consumer.pos;
    SameIndex(pos);
    AddAgrees(pos, 1);
    AddAgrees(pos, RING_CAPACITY);
    match s.consumer
    case CheckSequence(_) =>
      SequenceRange(s, pos);
      assert PositionOk(s, pos);
      SameWord(s.slots[IndexOf(pos)].sequence, pos + 1);
    case Read(_, _, _) =>
    case Release(_, _) => SetWordSlot(s.slots, IndexOf(pos), s.slots[IndexOf(pos)].(sequence := pos + RING_CAPACITY));
    case StoreHead(_, _) =>
  }

  /** What the words make of a push, on true positions. A sequence whole turns ahead of
      the position reads as equal to it, and one half a turn or more ahead as behind it;
      the exchange takes a tail whole turns past the position for the position. */
  function TruePush(s: State, t: nat): State
    requires t < |s.producers| && |s.slots| == RING_CAPACITY
  {
    match s.producers[t]
    case ReadSequence(obs, pos) =>
      var sequence := s.slots[IndexOf(pos)].sequence;
      var ahead := (sequence - pos) % WORD;
      SetProducer(s, t, if ahead == 0 then Claim(obs, sequence) else if ahead < HALF_WORD then ReadTail(obs) else Idle)
    case Claim(obs, pos) =>
      if Word(s.tail) == Word(pos) then Claimed(s, t, obs) else SetProducer(s, t, ReadSequence(obs, s.tail))
    case _ => PushStep(Unbounded, s, t)
  }

  function TrueNext(s: State, a: Action): State
    requires |s.slots| == RING_CAPACITY && Enabled(s, a)
  {
    if a.StepPush? then TruePush(s, a.t) else Next(Unbounded, s, a)
  }

  lemma ReadSequenceOnWords(s: State, t: nat)
    requires |s.slots| == RING_CAPACITY && t < |s.producers| && s.producers[t].ReadSequence?
    ensures PushStep(Wrapping, Words(s), t) == Words(TruePush(s, t))
  {
    var obs, pos := s.producers[t].obs, s.producers[t].pos;
    var sequence := s.slots[IndexOf(pos)].sequence;
    var ahead := (sequence - pos) % WORD;
    SameIndex(pos);
    WordDifference(sequence, pos);
    WholeTurns(sequence, pos);
    MoveAgrees(s, t, if ahead == 0 then Claim(obs, sequence) else if ahead < HALF_WORD then ReadTail(obs) else Idle);
  }

  lemma WholeTurns(x: nat, y: nat)
    ensures Word(x) == Word(y) <==> (x - y) % WORD == 0
  {
    WordDifference(x, y);
  }

  lemma ClaimOnWords(s: State, t: nat)
    requires |s.slots| == RING_CAPACITY && t < |s.producers| && s.producers[t].Claim?
    ensures PushStep(Wrapping, Words(s), t) == Words(TruePush(s, t))
  {
    var obs, pos := s.producers[t].obs, s.producers[t].pos;
    AddAgrees(s.tail, 1);
    MoveAgrees(s, t, if Word(s.tail) == Word(pos) then Write(obs, s.tail, 0) else ReadSequence(obs, s.tail));
  }

  lemma SameEnabled(s: State, a: Action)
    ensures Enabled(Words(s), a) <==> Enabled(s, a)
  {
  }

  /** Every step on words is the image of a step on true positions. */
  lemma StepOnWords(s: State, a: Action)
    requires Inv(s) && Enabled(s, a)
    ensures Enabled(Words(s), a) && Next(Wrapping, Words(s), a) == Words(TrueNext(s, a))
  {
    SameEnabled(s, a);
    match a
    case BeginPush(t, obs) => MoveAgrees(s, t, ReadSequence(obs, s.tail));
    case StepPush(t) =>
      match s.producers[t] {
        case ReadSequence(_, _) => ReadSequenceOnWords(s, t);
        case Claim(_, _) => ClaimOnWords(s, t);
        case ReadTail(obs) => MoveAgrees(s, t, ReadSequence(obs, s.tail));
        case Write(_, _, _) => WriteAgrees(s, t);
      }
    case WeakFail(t) => MoveAgrees(s, t, ReadSequence(s.producers[t].obs, s.tail));
    case BeginPop =>
    case StepPop => PopAgrees(s);
  }

  /** Where words and unbounded positions tell a push the same. */
  predicate SameAnswer(s: State, a: Action)
    requires |s.slots| == RING_CAPACITY && Enabled(s, a)
  {
    a.StepPush? ==>
      match s.producers[a.t]
      case ReadSequence(_, pos) =>
        var sequence := s.slots[IndexOf(pos)].sequence;
        sequence <= pos || 0 < (sequence - pos) % WORD < HALF_WORD
      case Claim(_, pos) => Word(s.tail) == Word(pos) ==> s.tail == pos
      case _ => true
  }

  lemma SamePush(s: State, t: nat)
    requires Inv(s) && t < |s.producers| && !s.producers[t].Idle?
    ensures SameAnswer(s, StepPush(t)) ==> TruePush(s, t) == PushStep(Unbounded, s, t)
    ensures !SameAnswer(s, StepPush(t)) ==>
            WordProducer(TruePush(s, t).producers[t]) != WordProducer(PushStep(Unbounded, s, t).producers[t])
  {
    assert ProducerOk(s, s.producers[t]);
    match s.producers[t]
    case ReadSequence(_, pos) =>
      SequenceRange(s, pos);
      LeadAgrees(s.slots[IndexOf(pos)].sequence, pos);
    case _ =>
  }

  /** The ring on words takes the step of the ring on unbounded positions if and only if
      the sequence read is not, up to whole turns, half a turn or more ahead, and the
      tail exchanged is not whole turns past the position. */
  lemma StepAgreesIff(s: State, a: Action)
    requires Inv(s) && Enabled(s, a)
    ensures Enabled(Words(s), a)
    ensures Next(Wrapping, Words(s), a) == Words(Next(Unbounded, s, a)) <==> SameAnswer(s, a)
  {
    StepOnWords(s, a);
    if a.StepPush? {
      SamePush(s, a.t);
      assert !SameAnswer(s, a) ==>
        Words(TrueNext(s, a)).producers[a.t] != Words(Next(Unbounded, s, a)).producers[a.t];
    }
  }

  /** Positions fresh enough for the words: the tail has moved less than half a turn, but
      for a lap, since the position was read. */
  lemma FreshAgrees(s: State, t: nat)
    requires Inv(s) && Enabled(s, StepPush(t))
    requires s.producers[t].ReadSequence? ==> s.tail - s.producers[t].pos <= HALF_WORD - RING_CAPACITY
    requires s.producers[t].Claim? ==> s.tail - s.producers[t].pos < WORD
    ensures SameAnswer(s, StepPush(t))
  {
    assert ProducerOk(s, s.producers[t]);
    match s.producers[t]
    case ReadSequence(_, pos) => SequenceRange(s, pos);
    case Claim(_, pos) => SameWord(s.tail, pos);
    case _ =>
  }

  // ---------------------------------------------------------------- the exchange

  /** An exchange that succeeds finds the slot still free for the position. */
  predicate FreeClaim(s: State, a: Action)
    requires |s.slots| == RING_CAPACITY
  {
    a.StepPush? && a.t < |s.producers| && s.producers[a.t].Claim? && s.tail == s.producers[a.t].pos ==>
      s.slots[IndexOf(s.tail)].sequence == s.tail
  }

  /** The slot of the tail is free for it unless every slot is claimed and not released;
      then it is a lap behind. */
  lemma TailSequence(s: State)
    requires Inv(s)
    ensures var sequence := s.slots[IndexOf(s.tail)].sequence;
            && (sequence == s.tail <==> s.tail < Freed(s) + RING_CAPACITY)
            && s.tail - RING_CAPACITY <= sequence <= s.tail
  {
    if s.tail < Freed(s) + RING_CAPACITY {
      assert PositionOk(s, s.tail);
    } else {
      assert PositionOk(s, Freed(s)) && IndexOf(Freed(s)) == IndexOf(s.tail);
    }
  }

  /** So on words, too. */
  lemma TailSlot(s: State)
    requires Inv(s)
    ensures Words(s).slots[IndexOf(Words(s).tail)].sequence == Words(s).tail <==> s.tail < Freed(s) + RING_CAPACITY
  {
    TailSequence(s);
    SameIndex(s.tail);
    SameWord(s.slots[IndexOf(s.tail)].sequence, s.tail);
  }

  /** A sequence that reads as equal to the position is one of the current lap. */
  lemma CurrentLap(s: State, pos: nat)
    requires Inv(s) && (s.slots[IndexOf(pos)].sequence - pos) % WORD == 0
    ensures Freed(s) <= s.slots[IndexOf(pos)].sequence < Freed(s) + RING_CAPACITY
  {
    var sequence := s.slots[IndexOf(pos)].sequence;
    WholeTurns(sequence, pos);
    SameIndex(sequence);
    SameIndex(pos);
    var q := SameSlot(Freed(s), pos);
    assert PositionOk(s, q);
  }

  lemma TruePushKeeps(s: State, t: nat)
    requires Inv(s) && Enabled(s, StepPush(t)) && FreeClaim(Words(s), StepPush(t))
    ensures Inv(TruePush(s, t))
  {
    assert ProducerOk(s, s.producers[t]);
    match s.producers[t]
    case ReadSequence(obs, pos) =>
      var sequence := s.slots[IndexOf(pos)].sequence;
      if (sequence - pos) % WORD == 0 {
        CurrentLap(s, pos);
        MoveKeeps(s, t, Claim(obs, sequence));
      } else {
        MoveKeeps(s, t, TruePush(s, t).producers[t]);
      }
    case Claim(obs, pos) =>
      if Word(s.tail) == Word(pos) {
        TailSlot(s);
        ClaimKeeps(s, t, obs);
      } else {
        MoveKeeps(s, t, ReadSequence(obs, s.tail));
      }
    case _ => PushKeeps(s, t);
  }

  lemma TrueKeepsInv(s: State, a: Action)
    requires Inv(s) && Enabled(s, a) && FreeClaim(Words(s), a)
    ensures Inv(TrueNext(s, a))
  {
    if a.StepPush? {
      TruePushKeeps(s, a.t);
    } else {
      KeepsInv(s, a);
    }
  }

  // ---------------------------------------------------------------- whole runs

  /** The same actions, on true positions. */
  ghost function Lifted(s: State, acts: seq<Action>, n: nat): State
    requires n <= |acts|
  {
    if n == 0 then s
    else
      var before := Lifted(s, acts, n - 1);
      if |before.slots| == RING_CAPACITY && Enabled(before, acts[n - 1]) then TrueNext(before, acts[n - 1]) else before
  }

  ghost predicate FreeAt(run: seq<State>, acts: seq<Action>, k: nat) {
    k < |acts| && k < |run| && |run[k].slots| == RING_CAPACITY && FreeClaim(run[k], acts[k])
  }

  /** The first `n` steps claim only slots that are free. */
  ghost predicate ClaimsFree(run: seq<State>, acts: seq<Action>, n: nat) {
    forall k :: 0 <= k < n ==> FreeAt(run, acts, k)
  }

  lemma WordsAtStart(s: State)
    requires Init(s)
    ensures Words(s) == s
  {
    assert forall i :: 0 <= i < RING_CAPACITY ==> WordSlot(s.slots[i]) == s.slots[i];
    assert WordSlots(s.slots) == s.slots && WordProducers(s.producers) == s.producers;
  }

  lemma ImageStep(s: State, a: Action)
    requires Inv(s) && Enabled(Words(s), a) && FreeClaim(Words(s), a)
    ensures Enabled(s, a) && Inv(TrueNext(s, a)) && Next(Wrapping, Words(s), a) == Words(TrueNext(s, a))
  {
    SameEnabled(s, a);
    StepOnWords(s, a);
    TrueKeepsInv(s, a);
  }

  /** A run on words that claims only free slots is the image of one on true positions. */
  lemma {:induction false} WordRunIsImage(run: seq<State>, acts: seq<Action>, n: nat)
    requires IsRun(Wrapping, run, acts) && n < |run| && ClaimsFree(run, acts, n)
    ensures Inv(Lifted(run[0], acts, n)) && run[n] == Words(Lifted(run[0], acts, n))
    decreases n
  {
    if n == 0 {
      InitInv(run[0]);
      WordsAtStart(run[0]);
    } else {
      WordRunIsImage(run, acts, n - 1);
      assert StepAt(Wrapping, run, acts, n - 1) && FreeAt(run, acts, n - 1);
      ImageStep(Lifted(run[0], acts, n - 1), acts[n - 1]);
    }
  }

  /** What a step of such a run is on true positions. */
  lemma LiftedStep(run: seq<State>, acts: seq<Action>, n: nat)
    requires IsRun(Wrapping, run, acts) && n < |acts| && ClaimsFree(run, acts, n)
    ensures var s := Lifted(run[0], acts, n);
            && Inv(s) && run[n] == Words(s) && Enabled(s, acts[n]) && Lifted(run[0], acts, n + 1) == TrueNext(s, acts[n])
            && run[n + 1] == Words(TrueNext(s, acts[n]))
  {
    WordRunIsImage(run, acts, n);
    var s := Lifted(run[0], acts, n);
    assert StepAt(Wrapping, run, acts, n);
    SameEnabled(s, acts[n]);
    StepOnWords(s, acts[n]);
  }

  /** How many positions a state on words has released. */
  function Released(s: State): nat {
    |s.popped| + if s.consumer.StoreHead? then 1 else 0
  }

  /** What the ring is for: pops return the claims' observations in claim order, each
      once, and no more claims are unreleased than there are slots. */
  predicate InOrder(s: State) {
    s.popped <= s.claimed && Released(s) <= |s.claimed| <= Released(s) + RING_CAPACITY
  }

  lemma ImageInOrder(s: State)
    requires Inv(s)
    ensures InOrder(Words(s)) && Released(Words(s)) == Freed(s) && |Words(s).claimed| == s.tail
  {
  }

  lemma FreeInOrder(run: seq<State>, acts: seq<Action>, n: nat)
    requires IsRun(Wrapping, run, acts) && n < |run| && ClaimsFree(run, acts, n)
    ensures InOrder(run[n])
  {
    WordRunIsImage(run, acts, n);
    ImageInOrder(Lifted(run[0], acts, n));
  }

  /** A claim of a slot that is not free is one too many. */
  lemma TooMany(s: State, a: Action)
    requires Inv(s) && Enabled(Words(s), a) && !FreeClaim(Words(s), a)
    ensures !InOrder(Next(Wrapping, Words(s), a))
  {
    TailSlot(s);
    ImageInOrder(s);
  }

  lemma {:induction false} InOrderFree(run: seq<State>, acts: seq<Action>, n: nat)
    requires IsRun(Wrapping, run, acts) && n < |run| && forall k :: 0 <= k <= n ==> InOrder(run[k])
    ensures ClaimsFree(run, acts, n)
    decreases n
  {
    if n > 0 {
      InOrderFree(run, acts, n - 1);
      WordRunIsImage(run, acts, n - 1);
      assert StepAt(Wrapping, run, acts, n - 1) && InOrder(run[n]);
      if !FreeAt(run, acts, n - 1) {
        TooMany(Lifted(run[0], acts, n - 1), acts[n - 1]);
      }
    }
  }

  /** The ring on words keeps its order and its capacity if and only if every exchange
      that succeeds finds the slot still free for the position. */
  lemma InOrderIffClaimsFree(run: seq<State>, acts: seq<Action>)
    requires IsRun(Wrapping, run, acts)
    ensures (forall n :: 0 <= n < |run| ==> InOrder(run[n])) <==> ClaimsFree(run, acts, |acts|)
  {
    if ClaimsFree(run, acts, |acts|) {
      forall n | 0 <= n < |run| ensures InOrder(run[n]) { FreeInOrder(run, acts, n); }
    }
    if forall n :: 0 <= n < |run| ==> InOrder(run[n]) {
      InOrderFree(run, acts, |acts|);
    }
  }

  // ---------------------------------------------------------------- the time a claim takes

  /** Step `k` of `t` is the sequence load that state `n` is still to exchange for. */
  ghost predicate LoadedAt(run: seq<State>, acts: seq<Action>, t: nat, k: nat, n: nat) {
    && k < n < |run| && k < |acts| && acts[k] == StepPush(t) && t < |run[k].producers| && run[k].producers[t].ReadSequence?
    && forall j :: k < j <= n ==> t < |run[j].producers| && run[j].producers[t].Claim?
  }

  /** Fewer than a turn of claims, but for a lap, are made between a push's sequence load
      and its exchange. */
  ghost predicate FewClaims(run: seq<State>, acts: seq<Action>) {
    forall t: nat, k: nat, n: nat :: LoadedAt(run, acts, t, k, n) && n < |acts| && acts[n] == StepPush(t) ==>
      |run[n].claimed| - |run[k].claimed| < WORD - RING_CAPACITY
  }

  /** How a producer comes to be about to claim. */
  lemma ComesToClaim(s: State, a: Action, t: nat)
    requires Inv(s) && Enabled(s, a) && t < |TrueNext(s, a).producers| && TrueNext(s, a).producers[t].Claim?
    ensures t < |s.producers|
    ensures || s.producers[t] == TrueNext(s, a).producers[t]
            || (a == StepPush(t) && s.producers[t].ReadSequence? && Freed(s) <= TrueNext(s, a).producers[t].pos)
  {
    if a == StepPush(t) && s.producers[t].ReadSequence? {
      CurrentLap(s, s.producers[t].pos);
    }
  }

  /** The position about to be claimed was current at the sequence load. */
  lemma {:induction false} ClaimLoaded(run: seq<State>, acts: seq<Action>, t: nat, n: nat) returns (k: nat)
    requires IsRun(Wrapping, run, acts) && n < |run| && ClaimsFree(run, acts, n)
    requires t < |run[n].producers| && run[n].producers[t].Claim?
    ensures LoadedAt(run, acts, t, k, n)
    ensures var s := Lifted(run[0], acts, n);
            t < |s.producers| && s.producers[t].Claim? && |run[k].claimed| <= s.producers[t].pos + RING_CAPACITY
    decreases n
  {
    if n > 0 {
      LiftedStep(run, acts, n - 1);
      var before := Lifted(run[0], acts, n - 1);
      ComesToClaim(before, acts[n - 1], t);
      if before.producers[t].Claim? {
        k := ClaimLoaded(run, acts, t, n - 1);
      } else {
        k := n - 1;
      }
    }
  }

  lemma {:induction false} FewClaimsFree(run: seq<State>, acts: seq<Action>, n: nat)
    requires IsRun(Wrapping, run, acts) && FewClaims(run, acts) && n < |run|
    ensures ClaimsFree(run, acts, n)
    decreases n
  {
    if n > 0 {
      FewClaimsFree(run, acts, n - 1);
      assert StepAt(Wrapping, run, acts, n - 1);
      var a := acts[n - 1];
      if a.StepPush? && run[n - 1].producers[a.t].Claim? {
        var k := ClaimLoaded(run, acts, a.t, n - 1);
        WordRunIsImage(run, acts, n - 1);
        ClaimsTail(Lifted(run[0], acts, n - 1), a.t);
      }
    }
  }

  /** An exchange for a position less than a turn old claims that position. */
  lemma ClaimsTail(s: State, t: nat)
    requires Inv(s) && t < |s.producers| && s.producers[t].Claim? && s.tail - s.producers[t].pos < WORD
    ensures FreeClaim(Words(s), StepPush(t))
  {
    assert ProducerOk(s, s.producers[t]);
    SameWord(s.tail, s.producers[t].pos);
    TailSlot(s);
  }

  /** So the ring on words pops the claims' observations in order, each once, however long
      a push waits before it loads the sequence. */
  lemma WordRunPopsInOrder(run: seq<State>, acts: seq<Action>, n: nat)
    requires IsRun(Wrapping, run, acts) && FewClaims(run, acts) && n < |run|
    ensures InOrder(run[n])
  {
    FewClaimsFree(run, acts, n);
    FreeInOrder(run, acts, n);
  }

  // ---------------------------------------------------------------- successful pushes

  /** Step `k` is the claim that `t` is still writing in state `n`; its place is the number
      of claims before it. */
  ghost predicate ClaimedAt(run: seq<State>, acts: seq<Action>, t: nat, k: nat, n: nat) {
    && k < n < |run| && k < |acts| && acts[k] == StepPush(t) && t < |run[k].producers| && run[k].producers[t].Claim?
    && forall j :: k < j <= n ==> t < |run[j].producers| && run[j].producers[t].Write?
  }

  /** How a producer comes to be writing. */
  lemma ComesToWrite(s: State, a: Action, t: nat)
    requires |s.slots| == RING_CAPACITY && Enabled(s, a)
    requires t < |Next(Wrapping, s, a).producers| && Next(Wrapping, s, a).producers[t].Write?
    ensures t < |s.producers|
    ensures if s.producers[t].Write? then s.producers[t].obs == Next(Wrapping, s, a).producers[t].obs
            else a == StepPush(t) && s.producers[t].Claim?
                 && Next(Wrapping, s, a).claimed == s.claimed + [Next(Wrapping, s, a).producers[t].obs]
  {
  }

  lemma {:induction false} WriterClaimed(run: seq<State>, acts: seq<Action>, t: nat, n: nat) returns (k: nat)
    requires IsRun(Wrapping, run, acts) && n < |run| && t < |run[n].producers| && run[n].producers[t].Write?
    ensures ClaimedAt(run, acts, t, k, n) && run[k + 1].claimed == run[k].claimed + [run[n].producers[t].obs]
    decreases n
  {
    if n > 0 {
      assert StepAt(Wrapping, run, acts, n - 1);
      ComesToWrite(run[n - 1], acts[n - 1], t);
      if run[n - 1].producers[t].Write? {
        k := WriterClaimed(run, acts, t, n - 1);
      } else {
        k := n - 1;
      }
    }
  }

  lemma ClaimGrows(run: seq<State>, acts: seq<Action>, t: nat, k: nat, n: nat)
    requires IsRun(Wrapping, run, acts) && ClaimedAt(run, acts, t, k, n)
    ensures |run[k + 1].claimed| == |run[k].claimed| + 1
  {
    assert StepAt(Wrapping, run, acts, k);
    assert run[k + 1].producers[t].Write?;
  }

  /** On words, too, a push that returns true is popped exactly once, at the place of its
      claim, with the fields it was given, in every later state with that many pops. */
  lemma WordPushedIsPopped(run: seq<State>, acts: seq<Action>, t: nat, n: nat, later: nat) returns (k: nat)
    requires IsRun(Wrapping, run, acts) && PushSucceeds(run, acts, t, n) && n < later < |run|
    requires ClaimsFree(run, acts, later)
    ensures ClaimedAt(run, acts, t, k, n)
    ensures var place, obs := |run[k].claimed|, run[n].producers[t].obs;
            && place < |run[later].claimed| && run[later].claimed[place] == obs
            && (place < |run[later].popped| ==> run[later].popped[place] == obs)
  {
    k := WriterClaimed(run, acts, t, n);
    HistoryGrowsInRuns(Wrapping, run, acts, k + 1, later);
    FreeInOrder(run, acts, later);
  }

  /** Two pushes that return true at different steps claimed different places. */
  lemma WordPlacesDiffer(run: seq<State>, acts: seq<Action>, t: nat, k: nat, n: nat, u: nat, j: nat, m: nat)
    requires IsRun(Wrapping, run, acts) && n < m && PushSucceeds(run, acts, t, n) && PushSucceeds(run, acts, u, m)
    requires ClaimedAt(run, acts, t, k, n) && ClaimedAt(run, acts, u, j, m)
    ensures |run[k].claimed| != |run[j].claimed|
  {
    ClaimGrows(run, acts, t, k, n);
    ClaimGrows(run, acts, u, j, m);
    assert StepAt(Wrapping, run, acts, n);
    if k < j {
      HistoryGrowsInRuns(Wrapping, run, acts, k + 1, j);
    } else if j < k {
      HistoryGrowsInRuns(Wrapping, run, acts, j + 1, k);
    } else {
      assert run[n + 1].producers[t].Idle?;
    }
  }

  // ---------------------------------------------------------------- refusals

  /** Step `k` is where `t` read the tail it works with in state `n`. */
  ghost predicate TailReadAt(run: seq<State>, t: nat, k: nat, n: nat) {
    && k < n < |run| && t < |run[k].producers| && !run[k].producers[t].ReadSequence?
    && forall j :: k < j <= n ==> t < |run[j].producers| && run[j].producers[t].ReadSequence?
  }

  lemma ReadsTail(s: State, a: Action, t: nat)
    requires Inv(s) && Enabled(s, a) && t < |TrueNext(s, a).producers| && TrueNext(s, a).producers[t].ReadSequence?
    ensures t < |s.producers|
    ensures TrueNext(s, a).producers[t].pos ==
            if s.producers[t].ReadSequence? then s.producers[t].pos else s.tail
  {
  }

  /** A position is the number of claims made before the step that read the tail. */
  lemma {:induction false} PositionIsTailRead(run: seq<State>, acts: seq<Action>, t: nat, n: nat) returns (k: nat)
    requires IsRun(Wrapping, run, acts) && n < |run| && ClaimsFree(run, acts, n)
    requires t < |run[n].producers| && run[n].producers[t].ReadSequence?
    ensures TailReadAt(run, t, k, n)
    ensures var s := Lifted(run[0], acts, n);
            t < |s.producers| && s.producers[t].ReadSequence? && s.producers[t].pos == |run[k].claimed|
    decreases n
  {
    if n > 0 {
      LiftedStep(run, acts, n - 1);
      var before := Lifted(run[0], acts, n - 1);
      ReadsTail(before, acts[n - 1], t);
      if before.producers[t].ReadSequence? {
        k := PositionIsTailRead(run, acts, t, n - 1);
      } else {
        k := n - 1;
        ImageInOrder(before);
      }
    }
  }

  lemma RefusedStep(s: State, t: nat)
    requires Inv(s) && t < |s.producers| && s.producers[t].ReadSequence? && TruePush(s, t).producers[t].Idle?
    ensures s.tail - Freed(s) == RING_CAPACITY || s.tail - s.producers[t].pos > HALF_WORD - RING_CAPACITY
  {
    var pos := s.producers[t].pos;
    assert ProducerOk(s, s.producers[t]);
    SequenceRange(s, pos);
    if s.slots[IndexOf(pos)].sequence < pos {
      Full(s, pos);
    }
  }

  /** A push past the gates is refused on words only if the ring is full or half a turn of
      claims, but for a lap, were made since the push read the tail. */
  lemma RefusedFullOrStale(run: seq<State>, acts: seq<Action>, t: nat, n: nat) returns (k: nat)
    requires IsRun(Wrapping, run, acts) && n < |acts| && ClaimsFree(run, acts, n)
    requires acts[n] == StepPush(t) && t < |run[n].producers| && run[n].producers[t].ReadSequence?
    requires t < |run[n + 1].producers| && run[n + 1].producers[t].Idle?
    ensures TailReadAt(run, t, k, n)
    ensures || |run[n].claimed| - Released(run[n]) == RING_CAPACITY
            || |run[n].claimed| - |run[k].claimed| > HALF_WORD - RING_CAPACITY
  {
    LiftedStep(run, acts, n);
    k := PositionIsTailRead(run, acts, t, n);
    var s := Lifted(run[0], acts, n);
    RefusedStep(s, t);
    ImageInOrder(s);
  }

  // ---------------------------------------------------------------- runs with fresh positions

  /** At most half a turn of claims, but for a lap, are made between a push's tail load and
      its sequence load. */
  ghost predicate FreshReads(run: seq<State>, acts: seq<Action>) {
    forall t: nat, k: nat, n: nat :: TailReadAt(run, t, k, n) && n < |acts| && acts[n] == StepPush(t) ==>
      |run[n].claimed| - |run[k].claimed| <= HALF_WORD - RING_CAPACITY
  }

  lemma FreshStep(run: seq<State>, acts: seq<Action>, n: nat)
    requires IsRun(Wrapping, run, acts) && FewClaims(run, acts) && FreshReads(run, acts) && n < |acts|
    ensures StepAt(Unbounded, LiftedRun(run[0], acts), acts, n)
  {
    FewClaimsFree(run, acts, n);
    LiftedStep(run, acts, n);
    var s, a := Lifted(run[0], acts, n), acts[n];
    ImageInOrder(s);
    if a.StepPush? {
      if s.producers[a.t].Claim? {
        var k := ClaimLoaded(run, acts, a.t, n);
      } else if s.producers[a.t].ReadSequence? {
        var k := PositionIsTailRead(run, acts, a.t, n);
      }
      FreshAgrees(s, a.t);
      SamePush(s, a.t);
    }
  }

  ghost function LiftedRun(s: State, acts: seq<Action>): (run: seq<State>)
    ensures |run| == |acts| + 1 && forall n :: 0 <= n < |run| ==> run[n] == Lifted(s, acts, n)
  {
    seq(|acts| + 1, n requires 0 <= n <= |acts| => Lifted(s, acts, n))
  }

  /** A run on words whose positions are fresh is the image, state by state, of a run with
      unbounded positions, so all that holds of those holds of it. */
  lemma FreshRunIsPlain(run: seq<State>, acts: seq<Action>)
    requires IsRun(Wrapping, run, acts) && FewClaims(run, acts) && FreshReads(run, acts)
    ensures IsRun(Unbounded, LiftedRun(run[0], acts), acts)
    ensures forall n :: 0 <= n < |run| ==> run[n] == Words(LiftedRun(run[0], acts)[n])
  {
    forall n | 0 <= n < |acts| ensures StepAt(Unbounded, LiftedRun(run[0], acts), acts, n) { FreshStep(run, acts, n); }
    forall n | 0 <= n < |run| ensures run[n] == Words(LiftedRun(run[0], acts)[n]) {
      FewClaimsFree(run, acts, n);
      WordRunIsImage(run, acts, n);
    }
  }
}
