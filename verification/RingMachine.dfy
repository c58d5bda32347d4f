/** The observation ring as a transition system: any number of producers and one
    consumer, one step per atomic access.

    The ring is taken from the moment its buffer is published. Positions are kept either
    without bound or, as the code keeps them, in 32-bit words that wrap; the same steps
    serve for both. */
module RingMachine {

  const RING_CAPACITY: nat := 4096
  const WORD: nat := 0x1_0000_0000
  const HALF_WORD: nat := 0x8000_0000
  const KIND_RANGE: nat := 0x1_0000

  datatype Mode = Unbounded | Wrapping

  datatype Observation = Observation(instanceId: nat, opKind: nat, flags: nat, latencyTicks: nat, producer: nat)

  /** `kindAndFlags` packs the kind below the flags. */
  datatype Slot = Slot(sequence: nat, instanceId: nat, kindAndFlags: nat, producer: nat, latencyTicks: nat)

  /** Where a producer stands in a push. */
  datatype Producer =
    | Idle
    | ReadSequence(obs: Observation, pos: nat)
    | Claim(obs: Observation, pos: nat)
    | ReadTail(obs: Observation)
    | Write(obs: Observation, pos: nat, done: nat)   // fields stored so far; the sequence is the fifth

  /** Where the consumer stands in a pop. */
  datatype Consumer =
    | Waiting
    | CheckSequence(pos: nat)
    | Read(pos: nat, done: nat, got: Slot)           // fields loaded so far
    | Release(pos: nat, obs: Observation)
    | StoreHead(pos: nat, obs: Observation)

  /** `claimed` and `popped` are the history: the observation each claim was for, in the
      order of the claims, and what pops have returned. */
  datatype State = State(
    head: nat,
    tail: nat,
    slots: seq<Slot>,
    producers: seq<Producer>,
    consumer: Consumer,
    claimed: seq<Observation>,
    popped: seq<Observation>)

  datatype Action =
    | BeginPush(t: nat, obs: Observation)
    | StepPush(t: nat)
    | WeakFail(t: nat)                               // the claiming exchange fails for no reason
    | BeginPop
    | StepPop

  function Add(m: Mode, x: nat, n: nat): nat {
    if m.Unbounded? then x + n else (x + n) % WORD
  }

  /** How far the slot's sequence is ahead of the position: in words, the wrapped
      difference read as a signed number. */
  function Lead(m: Mode, sequence: nat, pos: nat): int {
    if m.Unbounded? then sequence - pos
    else
      var d := (sequence - pos) % WORD;
      if d < HALF_WORD then d else d - WORD
  }

  function IndexOf(pos: nat): (i: nat)
    ensures i < RING_CAPACITY
  {
    pos % RING_CAPACITY
  }

  function Pack(obs: Observation): nat {
    obs.opKind + obs.flags * KIND_RANGE
  }

  function Unpack(s: Slot): Observation {
    Observation(s.instanceId, s.kindAndFlags % KIND_RANGE, s.kindAndFlags / KIND_RANGE, s.latencyTicks, s.producer)
  }

  /** Kind and flags are 16 bits each. */
  predicate Fits(obs: Observation) {
    obs.opKind < KIND_RANGE && obs.flags < KIND_RANGE
  }

  function SetSlot(s: State, i: nat, slot: Slot): State
    requires i < |s.slots|
  {
    s.(slots := s.slots[i := slot])
  }

  function SetProducer(s: State, t: nat, p: Producer): State
    requires t < |s.producers|
  {
    s.(producers := s.producers[t := p])
  }

  /** The slot with field number `k` of the record stored. */
  function StoreField(slot: Slot, obs: Observation, k: nat): Slot {
    if k == 0 then slot.(instanceId := obs.instanceId)
    else if k == 1 then slot.(kindAndFlags := Pack(obs))
    else if k == 2 then slot.(producer := obs.producer)
    else slot.(latencyTicks := obs.latencyTicks)
  }

  /** What has been loaded, with field number `k` of the slot loaded too. */
  function LoadField(got: Slot, slot: Slot, k: nat): Slot {
    if k == 0 then got.(kindAndFlags := slot.kindAndFlags)
    else if k == 1 then got.(instanceId := slot.instanceId)
    else if k == 2 then got.(latencyTicks := slot.latencyTicks)
    else got.(producer := slot.producer)
  }

  function PushStep(m: Mode, s: State, t: nat): State
    requires t < |s.producers| && |s.slots| == RING_CAPACITY
  {
    match s.producers[t]
    case Idle => s
    case ReadSequence(obs, pos) =>
      var lead := Lead(m, s.slots[IndexOf(pos)].sequence, pos);
      SetProducer(s, t, if lead == 0 then Claim(obs, pos) else if lead < 0 then Idle else ReadTail(obs))
    case Claim(obs, pos) =>
      if s.tail == pos then
        SetProducer(s, t, Write(obs, pos, 0)).(tail := Add(m, pos, 1), claimed := s.claimed + [obs])
      else SetProducer(s, t, ReadSequence(obs, s.tail))
    case ReadTail(obs) => SetProducer(s, t, ReadSequence(obs, s.tail))
    case Write(obs, pos, done) =>
      var i := IndexOf(pos);
      if done < 4 then SetProducer(SetSlot(s, i, StoreField(s.slots[i], obs, done)), t, Write(obs, pos, done + 1))
      else SetProducer(SetSlot(s, i, s.slots[i].(sequence := Add(m, pos, 1))), t, Idle)
  }

  function PopStep(m: Mode, s: State): State
    requires |s.slots| == RING_CAPACITY
  {
    match s.consumer
    case Waiting => s
    case CheckSequence(pos) =>
      s.(consumer := if s.slots[IndexOf(pos)].sequence == Add(m, pos, 1) then Read(pos, 0, Slot(0, 0, 0, 0, 0))
                     else Waiting)
    case Read(pos, done, got) =>
      var now := LoadField(got, s.slots[IndexOf(pos)], done);
      s.(consumer := if done < 3 then Read(pos, done + 1, now) else Release(pos, Unpack(now)))
    case Release(pos, obs) =>
      var i := IndexOf(pos);
      SetSlot(s, i, s.slots[i].(sequence := Add(m, pos, RING_CAPACITY))).(consumer := StoreHead(pos, obs))
    case StoreHead(pos, obs) => s.(head := Add(m, pos, 1), consumer := Waiting, popped := s.popped + [obs])
  }

  predicate Enabled(s: State, a: Action) {
    match a
    case BeginPush(t, obs) => t < |s.producers| && s.producers[t].Idle? && Fits(obs)
    case StepPush(t) => t < |s.producers| && !s.producers[t].Idle?
    case WeakFail(t) => t < |s.producers| && s.producers[t].Claim?
    case BeginPop => s.consumer.Waiting?
    case StepPop => !s.consumer.Waiting?
  }

  function Next(m: Mode, s: State, a: Action): State
    requires |s.slots| == RING_CAPACITY && Enabled(s, a)
  {
    match a
    case BeginPush(t, obs) => SetProducer(s, t, ReadSequence(obs, s.tail))
    case StepPush(t) => PushStep(m, s, t)
    case WeakFail(t) => SetProducer(s, t, ReadSequence(s.producers[t].obs, s.tail))
    case BeginPop => s.(consumer := CheckSequence(s.head))
    case StepPop => PopStep(m, s)
  }

  /** A buffer just published: every slot free for its first position. */
  ghost predicate Init(s: State) {
    && s.head == s.tail == 0 && |s.slots| == RING_CAPACITY
    && (forall i :: 0 <= i < RING_CAPACITY ==> s.slots[i].sequence == i)
    && (forall t :: 0 <= t < |s.producers| ==> s.producers[t].Idle?)
    && s.consumer.Waiting? && s.claimed == [] && s.popped == []
  }

  ghost predicate StepAt(m: Mode, run: seq<State>, acts: seq<Action>, i: nat) {
    && i < |acts| && i + 1 < |run|
    && |run[i].slots| == RING_CAPACITY && Enabled(run[i], acts[i]) && run[i + 1] == Next(m, run[i], acts[i])
  }

  ghost predicate IsRun(m: Mode, run: seq<State>, acts: seq<Action>) {
    |run| == |acts| + 1 && Init(run[0]) && forall i :: 0 <= i < |acts| ==> StepAt(m, run, acts, i)
  }
}
