/** Arming and dropping observation rings: any number of rings and of callers in `arm`,
    one step per atomic access, with the process-wide count of armed rings. */
module RingArm {
  import opened Options
  import opened FiniteSets

  datatype Ring = Ring(buf: Option<nat>, armed: bool, dropped: bool)

  /** Where a caller stands in `arm`. A buffer is known by its allocation. */
  datatype Caller =
    | Idle
    | LoadBuf(ring: nat)
    | Publish(ring: nat, buf: nat)
    | SwapArmed(ring: nat)
    | Increment(ring: nat)

  /** `live` are the buffers allocated and not freed. */
  datatype State = State(rings: seq<Ring>, callers: seq<Caller>, count: int, live: set<nat>, next: nat)

  datatype Action = BeginArm(t: nat, r: nat) | StepArm(t: nat) | Drop(r: nat)

  predicate Uses(c: Caller, r: nat) {
    !c.Idle? && c.ring == r
  }

  /** A ring is dropped by its only owner, with no call on it left. */
  ghost predicate Enabled(s: State, a: Action) {
    match a
    case BeginArm(t, r) => t < |s.callers| && s.callers[t].Idle? && r < |s.rings| && !s.rings[r].dropped
    case StepArm(t) => t < |s.callers| && !s.callers[t].Idle? && s.callers[t].ring < |s.rings|
    case Drop(r) =>
      r < |s.rings| && !s.rings[r].dropped && forall t :: 0 <= t < |s.callers| ==> !Uses(s.callers[t], r)
  }

  function Goto(s: State, t: nat, c: Caller): State
    requires t < |s.callers|
  {
    s.(callers := s.callers[t := c])
  }

  function SetRing(s: State, r: nat, ring: Ring): State
    requires r < |s.rings|
  {
    s.(rings := s.rings[r := ring])
  }

  function ArmStep(s: State, t: nat): State
    requires t < |s.callers| && !s.callers[t].Idle? && s.callers[t].ring < |s.rings|
  {
    var r := s.callers[t].ring;
    var ring := s.rings[r];
    match s.callers[t]
    case LoadBuf(_) =>
      if ring.buf.Some? then Goto(s, t, SwapArmed(r))
      else Goto(s, t, Publish(r, s.next)).(live := s.live + {s.next}, next := s.next + 1)
    case Publish(_, b) =>
      if ring.buf.None? then Goto(SetRing(s, r, ring.(buf := Some(b))), t, SwapArmed(r))
      else Goto(s, t, SwapArmed(r)).(live := s.live - {b})
    case SwapArmed(_) =>
      Goto(SetRing(s, r, ring.(armed := true)), t, if ring.armed then Idle else Increment(r))
    case Increment(_) => Goto(s, t, Idle).(count := s.count + 1)
  }

  function DropStep(s: State, r: nat): State
    requires r < |s.rings|
  {
    var ring := s.rings[r];
    SetRing(s, r, Ring(None, false, true)).(
      count := if ring.armed then s.count - 1 else s.count,
      live := if ring.buf.Some? then s.live - {ring.buf.value} else s.live)
  }

  function Next(s: State, a: Action): State
    requires Enabled(s, a)
  {
    match a
    case BeginArm(t, r) => Goto(s, t, LoadBuf(r))
    case StepArm(t) => ArmStep(s, t)
    case Drop(r) => DropStep(s, r)
  }

  ghost predicate Init(s: State) {
    && (forall r :: 0 <= r < |s.rings| ==> s.rings[r] == Ring(None, false, false))
    && (forall t :: 0 <= t < |s.callers| ==> s.callers[t].Idle?)
    && s.count == 0 && s.live == {} && s.next == 0
  }

  // ---------------------------------------------------------------- what is kept

  ghost function Armed(rings: seq<Ring>): set<nat> {
    set r: nat | r < |rings| && rings[r].armed
  }

  /** Callers between the edge and the increment. */
  ghost function Pending(callers: seq<Caller>): set<nat> {
    set t: nat | t < |callers| && callers[t].Increment?
  }

  ghost predicate RingOk(s: State, ring: Ring) {
    && (ring.dropped ==> ring.buf.None?) && (ring.armed ==> ring.buf.Some?)
    && (ring.buf.Some? ==> ring.buf.value in s.live)
  }

  ghost predicate CallerOk(s: State, c: Caller) {
    !c.Idle? ==>
      && c.ring < |s.rings| && !s.rings[c.ring].dropped
      && (c.Publish? ==> c.buf in s.live)
      && (c.SwapArmed? ==> s.rings[c.ring].buf.Some?)
      && (c.Increment? ==> s.rings[c.ring].armed)
  }

  /** Every live buffer has one owner: the ring that publishes it or the caller that has
      not published it yet. */
  ghost predicate OneOwner(s: State) {
    && (forall r, q :: 0 <= r < |s.rings| && 0 <= q < |s.rings| && r != q && s.rings[r].buf.Some? ==>
          s.rings[r].buf != s.rings[q].buf)
    && (forall t, u :: 0 <= t < |s.callers| && 0 <= u < |s.callers| && t != u && BothPublish(s.callers[t], s.callers[u]) ==>
          s.callers[t].buf != s.callers[u].buf)
    && (forall t, r :: 0 <= t < |s.callers| && 0 <= r < |s.rings| && s.callers[t].Publish? ==>
          s.rings[r].buf != Some(s.callers[t].buf))
  }

  predicate BothPublish(c: Caller, d: Caller) {
    c.Publish? && d.Publish?
  }

  ghost predicate Owned(s: State, b: nat) {
    || (exists r :: 0 <= r < |s.rings| && s.rings[r].buf == Some(b))
    || (exists t :: 0 <= t < |s.callers| && s.callers[t].Publish? && s.callers[t].buf == b)
  }

  /** Only one caller sees the edge of a ring. */
  ghost predicate OneEdge(callers: seq<Caller>) {
    forall t, u :: 0 <= t < |callers| && 0 <= u < |callers| && t != u && callers[t].Increment? && callers[u].Increment?
      ==> callers[t].ring != callers[u].ring
  }

  ghost predicate Buffers(s: State) {
    && (forall r :: 0 <= r < |s.rings| ==> RingOk(s, s.rings[r]))
    && (forall t :: 0 <= t < |s.callers| ==> CallerOk(s, s.callers[t]))
    && (forall b :: b in s.live ==> b < s.next && Owned(s, b))
    && OneOwner(s)
  }

  ghost predicate Tally(s: State) {
    OneEdge(s.callers) && s.count + |Pending(s.callers)| == |Armed(s.rings)|
  }

  ghost predicate Inv(s: State) {
    Buffers(s) && Tally(s)
  }

  lemma InitInv(s: State)
    requires Init(s)
    ensures Inv(s)
  {
    assert Pending(s.callers) == {} && Armed(s.rings) == {};
  }

  // ---------------------------------------------------------------- buffers

  /** Whatever owned a buffer goes on owning it. */
  lemma StillOwned(s: State, s': State, b: nat)
    requires Owned(s, b) && |s'.rings| == |s.rings| && |s'.callers| == |s.callers|
    requires forall r :: 0 <= r < |s.rings| && s.rings[r].buf == Some(b) ==> s'.rings[r].buf == Some(b)
    requires forall t :: 0 <= t < |s.callers| && s.callers[t].Publish? && s.callers[t].buf == b ==>
               s'.callers[t] == s.callers[t] || Owned(s', b)
    ensures Owned(s', b)
  {
    if r :| 0 <= r < |s.rings| && s.rings[r].buf == Some(b) {
      assert s'.rings[r].buf == Some(b);
    } else {
      var t :| 0 <= t < |s.callers| && s.callers[t].Publish? && s.callers[t].buf == b;
      assert s'.callers[t] == s.callers[t] || Owned(s', b);
    }
  }

  /** A caller moves on, and rings may be armed, with the buffers left alone. */
  lemma QuietBuffers(s: State, s': State, t: nat, c: Caller)
    requires Buffers(s) && t < |s.callers| && !s.callers[t].Publish? && !c.Publish? && CallerOk(s', c)
    requires s'.callers == s.callers[t := c] && s'.live == s.live && s'.next == s.next && |s'.rings| == |s.rings|
    requires forall r :: 0 <= r < |s.rings| ==>
               s'.rings[r] == s.rings[r] || (s'.rings[r] == s.rings[r].(armed := true) && s.rings[r].buf.Some?)
    ensures Buffers(s')
  {
    forall b | b in s'.live ensures b < s'.next && Owned(s', b) { StillOwned(s, s', b); }
    forall u | 0 <= u < |s.callers| && u != t ensures CallerOk(s', s'.callers[u]) { assert CallerOk(s, s.callers[u]); }
    forall r | 0 <= r < |s.rings| ensures RingOk(s', s'.rings[r]) { assert RingOk(s, s.rings[r]); }
  }

  lemma AllocBuffers(s: State, t: nat, r: nat)
    requires Buffers(s) && t < |s.callers| && s.callers[t] == LoadBuf(r) && r < |s.rings|
    ensures Buffers(Goto(s, t, Publish(r, s.next)).(live := s.live + {s.next}, next := s.next + 1))
  {
    var s' := Goto(s, t, Publish(r, s.next)).(live := s.live + {s.next}, next := s.next + 1);
    assert CallerOk(s, s.callers[t]);
    forall b | b in s'.live ensures b < s'.next && Owned(s', b) {
      if b in s.live {
        StillOwned(s, s', b);
      } else {
        assert s'.callers[t].Publish? && s'.callers[t].buf == b;
      }
    }
    forall u | 0 <= u < |s.callers| ensures CallerOk(s', s'.callers[u]) { assert CallerOk(s, s.callers[u]); }
    forall q | 0 <= q < |s.rings| ensures RingOk(s', s'.rings[q]) { assert RingOk(s, s.rings[q]); }
  }

  lemma PublishBuffers(s: State, t: nat, r: nat, b: nat)
    requires Buffers(s) && t < |s.callers| && s.callers[t] == Publish(r, b) && r < |s.rings| && s.rings[r].buf.None?
    ensures Buffers(Goto(SetRing(s, r, s.rings[r].(buf := Some(b))), t, SwapArmed(r)))
  {
    var s' := Goto(SetRing(s, r, s.rings[r].(buf := Some(b))), t, SwapArmed(r));
    assert CallerOk(s, s.callers[t]) && s'.rings[r].buf == Some(b);
    forall x | x in s'.live ensures x < s'.next && Owned(s', x) { StillOwned(s, s', x); }
    forall u | 0 <= u < |s.callers| ensures CallerOk(s', s'.callers[u]) { assert CallerOk(s, s.callers[u]); }
    forall q | 0 <= q < |s.rings| ensures RingOk(s', s'.rings[q]) { assert RingOk(s, s.rings[q]); }
  }

  lemma LoseBuffers(s: State, t: nat, r: nat, b: nat)
    requires Buffers(s) && t < |s.callers| && s.callers[t] == Publish(r, b) && r < |s.rings| && s.rings[r].buf.Some?
    ensures Buffers(Goto(s, t, SwapArmed(r)).(live := s.live - {b}))
  {
    var s' := Goto(s, t, SwapArmed(r)).(live := s.live - {b});
    assert CallerOk(s, s.callers[t]);
    forall x | x in s'.live ensures x < s'.next && Owned(s', x) { StillOwned(s, s', x); }
    forall u | 0 <= u < |s.callers| ensures CallerOk(s', s'.callers[u]) { assert CallerOk(s, s.callers[u]); }
    forall q | 0 <= q < |s.rings| ensures RingOk(s', s'.rings[q]) { assert RingOk(s, s.rings[q]); }
  }

  lemma DropBuffers(s: State, r: nat)
    requires Buffers(s) && Enabled(s, Drop(r))
    ensures Buffers(DropStep(s, r))
  {
    var s' := DropStep(s, r);
    assert RingOk(s, s.rings[r]);
    forall b | b in s'.live ensures b < s'.next && Owned(s', b) { StillOwned(s, s', b); }
    forall u | 0 <= u < |s.callers| ensures CallerOk(s', s'.callers[u]) {
      assert CallerOk(s, s.callers[u]) && !Uses(s.callers[u], r);
    }
    forall q | 0 <= q < |s.rings| ensures RingOk(s', s'.rings[q]) { assert RingOk(s, s.rings[q]); }
  }

  lemma ArmBuffers(s: State, t: nat)
    requires Buffers(s) && Enabled(s, StepArm(t))
    ensures Buffers(ArmStep(s, t))
  {
    var r := s.callers[t].ring;
    assert CallerOk(s, s.callers[t]);
    match s.callers[t]
    case LoadBuf(_) =>
      if s.rings[r].buf.Some? {
        QuietBuffers(s, ArmStep(s, t), t, SwapArmed(r));
      } else {
        AllocBuffers(s, t, r);
      }
    case Publish(_, b) =>
      if s.rings[r].buf.None? {
        PublishBuffers(s, t, r, b);
      } else {
        LoseBuffers(s, t, r, b);
      }
    case SwapArmed(_) => QuietBuffers(s, ArmStep(s, t), t, ArmStep(s, t).callers[t]);
    case Increment(_) => QuietBuffers(s, ArmStep(s, t), t, Idle);
  }

  // ---------------------------------------------------------------- the count

  /** A step that is neither an edge nor an increment nor a drop. */
  lemma QuietTally(s: State, s': State, t: nat, c: Caller)
    requires Tally(s) && t < |s.callers| && !s.callers[t].Increment? && !c.Increment? && s'.callers == s.callers[t := c]
    requires s'.count == s.count && Armed(s'.rings) == Armed(s.rings)
    ensures Tally(s')
  {
    assert Pending(s'.callers) == Pending(s.callers);
  }

  lemma OneMorePending(callers: seq<Caller>, t: nat, r: nat)
    requires t < |callers| && !callers[t].Increment?
    ensures |Pending(callers[t := Increment(r)])| == |Pending(callers)| + 1
  {
    assert Pending(callers[t := Increment(r)]) == Pending(callers) + {t};
  }

  lemma OneMoreArmed(rings: seq<Ring>, r: nat)
    requires r < |rings| && !rings[r].armed
    ensures |Armed(rings[r := rings[r].(armed := true)])| == |Armed(rings)| + 1
  {
    assert Armed(rings[r := rings[r].(armed := true)]) == Armed(rings) + {r};
  }

  lemma EdgeTally(s: State, t: nat, r: nat)
    requires Tally(s) && t < |s.callers| && s.callers[t] == SwapArmed(r) && r < |s.rings| && !s.rings[r].armed
    requires forall u :: 0 <= u < |s.callers| && s.callers[u].Increment? ==> s.callers[u].ring != r
    ensures Tally(Goto(SetRing(s, r, s.rings[r].(armed := true)), t, Increment(r)))
  {
    OneMorePending(s.callers, t, r);
    OneMoreArmed(s.rings, r);
  }

  lemma IncrementTally(s: State, t: nat)
    requires Tally(s) && t < |s.callers| && s.callers[t].Increment?
    ensures Tally(Goto(s, t, Idle).(count := s.count + 1))
  {
    var s' := Goto(s, t, Idle).(count := s.count + 1);
    assert Pending(s.callers) == Pending(s'.callers) + {t};
  }

  lemma ArmTally(s: State, t: nat)
    requires Inv(s) && Enabled(s, StepArm(t))
    ensures Tally(ArmStep(s, t))
  {
    var s', r := ArmStep(s, t), s.callers[t].ring;
    match s.callers[t]
    case LoadBuf(_) => QuietTally(s, s', t, s'.callers[t]);
    case Publish(_, _) =>
      assert Armed(s'.rings) == Armed(s.rings);
      QuietTally(s, s', t, s'.callers[t]);
    case SwapArmed(_) =>
      if s.rings[r].armed {
        assert Armed(s'.rings) == Armed(s.rings);
        QuietTally(s, s', t, Idle);
      } else {
        forall u | 0 <= u < |s.callers| && s.callers[u].Increment? ensures s.callers[u].ring != r {
          assert CallerOk(s, s.callers[u]);
        }
        EdgeTally(s, t, r);
      }
    case Increment(_) => IncrementTally(s, t);
  }

  lemma DropTally(s: State, r: nat)
    requires Tally(s) && r < |s.rings|
    ensures Tally(DropStep(s, r))
  {
    assert Armed(DropStep(s, r).rings) == Armed(s.rings) - {r};
  }

  lemma KeepsInv(s: State, a: Action)
    requires Inv(s) && Enabled(s, a)
    ensures Inv(Next(s, a))
  {
    match a
    case BeginArm(t, r) =>
      QuietBuffers(s, Next(s, a), t, LoadBuf(r));
      QuietTally(s, Next(s, a), t, LoadBuf(r));
    case Drop(r) =>
      DropBuffers(s, r);
      DropTally(s, r);
    case StepArm(t) =>
      ArmBuffers(s, t);
      ArmTally(s, t);
  }

  // ---------------------------------------------------------------- over whole runs

  ghost predicate StepAt(run: seq<State>, acts: seq<Action>, i: nat) {
    i < |acts| && i + 1 < |run| && Enabled(run[i], acts[i]) && run[i + 1] == Next(run[i], acts[i])
  }

  ghost predicate IsRun(run: seq<State>, acts: seq<Action>) {
    |run| == |acts| + 1 && Init(run[0]) && forall i :: 0 <= i < |acts| ==> StepAt(run, acts, i)
  }

  lemma {:induction false} EveryStateInv(run: seq<State>, acts: seq<Action>, n: nat)
    requires IsRun(run, acts) && n < |run|
    ensures Inv(run[n])
    decreases n
  {
    if n == 0 {
      InitInv(run[0]);
    } else {
      EveryStateInv(run, acts, n - 1);
      assert StepAt(run, acts, n - 1);
      KeepsInv(run[n - 1], acts[n - 1]);
    }
  }

  /** The count and the arms between edge and increment add up to the armed rings; an
      armed ring has its buffer; and no buffer is lost. */
  lemma CountIsArmedRings(run: seq<State>, acts: seq<Action>, n: nat)
    requires IsRun(run, acts) && n < |run|
    ensures var s := run[n];
            && 0 <= s.count == |Armed(s.rings)| - |Pending(s.callers)|
            && (forall r :: 0 <= r < |s.rings| && s.rings[r].armed ==> s.rings[r].buf.Some?)
            && (forall b :: b in s.live <==> Owned(s, b))
  {
    EveryStateInv(run, acts, n);
    var s := run[n];
    PendingAreArmed(s, Armed(s.rings));
    forall b | Owned(s, b) ensures b in s.live {
      if r :| 0 <= r < |s.rings| && s.rings[r].buf == Some(b) {
        assert RingOk(s, s.rings[r]);
      } else {
        var t :| 0 <= t < |s.callers| && s.callers[t].Publish? && s.callers[t].buf == b;
        assert CallerOk(s, s.callers[t]);
      }
    }
  }

  lemma PendingAreArmed(s: State, rings: set<nat>)
    requires Inv(s) && forall t :: 0 <= t < |s.callers| && s.callers[t].Increment? ==> s.callers[t].ring in rings
    ensures |Pending(s.callers)| <= |rings|
  {
    var at := map t | t in Pending(s.callers) :: s.callers[t].ring;
    InjectionBound(at, Pending(s.callers), rings);
  }

  /** Once the arm that set a ring's flag has counted it, the gate is open to its pushes. */
  lemma GateIsOpen(s: State, r: nat)
    requires Inv(s) && r < |s.rings| && s.rings[r].armed
    requires forall t :: 0 <= t < |s.callers| && s.callers[t].Increment? ==> s.callers[t].ring != r
    ensures s.count > 0
  {
    forall t | 0 <= t < |s.callers| && s.callers[t].Increment? ensures s.callers[t].ring in Armed(s.rings) - {r} {
      assert CallerOk(s, s.callers[t]);
    }
    PendingAreArmed(s, Armed(s.rings) - {r});
  }

  /** In every run, a push to a ring whose arm has returned passes the process-wide gate. */
  lemma GateOpenInRuns(run: seq<State>, acts: seq<Action>, n: nat, r: nat)
    requires IsRun(run, acts) && n < |run| && r < |run[n].rings| && run[n].rings[r].armed
    requires forall t :: 0 <= t < |run[n].callers| ==> !Uses(run[n].callers[t], r)
    ensures run[n].count > 0 && run[n].rings[r].buf.Some?
  {
    EveryStateInv(run, acts, n);
    assert RingOk(run[n], run[n].rings[r]);
    forall t | 0 <= t < |run[n].callers| && run[n].callers[t].Increment? ensures run[n].callers[t].ring != r {
      assert !Uses(run[n].callers[t], r);
    }
    GateIsOpen(run[n], r);
  }

  /** A call of `arm` on ring `r` by `t` that began with state `i` and is still running in
      state `n`. */
  ghost predicate ArmCall(run: seq<State>, acts: seq<Action>, t: nat, r: nat, i: nat, n: nat) {
    && IsRun(run, acts) && 0 < i <= n < |run| && acts[i - 1] == BeginArm(t, r)
    && forall k :: i <= k <= n ==> t < |run[k].callers| && !run[k].callers[t].Idle?
  }

  lemma StaysOnRing(s: State, a: Action, t: nat)
    requires Enabled(s, a) && t < |s.callers| && !s.callers[t].Idle?
    ensures t < |Next(s, a).callers|
    ensures Next(s, a).callers[t].Idle? || Next(s, a).callers[t].ring == s.callers[t].ring
  {
  }

  lemma {:induction false} CallOnRing(run: seq<State>, acts: seq<Action>, t: nat, r: nat, i: nat, n: nat)
    requires ArmCall(run, acts, t, r, i, n)
    ensures run[n].callers[t].ring == r
    decreases n
  {
    assert StepAt(run, acts, n - 1);
    if i < n {
      CallOnRing(run, acts, t, r, i, n - 1);
      StaysOnRing(run[n - 1], acts[n - 1], t);
    }
  }

  /** The steps `t` takes from state `lo` to state `hi`. */
  ghost function OwnSteps(acts: seq<Action>, t: nat, lo: nat, hi: nat): nat
    requires lo <= hi <= |acts|
    decreases hi
  {
    if lo == hi then 0 else OwnSteps(acts, t, lo, hi - 1) + if acts[hi - 1] == StepArm(t) then 1 else 0
  }

  function Place(c: Caller): nat {
    match c
    case Idle => 0
    case LoadBuf(_) => 0
    case Publish(_, _) => 1
    case SwapArmed(_) => 2
    case Increment(_) => 3
  }

  lemma ArmAdvances(s: State, a: Action, t: nat)
    requires Enabled(s, a) && t < |s.callers| && !s.callers[t].Idle?
    ensures t < |Next(s, a).callers|
    ensures var c := Next(s, a).callers[t];
            if a == StepArm(t) then c.Idle? || Place(c) > Place(s.callers[t]) else c == s.callers[t]
  {
  }

  /** `arm` has no loop: a call takes at most four steps. */
  lemma {:induction false} ArmIsShort(run: seq<State>, acts: seq<Action>, t: nat, r: nat, i: nat, n: nat)
    requires ArmCall(run, acts, t, r, i, n)
    ensures OwnSteps(acts, t, i, n) <= Place(run[n].callers[t]) <= 3
    decreases n
  {
    assert StepAt(run, acts, n - 1);
    if i < n {
      ArmIsShort(run, acts, t, r, i, n - 1);
      ArmAdvances(run[n - 1], acts[n - 1], t);
    }
  }

  lemma ArmedKept(s: State, a: Action, r: nat)
    requires Enabled(s, a) && r < |s.rings| && s.rings[r].armed
    ensures r < |Next(s, a).rings| && (Next(s, a).rings[r].armed || Next(s, a).rings[r].dropped)
  {
  }

  lemma DroppedKept(s: State, a: Action, r: nat)
    requires Inv(s) && Enabled(s, a) && r < |s.rings| && s.rings[r].dropped
    ensures r < |Next(s, a).rings| && Next(s, a).rings[r].dropped
  {
    if a.StepArm? { assert CallerOk(s, s.callers[a.t]); }
  }

  lemma {:induction false} ArmedStays(run: seq<State>, acts: seq<Action>, r: nat, i: nat, n: nat)
    requires IsRun(run, acts) && i <= n < |run| && r < |run[i].rings| && run[i].rings[r].armed
    ensures r < |run[n].rings| && (run[n].rings[r].armed || run[n].rings[r].dropped)
    decreases n
  {
    if i < n {
      ArmedStays(run, acts, r, i, n - 1);
      assert StepAt(run, acts, n - 1);
      EveryStateInv(run, acts, n - 1);
      if run[n - 1].rings[r].armed {
        ArmedKept(run[n - 1], acts[n - 1], r);
      } else {
        DroppedKept(run[n - 1], acts[n - 1], r);
      }
    }
  }

  lemma ArmReturns(s: State, a: Action, t: nat)
    requires Inv(s) && Enabled(s, a) && t < |s.callers| && !s.callers[t].Idle? && Next(s, a).callers[t].Idle?
    ensures var r := s.callers[t].ring; r < |Next(s, a).rings| && Next(s, a).rings[r].armed
  {
    assert CallerOk(s, s.callers[t]);
  }

  /** In every run, once a call of `arm` has returned, its ring is armed until it is dropped. */
  lemma ArmArms(run: seq<State>, acts: seq<Action>, t: nat, r: nat, i: nat, n: nat, later: nat)
    requires ArmCall(run, acts, t, r, i, n) && n < later < |run| && t < |run[n + 1].callers| && run[n + 1].callers[t].Idle?
    ensures r < |run[later].rings| && (run[later].rings[r].armed || run[later].rings[r].dropped)
  {
    CallOnRing(run, acts, t, r, i, n);
    EveryStateInv(run, acts, n);
    assert StepAt(run, acts, n);
    ArmReturns(run[n], acts[n], t);
    ArmedStays(run, acts, r, n + 1, later);
  }

  lemma BufferKept(s: State, a: Action, r: nat)
    requires Inv(s) && Enabled(s, a) && r < |s.rings|
    ensures r < |Next(s, a).rings|
    ensures s.rings[r].dropped || a == Drop(r) ==> Next(s, a).rings[r].dropped
    ensures s.rings[r].buf.Some? && a != Drop(r) ==> Next(s, a).rings[r].buf == s.rings[r].buf
  {
    if a.StepArm? {
      assert CallerOk(s, s.callers[a.t]);
    }
  }

  lemma {:induction false} SameBuffer(run: seq<State>, acts: seq<Action>, r: nat, i: nat, n: nat)
    requires IsRun(run, acts) && i <= n < |run| && r < |run[i].rings| && run[i].rings[r].buf.Some?
    ensures r < |run[n].rings|
    ensures run[n].rings[r].dropped || run[n].rings[r].buf == run[i].rings[r].buf
    decreases n
  {
    if i < n {
      SameBuffer(run, acts, r, i, n - 1);
      EveryStateInv(run, acts, n - 1);
      assert StepAt(run, acts, n - 1);
      BufferKept(run[n - 1], acts[n - 1], r);
    }
  }

  /** In every run a ring keeps the first buffer published for it, allocated, until it is
      dropped. */
  lemma BufferStays(run: seq<State>, acts: seq<Action>, r: nat, i: nat, n: nat)
    requires IsRun(run, acts) && i <= n < |run| && r < |run[i].rings| && run[i].rings[r].buf.Some?
    ensures r < |run[n].rings|
    ensures run[n].rings[r].dropped
            || (run[n].rings[r].buf == run[i].rings[r].buf && run[i].rings[r].buf.value in run[n].live)
  {
    SameBuffer(run, acts, r, i, n);
    EveryStateInv(run, acts, n);
    assert RingOk(run[n], run[n].rings[r]);
  }
}
