/** What a write, a guard's drop and the coming and going of cells do for their callers,
    over whole runs. */
module SwapCellWrites {
  import opened Options
  import opened SwapCellMachine
  import opened SwapCellInvariant
  import opened SwapCellStructure
  import SwapCellTheorems
  import SwapCellHistories

  // ---------------------------------------------------------------- the exchange

  /** The action is a write whose exchange succeeds. */
  predicate Lands(s: State, a: Action) {
    (a.Swap? || a.CompareAndSet?) && a.c in s.cells && (a.CompareAndSet? ==> s.cells[a.c] == a.current)
  }

  /** The references without the one handed over, if one is. */
  function Without(arcs: multiset<Val>, v: Option<Val>): multiset<Val> {
    if v.None? then arcs else arcs - multiset{v.value}
  }

  lemma WriteTakes(s: State, t: nat, c: nat, v: Option<Val>)
    requires t < |s.threads| && c in s.cells
    ensures var s' := WriteStep(s, t, c, v);
            && s'.cells == s.cells[c := v] && s'.arcs == Without(s.arcs, v)
            && |s'.threads| == |s.threads|
            && s'.threads[t].pc == if s.cells[c].None? then s.threads[t].pc else Pay(c, s.cells[c].value, WalkHead)
  {
  }

  /** In every run a swap, and a compare-and-set that finds what it expects, puts its value
      in the cell and takes the caller's reference to it; the caller goes on to pay the debts
      on what was there, or is done if nothing was. A compare-and-set that finds something
      else changes nothing. */
  lemma WritePutsValue(run: seq<State>, acts: seq<Action>, n: nat)
    requires IsRun(run, acts) && n < |acts| && (acts[n].Swap? || acts[n].CompareAndSet?)
    ensures var a, s, s' := acts[n], run[n], run[n + 1];
            && IdleThread(s, a.t) && a.c in s.cells && HasArc(s, a.put)
            && if Lands(s, a) then
                 && s'.cells == s.cells[a.c := a.put] && s'.arcs == Without(s.arcs, a.put)
                 && a.t < |s'.threads|
                 && s'.threads[a.t].pc == if s.cells[a.c].None? then Idle else Pay(a.c, s.cells[a.c].value, WalkHead)
               else s' == s
  {
    assert StepAt(run, acts, n);
    WriteTakes(run[n], acts[n].t, acts[n].c, acts[n].put);
  }

  // ---------------------------------------------------------------- the walk

  /** The write of step `n` took `x` out of its cell, and its caller `t` is still paying debts
      in every state up to `m`. */
  ghost predicate WriteCall(run: seq<State>, acts: seq<Action>, x: Val, n: nat, m: nat) {
    && IsRun(run, acts) && n < m < |run| && Lands(run[n], acts[n]) && run[n].cells[acts[n].c] == Some(x)
    && forall k :: n < k <= m ==> IsPaying(run[k], acts[n].t)
  }

  predicate IsPaying(s: State, t: nat) {
    t < |s.threads| && s.threads[t].pc.Pay?
  }

  /** A paying step stays with its cell and value and touches no reference of the caller's,
      but for the last, which gives the value's back. */
  lemma PayGoesOn(s: State, t: nat, c: nat, x: Val, pay: PayPc)
    requires t < |s.threads| && x < |s.strong| && RecordsOk(s) && PayOk(s.records, pay)
    ensures var s' := PayStep(s, t, c, x, pay);
            && |s'.threads| == |s.threads|
            && if pay.HandOver? then s'.threads[t].pc == Idle && s'.arcs == s.arcs + multiset{x}
               else s'.threads[t].pc.Pay? && s'.threads[t].pc.cell == c && s'.threads[t].pc.value == x && s'.arcs == s.arcs
  {
  }

  lemma PayingStep(s: State, a: Action, t: nat)
    requires WellFormed(s) && Enabled(s, a) && IsPaying(s, t)
    ensures var s', pc := Next(s, a), s.threads[t].pc;
            && t < |s'.threads|
            && if a != Advance(t) then s'.threads[t].pc == pc
               else if pc.pay.HandOver? then s'.threads[t].pc == Idle && s'.arcs == s.arcs + multiset{pc.value}
               else s'.threads[t].pc.Pay? && s'.threads[t].pc.cell == pc.cell && s'.threads[t].pc.value == pc.value
                    && s'.arcs == s.arcs
  {
    assert PcOk(s.cells.Keys, s.records, |s.strong|, s.threads[t].pc);
    if a == Advance(t) {
      PayGoesOn(s, t, s.threads[t].pc.cell, s.threads[t].pc.value, s.threads[t].pc.pay);
    } else {
      SwapCellHistories.Elsewhere(s, a, t);
    }
  }

  predicate PaysFor(s: State, t: nat, c: nat, x: Val) {
    IsPaying(s, t) && s.threads[t].pc.cell == c && s.threads[t].pc.value == x
  }

  lemma PaysAtFirst(run: seq<State>, acts: seq<Action>, x: Val, n: nat)
    requires WriteCall(run, acts, x, n, n + 1)
    ensures PaysFor(run[n + 1], acts[n].t, acts[n].c, x)
  {
    WritePutsValue(run, acts, n);
  }

  lemma PaysOn(run: seq<State>, acts: seq<Action>, t: nat, c: nat, x: Val, k: nat)
    requires IsRun(run, acts) && k < |acts| && PaysFor(run[k], t, c, x) && IsPaying(run[k + 1], t)
    ensures PaysFor(run[k + 1], t, c, x)
  {
    assert StepAt(run, acts, k);
    PayingStep(run[k], acts[k], t);
  }

  lemma {:induction false} PaysForValue(run: seq<State>, acts: seq<Action>, x: Val, n: nat, m: nat)
    requires WriteCall(run, acts, x, n, m)
    ensures PaysFor(run[m], acts[n].t, acts[n].c, x)
    decreases m
  {
    if m == n + 1 {
      PaysAtFirst(run, acts, x, n);
    } else {
      PaysForValue(run, acts, x, n, m - 1);
      assert IsPaying(run[m], acts[n].t);
      PaysOn(run, acts, acts[n].t, acts[n].c, x, m - 1);
    }
  }

  /** The walk has not come to the slot. */
  predicate Unvisited(pay: PayPc, l: Loc) {
    match pay
    case WalkHead => true
    case Visit(r, i) => l.rec < r || (l.rec == r && i <= l.idx)
    case Increment(r, i) => l.rec < r || (l.rec == r && i < l.idx)
    case Settle(r, i) => l.rec < r || (l.rec == r && i < l.idx)
    case Decrement(r, i) => l.rec < r || (l.rec == r && i < l.idx)
    case WalkLink(r, i) => l.rec < r || (l.rec == r && i <= l.idx)
    case WalkNext(r) => l.rec < r
    case HandOver => false
  }

  /** No slot is passed over. */
  lemma VisitsNext(s: State, t: nat, c: nat, x: Val, pay: PayPc, l: Loc)
    requires RecordsOk(s) && PayOk(s.records, pay) && ListOk(s.head, s.records) && t < |s.threads| && x < |s.strong|
    requires IsLoc(s.records, l.rec, l.idx) && Unvisited(pay, l) && pay != Visit(l.rec, l.idx)
    ensures var pc := PayStep(s, t, c, x, pay).threads[t].pc; pc.Pay? && Unvisited(pc.pay, l)
  {
  }

  ghost predicate VisitedBy(run: seq<State>, acts: seq<Action>, t: nat, x: Val, l: Loc, k: nat) {
    && k < |acts| && k < |run| && acts[k] == Advance(t) && IsPaying(run[k], t)
    && run[k].threads[t].pc.value == x && run[k].threads[t].pc.pay == Visit(l.rec, l.idx)
  }

  ghost predicate Visited(run: seq<State>, acts: seq<Action>, t: nat, x: Val, l: Loc, n: nat, m: nat) {
    exists k :: n < k < m && VisitedBy(run, acts, t, x, l, k)
  }

  /** Records never lose slots. */
  lemma AcquireGrows(s: State, t: nat, c: nat, acq: AcquirePc)
    requires t < |s.threads| && RecordsOk(s) && AcquireOk(s.records, acq)
    ensures Grown(s.records, AcquireStep(s, t, c, acq).records)
  {
  }

  lemma LoadGrows(s: State, t: nat, c: nat, r: nat, load: LoadPc)
    requires t < |s.threads| && c in s.cells && LoadOk(s.records, |s.strong|, r, load)
    ensures Grown(s.records, LoadStep(s, t, c, r, load).records)
  {
  }

  lemma PayGrows(s: State, t: nat, c: nat, x: Val, pay: PayPc)
    requires t < |s.threads| && x < |s.strong| && RecordsOk(s) && PayOk(s.records, pay)
    ensures Grown(s.records, PayStep(s, t, c, x, pay).records)
  {
  }

  lemma DropGrows(s: State, t: nat, r: nat, drop: DropPc)
    requires t < |s.threads| && DropOk(s.records, |s.strong|, r, drop)
    ensures Grown(s.records, DropStep(s, t, r, drop).records)
  {
  }

  lemma BeginGrows(s: State, a: Action)
    requires WellFormed(s) && Enabled(s, a) && (a.DropGuard? || a.GiveBack?)
    ensures Grown(s.records, Next(s, a).records)
  {
  }

  lemma RecordsGrow(s: State, a: Action)
    requires WellFormed(s) && Enabled(s, a)
    ensures Grown(s.records, Next(s, a).records)
  {
    if a.Advance? {
      assert PcOk(s.cells.Keys, s.records, |s.strong|, s.threads[a.t].pc);
      match s.threads[a.t].pc
      case Acquire(c, acq) => AcquireGrows(s, a.t, c, acq);
      case Load(c, r, load) => LoadGrows(s, a.t, c, r, load);
      case Pay(c, x, pay) => PayGrows(s, a.t, c, x, pay);
      case Drop(r, drop) => DropGrows(s, a.t, r, drop);
    } else if a.DropGuard? || a.GiveBack? {
      BeginGrows(s, a);
    } else {
      OtherLinks(s, a);
    }
  }

  lemma {:induction false} SlotStays(run: seq<State>, acts: seq<Action>, l: Loc, n: nat, m: nat)
    requires IsRun(run, acts) && n <= m < |run| && IsLoc(run[n].records, l.rec, l.idx)
    ensures IsLoc(run[m].records, l.rec, l.idx)
    decreases m
  {
    if n < m {
      SlotStays(run, acts, l, n, m - 1);
      assert StepAt(run, acts, m - 1);
      RecordsGrow(run[m - 1], acts[m - 1]);
    }
  }

  /** By state `m` the walk has visited the slot or has it still ahead. */
  ghost predicate Accounted(run: seq<State>, acts: seq<Action>, t: nat, x: Val, l: Loc, n: nat, m: nat)
    requires m < |run|
  {
    IsPaying(run[m], t) && (Visited(run, acts, t, x, l, n, m) || Unvisited(run[m].threads[t].pc.pay, l))
  }

  lemma AheadAtFirst(run: seq<State>, acts: seq<Action>, x: Val, l: Loc, n: nat)
    requires WriteCall(run, acts, x, n, n + 1)
    ensures Accounted(run, acts, acts[n].t, x, l, n, n + 1)
  {
    WritePutsValue(run, acts, n);
  }

  lemma VisitedLater(run: seq<State>, acts: seq<Action>, t: nat, x: Val, l: Loc, n: nat, m: nat)
    requires Visited(run, acts, t, x, l, n, m)
    ensures Visited(run, acts, t, x, l, n, m + 1)
  {
    var k :| n < k < m && VisitedBy(run, acts, t, x, l, k);
    assert n < k < m + 1 && VisitedBy(run, acts, t, x, l, k);
  }

  lemma {:induction false} VisitedOrAhead(run: seq<State>, acts: seq<Action>, x: Val, l: Loc, n: nat, m: nat)
    requires WriteCall(run, acts, x, n, m) && IsLoc(run[n].records, l.rec, l.idx)
    ensures Accounted(run, acts, acts[n].t, x, l, n, m)
    decreases m
  {
    if m == n + 1 {
      AheadAtFirst(run, acts, x, l, n);
    } else {
      VisitedOrAhead(run, acts, x, l, n, m - 1);
      AccountedNext(run, acts, x, l, n, m - 1);
    }
  }

  lemma AccountedNext(run: seq<State>, acts: seq<Action>, x: Val, l: Loc, n: nat, k: nat)
    requires WriteCall(run, acts, x, n, k + 1) && n < k && IsLoc(run[n].records, l.rec, l.idx)
    requires Accounted(run, acts, acts[n].t, x, l, n, k)
    ensures Accounted(run, acts, acts[n].t, x, l, n, k + 1)
  {
    var t := acts[n].t;
    assert IsPaying(run[k + 1], t);
    if Visited(run, acts, t, x, l, n, k) {
      VisitedLater(run, acts, t, x, l, n, k);
    } else {
      VisitStep(run, acts, x, l, n, k);
    }
  }

  /** One step of the walk, by the caller or by another. */
  lemma VisitStep(run: seq<State>, acts: seq<Action>, x: Val, l: Loc, n: nat, k: nat)
    requires WriteCall(run, acts, x, n, k) && k < |acts| && IsLoc(run[n].records, l.rec, l.idx) && IsPaying(run[k], acts[n].t)
    requires IsPaying(run[k + 1], acts[n].t) && Unvisited(run[k].threads[acts[n].t].pc.pay, l)
    ensures VisitedBy(run, acts, acts[n].t, x, l, k) || Unvisited(run[k + 1].threads[acts[n].t].pc.pay, l)
  {
    var t, s := acts[n].t, run[k];
    assert StepAt(run, acts, k);
    PaysForValue(run, acts, x, n, k);
    if acts[k] != Advance(t) {
      PayingStep(s, acts[k], t);
    } else if s.threads[t].pc.pay != Visit(l.rec, l.idx) {
      SlotStays(run, acts, l, n, k);
      SwapCellTheorems.EveryStateInv(run, acts, k);
      assert PcOk(s.cells.Keys, s.records, |s.strong|, s.threads[t].pc);
      VisitsNext(s, t, s.threads[t].pc.cell, x, s.threads[t].pc.pay, l);
    }
  }

  /** In every run a write that took `x` out of its cell returns with one reference to `x`
      for its caller, and not before it has looked at every slot that recorded `x` at the
      exchange. */
  lemma WriteGivesBack(run: seq<State>, acts: seq<Action>, x: Val, n: nat, m: nat)
    requires WriteCall(run, acts, x, n, m) && m < |acts| && IdleThread(run[m + 1], acts[n].t)
    ensures acts[m] == Advance(acts[n].t) && run[m + 1].arcs == run[m].arcs + multiset{x}
    ensures forall k :: n < k < m && acts[k] == Advance(acts[n].t) ==> run[k + 1].arcs == run[k].arcs
    ensures forall l :: SlotIs(run[n].records, l, x) ==> Visited(run, acts, acts[n].t, x, l, n, m)
  {
    var t := acts[n].t;
    assert StepAt(run, acts, m);
    PaysForValue(run, acts, x, n, m);
    PayingStep(run[m], acts[m], t);
    forall k | n < k < m && acts[k] == Advance(t) ensures run[k + 1].arcs == run[k].arcs {
      assert IsPaying(run[k], t) && IsPaying(run[k + 1], t) && StepAt(run, acts, k);
      PayingStep(run[k], acts[k], t);
    }
    forall l | SlotIs(run[n].records, l, x) ensures Visited(run, acts, t, x, l, n, m) {
      VisitedOrAhead(run, acts, x, l, n, m);
    }
  }

  // ---------------------------------------------------------------- guards

  lemma GuardsOnlyAdded(s: State, a: Action, g: nat)
    requires WellFormed(s) && Enabled(s, a) && g < s.nextGuard && g !in s.guards
    ensures g < Next(s, a).nextGuard && g !in Next(s, a).guards
  {
    if a.Advance? {
      StepGuards(s, a.t, g);
    } else {
      OtherGuards(s, a, g);
    }
  }

  lemma OtherGuards(s: State, a: Action, g: nat)
    requires WellFormed(s) && Enabled(s, a) && !a.Advance? && g < s.nextGuard && g !in s.guards
    ensures g < Next(s, a).nextGuard && g !in Next(s, a).guards
  {
  }

  lemma StepGuards(s: State, t: nat, g: nat)
    requires WellFormed(s) && t < |s.threads| && g < s.nextGuard && g !in s.guards
    ensures g < Step(s, t).nextGuard && g !in Step(s, t).guards
  {
    assert PcOk(s.cells.Keys, s.records, |s.strong|, s.threads[t].pc);
    match s.threads[t].pc
    case Idle =>
    case Acquire(c, acq) => assert AcquireStep(s, t, c, acq).guards == s.guards;
    case Load(c, r, load) => LoadGuards(s, t, c, r, load, g);
    case Pay(c, x, pay) => assert PayStep(s, t, c, x, pay).guards == s.guards;
    case Drop(r, drop) => assert DropStep(s, t, r, drop).guards == s.guards;
  }

  lemma LoadGuards(s: State, t: nat, c: nat, r: nat, load: LoadPc, g: nat)
    requires t < |s.threads| && c in s.cells && LoadOk(s.records, |s.strong|, r, load) && g < s.nextGuard && g !in s.guards
    ensures g < LoadStep(s, t, c, r, load).nextGuard && g !in LoadStep(s, t, c, r, load).guards
  {
  }

  lemma DropRemoves(s: State, t: nat, g: nat)
    requires WellFormed(s) && t < |s.threads| && g in s.guards
    ensures var s' := DropGuardStep(s, t, g); s'.guards == s.guards - {g} && s'.nextGuard == s.nextGuard
  {
  }

  /** The guard has been and is no more. */
  predicate Gone(s: State, g: nat) {
    g < s.nextGuard && g !in s.guards
  }

  lemma GoneAtFirst(run: seq<State>, acts: seq<Action>, t: nat, g: nat, n: nat)
    requires IsRun(run, acts) && n < |acts| && acts[n] == DropGuard(t, g)
    ensures Gone(run[n + 1], g)
  {
    assert StepAt(run, acts, n);
    DropRemoves(run[n], t, g);
  }

  lemma GoneOn(run: seq<State>, acts: seq<Action>, g: nat, k: nat)
    requires IsRun(run, acts) && k < |acts| && Gone(run[k], g)
    ensures Gone(run[k + 1], g)
  {
    assert StepAt(run, acts, k);
    GuardsOnlyAdded(run[k], acts[k], g);
  }

  /** In every run a guard that is dropped is gone for good. */
  lemma {:induction false} DroppedGuardIsGone(run: seq<State>, acts: seq<Action>, t: nat, g: nat, n: nat, later: nat)
    requires IsRun(run, acts) && n < |acts| && acts[n] == DropGuard(t, g) && n < later < |run|
    ensures Gone(run[later], g)
    decreases later
  {
    if later == n + 1 {
      GoneAtFirst(run, acts, t, g, n);
    } else {
      DroppedGuardIsGone(run, acts, t, g, n, later - 1);
      GoneOn(run, acts, g, later - 1);
    }
  }

  // ---------------------------------------------------------------- cells and references

  /** In every run a new cell holds what it is made with, whose reference it takes; a cell
      that is dropped gives back the reference to what it held; and a guard turned into a
      reference stays. */
  lemma HandlesMove(run: seq<State>, acts: seq<Action>, n: nat)
    requires IsRun(run, acts) && n < |acts|
    ensures var a, s, s' := acts[n], run[n], run[n + 1];
            match a
            case NewCell(c, init) =>
              c !in s.cells && s'.cells == s.cells[c := init] && s'.arcs == Without(s.arcs, init)
            case DropCell(c) =>
              && c in s.cells && s'.cells == s.cells - {c}
              && s'.arcs == s.arcs + if s.cells[c].Some? then multiset{s.cells[c].value} else multiset{}
            case ToArc(_, g) => g in s.guards && s'.guards == s.guards && s'.arcs == s.arcs + multiset{s.guards[g].value}
            case CloneArc(v) => s'.arcs == s.arcs + multiset{v}
            case DropArc(v) => s'.arcs == s.arcs - multiset{v}
            case NewArc => s'.arcs == s.arcs + multiset{|s.strong|} && s'.strong == s.strong + [1]
            case _ => true
  {
    assert StepAt(run, acts, n);
    var a := acts[n];
    if a.NewCell? || a.DropCell? {
      CellStep(run[n], a);
    } else if a.ToArc? || a.CloneArc? {
      CopyStep(run[n], a);
    } else if a.DropArc? || a.NewArc? {
      ArcStep(run[n], a);
    }
  }

  lemma CellStep(s: State, a: Action)
    requires WellFormed(s) && Enabled(s, a) && (a.NewCell? || a.DropCell?)
    ensures var s' := Next(s, a);
            if a.NewCell? then a.c !in s.cells && s'.cells == s.cells[a.c := a.init] && s'.arcs == Without(s.arcs, a.init)
            else a.c in s.cells && s'.cells == s.cells - {a.c}
                 && s'.arcs == s.arcs + if s.cells[a.c].Some? then multiset{s.cells[a.c].value} else multiset{}
  {
  }

  lemma CopyStep(s: State, a: Action)
    requires WellFormed(s) && Enabled(s, a) && (a.ToArc? || a.CloneArc?)
    ensures var s' := Next(s, a);
            if a.ToArc? then a.g in s.guards && s'.guards == s.guards && s'.arcs == s.arcs + multiset{s.guards[a.g].value}
            else s'.arcs == s.arcs + multiset{a.v}
  {
  }

  lemma ArcStep(s: State, a: Action)
    requires WellFormed(s) && Enabled(s, a) && (a.DropArc? || a.NewArc?)
    ensures var s' := Next(s, a);
            if a.DropArc? then s'.arcs == s.arcs - multiset{a.v}
            else s'.arcs == s.arcs + multiset{|s.strong|} && s'.strong == s.strong + [1]
  {
  }
}
