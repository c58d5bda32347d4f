/** What the cell promises in every run: a guard's value is alive, references are
    counted exactly, a value is freed once and when its last holder lets go, and a
    record has one user. */
module SwapCellTheorems {
  import opened FiniteSets
  import opened Options
  import opened SwapCellMachine
  import opened SwapCellInvariant
  import SwapCellStructure
  import SwapCellOwnership
  import SwapCellDebts
  import SwapCellAccounts

  // ---------------------------------------------------------------- the invariant holds

  lemma InitInv(s: State)
    requires Init(s)
    ensures Inv(s)
  {
  }

  lemma KeepsInv(s: State, a: Action)
    requires Inv(s) && Enabled(s, a)
    ensures Inv(Next(s, a))
  {
    SwapCellStructure.KeepsWellFormed(s, a);
    SwapCellStructure.KeepsList(s, a);
    SwapCellOwnership.KeepsOwnership(s, a);
    SwapCellOwnership.KeepsReady(s, a);
    SwapCellDebts.KeepsDebts(s, a);
    SwapCellAccounts.KeepsAccounts(s, a);
  }

  lemma {:induction false} EveryStateInv(run: seq<State>, acts: seq<Action>, n: nat)
    requires IsRun(run, acts) && n < |run|
    ensures Inv(run[n])
  {
    if n == 0 {
      InitInv(run[0]);
    } else {
      EveryStateInv(run, acts, n - 1);
      assert StepAt(run, acts, n - 1);
      KeepsInv(run[n - 1], acts[n - 1]);
    }
  }

  /** Any enabled action extends a run: no run is cut short by an index out of range. */
  lemma RunExtends(run: seq<State>, acts: seq<Action>, a: Action)
    requires IsRun(run, acts) && Enabled(run[|acts|], a)
    ensures WellFormed(run[|acts|]) && IsRun(run + [Next(run[|acts|], a)], acts + [a])
  {
    EveryStateInv(run, acts, |acts|);
    var run', acts' := run + [Next(run[|acts|], a)], acts + [a];
    forall i | 0 <= i < |acts'| ensures StepAt(run', acts', i) {
      if i < |acts| { assert StepAt(run, acts, i); }
    }
  }

  // ---------------------------------------------------------------- counting

  /** The claim matched to a recorded read: the load that has not settled it, or else a
      guard that owes it. */
  ghost function ClaimOf(s: State, l: Loc, x: Val): (h: Holder)
    requires Debts(s) && SlotIs(s.records, l, x)
    ensures Holds(s, x, h) && ClaimsAt(s, h, l)
    ensures BeingLoaded(s.threads, l, x) ==> h.ByLoad?
  {
    if BeingLoaded(s.threads, l, x) then
      var t :| 0 <= t < |s.threads| && LoadsAt(s.threads[t].pc, l, x); ByLoad(t)
    else
      var g :| g in s.guards && OwesAt(s.guards[g], l, x); ByGuard(g)
  }

  /** The holder answers for a read recorded in `l`. */
  ghost predicate ClaimsAt(s: State, h: Holder, l: Loc) {
    match h
    case ByLoad(t) => t < |s.threads| && s.threads[t].pc.Load? && s.threads[t].pc.rec == l.rec
                      && (s.threads[t].pc.load.Recheck? || s.threads[t].pc.load.TakeBack?)
                      && s.threads[t].pc.load.i == l.idx
    case ByGuard(g) => g in s.guards && s.guards[g].hold == Owed(l)
    case _ => false
  }

  /** A holder that no recorded read is matched to is a counted reference. */
  lemma CountedHolder(s: State, x: Val, h: Holder)
    requires Inv(s) && x < |s.strong| && Holds(s, x, h)
    requires forall l :: SlotIs(s.records, l, x) ==> ClaimOf(s, l, x) != h
    ensures s.strong[x] >= 1 + s.arcs[x]
  {
    assert Balanced(s, x);
    var hs, ls :| Ledger(s, x, hs, ls);
    var f := map l | l in ls :: ClaimOf(s, l, x);
    InjectionBound(f, ls, hs - {h});
  }

  lemma NotNegative(s: State, x: Val)
    requires Inv(s) && x < |s.strong|
    ensures s.strong[x] >= s.arcs[x]
  {
    assert Balanced(s, x);
    var hs, ls :| Ledger(s, x, hs, ls);
    var f := map l | l in ls :: ClaimOf(s, l, x);
    InjectionBound(f, ls, hs);
  }

  /** A live guard's value has a strong count above zero. */
  lemma GuardKeepsAlive(s: State, g: nat)
    requires Inv(s) && g in s.guards
    ensures s.guards[g].value < |s.strong| && s.strong[s.guards[g].value] >= 1 + s.arcs[s.guards[g].value]
  {
    var x := s.guards[g].value;
    if s.guards[g].hold.Owed? && SlotIs(s.records, s.guards[g].hold.slot, x) && !BeingLoaded(s.threads, s.guards[g].hold.slot, x) {
      var l := s.guards[g].hold.slot;
      var k :| k in s.guards && OwesAt(s.guards[k], l, x) && Covered(s, s.guards[k].cell, x, l);
      var c := s.guards[k].cell;
      if SomeoneWillPay(s.threads, c, x, l) {
        var w :| 0 <= w < |s.threads| && WillPay(s.threads[w].pc, c, x, l);
        CountedHolder(s, x, Carried(w));
      } else {
        CountedHolder(s, x, InCell(c));
      }
    } else {
      CountedHolder(s, x, ByGuard(g));
    }
  }

  // ---------------------------------------------------------------- exact counts

  /** The references the strong count stands for, besides callers' `Arc`s: every holder
      but one claim for each slot that still records a read. */
  ghost predicate Counted(s: State, x: Val, cs: set<Holder>) {
    && (forall h :: h in cs ==> Holds(s, x, h))
    && (forall h :: Holds(s, x, h) && !(exists l :: ClaimsAt(s, h, l)) ==> h in cs)
    && (forall h, l :: Holds(s, x, h) && ClaimsAt(s, h, l) && !SlotIs(s.records, l, x) ==> h in cs)
    && (forall l :: SlotIs(s.records, l, x) ==> exists h :: Spared(s, x, cs, h, l))
  }

  /** `h` alone among the claims on `l` is not counted. */
  ghost predicate Spared(s: State, x: Val, cs: set<Holder>, h: Holder, l: Loc) {
    && Holds(s, x, h) && ClaimsAt(s, h, l) && h !in cs
    && (forall k :: Holds(s, x, k) && ClaimsAt(s, k, l) && k != h ==> k in cs)
  }

  /** In every reachable state the strong count is exactly the callers' `Arc`s, the cells
      and writers that hold the value, the increments not yet settled, the references
      being given up, and on each slot one reference per claim, less one while the slot
      still records the read. */
  lemma StrongCountIsExact(s: State, x: Val) returns (cs: set<Holder>)
    requires Inv(s) && x < |s.strong|
    ensures Counted(s, x, cs) && s.strong[x] == |cs| + s.arcs[x]
  {
    assert Balanced(s, x);
    var hs, ls :| Ledger(s, x, hs, ls);
    var spared := set l | l in ls :: ClaimOf(s, l, x);
    ClaimsDistinct(s, x, ls, spared);
    cs := hs - spared;
    assert spared <= hs;
    AllButOne(s, x, hs, ls, spared);
  }

  lemma AllButOne(s: State, x: Val, hs: set<Holder>, ls: set<Loc>, spared: set<Holder>)
    requires Debts(s) && AreHolders(s, x, hs) && AreSlots(s.records, x, ls)
    requires spared == set l | l in ls :: ClaimOf(s, l, x)
    ensures Counted(s, x, hs - spared)
  {
    forall l | SlotIs(s.records, l, x) ensures exists h :: Spared(s, x, hs - spared, h, l) {
      var h := ClaimOf(s, l, x);
      assert l in ls && h in spared;
      assert Spared(s, x, hs - spared, h, l);
    }
  }

  lemma {:induction false} ClaimsDistinct(s: State, x: Val, ls: set<Loc>, hs: set<Holder>)
    requires Debts(s) && forall l :: l in ls ==> SlotIs(s.records, l, x)
    requires hs == set l | l in ls :: ClaimOf(s, l, x)
    ensures |hs| == |ls|
  {
    if ls != {} {
      var l :| l in ls;
      var rest := set k | k in ls - {l} :: ClaimOf(s, k, x);
      assert hs == rest + {ClaimOf(s, l, x)};
      assert ClaimOf(s, l, x) !in rest;
      ClaimsDistinct(s, x, ls - {l}, rest);
    }
  }

  /** Nothing holds the value but, at most, reads that were recorded after it was gone
      and will be taken back. */
  ghost predicate LetGo(s: State, x: Val) {
    s.arcs[x] == 0 && forall h :: Holds(s, x, h) ==> h.ByLoad? && RecordedStill(s, x, h.t)
  }

  ghost predicate RecordedStill(s: State, x: Val, t: nat) {
    && t < |s.threads| && PcLoads(s.threads[t].pc, x)
    && SlotIs(s.records, Loc(s.threads[t].pc.rec, s.threads[t].pc.load.i), x)
  }

  /** A value's count is zero exactly when its last holder has let go. */
  lemma FreedExactlyWhenLetGo(s: State, x: Val)
    requires Inv(s) && x < |s.strong|
    ensures s.strong[x] == 0 <==> LetGo(s, x)
  {
    NotNegative(s, x);
    if s.strong[x] == 0 {
      forall h | Holds(s, x, h) ensures h.ByLoad? && RecordedStill(s, x, h.t) {
        if !(h.ByLoad? && RecordedStill(s, x, h.t)) { HolderCounted(s, x, h); }
      }
    }
    if LetGo(s, x) {
      assert Balanced(s, x);
      OnlyStaleReads(s, x);
    }
  }

  lemma HolderCounted(s: State, x: Val, h: Holder)
    requires Inv(s) && x < |s.strong| && Holds(s, x, h) && !(h.ByLoad? && RecordedStill(s, x, h.t))
    ensures s.strong[x] >= 1
  {
    if h.ByGuard? {
      GuardKeepsAlive(s, h.g);
    } else {
      CountedHolder(s, x, h);
    }
  }

  /** The slot a read not yet settled is recorded in. */
  ghost function ReadSlot(s: State, x: Val, h: Holder): (l: Loc)
    requires h.ByLoad? && RecordedStill(s, x, h.t)
    ensures SlotIs(s.records, l, x)
  {
    Loc(s.threads[h.t].pc.rec, s.threads[h.t].pc.load.i)
  }

  lemma DistinctReads(s: State, x: Val, h: Holder, k: Holder)
    requires Ownership(s) && h.ByLoad? && RecordedStill(s, x, h.t) && k.ByLoad? && RecordedStill(s, x, k.t)
    requires ReadSlot(s, x, h) == ReadSlot(s, x, k)
    ensures h == k
  {
    SameReader(s, h.t, k.t);
  }

  lemma OnlyStaleReads(s: State, x: Val)
    requires Ownership(s) && Balanced(s, x) && LetGo(s, x)
    ensures x < |s.strong| && s.strong[x] <= 0
  {
    var hs, ls :| Ledger(s, x, hs, ls);
    forall h: Holder | h in hs ensures h.ByLoad? && RecordedStill(s, x, h.t) {
      assert Holds(s, x, h);
    }
    var f := map h: Holder | h in hs :: ReadSlot(s, x, h);
    forall h: Holder, k: Holder | h in hs && k in hs && f[h] == f[k] ensures h == k {
      DistinctReads(s, x, h, k);
    }
    InjectionBound(f, hs, ls);
  }

  /** Two threads do not hold one record. */
  lemma SameReader(s: State, t: nat, u: nat)
    requires Ownership(s) && t < |s.threads| && u < |s.threads|
    requires PcRecord(s.threads[t].pc).Some? && PcRecord(s.threads[t].pc) == PcRecord(s.threads[u].pc)
    ensures t == u
  {
    var r := PcRecord(s.threads[t].pc).value;
    assert Uses(s.threads, s.guards, t, r) && Uses(s.threads, s.guards, u, r);
  }

  // ---------------------------------------------------------------- every change of a count

  /** The count of `x` is left alone, or is above zero and moves by one. */
  ghost predicate MovesAlive(s: State, s': State, x: Val) {
    && x < |s.strong| <= |s'.strong|
    && (s'.strong[x] == s.strong[x]
        || (s.strong[x] >= 1 && (s'.strong[x] == s.strong[x] + 1 || s'.strong[x] == s.strong[x] - 1)))
  }

  lemma StepMovesAlive(s: State, t: nat, x: Val)
    requires Inv(s) && t < |s.threads| && x < |s.strong|
    ensures MovesAlive(s, Step(s, t), x)
  {
    NotNegative(s, x);
    assert PcOk(s.cells.Keys, s.records, |s.strong|, s.threads[t].pc);
    match s.threads[t].pc
    case Idle =>
    case Acquire(c, acq) => AcquireCounts(s, t, c, acq);
    case Load(c, r, load) => LoadCounts(s, t, c, r, load);
    case Pay(c, y, pay) =>
      if x == y { CountedHolder(s, x, Carried(t)); }
      PayCounts(s, t, c, y, pay);
    case Drop(r, drop) =>
      if drop.GiveUp? && x == drop.v { CountedHolder(s, x, Unpaid(t)); }
      DropCounts(s, t, r, drop);
  }

  lemma AcquireCounts(s: State, t: nat, c: nat, acq: AcquirePc)
    requires t < |s.threads| && RecordsOk(s) && AcquireOk(s.records, acq)
    ensures AcquireStep(s, t, c, acq).strong == s.strong
  {
  }

  lemma LoadCounts(s: State, t: nat, c: nat, r: nat, load: LoadPc)
    requires t < |s.threads| && c in s.cells && LoadOk(s.records, |s.strong|, r, load)
    ensures LoadStep(s, t, c, r, load).strong == s.strong
  {
  }

  lemma PayCounts(s: State, t: nat, c: nat, x: Val, pay: PayPc)
    requires t < |s.threads| && x < |s.strong| && RecordsOk(s) && PayOk(s.records, pay)
    ensures var strong := PayStep(s, t, c, x, pay).strong;
            strong == s.strong || strong == s.strong[x := s.strong[x] + 1] || strong == s.strong[x := s.strong[x] - 1]
  {
  }

  lemma DropCounts(s: State, t: nat, r: nat, drop: DropPc)
    requires t < |s.threads| && DropOk(s.records, |s.strong|, r, drop)
    ensures DropStep(s, t, r, drop).strong == if drop.GiveUp? then s.strong[drop.v := s.strong[drop.v] - 1] else s.strong
  {
  }

  /** A step that touches a count finds it above zero and moves it by one. */
  lemma CountMovesWhileAlive(s: State, a: Action, x: Val)
    requires Inv(s) && Enabled(s, a) && x < |s.strong|
    ensures MovesAlive(s, Next(s, a), x)
  {
    NotNegative(s, x);
    if a.Advance? {
      StepMovesAlive(s, a.t, x);
    } else if a.NewArc? || a.CloneArc? || a.DropArc? || a.ToArc? {
      if a.ToArc? { GuardKeepsAlive(s, a.g); }
      ArcCounts(s, a);
    } else {
      OtherCounts(s, a);
    }
  }

  lemma ArcCounts(s: State, a: Action)
    requires WellFormed(s) && Enabled(s, a) && (a.NewArc? || a.CloneArc? || a.DropArc? || a.ToArc?)
    ensures Next(s, a).strong ==
            match a
            case NewArc => s.strong + [1]
            case CloneArc(v) => s.strong[v := s.strong[v] + 1]
            case DropArc(v) => s.strong[v := s.strong[v] - 1]
            case ToArc(_, g) => s.strong[s.guards[g].value := s.strong[s.guards[g].value] + 1]
  {
  }

  lemma OtherCounts(s: State, a: Action)
    requires WellFormed(s) && Enabled(s, a) && !a.Advance? && !a.NewArc? && !a.CloneArc? && !a.DropArc? && !a.ToArc?
    ensures Next(s, a).strong == s.strong
  {
  }

  lemma CountsMoveInRuns(run: seq<State>, acts: seq<Action>, n: nat, x: Val)
    requires IsRun(run, acts) && n < |acts| && x < |run[n].strong|
    ensures n + 1 < |run| && MovesAlive(run[n], run[n + 1], x)
  {
    EveryStateInv(run, acts, n);
    assert StepAt(run, acts, n);
    CountMovesWhileAlive(run[n], acts[n], x);
  }

  /** A freed value stays freed: it is freed once, and its count never falls below zero. */
  lemma {:induction false} FreedOnce(run: seq<State>, acts: seq<Action>, m: nat, n: nat, x: Val)
    requires IsRun(run, acts) && m <= n < |run| && x < |run[m].strong|
    ensures x < |run[n].strong| && run[n].strong[x] >= 0
    ensures run[m].strong[x] == 0 ==> run[n].strong[x] == 0
  {
    if m == n {
      EveryStateInv(run, acts, n);
      NotNegative(run[n], x);
    } else {
      FreedOnce(run, acts, m, n - 1, x);
      CountsMoveInRuns(run, acts, n - 1, x);
    }
  }

  // ---------------------------------------------------------------- in every run

  /** Whenever a guard is alive in a run, so is its value. */
  lemma GuardsAliveInEveryRun(run: seq<State>, acts: seq<Action>, n: nat, g: nat)
    requires IsRun(run, acts) && n < |run| && g in run[n].guards
    ensures run[n].guards[g].value < |run[n].strong| && run[n].strong[run[n].guards[g].value] > 0
  {
    EveryStateInv(run, acts, n);
    GuardKeepsAlive(run[n], g);
  }

  /** The counts are exact in every run, and a value's count is zero exactly when its last
      holder has let go. */
  lemma CountsExactInEveryRun(run: seq<State>, acts: seq<Action>, n: nat, x: Val) returns (cs: set<Holder>)
    requires IsRun(run, acts) && n < |run| && x < |run[n].strong|
    ensures Counted(run[n], x, cs) && run[n].strong[x] == |cs| + run[n].arcs[x]
    ensures run[n].strong[x] == 0 <==> LetGo(run[n], x)
  {
    EveryStateInv(run, acts, n);
    cs := StrongCountIsExact(run[n], x);
    FreedExactlyWhenLetGo(run[n], x);
  }

  /** A recorded read that no load has still to settle is owed by a guard whose cell
      holds the value, or whose value a writer took out of that cell and carries towards
      the slot. */
  lemma RecordedReadsCovered(run: seq<State>, acts: seq<Action>, n: nat, l: Loc, x: Val)
    requires IsRun(run, acts) && n < |run| && SlotIs(run[n].records, l, x)
    ensures BeingLoaded(run[n].threads, l, x) || Shielded(run[n], l, x)
  {
    EveryStateInv(run, acts, n);
  }

  /** No debt is overwritten: a thread about to record a read finds the slot free, and no
      other thread uses the record. */
  lemma NoDebtOverwritten(run: seq<State>, acts: seq<Action>, n: nat, t: nat, u: nat)
    requires IsRun(run, acts) && n < |run| && t < |run[n].threads|
    requires run[n].threads[t].pc.Load? && run[n].threads[t].pc.load.StoreSlot?
    ensures var pc := run[n].threads[t].pc;
            IsLoc(run[n].records, pc.rec, pc.load.i) && run[n].records[pc.rec].slots[pc.load.i] == None
    ensures Uses(run[n].threads, run[n].guards, u, run[n].threads[t].pc.rec) ==> u == t
  {
    EveryStateInv(run, acts, n);
    var pc := run[n].threads[t].pc;
    assert SlotReady(run[n].records, pc);
    assert Uses(run[n].threads, run[n].guards, t, pc.rec);
  }
}
