/** References are conserved: at every step what is added to a value's strong count or
    to the reads recorded against it is matched by what comes to hold the value. */
module SwapCellAccounts {
  import opened Options
  import opened SwapCellMachine
  import opened SwapCellInvariant

  // ---------------------------------------------------------------- one value's ledger

  /** The holders of `x` that thread `t` is, at `pc`. */
  function HeldByPc(t: nat, pc: Pc, x: Val): set<Holder> {
    (if PcCarries(pc, x) then {Carried(t)} else {}) + (if PcUnsettled(pc, x) then {Unsettled(t)} else {})
    + (if PcLoads(pc, x) then {ByLoad(t)} else {}) + (if PcUnpaid(pc, x) then {Unpaid(t)} else {})
  }

  function Weight(pc: Pc, x: Val): nat {
    (if PcCarries(pc, x) then 1 else 0) + (if PcUnsettled(pc, x) then 1 else 0)
    + (if PcLoads(pc, x) then 1 else 0) + (if PcUnpaid(pc, x) then 1 else 0)
  }

  lemma WeightIsSize(t: nat, pc: Pc, x: Val)
    ensures |HeldByPc(t, pc, x)| == Weight(pc, x)
  {
  }

  /** Of the cells and guards that hold `x`, exactly `gone` go and `come` come. */
  ghost predicate StandingMove(s: State, s': State, x: Val, gone: set<Holder>, come: set<Holder>) {
    && (forall c :: Holds(s', x, InCell(c)) <==> (Holds(s, x, InCell(c)) && InCell(c) !in gone) || InCell(c) in come)
    && (forall g :: Holds(s', x, ByGuard(g)) <==> (Holds(s, x, ByGuard(g)) && ByGuard(g) !in gone) || ByGuard(g) in come)
    && (forall h :: h in gone ==> (h.InCell? || h.ByGuard?) && Holds(s, x, h))
    && (forall h :: h in come ==> (h.InCell? || h.ByGuard?) && !Holds(s, x, h))
  }

  /** Of the slots recording `x`, exactly `freed` go and exactly `filled` come. */
  ghost predicate SlotsMove(rs: seq<Record>, rs': seq<Record>, x: Val, freed: set<Loc>, filled: set<Loc>) {
    && (forall l :: SlotIs(rs', l, x) <==> (SlotIs(rs, l, x) && l !in freed) || l in filled)
    && (forall l :: l in freed ==> SlotIs(rs, l, x))
    && (forall l :: l in filled ==> !SlotIs(rs, l, x))
  }

  lemma Sizes<T>(a: set<T>, minus: set<T>, plus: set<T>)
    requires minus <= a && plus !! (a - minus)
    ensures |a - minus + plus| == |a| - |minus| + |plus|
  {
    assert |a - minus| == |a| - |minus|;
    assert |(a - minus) + plus| == |a - minus| + |plus| - |(a - minus) * plus|;
    assert (a - minus) * plus == {};
  }

  lemma HoldersMoved(s: State, s': State, t: nat, x: Val, hs: set<Holder>, gone: set<Holder>, come: set<Holder>)
    requires AreHolders(s, x, hs) && OnlyThread(s, s', t) && StandingMove(s, s', x, gone, come)
    ensures AreHolders(s', x, hs - (gone + HeldByPc(t, s.threads[t].pc, x)) + (come + HeldByPc(t, s'.threads[t].pc, x)))
  {
    var hs' := hs - (gone + HeldByPc(t, s.threads[t].pc, x)) + (come + HeldByPc(t, s'.threads[t].pc, x));
    forall h ensures h in hs' <==> Holds(s', x, h) {
      assert h in hs <==> Holds(s, x, h);
    }
  }

  lemma MovedSize<T>(a: set<T>, gone: set<T>, here: set<T>, come: set<T>, there: set<T>)
    requires gone <= a && here <= a && gone !! here && come !! there && come !! a && there * a <= here
    ensures |a - (gone + here) + (come + there)| == |a| - |gone| - |here| + |come| + |there|
  {
    assert |gone + here| == |gone| + |here|;
    assert |come + there| == |come| + |there|;
    Sizes(a, gone + here, come + there);
  }

  /** What a thread holds at its pc is among the holders. */
  lemma PcHolds(s: State, t: nat, x: Val, hs: set<Holder>)
    requires AreHolders(s, x, hs) && t < |s.threads|
    ensures HeldByPc(t, s.threads[t].pc, x) <= hs
    ensures forall h :: h in hs && (h.Carried? || h.Unsettled? || h.ByLoad? || h.Unpaid?) && h.t == t ==>
              h in HeldByPc(t, s.threads[t].pc, x)
  {
    forall h | h in HeldByPc(t, s.threads[t].pc, x) ensures h in hs {
      assert Holds(s, x, h);
    }
  }

  lemma Apart(t: nat, pc: Pc, x: Val, standing: set<Holder>)
    requires forall h :: h in standing ==> h.InCell? || h.ByGuard?
    ensures standing !! HeldByPc(t, pc, x)
  {
  }

  lemma HoldersCount(s: State, s': State, t: nat, x: Val, hs: set<Holder>, gone: set<Holder>, come: set<Holder>)
    requires AreHolders(s, x, hs) && OnlyThread(s, s', t) && StandingMove(s, s', x, gone, come)
    ensures |hs - (gone + HeldByPc(t, s.threads[t].pc, x)) + (come + HeldByPc(t, s'.threads[t].pc, x))|
            == |hs| - |gone| - Weight(s.threads[t].pc, x) + |come| + Weight(s'.threads[t].pc, x)
  {
    var here, there := HeldByPc(t, s.threads[t].pc, x), HeldByPc(t, s'.threads[t].pc, x);
    WeightIsSize(t, s.threads[t].pc, x);
    WeightIsSize(t, s'.threads[t].pc, x);
    PcHolds(s, t, x, hs);
    assert gone <= hs by { forall h | h in gone ensures h in hs { assert Holds(s, x, h); } }
    assert come !! hs by { forall h | h in come ensures h !in hs { assert !Holds(s, x, h); } }
    Apart(t, s.threads[t].pc, x, gone);
    Apart(t, s'.threads[t].pc, x, come);
    assert there * hs <= here;
    MovedSize(hs, gone, here, come, there);
  }

  lemma SlotsMoved(rs: seq<Record>, rs': seq<Record>, x: Val, ls: set<Loc>, freed: set<Loc>, filled: set<Loc>)
    requires AreSlots(rs, x, ls) && SlotsMove(rs, rs', x, freed, filled)
    ensures AreSlots(rs', x, ls - freed + filled)
    ensures |ls - freed + filled| == |ls| - |freed| + |filled|
  {
    Sizes(ls, freed, filled);
  }

  lemma ToLedger(s: State, x: Val, hs: set<Holder>, ls: set<Loc>)
    requires x < |s.strong| && AreHolders(s, x, hs) && AreSlots(s.records, x, ls)
    requires s.strong[x] + |ls| == |hs| + s.arcs[x]
    ensures Balanced(s, x)
  {
    assert Ledger(s, x, hs, ls);
  }

  /** One step's effect on one value: both sides of its ledger move alike. */
  lemma Rebalanced(s: State, s': State, t: nat, x: Val, gone: set<Holder>, come: set<Holder>, freed: set<Loc>, filled: set<Loc>)
    requires x < |s.strong| && x < |s'.strong| && Balanced(s, x) && OnlyThread(s, s', t)
    requires StandingMove(s, s', x, gone, come) && SlotsMove(s.records, s'.records, x, freed, filled)
    requires s'.strong[x] - s.strong[x] + |filled| - |freed|
             == Weight(s'.threads[t].pc, x) - Weight(s.threads[t].pc, x) + |come| - |gone| + s'.arcs[x] - s.arcs[x]
    ensures Balanced(s', x)
  {
    var hs, ls :| Ledger(s, x, hs, ls);
    HoldersMoved(s, s', t, x, hs, gone, come);
    HoldersCount(s, s', t, x, hs, gone, come);
    SlotsMoved(s.records, s'.records, x, ls, freed, filled);
    ToLedger(s', x, hs - (gone + HeldByPc(t, s.threads[t].pc, x)) + (come + HeldByPc(t, s'.threads[t].pc, x)), ls - freed + filled);
  }

  /** The same with no thread moving and no slot touched. */
  lemma Restood(s: State, s': State, x: Val, gone: set<Holder>, come: set<Holder>)
    requires x < |s.strong| && x < |s'.strong| && Balanced(s, x)
    requires s'.threads == s.threads && s'.records == s.records && StandingMove(s, s', x, gone, come)
    requires s'.strong[x] - s.strong[x] == |come| - |gone| + s'.arcs[x] - s.arcs[x]
    ensures Balanced(s', x)
  {
    var hs, ls :| Ledger(s, x, hs, ls);
    assert gone <= hs by { forall h | h in gone ensures h in hs { assert Holds(s, x, h); } }
    assert come !! hs by { forall h | h in come ensures h !in hs { assert !Holds(s, x, h); } }
    Sizes(hs, gone, come);
    RestoodHolders(s, s', x, hs, gone, come);
    ToLedger(s', x, hs - gone + come, ls);
  }

  lemma RestoodHolders(s: State, s': State, x: Val, hs: set<Holder>, gone: set<Holder>, come: set<Holder>)
    requires AreHolders(s, x, hs) && s'.threads == s.threads && StandingMove(s, s', x, gone, come)
    ensures AreHolders(s', x, hs - gone + come)
  {
    forall h ensures h in hs - gone + come <==> Holds(s', x, h) {
      assert h in hs <==> Holds(s, x, h);
    }
  }

  // ---------------------------------------------------------------- each step

  /** Records and slots may be added, all free; nothing else changes. */
  ghost predicate OnlyFreeAdded(rs: seq<Record>, rs': seq<Record>) {
    && |rs| <= |rs'|
    && (forall q :: 0 <= q < |rs| ==> rs[q].slots <= rs'[q].slots)
    && (forall q, i :: 0 <= q < |rs'| && (if q < |rs| then |rs[q].slots| else 0) <= i < |rs'[q].slots| ==>
          rs'[q].slots[i] == None)
  }

  lemma FreeAdded(rs: seq<Record>, rs': seq<Record>, x: Val)
    requires OnlyFreeAdded(rs, rs')
    ensures SlotsMove(rs, rs', x, {}, {})
  {
    forall l ensures SlotIs(rs', l, x) <==> SlotIs(rs, l, x) {
      if l.rec < |rs| && l.idx < |rs[l.rec].slots| {
        assert rs'[l.rec].slots[l.idx] == rs[l.rec].slots[l.idx];
      }
    }
  }

  /** Writing one slot moves at most that slot. */
  lemma SlotWritten(s: State, r: nat, i: nat, v: Option<Val>, x: Val)
    requires IsLoc(s.records, r, i)
    ensures var was := s.records[r].slots[i];
            SlotsMove(s.records, SetSlot(s, r, i, v).records, x,
                      if was == Some(x) && v != Some(x) then {Loc(r, i)} else {},
                      if was != Some(x) && v == Some(x) then {Loc(r, i)} else {})
  {
    var rs' := SetSlot(s, r, i, v).records;
    forall l | l != Loc(r, i) ensures SlotIs(rs', l, x) <==> SlotIs(s.records, l, x) {
    }
  }

  lemma AcquireRecords(s: State, t: nat, c: nat, acq: AcquirePc)
    requires RecordsOk(s) && AcquireOk(s.records, acq) && t < |s.threads|
    ensures OnlyFreeAdded(s.records, AcquireStep(s, t, c, acq).records)
  {
  }

  lemma AcquireRest(s: State, t: nat, c: nat, acq: AcquirePc)
    requires RecordsOk(s) && AcquireOk(s.records, acq) && t < |s.threads| && s.threads[t].pc == Acquire(c, acq)
    ensures var s' := AcquireStep(s, t, c, acq);
            && s'.strong == s.strong && s'.arcs == s.arcs && s'.cells == s.cells && s'.guards == s.guards
            && OnlyThread(s, s', t) && forall x: Val :: Weight(s'.threads[t].pc, x) == Weight(s.threads[t].pc, x)
  {
  }

  lemma AcquireAccounts(s: State, t: nat, c: nat, acq: AcquirePc)
    requires RecordsOk(s) && AcquireOk(s.records, acq) && Accounts(s) && t < |s.threads| && s.threads[t].pc == Acquire(c, acq)
    ensures Accounts(AcquireStep(s, t, c, acq))
  {
    AcquireRecords(s, t, c, acq);
    AcquireRest(s, t, c, acq);
    MoveAccounts(s, AcquireStep(s, t, c, acq), t);
  }

  lemma LoadAccounts(s: State, t: nat, c: nat, r: nat, load: LoadPc)
    requires WellFormed(s) && Ready(s) && Accounts(s) && t < |s.threads| && s.threads[t].pc == Load(c, r, load)
    ensures Accounts(LoadStep(s, t, c, r, load))
  {
    var s' := LoadStep(s, t, c, r, load);
    if load.StoreSlot? || load.Recheck? || load.TakeBack? {
      forall x: Val | x < |s'.strong| ensures Balanced(s', x) {
        if load.StoreSlot? {
          StoreBalance(s, t, c, r, load, x);
        } else if load.Recheck? {
          RecheckBalance(s, t, c, r, load, x);
        } else {
          TakeBackBalance(s, t, c, r, load, x);
        }
      }
    } else {
      MoveAccounts(s, s', t);
    }
  }

  lemma StoreBalance(s: State, t: nat, c: nat, r: nat, load: LoadPc, x: Val)
    requires WellFormed(s) && Ready(s) && Accounts(s) && t < |s.threads| && s.threads[t].pc == Load(c, r, load)
    requires load.StoreSlot? && x < |s.strong|
    ensures Balanced(LoadStep(s, t, c, r, load), x)
  {
    assert SlotReady(s.records, s.threads[t].pc);
    SlotWritten(s, r, load.i, Some(load.v), x);
    Rebalanced(s, LoadStep(s, t, c, r, load), t, x, {}, {}, {}, if load.v == x then {Loc(r, load.i)} else {});
  }

  lemma RecheckBalance(s: State, t: nat, c: nat, r: nat, load: LoadPc, x: Val)
    requires WellFormed(s) && Accounts(s) && t < |s.threads| && s.threads[t].pc == Load(c, r, load)
    requires load.Recheck? && x < |s.strong|
    ensures Balanced(LoadStep(s, t, c, r, load), x)
  {
    assert s.nextGuard !in s.guards;
    var confirmed := s.cells[c] == Some(load.v) && load.v == x;
    Rebalanced(s, LoadStep(s, t, c, r, load), t, x, {}, if confirmed then {ByGuard(s.nextGuard)} else {}, {}, {});
  }

  lemma TakeBackBalance(s: State, t: nat, c: nat, r: nat, load: LoadPc, x: Val)
    requires WellFormed(s) && Accounts(s) && t < |s.threads| && s.threads[t].pc == Load(c, r, load)
    requires load.TakeBack? && x < |s.strong|
    ensures Balanced(LoadStep(s, t, c, r, load), x)
  {
    var s' := LoadStep(s, t, c, r, load);
    assert s.nextGuard !in s.guards;
    if s.records[r].slots[load.i] == Some(load.v) {
      SlotWritten(s, r, load.i, None, x);
      Rebalanced(s, s', t, x, {}, {}, if load.v == x then {Loc(r, load.i)} else {}, {});
    } else {
      Rebalanced(s, s', t, x, {}, if load.v == x then {ByGuard(s.nextGuard)} else {}, {}, {});
    }
  }

  lemma PayAccounts(s: State, t: nat, c: nat, x: Val, pay: PayPc)
    requires WellFormed(s) && Accounts(s) && t < |s.threads| && s.threads[t].pc == Pay(c, x, pay)
    ensures Accounts(PayStep(s, t, c, x, pay))
  {
    var s' := PayStep(s, t, c, x, pay);
    forall y: Val | y < |s'.strong| ensures Balanced(s', y) {
      if pay.Settle? {
        SettleBalance(s, t, c, x, pay, y);
      } else {
        Rebalanced(s, s', t, y, {}, {}, {}, {});
      }
    }
  }

  lemma SettleBalance(s: State, t: nat, c: nat, x: Val, pay: PayPc, y: Val)
    requires WellFormed(s) && Accounts(s) && t < |s.threads| && s.threads[t].pc == Pay(c, x, pay)
    requires pay.Settle? && y < |s.strong|
    ensures Balanced(PayStep(s, t, c, x, pay), y)
  {
    SlotWritten(s, pay.r, pay.i, None, y);
    var paid := s.records[pay.r].slots[pay.i] == Some(x) && x == y;
    Rebalanced(s, PayStep(s, t, c, x, pay), t, y, {}, {}, if paid then {Loc(pay.r, pay.i)} else {}, {});
  }

  lemma DropAccounts(s: State, t: nat, r: nat, drop: DropPc)
    requires WellFormed(s) && Accounts(s) && t < |s.threads| && s.threads[t].pc == Drop(r, drop)
    ensures Accounts(DropStep(s, t, r, drop))
  {
    var s' := DropStep(s, t, r, drop);
    forall y: Val | y < |s'.strong| ensures Balanced(s', y) {
      Rebalanced(s, s', t, y, {}, {}, {}, {});
    }
  }

  lemma DropGuardAccounts(s: State, t: nat, id: nat)
    requires WellFormed(s) && Accounts(s) && IdleThread(s, t) && id in s.guards
    ensures Accounts(DropGuardStep(s, t, id))
  {
    forall y: Val | y < |s.strong| ensures Balanced(DropGuardStep(s, t, id), y) {
      DropGuardBalance(s, t, id, y);
    }
  }

  lemma DropGuardBalance(s: State, t: nat, id: nat, y: Val)
    requires WellFormed(s) && Accounts(s) && IdleThread(s, t) && id in s.guards && y < |s.strong|
    ensures Balanced(DropGuardStep(s, t, id), y)
  {
    var g := s.guards[id];
    var gone := if g.value == y then {ByGuard(id)} else {};
    if g.hold.Owed? && SlotIs(s.records, g.hold.slot, g.value) {
      SlotWritten(s, g.rec, g.hold.slot.idx, None, y);
      Rebalanced(s, DropGuardStep(s, t, id), t, y, gone, {}, if g.value == y then {g.hold.slot} else {}, {});
    } else {
      Rebalanced(s, DropGuardStep(s, t, id), t, y, gone, {}, {}, {});
    }
  }

  lemma WriteAccounts(s: State, t: nat, c: nat, v: Option<Val>)
    requires WellFormed(s) && Accounts(s) && IdleThread(s, t) && c in s.cells && HasArc(s, v)
    ensures Accounts(WriteStep(s, t, c, v))
  {
    forall y: Val | y < |s.strong| ensures Balanced(WriteStep(s, t, c, v), y) {
      WriteBalance(s, t, c, v, y);
    }
  }

  /** Putting `v` in `c` moves at most that cell among the holders. */
  lemma CellPut(s: State, s': State, c: nat, v: Option<Val>, y: Val)
    requires c in s.cells && s'.cells == s.cells[c := v] && s'.guards == s.guards
    ensures StandingMove(s, s', y, if s.cells[c] == Some(y) && v != Some(y) then {InCell(c)} else {},
                         if s.cells[c] != Some(y) && v == Some(y) then {InCell(c)} else {})
  {
  }

  lemma WriteBalance(s: State, t: nat, c: nat, v: Option<Val>, y: Val)
    requires y < |s.strong| && Balanced(s, y) && IdleThread(s, t) && c in s.cells && HasArc(s, v)
    ensures Balanced(WriteStep(s, t, c, v), y)
  {
    var s' := WriteStep(s, t, c, v);
    CellPut(s, s', c, v, y);
    FreeAdded(s.records, s'.records, y);
    WriteTotals(s, t, c, v, y);
    Rebalanced(s, s', t, y, if s.cells[c] == Some(y) && v != Some(y) then {InCell(c)} else {},
               if s.cells[c] != Some(y) && v == Some(y) then {InCell(c)} else {}, {}, {});
  }

  lemma WriteTotals(s: State, t: nat, c: nat, v: Option<Val>, y: Val)
    requires IdleThread(s, t) && c in s.cells && HasArc(s, v)
    ensures var s' := WriteStep(s, t, c, v);
            && s'.arcs[y] == s.arcs[y] - (if v == Some(y) then 1 else 0)
            && Weight(s'.threads[t].pc, y) == (if s.cells[c] == Some(y) then 1 else 0)
            && Weight(s.threads[t].pc, y) == 0
  {
  }

  lemma StepAccounts(s: State, t: nat)
    requires WellFormed(s) && Ready(s) && Accounts(s) && t < |s.threads|
    ensures Accounts(Step(s, t))
  {
    match s.threads[t].pc
    case Idle =>
    case Acquire(c, acq) => AcquireAccounts(s, t, c, acq);
    case Load(c, r, load) => LoadAccounts(s, t, c, r, load);
    case Pay(c, x, pay) => PayAccounts(s, t, c, x, pay);
    case Drop(r, drop) => DropAccounts(s, t, r, drop);
  }

  /** Actions on `Arc`s alone. */
  lemma ArcAccounts(s: State, a: Action)
    requires WellFormed(s) && Accounts(s) && Enabled(s, a)
    requires a.NewArc? || a.CloneArc? || a.DropArc? || a.ToArc?
    ensures Accounts(Next(s, a))
  {
    var s' := Next(s, a);
    forall y: Val | y < |s'.strong| ensures Balanced(s', y) {
      if y < |s.strong| {
        Restood(s, s', y, {}, {});
      } else {
        NewValue(s, s', y);
      }
    }
  }

  /** Nothing holds a value that did not exist. */
  lemma NewValue(s: State, s': State, x: Val)
    requires WellFormed(s) && |s.strong| <= x < |s'.strong| && s'.strong[x] == s'.arcs[x]
    requires s'.threads == s.threads && s'.records == s.records && s'.guards == s.guards && s'.cells == s.cells
    ensures Balanced(s', x)
  {
    forall h ensures !Holds(s', x, h) {
      match h
      case InCell(c) => assert c in s.cells ==> Below(s.cells[c], |s.strong|);
      case ByGuard(g) =>
      case Carried(t) => assert t < |s.threads| ==> PcOk(s.cells.Keys, s.records, |s.strong|, s.threads[t].pc);
      case Unsettled(t) => assert t < |s.threads| ==> PcOk(s.cells.Keys, s.records, |s.strong|, s.threads[t].pc);
      case ByLoad(t) => assert t < |s.threads| ==> PcOk(s.cells.Keys, s.records, |s.strong|, s.threads[t].pc);
      case Unpaid(t) => assert t < |s.threads| ==> PcOk(s.cells.Keys, s.records, |s.strong|, s.threads[t].pc);
    }
    forall l ensures !SlotIs(s'.records, l, x) {
      if l.rec < |s.records| { assert RecordOk(|s.records|, |s.strong|, s.records[l.rec]); }
    }
    ToLedger(s', x, {}, {});
  }

  /** A cell takes over a caller's reference, or gives its own back. */
  lemma CellAccounts(s: State, a: Action)
    requires WellFormed(s) && Accounts(s) && Enabled(s, a) && (a.NewCell? || a.DropCell?)
    ensures Accounts(Next(s, a))
  {
    forall y: Val | y < |s.strong| ensures Balanced(Next(s, a), y) {
      CellBalance(s, a, y);
    }
  }

  lemma CellBalance(s: State, a: Action, y: Val)
    requires WellFormed(s) && Accounts(s) && Enabled(s, a) && (a.NewCell? || a.DropCell?) && y < |s.strong|
    ensures Balanced(Next(s, a), y)
  {
    assert Balanced(s, y);
    if a.NewCell? {
      NewCellBalance(s, a.c, a.init, y);
    } else {
      DropCellBalance(s, a.c, y);
    }
  }

  lemma NewCellBalance(s: State, c: nat, init: Option<Val>, y: Val)
    requires y < |s.strong| && Balanced(s, y) && c !in s.cells && HasArc(s, init)
    ensures Balanced(PutCell(TakeArc(s, init), c, init), y)
  {
    var s' := PutCell(TakeArc(s, init), c, init);
    assert s'.arcs[y] == s.arcs[y] - (if init == Some(y) then 1 else 0);
    Restood(s, s', y, {}, if init == Some(y) then {InCell(c)} else {});
  }

  lemma DropCellBalance(s: State, c: nat, y: Val)
    requires y < |s.strong| && Balanced(s, y) && c in s.cells
    ensures Balanced(GiveArc(s.(cells := s.cells - {c}), s.cells[c]), y)
  {
    var s' := GiveArc(s.(cells := s.cells - {c}), s.cells[c]);
    assert s'.arcs[y] == s.arcs[y] + (if s.cells[c] == Some(y) then 1 else 0);
    Restood(s, s', y, if s.cells[c] == Some(y) then {InCell(c)} else {}, {});
  }

  /** A thread moves without taking or giving up anything. */
  lemma MoveAccounts(s: State, s': State, t: nat)
    requires Accounts(s) && OnlyThread(s, s', t) && OnlyFreeAdded(s.records, s'.records)
    requires s'.strong == s.strong && s'.arcs == s.arcs && s'.cells == s.cells && s'.guards == s.guards
    requires forall x: Val :: Weight(s'.threads[t].pc, x) == Weight(s.threads[t].pc, x)
    ensures Accounts(s')
  {
    forall y: Val | y < |s'.strong| ensures Balanced(s', y) {
      FreeAdded(s.records, s'.records, y);
      Rebalanced(s, s', t, y, {}, {}, {}, {});
    }
  }

  lemma GiveBackAccounts(s: State, t: nat)
    requires WellFormed(s) && Accounts(s) && IdleThread(s, t)
    ensures Accounts(GiveBackStep(s, t))
  {
    MoveAccounts(s, GiveBackStep(s, t), t);
  }

  lemma BeginAccounts(s: State, a: Action)
    requires WellFormed(s) && Accounts(s) && Enabled(s, a) && (a.BeginLoad? || a.GiveBack? || a.WeakFail?)
    ensures Accounts(Next(s, a))
  {
    match a
    case BeginLoad(t, c) => MoveAccounts(s, BeginLoadStep(s, t, c), t);
    case GiveBack(t) => GiveBackAccounts(s, t);
    case WeakFail(t) => MoveAccounts(s, Goto(s, t, Acquire(s.threads[t].pc.cell, Publish(s.head))), t);
  }

  lemma KeepsAccounts(s: State, a: Action)
    requires WellFormed(s) && Ready(s) && Accounts(s) && Enabled(s, a)
    ensures Accounts(Next(s, a))
  {
    match a
    case NewCell(c, init) => CellAccounts(s, a);
    case DropCell(c) => CellAccounts(s, a);
    case BeginLoad(t, c) => BeginAccounts(s, a);
    case GiveBack(t) => BeginAccounts(s, a);
    case WeakFail(t) => BeginAccounts(s, a);
    case Swap(t, c, v) => WriteAccounts(s, t, c, v);
    case CompareAndSet(t, c, current, v) => WriteAccounts(s, t, c, v);
    case DropGuard(t, g) => DropGuardAccounts(s, t, g);
    case Advance(t) => StepAccounts(s, t);
    case _ => ArcAccounts(s, a);
  }
}
