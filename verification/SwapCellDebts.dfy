/** Every recorded read stays covered: by the load that has not settled it, by the cell
    it was read from, or by a writer that has not reached its slot. */
module SwapCellDebts {
  import opened Options
  import opened SwapCellMachine
  import opened SwapCellInvariant

  /** A thread moves without dropping the recorded reads it answers for. */
  lemma QuietDebts(s: State, s': State, t: nat)
    requires Debts(s) && OnlyThread(s, s', t) && s'.guards == s.guards && s'.cells == s.cells
    requires forall l, x :: SlotIs(s'.records, l, x) ==> SlotIs(s.records, l, x)
    requires forall l, x :: SlotIs(s'.records, l, x) && LoadsAt(s.threads[t].pc, l, x) ==> LoadsAt(s'.threads[t].pc, l, x)
    requires forall c, l, x :: SlotIs(s'.records, l, x) && WillPay(s.threads[t].pc, c, x, l) ==>
               WillPay(s'.threads[t].pc, c, x, l)
    ensures Debts(s')
  {
    forall l, x | SlotIs(s'.records, l, x) ensures BeingLoaded(s'.threads, l, x) || Shielded(s', l, x) {
      if BeingLoaded(s.threads, l, x) {
        var u :| 0 <= u < |s.threads| && LoadsAt(s.threads[u].pc, l, x);
        assert LoadsAt(s'.threads[u].pc, l, x);
      } else {
        ShieldKept(s, s', t, l, x);
      }
    }
  }

  /** A guard that answers for a read goes on doing so. */
  lemma ShieldKept(s: State, s': State, t: nat, l: Loc, x: Val)
    requires Shielded(s, l, x) && OnlyThread(s, s', t)
    requires forall g :: g in s.guards && OwesAt(s.guards[g], l, x) ==> g in s'.guards && s'.guards[g] == s.guards[g]
    requires forall c :: c in s.cells && s.cells[c] == Some(x) && (exists g :: g in s.guards && s.guards[g].cell == c)
               ==> Covered(s', c, x, l)
    requires forall c :: WillPay(s.threads[t].pc, c, x, l) ==> WillPay(s'.threads[t].pc, c, x, l)
    ensures Shielded(s', l, x)
  {
    var g :| g in s.guards && OwesAt(s.guards[g], l, x) && Covered(s, s.guards[g].cell, x, l);
    var c := s.guards[g].cell;
    if SomeoneWillPay(s.threads, c, x, l) {
      var w :| 0 <= w < |s.threads| && WillPay(s.threads[w].pc, c, x, l);
      assert WillPay(s'.threads[w].pc, c, x, l);
    }
    assert Covered(s', c, x, l);
  }

  lemma AcquireDebts(s: State, t: nat, c: nat, acq: AcquirePc)
    requires RecordsOk(s) && AcquireOk(s.records, acq) && Debts(s) && t < |s.threads| && s.threads[t].pc == Acquire(c, acq)
    ensures Debts(AcquireStep(s, t, c, acq))
  {
    QuietDebts(s, AcquireStep(s, t, c, acq), t);
  }

  lemma DropDebts(s: State, t: nat, r: nat, drop: DropPc)
    requires WellFormed(s) && Debts(s) && t < |s.threads| && s.threads[t].pc == Drop(r, drop)
    ensures Debts(DropStep(s, t, r, drop))
  {
    QuietDebts(s, DropStep(s, t, r, drop), t);
  }

  lemma PayDebts(s: State, t: nat, c: nat, x: Val, pay: PayPc)
    requires WellFormed(s) && ListOk(s.head, s.records) && Debts(s)
    requires t < |s.threads| && s.threads[t].pc == Pay(c, x, pay)
    ensures Debts(PayStep(s, t, c, x, pay))
  {
    var s' := PayStep(s, t, c, x, pay);
    forall d, l, y | SlotIs(s'.records, l, y) && WillPay(s.threads[t].pc, d, y, l)
      ensures WillPay(s'.threads[t].pc, d, y, l)
    {
      StillAhead(s, t, c, x, pay, l);
    }
    QuietDebts(s, s', t);
  }

  /** The walk leaves a slot behind only when the slot does not record the value. */
  lemma StillAhead(s: State, t: nat, c: nat, x: Val, pay: PayPc, l: Loc)
    requires WellFormed(s) && ListOk(s.head, s.records)
    requires t < |s.threads| && s.threads[t].pc == Pay(c, x, pay) && Ahead(pay, l)
    requires SlotIs(PayStep(s, t, c, x, pay).records, l, x)
    ensures WillPay(PayStep(s, t, c, x, pay).threads[t].pc, c, x, l)
  {
    if pay.WalkHead? || pay.WalkNext? {
      AheadInList(s, t, c, x, pay, l);
    } else {
      AheadInRecord(s, t, c, x, pay, l);
    }
  }

  lemma AheadInList(s: State, t: nat, c: nat, x: Val, pay: PayPc, l: Loc)
    requires RecordsOk(s) && PayOk(s.records, pay) && ListOk(s.head, s.records) && t < |s.threads| && x < |s.strong|
    requires (pay.WalkHead? || pay.WalkNext?) && Ahead(pay, l) && SlotIs(PayStep(s, t, c, x, pay).records, l, x)
    ensures WillPay(PayStep(s, t, c, x, pay).threads[t].pc, c, x, l)
  {
  }

  lemma AheadInRecord(s: State, t: nat, c: nat, x: Val, pay: PayPc, l: Loc)
    requires RecordsOk(s) && PayOk(s.records, pay) && t < |s.threads| && x < |s.strong|
    requires !pay.WalkHead? && !pay.WalkNext? && Ahead(pay, l) && SlotIs(PayStep(s, t, c, x, pay).records, l, x)
    ensures WillPay(PayStep(s, t, c, x, pay).threads[t].pc, c, x, l)
  {
  }

  lemma LoadDebts(s: State, t: nat, c: nat, r: nat, load: LoadPc)
    requires WellFormed(s) && Ready(s) && Debts(s) && t < |s.threads| && s.threads[t].pc == Load(c, r, load)
    ensures Debts(LoadStep(s, t, c, r, load))
  {
    var s' := LoadStep(s, t, c, r, load);
    if load.StoreSlot? || load.Recheck? || load.TakeBack? {
      LoudLoad(s, t, c, r, load);
    } else {
      QuietDebts(s, s', t);
    }
  }

  /** The read the load itself has recorded is still loading, or its guard's. */
  lemma OwnSlot(s: State, t: nat, c: nat, r: nat, load: LoadPc)
    requires WellFormed(s) && t < |s.threads| && s.threads[t].pc == Load(c, r, load)
    requires load.StoreSlot? || load.Recheck? || load.TakeBack?
    requires SlotIs(LoadStep(s, t, c, r, load).records, Loc(r, load.i), load.v)
    ensures var s' := LoadStep(s, t, c, r, load);
            BeingLoaded(s'.threads, Loc(r, load.i), load.v) || Shielded(s', Loc(r, load.i), load.v)
  {
    var s', l, x := LoadStep(s, t, c, r, load), Loc(r, load.i), load.v;
    if load.Recheck? && s.cells[c] == Some(x) {
      assert OwesAt(s'.guards[s.nextGuard], l, x) && Covered(s', c, x, l);
    } else {
      assert LoadsAt(s'.threads[t].pc, l, x);
    }
  }

  lemma LoudLoad(s: State, t: nat, c: nat, r: nat, load: LoadPc)
    requires WellFormed(s) && Ready(s) && Debts(s) && t < |s.threads| && s.threads[t].pc == Load(c, r, load)
    requires load.StoreSlot? || load.Recheck? || load.TakeBack?
    ensures Debts(LoadStep(s, t, c, r, load))
  {
    var s' := LoadStep(s, t, c, r, load);
    LoudFrame(s, t, c, r, load);
    forall l, x | SlotIs(s'.records, l, x) ensures BeingLoaded(s'.threads, l, x) || Shielded(s', l, x) {
      if l == Loc(r, load.i) && x == load.v {
        OwnSlot(s, t, c, r, load);
      } else {
        LoudSlots(s, t, c, r, load, l, x);
        KeptCovered(s, s', t, l, x);
      }
    }
  }

  /** What such a step of a load leaves alone. */
  lemma LoudFrame(s: State, t: nat, c: nat, r: nat, load: LoadPc)
    requires WellFormed(s) && t < |s.threads| && s.threads[t].pc == Load(c, r, load)
    requires load.StoreSlot? || load.Recheck? || load.TakeBack?
    ensures var s' := LoadStep(s, t, c, r, load); s'.cells == s.cells && OnlyThread(s, s', t) && GuardsKept(s.guards, s'.guards)
  {
  }

  ghost predicate GuardsKept(guards: map<nat, Guard>, guards': map<nat, Guard>) {
    forall g :: g in guards ==> g in guards' && guards'[g] == guards[g]
  }

  lemma LoudSlots(s: State, t: nat, c: nat, r: nat, load: LoadPc, l: Loc, x: Val)
    requires t < |s.threads| && c in s.cells && LoadOk(s.records, |s.strong|, r, load)
    requires load.StoreSlot? || load.Recheck? || load.TakeBack?
    requires SlotIs(LoadStep(s, t, c, r, load).records, l, x) && (l != Loc(r, load.i) || x != load.v)
    ensures SlotIs(s.records, l, x)
  {
  }

  /** A recorded read that is not the moving load's stays covered. */
  lemma KeptCovered(s: State, s': State, t: nat, l: Loc, x: Val)
    requires Debts(s) && SlotIs(s.records, l, x) && OnlyThread(s, s', t) && s.threads[t].pc.Load?
    requires s'.cells == s.cells && GuardsKept(s.guards, s'.guards) && !LoadsAt(s.threads[t].pc, l, x)
    ensures BeingLoaded(s'.threads, l, x) || Shielded(s', l, x)
  {
    if BeingLoaded(s.threads, l, x) {
      var u :| 0 <= u < |s.threads| && LoadsAt(s.threads[u].pc, l, x);
      assert LoadsAt(s'.threads[u].pc, l, x);
    } else {
      ShieldKept(s, s', t, l, x);
    }
  }

  /** A dropped guard's slot is freed, or did not record its read any more. */
  lemma DropGuardDebts(s: State, t: nat, id: nat)
    requires WellFormed(s) && Debts(s) && IdleThread(s, t) && id in s.guards
    ensures Debts(DropGuardStep(s, t, id))
  {
    var s' := DropGuardStep(s, t, id);
    forall l, x | SlotIs(s'.records, l, x) ensures BeingLoaded(s'.threads, l, x) || Shielded(s', l, x) {
      assert SlotIs(s.records, l, x);
      if BeingLoaded(s.threads, l, x) {
        var u :| 0 <= u < |s.threads| && LoadsAt(s.threads[u].pc, l, x);
        assert LoadsAt(s'.threads[u].pc, l, x);
      } else {
        ShieldKept(s, s', t, l, x);
      }
    }
  }

  /** What a write takes out of a cell it still has to pay everywhere. */
  lemma WriteFrame(s: State, t: nat, c: nat, v: Option<Val>)
    requires t < |s.threads| && c in s.cells
    ensures Written(s, WriteStep(s, t, c, v), t, c, v)
  {
    var put := PutCell(TakeArc(s, v), c, v);
    assert put.threads == s.threads && put.records == s.records && put.guards == s.guards;
  }

  /** Thread `t` has put `v` in the cell and is to pay the debts on what was there. */
  ghost predicate Written(s: State, s': State, t: nat, c: nat, v: Option<Val>) {
    && OnlyThread(s, s', t) && s'.records == s.records && s'.guards == s.guards
    && c in s.cells && s'.cells == s.cells[c := v]
    && (s.cells[c].Some? ==> s'.threads[t].pc == Pay(c, s.cells[c].value, WalkHead))
    && (s.cells[c].None? ==> s'.threads[t].pc == s.threads[t].pc)
  }

  lemma WriteDebts(s: State, t: nat, c: nat, v: Option<Val>)
    requires Debts(s) && IdleThread(s, t) && c in s.cells
    ensures Debts(WriteStep(s, t, c, v))
  {
    var s' := WriteStep(s, t, c, v);
    WriteFrame(s, t, c, v);
    forall l, x: Val | SlotIs(s'.records, l, x) ensures BeingLoaded(s'.threads, l, x) || Shielded(s', l, x) {
      WrittenCovered(s, s', t, c, v, l, x);
    }
  }

  lemma WrittenCovered(s: State, s': State, t: nat, c: nat, v: Option<Val>, l: Loc, x: Val)
    requires Debts(s) && IdleThread(s, t) && Written(s, s', t, c, v) && SlotIs(s.records, l, x)
    ensures BeingLoaded(s'.threads, l, x) || Shielded(s', l, x)
  {
    if BeingLoaded(s.threads, l, x) {
      var u :| 0 <= u < |s.threads| && LoadsAt(s.threads[u].pc, l, x);
      assert LoadsAt(s'.threads[u].pc, l, x);
    } else {
      if s.cells[c] == Some(x) {
        assert WillPay(s'.threads[t].pc, c, x, l);
        assert SomeoneWillPay(s'.threads, c, x, l);
      }
      ShieldKept(s, s', t, l, x);
    }
  }

  /** Cells come and go without touching what a guard reads from. */
  lemma CellsDebts(s: State, s': State)
    requires Debts(s) && s'.records == s.records && s'.threads == s.threads && s'.guards == s.guards
    requires forall g :: g in s.guards && s.guards[g].cell in s.cells ==>
               s.guards[g].cell in s'.cells && s'.cells[s.guards[g].cell] == s.cells[s.guards[g].cell]
    ensures Debts(s')
  {
    forall l, x | SlotIs(s'.records, l, x) ensures BeingLoaded(s'.threads, l, x) || Shielded(s', l, x) {
      if !BeingLoaded(s.threads, l, x) {
        var g :| g in s.guards && OwesAt(s.guards[g], l, x) && Covered(s, s.guards[g].cell, x, l);
        assert Covered(s', s'.guards[g].cell, x, l);
      }
    }
  }

  lemma StepDebts(s: State, t: nat)
    requires WellFormed(s) && ListOk(s.head, s.records) && Ready(s) && Debts(s) && t < |s.threads|
    ensures Debts(Step(s, t))
  {
    match s.threads[t].pc
    case Idle =>
    case Acquire(c, acq) => AcquireDebts(s, t, c, acq);
    case Load(c, r, load) => LoadDebts(s, t, c, r, load);
    case Pay(c, x, pay) => PayDebts(s, t, c, x, pay);
    case Drop(r, drop) => DropDebts(s, t, r, drop);
  }

  lemma BeginDebts(s: State, t: nat, c: nat)
    requires WellFormed(s) && Debts(s) && IdleThread(s, t)
    ensures Debts(BeginLoadStep(s, t, c)) && Debts(GiveBackStep(s, t))
  {
    QuietDebts(s, BeginLoadStep(s, t, c), t);
    QuietDebts(s, GiveBackStep(s, t), t);
  }

  lemma KeepsDebts(s: State, a: Action)
    requires WellFormed(s) && ListOk(s.head, s.records) && Ready(s) && Debts(s) && Enabled(s, a)
    ensures Debts(Next(s, a))
  {
    match a
    case BeginLoad(t, c) => BeginDebts(s, t, c);
    case GiveBack(t) => BeginDebts(s, t, 0);
    case Swap(t, c, v) => WriteDebts(s, t, c, v);
    case CompareAndSet(t, c, current, v) => WriteDebts(s, t, c, v);
    case DropGuard(t, g) => DropGuardDebts(s, t, g);
    case Advance(t) => StepDebts(s, t);
    case WeakFail(t) => WeakFailDebts(s, t);
    case NewCell(c, init) => CellsDebts(s, PutCell(TakeArc(s, init), c, init));
    case DropCell(c) => CellsDebts(s, GiveArc(s.(cells := s.cells - {c}), s.cells[c]));
    case _ => ArcsDebts(s, a);
  }

  lemma WeakFailDebts(s: State, t: nat)
    requires Debts(s) && t < |s.threads| && s.threads[t].pc.Acquire?
    ensures Debts(Goto(s, t, Acquire(s.threads[t].pc.cell, Publish(s.head))))
  {
    QuietDebts(s, Goto(s, t, Acquire(s.threads[t].pc.cell, Publish(s.head))), t);
  }

  lemma ArcsDebts(s: State, a: Action)
    requires WellFormed(s) && Debts(s) && Enabled(s, a)
    requires a.NewArc? || a.CloneArc? || a.DropArc? || a.ToArc?
    ensures Debts(Next(s, a))
  {
    var s' := Next(s, a);
    assert s'.records == s.records && s'.threads == s.threads && s'.guards == s.guards && s'.cells == s.cells;
    CellsDebts(s, s');
  }
}
