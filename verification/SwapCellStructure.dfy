/** Every index stays in range and the record list stays linked newest first. */
module SwapCellStructure {
  import opened Options
  import opened SwapCellMachine
  import opened SwapCellInvariant

  // ---------------------------------------------------------------- each kind of update

  lemma GotoOk(s: State, t: nat, pc: Pc)
    requires WellFormed(s) && t < |s.threads| && PcOk(s.cells.Keys, s.records, |s.strong|, pc)
    ensures WellFormed(Goto(s, t, pc))
  {
  }

  /** No record goes away and none loses slots. */
  ghost predicate Grown(rs: seq<Record>, rs': seq<Record>) {
    |rs| <= |rs'| && forall r :: 0 <= r < |rs| ==> |rs[r].slots| <= |rs'[r].slots|
  }

  lemma GrownPc(cells: set<nat>, rs: seq<Record>, rs': seq<Record>, n: nat, n': nat, pc: Pc)
    requires Grown(rs, rs') && n <= n' && PcOk(cells, rs, n, pc)
    ensures PcOk(cells, rs', n', pc)
  {
    match pc
    case Idle =>
    case Acquire(_, _) =>
    case Load(_, _, _) =>
    case Pay(_, _, _) =>
    case Drop(_, _) =>
  }

  /** Replacing the records or adding a value keeps what the rest of the state says. */
  lemma RecordsGrownOk(s: State, s': State)
    requires WellFormed(s) && RecordsOk(s') && Grown(s.records, s'.records) && |s.strong| <= |s'.strong|
    requires s' == s.(records := s'.records, head := s'.head, strong := s'.strong)
    ensures WellFormed(s')
  {
    forall t | 0 <= t < |s.threads| ensures PcOk(s.cells.Keys, s'.records, |s'.strong|, s.threads[t].pc) {
      GrownPc(s.cells.Keys, s.records, s'.records, |s.strong|, |s'.strong|, s.threads[t].pc);
    }
  }

  lemma SetSlotOk(s: State, r: nat, i: nat, v: Option<Val>)
    requires WellFormed(s) && IsLoc(s.records, r, i) && Below(v, |s.strong|)
    ensures WellFormed(SetSlot(s, r, i, v))
  {
    RecordsGrownOk(s, SetSlot(s, r, i, v));
  }

  lemma SetFlagsOk(s: State, r: nat, flag: bool)
    requires WellFormed(s) && r < |s.records|
    ensures WellFormed(SetOwned(s, r, flag)) && WellFormed(SetOrphaned(s, r, flag))
  {
    RecordsGrownOk(s, SetOwned(s, r, flag));
    RecordsGrownOk(s, SetOrphaned(s, r, flag));
  }

  lemma GrownRecordOk(records: nat, values: nat, r: Record)
    requires RecordOk(records, values, r)
    ensures RecordOk(records, values, r.(slots := r.slots + FreeBlock()))
  {
  }

  lemma GrowOk(s: State, r: nat)
    requires WellFormed(s) && r < |s.records|
    ensures WellFormed(Grow(s, r))
  {
    var s' := Grow(s, r);
    forall q | 0 <= q < |s'.records| ensures RecordOk(|s'.records|, |s'.strong|, s'.records[q]) {
      assert RecordOk(|s.records|, |s.strong|, s.records[q]);
      if q == r { GrownRecordOk(|s.records|, |s.strong|, s.records[r]); }
    }
    RecordsGrownOk(s, s');
  }

  lemma PushOk(s: State)
    requires WellFormed(s)
    ensures WellFormed(Push(s, s.head))
  {
    RecordsGrownOk(s, Push(s, s.head));
  }

  // ---------------------------------------------------------------- each step

  lemma AcquireFlagsWellFormed(s: State, t: nat, c: nat, acq: AcquirePc)
    requires WellFormed(s) && t < |s.threads| && c in s.cells && AcquireOk(s.records, acq)
    requires acq.TakeOwned? || acq.ClearOrphan? || acq.Adopt?
    ensures WellFormed(AcquireStep(s, t, c, acq))
  {
    match acq
    case TakeOwned(r) =>
      SetFlagsOk(s, r, true);
      GotoOk(SetOwned(s, r, true), t, Acquire(c, ClearOrphan(r)));
    case ClearOrphan(r) =>
      SetFlagsOk(s, r, false);
      GotoOk(SetOrphaned(s, r, false), t, Acquire(c, Adopt(r)));
    case Adopt(r) =>
      SetFlagsOk(s, r, true);
      GotoOk(SetOrphaned(s, r, true), t, Load(c, r, ReadCell));
  }

  lemma AcquireWellFormed(s: State, t: nat, c: nat, acq: AcquirePc)
    requires WellFormed(s) && t < |s.threads| && c in s.cells && AcquireOk(s.records, acq)
    ensures WellFormed(AcquireStep(s, t, c, acq))
  {
    match acq
    case TakeOwned(_) => AcquireFlagsWellFormed(s, t, c, acq);
    case ClearOrphan(_) => AcquireFlagsWellFormed(s, t, c, acq);
    case Adopt(_) => AcquireFlagsWellFormed(s, t, c, acq);
    case Publish(_) =>
      PushOk(s);
      GotoOk(Push(s, s.head), t, Acquire(c, Adopt(|s.records|)));
    case _ => GotoOk(s, t, AcquireStep(s, t, c, acq).threads[t].pc);
  }

  lemma LoadWellFormed(s: State, t: nat, c: nat, r: nat, load: LoadPc)
    requires WellFormed(s) && t < |s.threads| && c in s.cells && LoadOk(s.records, |s.strong|, r, load)
    ensures WellFormed(LoadStep(s, t, c, r, load))
  {
    match load
    case Append(v, i) =>
      GrowOk(s, r);
      GotoOk(Grow(s, r), t, Load(c, r, StoreSlot(v, i)));
    case StoreSlot(v, i) =>
      SetSlotOk(s, r, i, Some(v));
      GotoOk(SetSlot(s, r, i, Some(v)), t, Load(c, r, Recheck(v, i)));
    case TakeBack(v, i, current) =>
      SetSlotOk(s, r, i, None);
      GotoOk(SetSlot(s, r, i, None), t, ReadValue(c, r, current));
    case _ => LoadReadsWellFormed(s, t, c, r, load);
  }

  lemma LoadReadsWellFormed(s: State, t: nat, c: nat, r: nat, load: LoadPc)
    requires WellFormed(s) && t < |s.threads| && c in s.cells && LoadOk(s.records, |s.strong|, r, load)
    requires load.ReadCell? || load.FindFree? || load.FindLink? || load.Recheck?
    ensures WellFormed(LoadStep(s, t, c, r, load))
  {
    GotoOk(s, t, LoadStep(s, t, c, r, load).threads[t].pc);
  }

  lemma PayWellFormed(s: State, t: nat, c: nat, x: Val, pay: PayPc)
    requires WellFormed(s) && t < |s.threads| && c in s.cells && x < |s.strong| && PayOk(s.records, pay)
    ensures WellFormed(PayStep(s, t, c, x, pay))
  {
    match pay
    case Settle(r, i) =>
      SetSlotOk(s, r, i, None);
      GotoOk(SetSlot(s, r, i, None), t, Pay(c, x, PastSlot(r, i)));
      GotoOk(s, t, Pay(c, x, Decrement(r, i)));
    case Increment(_, _) => PayCountsWellFormed(s, t, c, x, pay);
    case Decrement(_, _) => PayCountsWellFormed(s, t, c, x, pay);
    case HandOver => GotoOk(s, t, Idle);
    case _ => GotoOk(s, t, PayStep(s, t, c, x, pay).threads[t].pc);
  }

  lemma PayCountsWellFormed(s: State, t: nat, c: nat, x: Val, pay: PayPc)
    requires WellFormed(s) && t < |s.threads| && c in s.cells && x < |s.strong| && PayOk(s.records, pay)
    requires pay.Increment? || pay.Decrement?
    ensures WellFormed(PayStep(s, t, c, x, pay))
  {
    var counted := Count(s, x, if pay.Increment? then 1 else -1);
    RecordsGrownOk(s, counted);
    GotoOk(counted, t, PayStep(s, t, c, x, pay).threads[t].pc);
  }

  lemma DropWellFormed(s: State, t: nat, r: nat, drop: DropPc)
    requires WellFormed(s) && t < |s.threads| && DropOk(s.records, |s.strong|, r, drop)
    ensures WellFormed(DropStep(s, t, r, drop))
  {
    match drop
    case Release =>
      SetFlagsOk(s, r, false);
      GotoOk(SetOwned(s, r, false), t, Idle);
    case _ =>
  }

  lemma DropGuardWellFormed(s: State, t: nat, id: nat)
    requires WellFormed(s) && t < |s.threads| && id in s.guards
    ensures WellFormed(DropGuardStep(s, t, id))
  {
    var g := s.guards[id];
    var gone := s.(guards := s.guards - {id});
    if g.hold.Owed? {
      SetSlotOk(gone, g.rec, g.hold.slot.idx, None);
    }
  }

  lemma GiveBackWellFormed(s: State, t: nat)
    requires WellFormed(s) && t < |s.threads|
    ensures WellFormed(GiveBackStep(s, t))
  {
    var tls := s.threads[t].tls;
    if tls.Some? {
      SetFlagsOk(SetTls(s, t, None, true), tls.value, true);
    }
  }

  lemma WriteWellFormed(s: State, t: nat, c: nat, v: Option<Val>)
    requires WellFormed(s) && t < |s.threads| && c in s.cells && HasArc(s, v)
    ensures WellFormed(WriteStep(s, t, c, v))
  {
    PutCellOk(TakeArc(s, v), c, v);
    if s.cells[c].Some? {
      GotoOk(PutCell(TakeArc(s, v), c, v), t, Pay(c, s.cells[c].value, WalkHead));
    }
  }

  lemma PutCellOk(s: State, c: nat, v: Option<Val>)
    requires WellFormed(s) && Below(v, |s.strong|)
    ensures WellFormed(PutCell(s, c, v))
  {
    var s' := PutCell(s, c, v);
    forall t | 0 <= t < |s.threads| ensures PcOk(s'.cells.Keys, s.records, |s.strong|, s.threads[t].pc) {
      MoreCells(s.cells.Keys, s'.cells.Keys, s.records, |s.strong|, s.threads[t].pc);
    }
  }

  lemma MoreCells(cells: set<nat>, cells': set<nat>, rs: seq<Record>, n: nat, pc: Pc)
    requires PcOk(cells, rs, n, pc)
    requires cells <= cells' || (pc.Acquire? || pc.Load? || pc.Pay? ==> pc.cell in cells')
    ensures PcOk(cells', rs, n, pc)
  {
  }

  lemma DropCellWellFormed(s: State, c: nat)
    requires WellFormed(s) && Enabled(s, DropCell(c))
    ensures WellFormed(Next(s, DropCell(c)))
  {
    var s' := s.(cells := s.cells - {c});
    forall t | 0 <= t < |s.threads| ensures PcOk(s'.cells.Keys, s.records, |s.strong|, s.threads[t].pc) {
      assert !Borrows(s.threads[t], c);
      MoreCells(s.cells.Keys, s'.cells.Keys, s.records, |s.strong|, s.threads[t].pc);
    }
  }

  lemma StepWellFormed(s: State, t: nat)
    requires WellFormed(s) && t < |s.threads|
    ensures WellFormed(Step(s, t))
  {
    match s.threads[t].pc
    case Idle =>
    case Acquire(c, acq) => AcquireWellFormed(s, t, c, acq);
    case Load(c, r, load) => LoadWellFormed(s, t, c, r, load);
    case Pay(c, x, pay) => PayWellFormed(s, t, c, x, pay);
    case Drop(r, drop) => DropWellFormed(s, t, r, drop);
  }

  lemma ArcsWellFormed(s: State, a: Action)
    requires WellFormed(s) && Enabled(s, a) && (a.NewArc? || a.CloneArc? || a.DropArc? || a.ToArc?)
    ensures WellFormed(Next(s, a))
  {
    match a
    case NewArc => RecordsGrownOk(s, s.(strong := s.strong + [1]));
    case CloneArc(v) => RecordsGrownOk(s, Count(s, v, 1));
    case DropArc(v) => RecordsGrownOk(s, Count(s, v, -1));
    case ToArc(t, g) => RecordsGrownOk(s, Count(s, s.guards[g].value, 1));
  }

  lemma KeepsWellFormed(s: State, a: Action)
    requires WellFormed(s) && Enabled(s, a)
    ensures WellFormed(Next(s, a))
  {
    match a
    case NewArc => ArcsWellFormed(s, a);
    case CloneArc(_) => ArcsWellFormed(s, a);
    case DropArc(_) => ArcsWellFormed(s, a);
    case ToArc(_, _) => ArcsWellFormed(s, a);
    case NewCell(c, init) => PutCellOk(TakeArc(s, init), c, init);
    case DropCell(c) => DropCellWellFormed(s, c);
    case BeginLoad(t, c) =>
      var tls := s.threads[t].tls;
      GotoOk(s, t, if tls.None? then Acquire(c, ReadHead) else Load(c, tls.value, ReadCell));
    case Swap(t, c, v) => WriteWellFormed(s, t, c, v);
    case CompareAndSet(t, c, current, v) => WriteWellFormed(s, t, c, v);
    case DropGuard(t, g) => DropGuardWellFormed(s, t, g);
    case GiveBack(t) => GiveBackWellFormed(s, t);
    case Advance(t) => StepWellFormed(s, t);
    case WeakFail(t) => GotoOk(s, t, Acquire(s.threads[t].pc.cell, Publish(s.head)));
  }

  // ---------------------------------------------------------------- the record list

  ghost predicate SameLinks(s: State, s': State) {
    && s'.head == s.head && |s'.records| == |s.records|
    && forall r :: 0 <= r < |s.records| ==> s'.records[r].next == s.records[r].next
  }

  lemma LinksKeepList(s: State, s': State)
    requires ListOk(s.head, s.records) && SameLinks(s, s')
    ensures ListOk(s'.head, s'.records)
  {
  }

  lemma AcquireLinks(s: State, t: nat, c: nat, acq: AcquirePc)
    requires WellFormed(s) && t < |s.threads| && AcquireOk(s.records, acq)
    requires !acq.Publish? || s.head != acq.expected
    ensures SameLinks(s, AcquireStep(s, t, c, acq))
  {
  }

  lemma PublishList(s: State, t: nat, c: nat, acq: AcquirePc)
    requires WellFormed(s) && t < |s.threads| && acq == Publish(s.head) && ListOk(s.head, s.records)
    ensures ListOk(AcquireStep(s, t, c, acq).head, AcquireStep(s, t, c, acq).records)
  {
  }

  lemma LoadLinks(s: State, t: nat, c: nat, r: nat, load: LoadPc)
    requires t < |s.threads| && c in s.cells && LoadOk(s.records, |s.strong|, r, load)
    ensures SameLinks(s, LoadStep(s, t, c, r, load))
  {
  }

  lemma PayLinks(s: State, t: nat, c: nat, x: Val, pay: PayPc)
    requires t < |s.threads| && x < |s.strong| && RecordsOk(s) && PayOk(s.records, pay)
    ensures SameLinks(s, PayStep(s, t, c, x, pay))
  {
  }

  lemma DropLinks(s: State, t: nat, r: nat, drop: DropPc)
    requires t < |s.threads| && DropOk(s.records, |s.strong|, r, drop)
    ensures SameLinks(s, DropStep(s, t, r, drop))
  {
  }

  lemma StepList(s: State, t: nat)
    requires WellFormed(s) && ListOk(s.head, s.records) && t < |s.threads|
    ensures ListOk(Step(s, t).head, Step(s, t).records)
  {
    assert PcOk(s.cells.Keys, s.records, |s.strong|, s.threads[t].pc);
    match s.threads[t].pc
    case Idle =>
    case Acquire(c, acq) =>
      if acq == Publish(s.head) {
        PublishList(s, t, c, acq);
      } else {
        AcquireLinks(s, t, c, acq);
        LinksKeepList(s, Step(s, t));
      }
    case Load(c, r, load) =>
      LoadLinks(s, t, c, r, load);
      LinksKeepList(s, Step(s, t));
    case Pay(c, x, pay) =>
      PayLinks(s, t, c, x, pay);
      LinksKeepList(s, Step(s, t));
    case Drop(r, drop) =>
      DropLinks(s, t, r, drop);
      LinksKeepList(s, Step(s, t));
  }

  lemma BeginLinks(s: State, a: Action)
    requires WellFormed(s) && Enabled(s, a) && (a.DropGuard? || a.GiveBack?)
    ensures SameLinks(s, Next(s, a))
  {
  }

  lemma OtherLinks(s: State, a: Action)
    requires WellFormed(s) && Enabled(s, a) && !a.DropGuard? && !a.GiveBack? && !a.Advance?
    ensures Next(s, a).head == s.head && Next(s, a).records == s.records
  {
  }

  lemma KeepsList(s: State, a: Action)
    requires WellFormed(s) && ListOk(s.head, s.records) && Enabled(s, a)
    ensures ListOk(Next(s, a).head, Next(s, a).records)
  {
    if a.Advance? {
      StepList(s, a.t);
    } else if a.DropGuard? || a.GiveBack? {
      BeginLinks(s, a);
      LinksKeepList(s, Next(s, a));
    } else {
      OtherLinks(s, a);
    }
  }
}
