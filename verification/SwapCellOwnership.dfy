/** A record has one user at a time: no step lets a second thread write its slots. */
module SwapCellOwnership {
  import opened Options
  import opened SwapCellMachine
  import opened SwapCellInvariant

  // ---------------------------------------------------------------- each kind of update

  /** `s'` differs from `s` in nothing that says who uses a record. */
  ghost predicate SameUse(s: State, s': State) {
    && s'.threads == s.threads && s'.guards == s.guards && |s'.records| == |s.records|
    && (forall r :: 0 <= r < |s.records| ==> s'.records[r].owned == s.records[r].owned)
    && (forall r :: 0 <= r < |s.records| ==> s'.records[r].orphaned == s.records[r].orphaned)
  }

  lemma SameUseKeeps(s: State, s': State)
    requires Ownership(s) && SameUse(s, s')
    ensures Ownership(s')
  {
  }

  /** The thread goes on with a record it uses already, or with none. */
  lemma GotoKeeps(s: State, t: nat, pc: Pc)
    requires Ownership(s) && t < |s.threads|
    requires PcRecord(pc).Some? ==> Uses(s.threads, s.guards, t, PcRecord(pc).value)
    requires ThreadOk(s.threads[t].(pc := pc), t, s.guards) && NotOrphaned(s.records, Adopting(pc))
    ensures Ownership(Goto(s, t, pc))
  {
    var s' := Goto(s, t, pc);
    assert forall u: nat, r: nat :: Uses(s'.threads, s'.guards, u, r) ==> Uses(s.threads, s.guards, u, r);
  }

  /** A thread starts to use a record nobody uses. */
  lemma TakeKeeps(s: State, t: nat, c: nat, acq: AcquirePc)
    requires Ownership(s) && t < |s.threads| && s.threads[t].pc.Acquire?
    requires acq.ClearOrphan? || acq.Adopt?
    requires Taken(s.records, acq.r) && forall u: nat :: !Uses(s.threads, s.guards, u, acq.r)
    requires acq.Adopt? ==> !s.records[acq.r].orphaned
    ensures Ownership(Goto(s, t, Acquire(c, acq)))
  {
    var s' := Goto(s, t, Acquire(c, acq));
    assert forall u: nat, r: nat :: Uses(s'.threads, s'.guards, u, r) ==>
      Uses(s.threads, s.guards, u, r) || (u == t && r == acq.r);
    assert !Uses(s.threads, s.guards, t, acq.r);
  }

  lemma SetOwnedKeeps(s: State, r: nat)
    requires Ownership(s) && r < |s.records|
    ensures Ownership(SetOwned(s, r, true))
  {
  }

  lemma PushKeeps(s: State)
    requires Ownership(s)
    ensures Ownership(Push(s, s.head))
  {
  }

  /** A record nobody uses is released. */
  lemma ReleaseKeeps(s: State, r: nat)
    requires Ownership(s) && r < |s.records| && forall u: nat :: !Uses(s.threads, s.guards, u, r)
    ensures Ownership(SetOwned(s, r, false))
  {
  }

  lemma SetOrphanedKeeps(s: State, r: nat, orphaned: bool)
    requires Ownership(s) && r < |s.records|
    requires orphaned ==> forall u :: 0 <= u < |s.threads| ==>
                       s.threads[u].tls != Some(r) && Adopting(s.threads[u].pc) != Some(r)
    ensures Ownership(SetOrphaned(s, r, orphaned))
  {
  }

  /** A thread before its end keeps the record it adopts in its thread-local. */
  lemma AdoptKeeps(s: State, t: nat, c: nat, r: nat)
    requires Ownership(s) && t < |s.threads| && !s.threads[t].dead && s.threads[t].pc == Acquire(c, Adopt(r))
    requires r < |s.records| && !s.records[r].orphaned
    ensures Ownership(Goto(SetTls(s, t, Some(r), false), t, Load(c, r, ReadCell)))
  {
    assert ThreadOk(s.threads[t], t, s.guards);
    assert forall g :: g in s.guards ==> GuardKept(s.threads, s.guards[g]) && s.guards[g].tid != t;
    AdoptUses(s, t, c, r);
  }

  lemma AdoptUses(s: State, t: nat, c: nat, r: nat)
    requires OneUser(s) && t < |s.threads| && s.threads[t].pc == Acquire(c, Adopt(r))
    ensures var s' := Goto(SetTls(s, t, Some(r), false), t, Load(c, r, ReadCell));
            OneUser(s') && forall u: nat, q: nat :: Uses(s'.threads, s'.guards, u, q) ==> Uses(s.threads, s.guards, u, q)
  {
    var s' := Goto(SetTls(s, t, Some(r), false), t, Load(c, r, ReadCell));
    assert forall u: nat, q: nat :: Uses(s'.threads, s'.guards, u, q) ==> Uses(s.threads, s.guards, u, q);
  }

  /** A load ends in a guard on the record it used. */
  lemma AddGuardKeeps(s: State, t: nat, g: Guard)
    requires Ownership(s) && t < |s.threads| && s.threads[t].pc.Load? && g.tid == t && g.rec == s.threads[t].pc.rec
    requires s.nextGuard !in s.guards
    ensures Ownership(AddGuard(Goto(s, t, Idle), g))
  {
    var s' := AddGuard(Goto(s, t, Idle), g);
    assert ThreadOk(s.threads[t], t, s.guards);
    MoreGuards(s, t, g);
    if s.threads[t].dead {
      assert forall h :: h in s.guards && s.guards[h].tid == t ==> s.guards[h].rec != g.rec;
    }
  }

  lemma MoreGuards(s: State, t: nat, g: Guard)
    requires OneUser(s) && t < |s.threads| && s.threads[t].pc.Load? && g.tid == t && g.rec == s.threads[t].pc.rec
    requires s.nextGuard !in s.guards
    ensures var s' := AddGuard(Goto(s, t, Idle), g);
            && OneUser(s')
            && forall u: nat, q: nat :: GuardOn(s'.guards, u, q) ==> GuardOn(s.guards, u, q) || (u == t && q == g.rec)
  {
    var s' := AddGuard(Goto(s, t, Idle), g);
    assert forall u: nat, q: nat :: GuardOn(s'.guards, u, q) ==> GuardOn(s.guards, u, q) || (u == t && q == g.rec);
    assert forall u: nat, q: nat :: Uses(s'.threads, s'.guards, u, q) ==> Uses(s.threads, s.guards, u, q);
  }

  /** A guard of a thread past its end is the only one on its record. */
  lemma AloneOnRecord(s: State, id: nat)
    requires Ownership(s) && id in s.guards && s.guards[id].tid < |s.threads| && s.threads[s.guards[id].tid].dead
    ensures !GuardOn(s.guards - {id}, s.guards[id].tid, s.guards[id].rec)
  {
    var rest := s.guards - {id};
    forall h | h in rest ensures rest[h].tid != s.guards[id].tid || rest[h].rec != s.guards[id].rec {
      assert !SharedByDead(s.threads, s.guards[id], s.guards[h]);
    }
  }

  /** A guard's drop goes on with the guard's record. */
  lemma DropGuardKeeps(s: State, t: nat, id: nat, drop: DropPc)
    requires Ownership(s) && IdleThread(s, t) && id in s.guards && s.guards[id].tid == t
    requires drop.GiveUp? || drop.CheckOrphan?
    ensures Ownership(Goto(s.(guards := s.guards - {id}), t, Drop(s.guards[id].rec, drop)))
  {
    var r := s.guards[id].rec;
    var s' := Goto(s.(guards := s.guards - {id}), t, Drop(r, drop));
    assert ThreadOk(s.threads[t], t, s.guards) && GuardKept(s.threads, s.guards[id]);
    if s.threads[t].dead { AloneOnRecord(s, id); }
    FewerGuards(s, t, id, drop);
    assert ThreadOk(s'.threads[t], t, s'.guards);
    assert forall u :: 0 <= u < |s.threads| && u != t ==> ThreadOk(s.threads[u], u, s.guards);
  }

  lemma FewerGuards(s: State, t: nat, id: nat, drop: DropPc)
    requires OneUser(s) && t < |s.threads| && id in s.guards && s.guards[id].tid == t
    ensures var s' := Goto(s.(guards := s.guards - {id}), t, Drop(s.guards[id].rec, drop));
            && OneUser(s')
            && forall u: nat, q: nat :: GuardOn(s'.guards, u, q) ==> GuardOn(s.guards, u, q)
  {
    var r := s.guards[id].rec;
    var s' := Goto(s.(guards := s.guards - {id}), t, Drop(r, drop));
    assert GuardOn(s.guards, t, r);
    assert forall u: nat, q: nat :: GuardOn(s'.guards, u, q) ==> GuardOn(s.guards, u, q);
    assert forall u: nat, q: nat :: Uses(s'.threads, s'.guards, u, q) ==> Uses(s.threads, s.guards, u, q);
  }

  /** A thread with no guards left gives up its thread-local. */
  lemma GiveBackKeeps(s: State, t: nat, pc: Pc)
    requires Ownership(s) && Enabled(s, GiveBack(t))
    requires PcRecord(pc).Some? ==> s.threads[t].tls == PcRecord(pc)
    requires pc.Idle? || (pc.Drop? && pc.drop.CheckFree?)
    ensures Ownership(Goto(SetTls(s, t, None, true), t, pc))
  {
    var s' := Goto(SetTls(s, t, None, true), t, pc);
    assert forall u: nat, q: nat :: Uses(s'.threads, s'.guards, u, q) ==> Uses(s.threads, s.guards, u, q);
  }

  /** Another thread's operation holds another record. */
  lemma Elsewhere(s: State, t: nat, u: nat, r: nat)
    requires OneUser(s) && Uses(s.threads, s.guards, t, r) && u < |s.threads| && u != t
    ensures PcRecord(s.threads[u].pc) != Some(r) && s.threads[u].tls != Some(r) && !GuardOn(s.guards, u, r)
  {
    assert !Uses(s.threads, s.guards, u, r);
  }

  /** A thread past its end orphans a record it uses. */
  lemma OrphanUsed(s: State, t: nat, r: nat)
    requires Ownership(s) && r < |s.records| && Uses(s.threads, s.guards, t, r)
    requires s.threads[t].tls == None && Adopting(s.threads[t].pc) == None
    ensures Ownership(SetOrphaned(s, r, true))
  {
    forall u | 0 <= u < |s.threads|
      ensures s.threads[u].tls != Some(r) && Adopting(s.threads[u].pc) != Some(r)
    {
      if u != t { Elsewhere(s, t, u, r); }
    }
    SetOrphanedKeeps(s, r, true);
  }

  // ---------------------------------------------------------------- each step

  lemma AcquireOwnership(s: State, t: nat, c: nat, acq: AcquirePc)
    requires WellFormed(s) && Ownership(s) && t < |s.threads| && s.threads[t].pc == Acquire(c, acq)
    ensures Ownership(AcquireStep(s, t, c, acq))
  {
    assert ThreadOk(s.threads[t], t, s.guards);
    match acq
    case TakeOwned(r) =>
      if !s.records[r].owned {
        SetOwnedKeeps(s, r);
        assert forall u: nat :: !Uses(s.threads, s.guards, u, r) by { assert !Taken(s.records, r); }
        TakeKeeps(SetOwned(s, r, true), t, c, ClearOrphan(r));
      } else {
        GotoKeeps(s, t, Acquire(c, ReadNext(r)));
      }
    case ClearOrphan(r) =>
      assert Uses(s.threads, s.guards, t, r);
      SetOrphanedKeeps(s, r, false);
      GotoKeeps(SetOrphaned(s, r, false), t, Acquire(c, Adopt(r)));
    case Publish(expected) =>
      if s.head == expected {
        PushKeeps(s);
        assert forall u: nat :: !Uses(s.threads, s.guards, u, |s.records|) by { assert !Taken(s.records, |s.records|); }
        TakeKeeps(Push(s, s.head), t, c, Adopt(|s.records|));
      } else {
        GotoKeeps(s, t, Acquire(c, Publish(s.head)));
      }
    case Adopt(r) =>
      assert Uses(s.threads, s.guards, t, r);
      if s.threads[t].dead {
        GotoKeeps(s, t, Load(c, r, ReadCell));
        OrphanUsed(Goto(s, t, Load(c, r, ReadCell)), t, r);
      } else {
        AdoptKeeps(s, t, c, r);
      }
    case ReadHead => GotoKeeps(s, t, Acquire(c, SearchFrom(s.head)));
    case CheckOwned(r) => GotoKeeps(s, t, Acquire(c, if s.records[r].owned then ReadNext(r) else TakeOwned(r)));
    case ReadNext(r) => GotoKeeps(s, t, Acquire(c, SearchFrom(s.records[r].next)));
    case ReadHeadToPush => GotoKeeps(s, t, Acquire(c, Publish(s.head)));
  }

  lemma LoadOwnership(s: State, t: nat, c: nat, r: nat, load: LoadPc)
    requires WellFormed(s) && Ownership(s) && t < |s.threads| && s.threads[t].pc == Load(c, r, load)
    ensures Ownership(LoadStep(s, t, c, r, load))
  {
    var s' := LoadStep(s, t, c, r, load);
    assert ThreadOk(s.threads[t], t, s.guards) && Uses(s.threads, s.guards, t, r);
    if s'.guards != s.guards {
      AddGuardKeeps(s, t, s'.guards[s.nextGuard]);
    } else {
      GotoKeeps(s, t, s'.threads[t].pc);
      LoadSameUse(s, t, c, r, load);
      SameUseKeeps(Goto(s, t, s'.threads[t].pc), s');
    }
  }

  /** A load that goes on changes no more than its place and its record's slots. */
  lemma LoadSameUse(s: State, t: nat, c: nat, r: nat, load: LoadPc)
    requires t < |s.threads| && c in s.cells && LoadOk(s.records, |s.strong|, r, load)
    requires LoadStep(s, t, c, r, load).guards == s.guards
    ensures SameUse(Goto(s, t, LoadStep(s, t, c, r, load).threads[t].pc), LoadStep(s, t, c, r, load))
  {
  }

  lemma PayOwnership(s: State, t: nat, c: nat, x: Val, pay: PayPc)
    requires WellFormed(s) && Ownership(s) && t < |s.threads| && s.threads[t].pc == Pay(c, x, pay)
    ensures Ownership(PayStep(s, t, c, x, pay))
  {
    var s' := PayStep(s, t, c, x, pay);
    assert ThreadOk(s.threads[t], t, s.guards);
    PaySameUse(s, t, c, x, pay);
    GotoKeeps(s, t, s'.threads[t].pc);
    SameUseKeeps(Goto(s, t, s'.threads[t].pc), s');
  }

  /** A paying step changes counts and slots, but not who uses a record. */
  lemma PaySameUse(s: State, t: nat, c: nat, x: Val, pay: PayPc)
    requires t < |s.threads| && x < |s.strong| && RecordsOk(s) && PayOk(s.records, pay)
    ensures var s' := PayStep(s, t, c, x, pay);
            && t < |s'.threads| && (s'.threads[t].pc.Idle? || s'.threads[t].pc.Pay?)
            && SameUse(Goto(s, t, s'.threads[t].pc), s')
  {
  }

  lemma DropOwnership(s: State, t: nat, r: nat, drop: DropPc)
    requires WellFormed(s) && Ownership(s) && t < |s.threads| && s.threads[t].pc == Drop(r, drop)
    ensures Ownership(DropStep(s, t, r, drop))
  {
    var s' := DropStep(s, t, r, drop);
    assert ThreadOk(s.threads[t], t, s.guards) && NotOrphaned(s.records, s.threads[t].tls);
    assert Uses(s.threads, s.guards, t, r);
    var moved := Goto(s, t, s'.threads[t].pc);
    GotoKeeps(s, t, s'.threads[t].pc);
    if drop.Release? {
      forall u: nat ensures !Uses(moved.threads, moved.guards, u, r) {
        if u < |s.threads| && u != t { Elsewhere(s, t, u, r); }
      }
      ReleaseKeeps(moved, r);
    } else {
      SameUseKeeps(moved, s');
    }
  }

  lemma StepOwnership(s: State, t: nat)
    requires WellFormed(s) && Ownership(s) && t < |s.threads|
    ensures Ownership(Step(s, t))
  {
    match s.threads[t].pc
    case Idle =>
    case Acquire(c, acq) => AcquireOwnership(s, t, c, acq);
    case Load(c, r, load) => LoadOwnership(s, t, c, r, load);
    case Pay(c, x, pay) => PayOwnership(s, t, c, x, pay);
    case Drop(r, drop) => DropOwnership(s, t, r, drop);
  }

  lemma DropGuardOwnership(s: State, t: nat, id: nat)
    requires WellFormed(s) && Ownership(s) && Enabled(s, DropGuard(t, id))
    ensures Ownership(DropGuardStep(s, t, id))
  {
    var s' := DropGuardStep(s, t, id);
    var drop := s'.threads[t].pc.drop;
    DropGuardKeeps(s, t, id, drop);
    SameUseKeeps(Goto(s.(guards := s.guards - {id}), t, Drop(s.guards[id].rec, drop)), s');
  }

  lemma GiveBackOwnership(s: State, t: nat)
    requires WellFormed(s) && Ownership(s) && Enabled(s, GiveBack(t))
    ensures Ownership(GiveBackStep(s, t))
  {
    var tls := s.threads[t].tls;
    if tls.None? {
      GiveBackKeeps(s, t, Idle);
      assert Goto(SetTls(s, t, None, true), t, Idle) == GiveBackStep(s, t);
    } else {
      var pc := Drop(tls.value, CheckFree(0, true));
      GiveBackKeeps(s, t, pc);
      OrphanUsed(Goto(SetTls(s, t, None, true), t, pc), t, tls.value);
    }
  }

  lemma WriteOwnership(s: State, t: nat, c: nat, v: Option<Val>)
    requires Ownership(s) && IdleThread(s, t) && c in s.cells
    ensures Ownership(WriteStep(s, t, c, v))
  {
    var pc := WriteStep(s, t, c, v).threads[t].pc;
    assert ThreadOk(s.threads[t], t, s.guards);
    GotoKeeps(s, t, pc);
    WriteSameUse(s, t, c, v);
    SameUseKeeps(Goto(s, t, pc), WriteStep(s, t, c, v));
  }

  lemma WriteSameUse(s: State, t: nat, c: nat, v: Option<Val>)
    requires t < |s.threads| && c in s.cells
    ensures SameUse(Goto(s, t, WriteStep(s, t, c, v).threads[t].pc), WriteStep(s, t, c, v))
  {
    assert s.threads[t := s.threads[t].(pc := s.threads[t].pc)] == s.threads;
  }

  lemma KeepsOwnership(s: State, a: Action)
    requires WellFormed(s) && Ownership(s) && Enabled(s, a)
    ensures Ownership(Next(s, a))
  {
    match a
    case BeginLoad(t, c) => BeginOwnership(s, t, c);
    case Swap(t, c, v) => WriteOwnership(s, t, c, v);
    case CompareAndSet(t, c, current, v) => WriteOwnership(s, t, c, v);
    case DropGuard(t, g) => DropGuardOwnership(s, t, g);
    case GiveBack(t) => GiveBackOwnership(s, t);
    case Advance(t) => StepOwnership(s, t);
    case WeakFail(t) => WeakFailOwnership(s, t);
    case _ => ArcsOwnership(s, a);
  }

  /** Cells and `Arc`s come and go without touching a record. */
  lemma ArcsOwnership(s: State, a: Action)
    requires WellFormed(s) && Ownership(s) && Enabled(s, a)
    requires a.NewArc? || a.CloneArc? || a.DropArc? || a.ToArc? || a.NewCell? || a.DropCell?
    ensures Ownership(Next(s, a))
  {
    ArcsUntouched(s, a);
    SameUseKeeps(s, Next(s, a));
  }

  lemma ArcsUntouched(s: State, a: Action)
    requires WellFormed(s) && Enabled(s, a)
    requires a.NewArc? || a.CloneArc? || a.DropArc? || a.ToArc? || a.NewCell? || a.DropCell?
    ensures var s' := Next(s, a); s'.records == s.records && s'.threads == s.threads && s'.guards == s.guards
  {
    if a.NewCell? || a.DropCell? {
      CellsUntouched(s, a);
    } else if a.CloneArc? || a.ToArc? {
      CopiesUntouched(s, a);
    }
  }

  lemma CopiesUntouched(s: State, a: Action)
    requires WellFormed(s) && Enabled(s, a) && (a.CloneArc? || a.ToArc?)
    ensures var s' := Next(s, a); s'.records == s.records && s'.threads == s.threads && s'.guards == s.guards
  {
  }

  lemma CellsUntouched(s: State, a: Action)
    requires WellFormed(s) && Enabled(s, a) && (a.NewCell? || a.DropCell?)
    ensures var s' := Next(s, a); s'.records == s.records && s'.threads == s.threads && s'.guards == s.guards
  {
  }

  lemma BeginOwnership(s: State, t: nat, c: nat)
    requires WellFormed(s) && Ownership(s) && IdleThread(s, t)
    ensures Ownership(BeginLoadStep(s, t, c))
  {
    assert ThreadOk(s.threads[t], t, s.guards);
    GotoKeeps(s, t, BeginLoadStep(s, t, c).threads[t].pc);
  }

  lemma WeakFailOwnership(s: State, t: nat)
    requires WellFormed(s) && Ownership(s) && Enabled(s, WeakFail(t))
    ensures Ownership(Next(s, WeakFail(t)))
  {
    assert ThreadOk(s.threads[t], t, s.guards);
    GotoKeeps(s, t, Acquire(s.threads[t].pc.cell, Publish(s.head)));
  }

  // ---------------------------------------------------------------- free slots stay free

  /** Slots and lengths of the records other than `r` stay as they are. */
  ghost predicate OnlyRecord(rs: seq<Record>, rs': seq<Record>, r: nat) {
    |rs| <= |rs'| && forall q :: 0 <= q < |rs| && q != r ==> rs'[q].slots == rs[q].slots
  }

  /** Only the user of a record fills its slots or adds to them; anyone may free one. */
  lemma ReadyByUser(s: State, s': State, t: nat, r: nat)
    requires OneUser(s) && Ready(s) && Uses(s.threads, s.guards, t, r) && OnlyThread(s, s', t)
    requires OnlyRecord(s.records, s'.records, r) && SlotReady(s'.records, s'.threads[t].pc)
    ensures Ready(s')
  {
    forall u | 0 <= u < |s'.threads| ensures SlotReady(s'.records, s'.threads[u].pc) {
      if u != t {
        Elsewhere(s, t, u, r);
        assert SlotReady(s.records, s.threads[u].pc);
      }
    }
  }

  /** Slots are freed at most; records may be added. */
  ghost predicate OnlyFreed(rs: seq<Record>, rs': seq<Record>) {
    && |rs| <= |rs'| && (forall q :: 0 <= q < |rs| ==> |rs'[q].slots| == |rs[q].slots|)
    && (forall q, i :: 0 <= q < |rs| && 0 <= i < |rs[q].slots| && rs[q].slots[i] == None ==> rs'[q].slots[i] == None)
  }

  /** Freeing slots leaves every free slot free. */
  lemma ReadyByFreeing(s: State, s': State, t: nat)
    requires Ready(s) && OnlyThread(s, s', t) && OnlyFreed(s.records, s'.records)
    requires SlotReady(s'.records, s'.threads[t].pc)
    ensures Ready(s')
  {
    forall u | 0 <= u < |s'.threads| ensures SlotReady(s'.records, s'.threads[u].pc) {
      if u != t {
        assert SlotReady(s.records, s.threads[u].pc);
      }
    }
  }

  lemma LoadReady(s: State, t: nat, c: nat, r: nat, load: LoadPc)
    requires WellFormed(s) && Ownership(s) && Ready(s) && t < |s.threads| && s.threads[t].pc == Load(c, r, load)
    ensures Ready(LoadStep(s, t, c, r, load))
  {
    assert Uses(s.threads, s.guards, t, r) && SlotReady(s.records, s.threads[t].pc);
    ReadyByUser(s, LoadStep(s, t, c, r, load), t, r);
  }

  lemma AcquireFrees(s: State, t: nat, c: nat, acq: AcquirePc)
    requires RecordsOk(s) && AcquireOk(s.records, acq) && t < |s.threads|
    ensures OnlyFreed(s.records, AcquireStep(s, t, c, acq).records)
  {
    if acq.Publish? {
      assert AcquireStep(s, t, c, acq).records[..|s.records|] == s.records;
    }
  }

  lemma AcquireMoves(s: State, t: nat, c: nat, acq: AcquirePc)
    requires RecordsOk(s) && AcquireOk(s.records, acq) && t < |s.threads|
    ensures OnlyThread(s, AcquireStep(s, t, c, acq), t)
  {
  }

  lemma AcquireReady(s: State, t: nat, c: nat, acq: AcquirePc)
    requires RecordsOk(s) && AcquireOk(s.records, acq) && Ready(s) && t < |s.threads|
    ensures Ready(AcquireStep(s, t, c, acq))
  {
    AcquireFrees(s, t, c, acq);
    AcquireMoves(s, t, c, acq);
    ReadyByFreeing(s, AcquireStep(s, t, c, acq), t);
  }

  lemma PayFrees(s: State, t: nat, c: nat, x: Val, pay: PayPc)
    requires RecordsOk(s) && PayOk(s.records, pay) && t < |s.threads| && x < |s.strong|
    ensures OnlyFreed(s.records, PayStep(s, t, c, x, pay).records) && OnlyThread(s, PayStep(s, t, c, x, pay), t)
  {
  }

  lemma PayReady(s: State, t: nat, c: nat, x: Val, pay: PayPc)
    requires RecordsOk(s) && PayOk(s.records, pay) && Ready(s) && t < |s.threads| && x < |s.strong|
    ensures Ready(PayStep(s, t, c, x, pay))
  {
    PayFrees(s, t, c, x, pay);
    ReadyByFreeing(s, PayStep(s, t, c, x, pay), t);
  }

  lemma DropReady(s: State, t: nat, r: nat, drop: DropPc)
    requires DropOk(s.records, |s.strong|, r, drop) && Ready(s) && t < |s.threads|
    ensures Ready(DropStep(s, t, r, drop))
  {
    ReadyByFreeing(s, DropStep(s, t, r, drop), t);
  }

  lemma StepReady(s: State, t: nat)
    requires WellFormed(s) && Ownership(s) && Ready(s) && t < |s.threads|
    ensures Ready(Step(s, t))
  {
    match s.threads[t].pc
    case Idle =>
    case Acquire(c, acq) => AcquireReady(s, t, c, acq);
    case Load(c, r, load) => LoadReady(s, t, c, r, load);
    case Pay(c, x, pay) => PayReady(s, t, c, x, pay);
    case Drop(r, drop) => DropReady(s, t, r, drop);
  }

  lemma DropGuardReady(s: State, t: nat, g: nat)
    requires WellFormed(s) && Ready(s) && t < |s.threads| && g in s.guards
    ensures Ready(DropGuardStep(s, t, g))
  {
    ReadyByFreeing(s, DropGuardStep(s, t, g), t);
  }

  lemma GiveBackReady(s: State, t: nat)
    requires WellFormed(s) && Ready(s) && t < |s.threads|
    ensures Ready(GiveBackStep(s, t))
  {
    ReadyByFreeing(s, GiveBackStep(s, t), t);
  }

  lemma GotoReady(s: State, s': State, t: nat)
    requires Ready(s) && OnlyThread(s, s', t) && s'.records == s.records
    requires SlotReady(s'.records, s'.threads[t].pc)
    ensures Ready(s')
  {
  }

  lemma BeginReady(s: State, t: nat, c: nat, v: Option<Val>)
    requires WellFormed(s) && Ready(s) && t < |s.threads| && c in s.cells
    ensures Ready(WriteStep(s, t, c, v)) && Ready(BeginLoadStep(s, t, c))
  {
    GotoReady(s, WriteStep(s, t, c, v), t);
    GotoReady(s, BeginLoadStep(s, t, c), t);
  }

  lemma KeepsReady(s: State, a: Action)
    requires WellFormed(s) && Ownership(s) && Ready(s) && Enabled(s, a)
    ensures Ready(Next(s, a))
  {
    match a
    case Advance(t) => StepReady(s, t);
    case DropGuard(t, g) => DropGuardReady(s, t, g);
    case GiveBack(t) => GiveBackReady(s, t);
    case BeginLoad(t, c) => BeginReady(s, t, c, None);
    case Swap(t, c, v) => BeginReady(s, t, c, v);
    case CompareAndSet(t, c, current, v) => BeginReady(s, t, c, v);
    case WeakFail(t) => GotoReady(s, Goto(s, t, Acquire(s.threads[t].pc.cell, Publish(s.head))), t);
    case _ => SameReady(s, Next(s, a));
  }

  lemma SameReady(s: State, s': State)
    requires Ready(s) && s'.threads == s.threads && s'.records == s.records
    ensures Ready(s')
  {
  }
}
