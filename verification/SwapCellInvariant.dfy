/** What every reachable state of the cell machine satisfies. */
module SwapCellInvariant {
  import opened Options
  import opened SwapCellMachine

  /** Only thread `t` moved. */
  ghost predicate OnlyThread(s: State, s': State, t: nat) {
    && t < |s.threads| && |s'.threads| == |s.threads|
    && forall u :: 0 <= u < |s.threads| && u != t ==> s'.threads[u].pc == s.threads[u].pc
  }

  /** Records are linked newest first, in the order they were published. */
  ghost predicate ListOk(head: Option<nat>, records: seq<Record>) {
    && head == (if |records| == 0 then None else Some(|records| - 1))
    && (forall r :: 0 <= r < |records| ==> records[r].next == (if r == 0 then None else Some(r - 1)))
  }

  // ---------------------------------------------------------------- who uses a record

  /** The record the operation in progress holds for its thread. */
  function PcRecord(pc: Pc): Option<nat> {
    match pc
    case Idle => None
    case Acquire(_, acq) => if acq.ClearOrphan? || acq.Adopt? then Some(acq.r) else None
    case Load(_, r, _) => Some(r)
    case Pay(_, _, _) => None
    case Drop(r, _) => Some(r)
  }

  ghost predicate GuardOn(guards: map<nat, Guard>, t: nat, r: nat) {
    exists g :: g in guards && guards[g].tid == t && guards[g].rec == r
  }

  /** Thread `t` may still write a slot of record `r`, or release it. */
  ghost predicate Uses(threads: seq<Thread>, guards: map<nat, Guard>, t: nat, r: nat) {
    t < |threads| && (threads[t].tls == Some(r) || PcRecord(threads[t].pc) == Some(r) || GuardOn(guards, t, r))
  }

  ghost predicate Taken(records: seq<Record>, r: nat) {
    r < |records| && records[r].owned
  }

  /** A record in use is marked owned, and has one user. */
  ghost predicate OneUser(s: State) {
    && (forall t: nat, r: nat :: Uses(s.threads, s.guards, t, r) ==> Taken(s.records, r))
    && (forall t: nat, u: nat, r: nat ::
          Uses(s.threads, s.guards, t, r) && Uses(s.threads, s.guards, u, r) ==> t == u)
  }

  /** The pc only looks whether the record can be released. */
  predicate Releasing(pc: Pc) {
    pc.Drop? && (pc.drop.CheckFree? || pc.drop.CheckLink? || pc.drop.Release?)
  }

  /** How a thread stands to the records it uses. A thread before its end keeps every
      guard on the record its thread-local names, which no drop will release. A thread
      past its end takes a record for each read, and no two guards of it share one. */
  ghost predicate ThreadOk(th: Thread, t: nat, guards: map<nat, Guard>) {
    && (th.dead ==> th.tls == None)
    && (th.pc.Acquire? ==> th.tls == None)
    && (!th.dead && (th.pc.Load? || th.pc.Drop?) ==> th.tls == Some(th.pc.rec) && !Releasing(th.pc))
    && (th.dead && PcRecord(th.pc).Some? ==> !GuardOn(guards, t, PcRecord(th.pc).value))
  }

  /** The record a thread is about to adopt, its orphan mark just cleared. */
  function Adopting(pc: Pc): Option<nat> {
    if pc.Acquire? && pc.acq.Adopt? then Some(pc.acq.r) else None
  }

  ghost predicate NotOrphaned(records: seq<Record>, o: Option<nat>) {
    o.Some? ==> o.value < |records| && !records[o.value].orphaned
  }

  /** What a guard's record has to do with its thread. */
  ghost predicate GuardKept(threads: seq<Thread>, g: Guard) {
    g.tid < |threads| && (threads[g.tid].dead || threads[g.tid].tls == Some(g.rec))
  }

  ghost predicate Ownership(s: State) {
    && OneUser(s)
    && (forall t :: 0 <= t < |s.threads| ==> ThreadOk(s.threads[t], t, s.guards))
    && (forall t :: 0 <= t < |s.threads| ==>
          NotOrphaned(s.records, s.threads[t].tls) && NotOrphaned(s.records, Adopting(s.threads[t].pc)))
    && (forall g :: g in s.guards ==> GuardKept(s.threads, s.guards[g]))
    && (forall g, h :: g in s.guards && h in s.guards && g != h ==> !SharedByDead(s.threads, s.guards[g], s.guards[h]))
  }

  /** Two guards of a thread past its end on one record. */
  ghost predicate SharedByDead(threads: seq<Thread>, g: Guard, h: Guard) {
    g.tid == h.tid && g.rec == h.rec && g.tid < |threads| && threads[g.tid].dead
  }

  /** A slot about to be written is free, and a block about to be appended goes after
      the last one. */
  ghost predicate SlotReady(records: seq<Record>, pc: Pc) {
    pc.Load? ==>
      match pc.load
      case Append(_, i) => pc.rec < |records| && |records[pc.rec].slots| == i
      case StoreSlot(_, i) => IsLoc(records, pc.rec, i) && records[pc.rec].slots[i] == None
      case _ => true
  }

  ghost predicate Ready(s: State) {
    forall t :: 0 <= t < |s.threads| ==> SlotReady(s.records, s.threads[t].pc)
  }

  // ---------------------------------------------------------------- recorded reads

  ghost predicate SlotIs(records: seq<Record>, l: Loc, x: Val) {
    IsLoc(records, l.rec, l.idx) && records[l.rec].slots[l.idx] == Some(x)
  }

  /** The pc has recorded a read of `x` in `l` and not settled it yet. */
  predicate LoadsAt(pc: Pc, l: Loc, x: Val) {
    pc.Load? && (pc.load.Recheck? || pc.load.TakeBack?) && pc.rec == l.rec && pc.load.i == l.idx && pc.load.v == x
  }

  ghost predicate BeingLoaded(threads: seq<Thread>, l: Loc, x: Val) {
    exists t :: 0 <= t < |threads| && LoadsAt(threads[t].pc, l, x)
  }

  /** The guard was confirmed by a recorded read of `x` in `l`. */
  predicate OwesAt(g: Guard, l: Loc, x: Val) {
    g.hold == Owed(l) && g.value == x
  }

  /** The walk of a paying thread has still to visit `l`. */
  predicate Ahead(pay: PayPc, l: Loc) {
    match pay
    case WalkHead => true
    case Visit(r, i) => l.rec < r || (l.rec == r && i <= l.idx)
    case Increment(r, i) => l.rec < r || (l.rec == r && i <= l.idx)
    case Settle(r, i) => l.rec < r || (l.rec == r && i <= l.idx)
    case Decrement(r, i) => l.rec < r || (l.rec == r && i < l.idx)
    case WalkLink(r, i) => l.rec < r || (l.rec == r && i <= l.idx)
    case WalkNext(r) => l.rec < r
    case HandOver => false
  }

  /** The writer took `x` out of `c`, still owns the cell's reference to it, and has
      not reached `l`. */
  predicate WillPay(pc: Pc, c: nat, x: Val, l: Loc) {
    pc.Pay? && pc.cell == c && pc.value == x && Ahead(pc.pay, l)
  }

  ghost predicate SomeoneWillPay(threads: seq<Thread>, c: nat, x: Val, l: Loc) {
    exists w :: 0 <= w < |threads| && WillPay(threads[w].pc, c, x, l)
  }

  /** A read of `x` from `c` recorded in `l` is still covered by a reference: the
      cell's own, or that of a writer on its way to `l`. */
  ghost predicate Covered(s: State, c: nat, x: Val, l: Loc) {
    (c in s.cells && s.cells[c] == Some(x)) || SomeoneWillPay(s.threads, c, x, l)
  }

  /** Some guard owes the read in `l`, and its cell or a writer covers it. */
  ghost predicate Shielded(s: State, l: Loc, x: Val) {
    exists g :: g in s.guards && OwesAt(s.guards[g], l, x) && Covered(s, s.guards[g].cell, x, l)
  }

  /** Every recorded read is unsettled, or owed by a guard and covered. */
  ghost predicate Debts(s: State) {
    forall l, x :: SlotIs(s.records, l, x) ==> BeingLoaded(s.threads, l, x) || Shielded(s, l, x)
  }

  // ---------------------------------------------------------------- references

  /** Who can hold a reference to a value, besides an `Arc` in a caller's hands. */
  datatype Holder =
    | InCell(c: nat)      // a cell holds it
    | Carried(t: nat)     // a writer took it out of a cell and has not returned it
    | Unsettled(t: nat)   // a writer made a reference and has not settled its debt
    | ByGuard(g: nat)     // a guard on it
    | ByLoad(t: nat)      // a read of it recorded and not settled
    | Unpaid(t: nat)      // a dropped guard's paid reference, about to be given up

  /** What the operation in progress holds of `x`. */
  predicate PcCarries(pc: Pc, x: Val) { pc.Pay? && pc.value == x }
  predicate PcUnsettled(pc: Pc, x: Val) { pc.Pay? && pc.value == x && (pc.pay.Settle? || pc.pay.Decrement?) }
  predicate PcLoads(pc: Pc, x: Val) { pc.Load? && (pc.load.Recheck? || pc.load.TakeBack?) && pc.load.v == x }
  predicate PcUnpaid(pc: Pc, x: Val) { pc.Drop? && pc.drop.GiveUp? && pc.drop.v == x }

  ghost predicate Holds(s: State, x: Val, h: Holder) {
    match h
    case InCell(c) => c in s.cells && s.cells[c] == Some(x)
    case Carried(t) => t < |s.threads| && PcCarries(s.threads[t].pc, x)
    case Unsettled(t) => t < |s.threads| && PcUnsettled(s.threads[t].pc, x)
    case ByGuard(g) => g in s.guards && s.guards[g].value == x
    case ByLoad(t) => t < |s.threads| && PcLoads(s.threads[t].pc, x)
    case Unpaid(t) => t < |s.threads| && PcUnpaid(s.threads[t].pc, x)
  }

  /** `hs` is everything that holds `x`. */
  ghost predicate AreHolders(s: State, x: Val, hs: set<Holder>) {
    forall h :: h in hs <==> Holds(s, x, h)
  }

  /** `ls` is every slot that records a read of `x`. */
  ghost predicate AreSlots(records: seq<Record>, x: Val, ls: set<Loc>) {
    forall l :: l in ls <==> SlotIs(records, l, x)
  }

  /** The strong count of `x` and the reads recorded against it add up to everything
      that holds it. A guard whose slot still records its read is matched by that slot,
      so what is left over is exactly the counted references. */
  ghost predicate Ledger(s: State, x: Val, hs: set<Holder>, ls: set<Loc>) {
    x < |s.strong| && AreHolders(s, x, hs) && AreSlots(s.records, x, ls) && s.strong[x] + |ls| == |hs| + s.arcs[x]
  }

  ghost predicate Balanced(s: State, x: Val) {
    exists hs, ls :: Ledger(s, x, hs, ls)
  }

  ghost predicate Accounts(s: State) {
    forall x :: 0 <= x < |s.strong| ==> Balanced(s, x)
  }

  ghost predicate Inv(s: State) {
    WellFormed(s) && ListOk(s.head, s.records) && Ownership(s) && Ready(s) && Debts(s) && Accounts(s)
  }
}
