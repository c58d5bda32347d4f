/** The debt-based atomic `Arc` cell as a transition system.

    One step per atomic access, any number of threads, cells and values. A value is
    named by the identity of its allocation, and identities are never reused. The
    reading side records a value in a slot of its thread's record and rechecks the
    cell; the writing side swaps the cell and walks every slot of every record,
    turning each recorded read of the value it took out into a counted reference.

    Local computation is folded into the atomic access before it. Writes to memory no
    other thread can reach yet (a record before it is published, a thread-local) are
    folded in the same way. */
module SwapCellMachine {
  import opened Options

  /** The identity of one `Arc` allocation. */
  type Val = nat

  const CACHE_LINE: nat := 64
  const LINK_BYTES: nat := 8

  /** Slots in one block: what is left of a cache line after the link. */
  const BLOCK_SLOTS: nat := (CACHE_LINE - LINK_BYTES) / LINK_BYTES

  /** A slot: its record, and its position counted across the record's blocks. */
  datatype Loc = Loc(rec: nat, idx: nat)

  /** One reading thread's slots, `None` standing for FREE. Blocks are laid end to
      end, so the link after a block is null exactly when the slots end there. */
  datatype Record = Record(slots: seq<Option<Val>>, owned: bool, orphaned: bool, next: Option<nat>)

  datatype Hold = Owed(slot: Loc) | Owned

  /** A live guard. `cell` is the cell it borrows. */
  datatype Guard = Guard(tid: nat, value: Val, hold: Hold, rec: nat, cell: nat)

  /** Where a thread stands inside an operation. The inner constructor names the
      atomic access the thread makes next. */
  datatype Pc =
    | Idle
    | Acquire(cell: nat, acq: AcquirePc)          // acquire_record, for a load of `cell`
    | Load(cell: nat, rec: nat, load: LoadPc)     // Raw::load with its record at hand
    | Pay(cell: nat, value: Val, pay: PayPc)      // pay_debts on `value`, taken out of `cell`
    | Drop(rec: nat, drop: DropPc)                // the rest of a guard's drop, or Record::release

  datatype AcquirePc =
    | ReadHead
    | CheckOwned(r: nat)
    | TakeOwned(r: nat)
    | ReadNext(r: nat)
    | ClearOrphan(r: nat)
    | ReadHeadToPush
    | Publish(expected: Option<nat>)
    | Adopt(r: nat)

  datatype LoadPc =
    | ReadCell
    | FindFree(v: Val, i: nat)
    | FindLink(v: Val, i: nat)
    | Append(v: Val, i: nat)
    | StoreSlot(v: Val, i: nat)
    | Recheck(v: Val, i: nat)
    | TakeBack(v: Val, i: nat, current: Option<Val>)

  datatype PayPc =
    | WalkHead
    | Visit(r: nat, i: nat)
    | Increment(r: nat, i: nat)
    | Settle(r: nat, i: nat)
    | Decrement(r: nat, i: nat)
    | WalkLink(r: nat, i: nat)
    | WalkNext(r: nat)
    | HandOver

  datatype DropPc =
    | GiveUp(v: Val)
    | CheckOrphan
    | CheckFree(i: nat, free: bool)
    | CheckLink(i: nat, free: bool)
    | Release

  /** `tls` is the thread-local record pointer; `dead` holds once the thread's
      give-back has run, so that later reads are teardown-time reads. */
  datatype Thread = Thread(tls: Option<nat>, dead: bool, pc: Pc)

  datatype State = State(
    cells: map<nat, Option<Val>>,
    strong: seq<int>,
    arcs: multiset<Val>,
    head: Option<nat>,
    records: seq<Record>,
    guards: map<nat, Guard>,
    nextGuard: nat,
    threads: seq<Thread>)

  datatype Action =
    | NewArc
    | CloneArc(v: Val)
    | DropArc(v: Val)
    | NewCell(c: nat, init: Option<Val>)
    | DropCell(c: nat)
    | BeginLoad(t: nat, c: nat)
    | Swap(t: nat, c: nat, put: Option<Val>)
    | CompareAndSet(t: nat, c: nat, current: Option<Val>, put: Option<Val>)
    | DropGuard(t: nat, g: nat)
    | ToArc(t: nat, g: nat)
    | GiveBack(t: nat)
    | Advance(t: nat)
    | WeakFail(t: nat)

  // ---------------------------------------------------------------- well-formedness

  ghost predicate IsLoc(records: seq<Record>, r: nat, i: nat) {
    r < |records| && i < |records[r].slots|
  }

  /** A place in the walk over a record's blocks where a link is read. */
  ghost predicate IsLink(records: seq<Record>, r: nat, i: nat) {
    r < |records| && i <= |records[r].slots| && i % BLOCK_SLOTS == 0
  }

  predicate Below(o: Option<nat>, n: nat) {
    o.Some? ==> o.value < n
  }

  ghost predicate AcquireOk(records: seq<Record>, acq: AcquirePc) {
    match acq
    case ReadHead => true
    case ReadHeadToPush => true
    case Publish(e) => Below(e, |records|)
    case CheckOwned(r) => r < |records|
    case TakeOwned(r) => r < |records|
    case ReadNext(r) => r < |records|
    case ClearOrphan(r) => r < |records|
    case Adopt(r) => r < |records|
  }

  ghost predicate LoadOk(records: seq<Record>, values: nat, r: nat, load: LoadPc) {
    match load
    case ReadCell => r < |records|
    case FindFree(v, i) => v < values && IsLoc(records, r, i)
    case FindLink(v, i) => v < values && IsLink(records, r, i)
    case Append(v, i) => v < values && IsLink(records, r, i)
    case StoreSlot(v, i) => v < values && IsLoc(records, r, i)
    case Recheck(v, i) => v < values && IsLoc(records, r, i)
    case TakeBack(v, i, current) => v < values && IsLoc(records, r, i) && Below(current, values)
  }

  ghost predicate PayOk(records: seq<Record>, pay: PayPc) {
    match pay
    case WalkHead => true
    case Visit(r, i) => IsLoc(records, r, i)
    case Increment(r, i) => IsLoc(records, r, i)
    case Settle(r, i) => IsLoc(records, r, i)
    case Decrement(r, i) => IsLoc(records, r, i)
    case WalkLink(r, i) => IsLink(records, r, i)
    case WalkNext(r) => r < |records|
    case HandOver => true
  }

  ghost predicate DropOk(records: seq<Record>, values: nat, r: nat, drop: DropPc) {
    match drop
    case GiveUp(v) => v < values && r < |records|
    case CheckOrphan => r < |records|
    case CheckFree(i, _) => IsLoc(records, r, i)
    case CheckLink(i, _) => IsLink(records, r, i)
    case Release => r < |records|
  }

  ghost predicate PcOk(cells: set<nat>, records: seq<Record>, values: nat, pc: Pc) {
    match pc
    case Idle => true
    case Acquire(c, acq) => c in cells && AcquireOk(records, acq)
    case Load(c, r, load) => c in cells && LoadOk(records, values, r, load)
    case Pay(c, x, pay) => c in cells && x < values && PayOk(records, pay)
    case Drop(r, drop) => DropOk(records, values, r, drop)
  }

  ghost predicate GuardOk(cells: set<nat>, records: seq<Record>, values: nat, threads: nat, g: Guard) {
    && g.tid < threads && g.value < values && g.rec < |records| && g.cell in cells
    && (g.hold.Owed? ==> g.hold.slot.rec == g.rec && IsLoc(records, g.rec, g.hold.slot.idx))
  }

  ghost predicate RecordOk(records: nat, values: nat, r: Record) {
    && |r.slots| > 0
    && |r.slots| % BLOCK_SLOTS == 0
    && Below(r.next, records)
    && (forall i :: 0 <= i < |r.slots| ==> Below(r.slots[i], values))
  }

  ghost predicate CellsOk(s: State) {
    && (forall c :: c in s.cells ==> Below(s.cells[c], |s.strong|))
    && (forall v :: v in s.arcs ==> v < |s.strong|)
  }

  ghost predicate RecordsOk(s: State) {
    && Below(s.head, |s.records|)
    && (forall r :: 0 <= r < |s.records| ==> RecordOk(|s.records|, |s.strong|, s.records[r]))
  }

  ghost predicate GuardsOk(s: State) {
    forall g :: g in s.guards ==>
      g < s.nextGuard && GuardOk(s.cells.Keys, s.records, |s.strong|, |s.threads|, s.guards[g])
  }

  ghost predicate ThreadsOk(s: State) {
    forall t :: 0 <= t < |s.threads| ==> PcOk(s.cells.Keys, s.records, |s.strong|, s.threads[t].pc)
  }

  /** Every index and value in the state names something that exists. */
  ghost predicate WellFormed(s: State) {
    CellsOk(s) && RecordsOk(s) && GuardsOk(s) && ThreadsOk(s)
    && (forall t :: 0 <= t < |s.threads| ==> Below(s.threads[t].tls, |s.records|))
  }

  // ---------------------------------------------------------------- updates

  function Goto(s: State, t: nat, pc: Pc): State
    requires t < |s.threads|
  {
    s.(threads := s.threads[t := s.threads[t].(pc := pc)])
  }

  function SetTls(s: State, t: nat, tls: Option<nat>, dead: bool): State
    requires t < |s.threads|
  {
    s.(threads := s.threads[t := s.threads[t].(tls := tls, dead := dead)])
  }

  function SetSlot(s: State, r: nat, i: nat, v: Option<Val>): State
    requires r < |s.records| && i < |s.records[r].slots|
  {
    s.(records := s.records[r := s.records[r].(slots := s.records[r].slots[i := v])])
  }

  function SetOwned(s: State, r: nat, owned: bool): State
    requires r < |s.records|
  {
    s.(records := s.records[r := s.records[r].(owned := owned)])
  }

  function SetOrphaned(s: State, r: nat, orphaned: bool): State
    requires r < |s.records|
  {
    s.(records := s.records[r := s.records[r].(orphaned := orphaned)])
  }

  /** The slots of a new block. */
  function FreeBlock(): (b: seq<Option<Val>>)
    ensures |b| == BLOCK_SLOTS && forall i :: 0 <= i < |b| ==> b[i] == None
  {
    seq(BLOCK_SLOTS, i => None)
  }

  function Grow(s: State, r: nat): State
    requires r < |s.records|
  {
    s.(records := s.records[r := s.records[r].(slots := s.records[r].slots + FreeBlock())])
  }

  /** Publish a fresh record, held by the thread that made it. */
  function Push(s: State, next: Option<nat>): State {
    s.(records := s.records + [Record(FreeBlock(), true, false, next)], head := Some(|s.records|))
  }

  function Count(s: State, x: Val, delta: int): State
    requires x < |s.strong|
  {
    s.(strong := s.strong[x := s.strong[x] + delta])
  }

  function AddGuard(s: State, g: Guard): State {
    s.(guards := s.guards[s.nextGuard := g], nextGuard := s.nextGuard + 1)
  }

  function PutCell(s: State, c: nat, v: Option<Val>): State {
    s.(cells := s.cells[c := v])
  }

  function GiveArc(s: State, v: Option<Val>): State {
    if v.None? then s else s.(arcs := s.arcs + multiset{v.value})
  }

  function TakeArc(s: State, v: Option<Val>): State {
    if v.None? then s else s.(arcs := s.arcs - multiset{v.value})
  }

  // ---------------------------------------------------------------- one atomic access

  /** `acquire_record` with its cursor at `at`. */
  function SearchFrom(at: Option<nat>): AcquirePc {
    if at.None? then ReadHeadToPush else CheckOwned(at.value)
  }

  /** `acquire_record` and the end of `thread_record`. */
  function AcquireStep(s: State, t: nat, c: nat, acq: AcquirePc): State
    requires t < |s.threads| && RecordsOk(s) && AcquireOk(s.records, acq)
  {
    match acq
    case ReadHead => Goto(s, t, Acquire(c, SearchFrom(s.head)))
    case CheckOwned(r) => Goto(s, t, Acquire(c, if s.records[r].owned then ReadNext(r) else TakeOwned(r)))
    case TakeOwned(r) =>
      if s.records[r].owned then Goto(s, t, Acquire(c, ReadNext(r)))
      else Goto(SetOwned(s, r, true), t, Acquire(c, ClearOrphan(r)))
    case ReadNext(r) => Goto(s, t, Acquire(c, SearchFrom(s.records[r].next)))
    case ClearOrphan(r) => Goto(SetOrphaned(s, r, false), t, Acquire(c, Adopt(r)))
    case ReadHeadToPush => Goto(s, t, Acquire(c, Publish(s.head)))
    case Publish(expected) =>
      if s.head == expected then Goto(Push(s, expected), t, Acquire(c, Adopt(|s.records|)))
      else Goto(s, t, Acquire(c, Publish(s.head)))
    case Adopt(r) =>
      if s.threads[t].dead then Goto(SetOrphaned(s, r, true), t, Load(c, r, ReadCell))
      else Goto(SetTls(s, t, Some(r), false), t, Load(c, r, ReadCell))
  }

  /** A load that has read `v` from the cell. */
  function ReadValue(c: nat, r: nat, v: Option<Val>): Pc {
    if v.None? then Idle else Load(c, r, FindFree(v.value, 0))
  }

  /** `free_slot` and the loop of `Raw::load`. */
  function LoadStep(s: State, t: nat, c: nat, r: nat, load: LoadPc): State
    requires t < |s.threads| && c in s.cells && LoadOk(s.records, |s.strong|, r, load)
  {
    match load
    case ReadCell => Goto(s, t, ReadValue(c, r, s.cells[c]))
    case FindFree(v, i) =>
      Goto(s, t, Load(c, r, if s.records[r].slots[i] == None then StoreSlot(v, i)
                            else if (i + 1) % BLOCK_SLOTS == 0 then FindLink(v, i + 1)
                            else FindFree(v, i + 1)))
    case FindLink(v, i) =>
      Goto(s, t, Load(c, r, if i < |s.records[r].slots| then FindFree(v, i) else Append(v, i)))
    case Append(v, i) => Goto(Grow(s, r), t, Load(c, r, StoreSlot(v, i)))
    case StoreSlot(v, i) => Goto(SetSlot(s, r, i, Some(v)), t, Load(c, r, Recheck(v, i)))
    case Recheck(v, i) =>
      if s.cells[c] == Some(v) then AddGuard(Goto(s, t, Idle), Guard(t, v, Owed(Loc(r, i)), r, c))
      else Goto(s, t, Load(c, r, TakeBack(v, i, s.cells[c])))
    case TakeBack(v, i, current) =>
      if s.records[r].slots[i] == Some(v) then Goto(SetSlot(s, r, i, None), t, ReadValue(c, r, current))
      else AddGuard(Goto(s, t, Idle), Guard(t, v, Owned, r, c))
  }

  /** `pay_debts` with its cursor at `at`. */
  function WalkFrom(at: Option<nat>): PayPc {
    if at.None? then HandOver else Visit(at.value, 0)
  }

  /** `pay_debts` done with slot `i` of record `r`. */
  function PastSlot(r: nat, i: nat): PayPc {
    if (i + 1) % BLOCK_SLOTS == 0 then WalkLink(r, i + 1) else Visit(r, i + 1)
  }

  /** `pay_debts`, and the return of the cell's reference to the caller. */
  function PayStep(s: State, t: nat, c: nat, x: Val, pay: PayPc): State
    requires t < |s.threads| && x < |s.strong| && RecordsOk(s) && PayOk(s.records, pay)
  {
    match pay
    case WalkHead => Goto(s, t, Pay(c, x, WalkFrom(s.head)))
    case Visit(r, i) =>
      Goto(s, t, Pay(c, x, if s.records[r].slots[i] == Some(x) then Increment(r, i) else PastSlot(r, i)))
    case Increment(r, i) => Goto(Count(s, x, 1), t, Pay(c, x, Settle(r, i)))
    case Settle(r, i) =>
      if s.records[r].slots[i] == Some(x) then Goto(SetSlot(s, r, i, None), t, Pay(c, x, PastSlot(r, i)))
      else Goto(s, t, Pay(c, x, Decrement(r, i)))
    case Decrement(r, i) => Goto(Count(s, x, -1), t, Pay(c, x, PastSlot(r, i)))
    case WalkLink(r, i) => Goto(s, t, Pay(c, x, if i < |s.records[r].slots| then Visit(r, i) else WalkNext(r)))
    case WalkNext(r) => Goto(s, t, Pay(c, x, WalkFrom(s.records[r].next)))
    case HandOver => GiveArc(Goto(s, t, Idle), Some(x))
  }

  /** The rest of a guard's drop after its slot, and `Record::release`. */
  function DropStep(s: State, t: nat, r: nat, drop: DropPc): State
    requires t < |s.threads| && DropOk(s.records, |s.strong|, r, drop)
  {
    match drop
    case GiveUp(x) => Goto(Count(s, x, -1), t, Drop(r, CheckOrphan))
    case CheckOrphan => Goto(s, t, if s.records[r].orphaned then Drop(r, CheckFree(0, true)) else Idle)
    case CheckFree(i, free) =>
      var still := free && s.records[r].slots[i] == None;
      Goto(s, t, Drop(r, if (i + 1) % BLOCK_SLOTS == 0 then CheckLink(i + 1, still) else CheckFree(i + 1, still)))
    case CheckLink(i, free) =>
      Goto(s, t, if i < |s.records[r].slots| then Drop(r, CheckFree(i, free))
                 else if free then Drop(r, Release) else Idle)
    case Release => Goto(SetOwned(s, r, false), t, Idle)
  }

  /** Thread `t` makes its next access. */
  function Step(s: State, t: nat): State
    requires WellFormed(s) && t < |s.threads|
  {
    match s.threads[t].pc
    case Idle => s
    case Acquire(c, acq) => AcquireStep(s, t, c, acq)
    case Load(c, r, load) => LoadStep(s, t, c, r, load)
    case Pay(c, x, pay) => PayStep(s, t, c, x, pay)
    case Drop(r, drop) => DropStep(s, t, r, drop)
  }

  // ---------------------------------------------------------------- operations begin

  predicate IdleThread(s: State, t: nat) {
    t < |s.threads| && s.threads[t].pc == Idle
  }

  /** The caller has a reference to `v` to hand over, if there is a value at all. */
  predicate HasArc(s: State, v: Option<Val>) {
    v.Some? ==> v.value in s.arcs
  }

  /** `t` borrows cell `c` for the operation it is in. */
  predicate Borrows(th: Thread, c: nat) {
    (th.pc.Acquire? || th.pc.Load? || th.pc.Pay?) && th.pc.cell == c
  }

  /** What a step needs. A cell is dropped only with no borrow of it left, a guard is
      used and released on the thread that took it, and a thread gives its record back
      with no guard of its own alive. */
  ghost predicate Enabled(s: State, a: Action) {
    match a
    case NewArc => true
    case CloneArc(v) => v in s.arcs
    case DropArc(v) => v in s.arcs
    case NewCell(c, init) => c !in s.cells && HasArc(s, init)
    case DropCell(c) =>
      && c in s.cells
      && (forall g :: g in s.guards ==> s.guards[g].cell != c)
      && (forall t :: 0 <= t < |s.threads| ==> !Borrows(s.threads[t], c))
    case BeginLoad(t, c) => IdleThread(s, t) && c in s.cells
    case Swap(t, c, v) => IdleThread(s, t) && c in s.cells && HasArc(s, v)
    case CompareAndSet(t, c, current, v) => IdleThread(s, t) && c in s.cells && HasArc(s, v)
    case DropGuard(t, g) => IdleThread(s, t) && g in s.guards && s.guards[g].tid == t
    case ToArc(t, g) => IdleThread(s, t) && g in s.guards && s.guards[g].tid == t
    case GiveBack(t) =>
      IdleThread(s, t) && !s.threads[t].dead && (forall g :: g in s.guards ==> s.guards[g].tid != t)
    case Advance(t) => t < |s.threads| && s.threads[t].pc != Idle
    case WeakFail(t) => t < |s.threads| && s.threads[t].pc.Acquire? && s.threads[t].pc.acq.Publish?
  }

  /** The first access of a guard's drop: its slot is given back, or the reference a
      writer paid for it is given up next. */
  function DropGuardStep(s: State, t: nat, id: nat): State
    requires WellFormed(s) && id in s.guards && t < |s.threads|
  {
    var g := s.guards[id];
    var gone := s.(guards := s.guards - {id});
    if g.hold.Owed? && s.records[g.rec].slots[g.hold.slot.idx] == Some(g.value) then
      Goto(SetSlot(gone, g.rec, g.hold.slot.idx, None), t, Drop(g.rec, CheckOrphan))
    else
      Goto(gone, t, Drop(g.rec, GiveUp(g.value)))
  }

  /** A write puts `v` in `c` and goes on to pay the debts on what it replaced. */
  function WriteStep(s: State, t: nat, c: nat, v: Option<Val>): State
    requires t < |s.threads| && c in s.cells
  {
    var put := PutCell(TakeArc(s, v), c, v);
    if s.cells[c].None? then put else Goto(put, t, Pay(c, s.cells[c].value, WalkHead))
  }

  function BeginLoadStep(s: State, t: nat, c: nat): State
    requires t < |s.threads|
  {
    var tls := s.threads[t].tls;
    Goto(s, t, if tls.None? then Acquire(c, ReadHead) else Load(c, tls.value, ReadCell))
  }

  /** The thread-local's destructor: give the record back, if there is one. */
  function GiveBackStep(s: State, t: nat): State
    requires WellFormed(s) && t < |s.threads|
  {
    var tls := s.threads[t].tls;
    if tls.None? then SetTls(s, t, None, true)
    else Goto(SetOrphaned(SetTls(s, t, None, true), tls.value, true), t, Drop(tls.value, CheckFree(0, true)))
  }

  function Next(s: State, a: Action): State
    requires WellFormed(s) && Enabled(s, a)
  {
    match a
    case NewArc => GiveArc(s.(strong := s.strong + [1]), Some(|s.strong|))
    case CloneArc(v) => GiveArc(Count(s, v, 1), Some(v))
    case DropArc(v) => TakeArc(Count(s, v, -1), Some(v))
    case NewCell(c, init) => PutCell(TakeArc(s, init), c, init)
    case DropCell(c) => GiveArc(s.(cells := s.cells - {c}), s.cells[c])
    case BeginLoad(t, c) => BeginLoadStep(s, t, c)
    case Swap(t, c, v) => WriteStep(s, t, c, v)
    case CompareAndSet(t, c, current, v) => if s.cells[c] == current then WriteStep(s, t, c, v) else s
    case DropGuard(t, g) => DropGuardStep(s, t, g)
    case ToArc(t, g) => GiveArc(Count(s, s.guards[g].value, 1), Some(s.guards[g].value))
    case GiveBack(t) => GiveBackStep(s, t)
    case Advance(t) => Step(s, t)
    case WeakFail(t) => Goto(s, t, Acquire(s.threads[t].pc.cell, Publish(s.head)))
  }

  /** No cells, values, records or guards; every thread idle and never having read. */
  ghost predicate Init(s: State) {
    && s.cells == map[] && s.strong == [] && s.arcs == multiset{}
    && s.head == None && s.records == [] && s.guards == map[]
    && (forall t :: 0 <= t < |s.threads| ==> s.threads[t] == Thread(None, false, Idle))
  }

  /** Action `i` takes state `i` of the run to the next. */
  ghost predicate StepAt(run: seq<State>, acts: seq<Action>, i: nat) {
    && i < |acts| && i + 1 < |run|
    && WellFormed(run[i]) && Enabled(run[i], acts[i]) && run[i + 1] == Next(run[i], acts[i])
  }

  /** `run[0]` is initial and each state follows from the one before by an action. */
  ghost predicate IsRun(run: seq<State>, acts: seq<Action>) {
    |run| == |acts| + 1 && Init(run[0]) && forall i :: 0 <= i < |acts| ==> StepAt(run, acts, i)
  }
}
