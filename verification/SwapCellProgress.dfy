/** No operation waits for another: from every state of every run, a thread left alone
    brings the operation it is in to its end. */
module SwapCellProgress {
  import opened Options
  import opened SwapCellMachine
  import opened SwapCellInvariant
  import SwapCellTheorems

  /** What is left of an operation, in the order in which its parts come. */
  datatype Left = Left(part: nat, rounds: nat, steps: nat)

  predicate Less(a: Left, b: Left) {
    || a.part < b.part
    || (a.part == b.part && (a.rounds < b.rounds || (a.rounds == b.rounds && a.steps < b.steps)))
  }

  function SlotsOf(records: seq<Record>, r: nat): nat {
    if r < |records| then |records[r].slots| else 0
  }

  /** The slots from `i` on. */
  function From(n: nat, i: nat): nat {
    if i <= n then n - i else 0
  }

  function AcquireLeft(s: State, acq: AcquirePc): Left {
    Left(3, 0, match acq
               case ReadHead => 3 * |s.records| + 10
               case CheckOwned(r) => 3 * r + 9
               case TakeOwned(r) => 3 * r + 8
               case ReadNext(r) => 3 * r + 7
               case ReadHeadToPush => 6
               case Publish(e) => if e == s.head then 4 else 5
               case ClearOrphan(_) => 3
               case Adopt(_) => 2)
  }

  /** A load whose value the cell still holds is in its last round. */
  function LoadLeft(cell: Option<Val>, slots: nat, load: LoadPc): Left {
    match load
    case ReadCell => Left(2, 4, 0)
    case FindFree(v, i) => Left(2, if cell == Some(v) then 0 else 2, 2 * From(slots, i) + 4)
    case FindLink(v, i) => Left(2, if cell == Some(v) then 0 else 2, 2 * From(slots, i) + 5)
    case Append(v, _) => Left(2, if cell == Some(v) then 0 else 2, 3)
    case StoreSlot(v, _) => Left(2, if cell == Some(v) then 0 else 2, 2)
    case Recheck(v, _) => Left(2, if cell == Some(v) then 0 else 2, 1)
    case TakeBack(_, _, current) => Left(2, if cell == current then 1 else 3, 0)
  }

  function PayLeft(records: seq<Record>, pay: PayPc): Left {
    match pay
    case WalkHead => Left(1, |records| + 1, 0)
    case Visit(r, i) => Left(1, r + 1, 6 * From(SlotsOf(records, r), i) + 4)
    case Increment(r, i) => Left(1, r + 1, 6 * From(SlotsOf(records, r), i) + 3)
    case Settle(r, i) => Left(1, r + 1, 6 * From(SlotsOf(records, r), i) + 2)
    case Decrement(r, i) => Left(1, r + 1, 6 * From(SlotsOf(records, r), i) + 1)
    case WalkLink(r, i) => Left(1, r + 1, 6 * From(SlotsOf(records, r), i) + 5)
    case WalkNext(r) => Left(1, r + 1, 0)
    case HandOver => Left(1, 0, 0)
  }

  function DropLeft(slots: nat, drop: DropPc): Left {
    Left(1, 0, match drop
               case GiveUp(_) => 2 * slots + 10
               case CheckOrphan => 2 * slots + 8
               case CheckFree(i, _) => 2 * From(slots, i) + 4
               case CheckLink(i, _) => 2 * From(slots, i) + 5
               case Release => 1)
  }

  function LeftOf(s: State, pc: Pc): Left {
    match pc
    case Idle => Left(0, 0, 0)
    case Acquire(_, acq) => AcquireLeft(s, acq)
    case Load(c, r, load) => LoadLeft(if c in s.cells then s.cells[c] else None, SlotsOf(s.records, r), load)
    case Pay(_, _, pay) => PayLeft(s.records, pay)
    case Drop(r, drop) => DropLeft(SlotsOf(s.records, r), drop)
  }

  lemma AcquireLess(s: State, t: nat, c: nat, acq: AcquirePc)
    requires t < |s.threads| && RecordsOk(s) && AcquireOk(s.records, acq) && ListOk(s.head, s.records)
    ensures var s' := AcquireStep(s, t, c, acq); t < |s'.threads| && Less(LeftOf(s', s'.threads[t].pc), AcquireLeft(s, acq))
  {
  }

  lemma LoadLess(s: State, t: nat, c: nat, r: nat, load: LoadPc)
    requires t < |s.threads| && c in s.cells && LoadOk(s.records, |s.strong|, r, load)
    ensures var s' := LoadStep(s, t, c, r, load);
            t < |s'.threads| && Less(LeftOf(s', s'.threads[t].pc), LoadLeft(s.cells[c], SlotsOf(s.records, r), load))
  {
  }

  lemma PayLess(s: State, t: nat, c: nat, x: Val, pay: PayPc)
    requires t < |s.threads| && x < |s.strong| && RecordsOk(s) && PayOk(s.records, pay) && ListOk(s.head, s.records)
    ensures var s' := PayStep(s, t, c, x, pay);
            t < |s'.threads| && Less(LeftOf(s', s'.threads[t].pc), PayLeft(s.records, pay))
  {
    if pay.WalkHead? || pay.WalkNext? || pay.HandOver? {
      PayLessBetween(s, t, c, x, pay);
    } else {
      PayLessWithin(s, t, c, x, pay);
    }
  }

  lemma PayLessBetween(s: State, t: nat, c: nat, x: Val, pay: PayPc)
    requires t < |s.threads| && x < |s.strong| && RecordsOk(s) && PayOk(s.records, pay) && ListOk(s.head, s.records)
    requires pay.WalkHead? || pay.WalkNext? || pay.HandOver?
    ensures var s' := PayStep(s, t, c, x, pay);
            t < |s'.threads| && Less(LeftOf(s', s'.threads[t].pc), PayLeft(s.records, pay))
  {
  }

  lemma PayLessWithin(s: State, t: nat, c: nat, x: Val, pay: PayPc)
    requires t < |s.threads| && x < |s.strong| && RecordsOk(s) && PayOk(s.records, pay)
    requires !pay.WalkHead? && !pay.WalkNext? && !pay.HandOver?
    ensures var s' := PayStep(s, t, c, x, pay);
            t < |s'.threads| && Less(LeftOf(s', s'.threads[t].pc), PayLeft(s.records, pay))
  {
  }

  lemma DropLess(s: State, t: nat, r: nat, drop: DropPc)
    requires t < |s.threads| && DropOk(s.records, |s.strong|, r, drop)
    ensures var s' := DropStep(s, t, r, drop);
            t < |s'.threads| && Less(LeftOf(s', s'.threads[t].pc), DropLeft(SlotsOf(s.records, r), drop))
  {
  }

  /** Every step of a thread left alone leaves less to do. */
  lemma StepLess(s: State, t: nat)
    requires WellFormed(s) && ListOk(s.head, s.records) && t < |s.threads| && s.threads[t].pc != Idle
    ensures t < |Step(s, t).threads| && Less(LeftOf(Step(s, t), Step(s, t).threads[t].pc), LeftOf(s, s.threads[t].pc))
  {
    assert PcOk(s.cells.Keys, s.records, |s.strong|, s.threads[t].pc);
    match s.threads[t].pc
    case Acquire(c, acq) => AcquireLess(s, t, c, acq);
    case Load(c, r, load) => LoadLess(s, t, c, r, load);
    case Pay(c, x, pay) => PayLess(s, t, c, x, pay);
    case Drop(r, drop) => DropLess(s, t, r, drop);
  }

  /** The run goes on with steps of `t` alone. */
  ghost predicate GoesOnAlone(run: seq<State>, acts: seq<Action>, longer: seq<State>, more: seq<Action>, t: nat) {
    && IsRun(longer, more) && run <= longer && acts <= more
    && forall k :: |acts| <= k < |more| ==> more[k] == Advance(t)
  }

  /** From every state of every run, whatever the other threads are in the middle of, a
      thread left alone comes to the end of its operation. */
  lemma {:induction false} EndsAlone(run: seq<State>, acts: seq<Action>, t: nat, left: Left)
    returns (longer: seq<State>, more: seq<Action>)
    requires IsRun(run, acts) && t < |run[|acts|].threads| && left == LeftOf(run[|acts|], run[|acts|].threads[t].pc)
    ensures GoesOnAlone(run, acts, longer, more, t) && IdleThread(longer[|more|], t)
    decreases left.part, left.rounds, left.steps
  {
    var s := run[|acts|];
    if s.threads[t].pc == Idle {
      longer, more := run, acts;
    } else {
      SwapCellTheorems.EveryStateInv(run, acts, |acts|);
      SwapCellTheorems.RunExtends(run, acts, Advance(t));
      StepLess(s, t);
      var next := Step(s, t);
      longer, more := EndsAlone(run + [next], acts + [Advance(t)], t, LeftOf(next, next.threads[t].pc));
    }
  }

  /** So every operation ends, if the others let it run. */
  lemma EveryOperationEnds(run: seq<State>, acts: seq<Action>, t: nat) returns (longer: seq<State>, more: seq<Action>)
    requires IsRun(run, acts) && t < |run[|acts|].threads|
    ensures GoesOnAlone(run, acts, longer, more, t) && IdleThread(longer[|more|], t)
  {
    longer, more := EndsAlone(run, acts, t, LeftOf(run[|acts|], run[|acts|].threads[t].pc));
  }
}
