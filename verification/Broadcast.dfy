/** The in-process broadcast queue: every consumer gets every value accepted since it
    registered. Each method holds the locks it needs and so counts as one step. */
module Broadcast {
  import opened Options

  /** The queue: values `base`, `base + 1`, ... in `deque`, and each consumer's place. */
  datatype Queue = Queue(deque: seq<nat>, cursors: seq<nat>, base: nat)

  /** The smallest of the cursors, or `none` if there are none. */
  function MinOf(cursors: seq<nat>, none: nat): (m: nat)
    ensures |cursors| == 0 ==> m == none
    ensures |cursors| > 0 ==> m in cursors
    ensures forall i :: 0 <= i < |cursors| ==> m <= cursors[i]
  {
    if |cursors| == 0 then none
    else if |cursors| == 1 then cursors[0]
    else
      var m := MinOf(cursors[..|cursors| - 1], none);
      if m <= cursors[|cursors| - 1] then m else cursors[|cursors| - 1]
  }

  function Registered(q: Queue): Queue {
    q.(cursors := q.cursors + [q.base + |q.deque|])
  }

  /** The value is taken; a full queue first drops its oldest if every consumer has it. */
  function Pushed(q: Queue, capacity: nat, v: nat): (bool, Queue) {
    var min := MinOf(q.cursors, q.base + |q.deque|);
    if |q.deque| < capacity then (true, q.(deque := q.deque + [v]))
    else if min > q.base && |q.deque| > 0 then (true, q.(deque := q.deque[1..] + [v], base := q.base + 1))
    else (false, q)
  }

  function Received(q: Queue, c: nat): (Option<nat>, Queue)
    requires c < |q.cursors| && q.base <= q.cursors[c]
  {
    var pos := q.cursors[c];
    if pos >= q.base + |q.deque| then (None, q)
    else (Some(q.deque[pos - q.base]), q.(cursors := q.cursors[c := pos + 1]))
  }

  /** What the consumer would be given by receiving until there is nothing left. */
  function Backlog(q: Queue, c: nat): seq<nat>
    requires c < |q.cursors| && q.base <= q.cursors[c]
    decreases q.base + |q.deque| - q.cursors[c]
  {
    var (v, q') := Received(q, c);
    if v.None? then [] else [v.value] + Backlog(q', c)
  }

  lemma {:induction false} BacklogIsRest(q: Queue, c: nat)
    requires c < |q.cursors| && q.base <= q.cursors[c] <= q.base + |q.deque|
    ensures Backlog(q, c) == q.deque[q.cursors[c] - q.base..]
    decreases q.base + |q.deque| - q.cursors[c]
  {
    if q.cursors[c] < q.base + |q.deque| {
      BacklogIsRest(Received(q, c).1, c);
    }
  }

  // ---------------------------------------------------------------- the code

  class InProcBroadcast {
    const capacity: nat
    var deque: seq<nat>
    var cursors: seq<nat>
    var base: nat

    function Contents(): Queue
      reads this
    {
      Queue(deque, cursors, base)
    }

    /** No consumer is behind the oldest value or ahead of the newest. */
    ghost predicate Valid()
      reads this
    {
      |deque| <= capacity && forall c :: 0 <= c < |cursors| ==> base <= cursors[c] <= base + |deque|
    }

    constructor (capacity: nat)
      ensures Valid() && this.capacity == capacity && Contents() == Queue([], [], 0)
    {
      this.capacity := capacity;
      deque, cursors, base := [], [], 0;
    }

    method Register() returns (c: nat)
      requires Valid()
      modifies this
      ensures Valid() && Contents() == Registered(old(Contents())) && c == old(|cursors|)
    {
      cursors := cursors + [base + |deque|];
      c := |cursors| - 1;
    }

    method TryPush(v: nat) returns (ok: bool)
      requires Valid()
      modifies this
      ensures Valid() && (ok, Contents()) == Pushed(old(Contents()), capacity, v)
      ensures ok <==> old(|deque|) < capacity || (capacity > 0 && forall c :: 0 <= c < |cursors| ==> old(base) < cursors[c])
    {
      var min := MinOf(cursors, base + |deque|);
      if |deque| >= capacity {
        if min > base {
          deque := deque[1..];
          base := base + 1;
        } else {
          return false;
        }
      }
      deque := deque + [v];
      ok := true;
    }

    method TryRecv(c: nat) returns (v: Option<nat>)
      requires Valid() && c < |cursors|
      modifies this
      ensures Valid() && (v, Contents()) == Received(old(Contents()), c)
    {
      var pos := cursors[c];
      if pos >= base + |deque| {
        return None;
      }
      v := Some(deque[pos - base]);
      cursors := cursors[c := cursors[c] + 1];
    }

    method Lag(c: nat) returns (n: nat)
      requires Valid() && c < |cursors|
      ensures n == |Backlog(Contents(), c)|
    {
      BacklogIsRest(Contents(), c);
      n := base + |deque| - cursors[c];
    }
  }

  // ---------------------------------------------------------------- every history

  datatype Op = Register | Push(v: nat) | Recv(c: nat)

  /** The queue with what it has accepted, where each consumer came in, and what each has
      been given. */
  datatype History = History(q: Queue, accepted: seq<nat>, starts: seq<nat>, given: seq<seq<nat>>)

  ghost predicate Allowed(h: History, op: Op) {
    op.Recv? ==> op.c < |h.q.cursors|
  }

  ghost predicate Inv(h: History, capacity: nat) {
    && |h.q.deque| <= capacity && h.q.base + |h.q.deque| == |h.accepted| && h.q.deque == h.accepted[h.q.base..]
    && |h.starts| == |h.given| == |h.q.cursors|
    && forall c :: 0 <= c < |h.q.cursors| ==> ConsumerOk(h, c)
  }

  /** The consumer stands within the queue, and has been given exactly what was accepted
      since it registered, up to where it stands. */
  ghost predicate ConsumerOk(h: History, c: nat)
    requires c < |h.q.cursors| == |h.starts| == |h.given|
  {
    && h.q.base <= h.q.cursors[c] <= |h.accepted| && h.starts[c] <= h.q.cursors[c]
    && h.given[c] == h.accepted[h.starts[c]..h.q.cursors[c]]
  }

  ghost function Next(h: History, capacity: nat, op: Op): History
    requires Inv(h, capacity) && Allowed(h, op)
  {
    match op
    case Register => History(Registered(h.q), h.accepted, h.starts + [|h.accepted|], h.given + [[]])
    case Push(v) =>
      var (ok, q) := Pushed(h.q, capacity, v);
      h.(q := q, accepted := if ok then h.accepted + [v] else h.accepted)
    case Recv(c) =>
      assert ConsumerOk(h, c);
      var (v, q) := Received(h.q, c);
      h.(q := q, given := if v.None? then h.given else h.given[c := h.given[c] + [v.value]])
  }

  lemma RegisterKeeps(h: History, capacity: nat)
    requires Inv(h, capacity)
    ensures Inv(Next(h, capacity, Register), capacity)
  {
    var h' := Next(h, capacity, Register);
    forall c | 0 <= c < |h'.q.cursors| ensures ConsumerOk(h', c) {
      if c < |h.q.cursors| { assert ConsumerOk(h, c); }
    }
  }

  /** What is dropped is what every consumer has been given. */
  lemma PushKeeps(h: History, capacity: nat, v: nat)
    requires Inv(h, capacity)
    ensures Inv(Next(h, capacity, Push(v)), capacity)
  {
    var h' := Next(h, capacity, Push(v));
    forall c | 0 <= c < |h'.q.cursors| ensures ConsumerOk(h', c) {
      assert ConsumerOk(h, c);
    }
    if h'.q.base == h.q.base {
      AppendedTail(h.accepted, v, h.q.base);
    } else {
      AppendedTail(h.accepted, v, h.q.base + 1);
      assert h.accepted[h.q.base..][1..] == h.accepted[h.q.base + 1..];
    }
  }

  lemma AppendedTail(s: seq<nat>, v: nat, from: nat)
    requires from <= |s|
    ensures (s + [v])[from..] == s[from..] + [v]
  {
  }

  lemma RecvKeeps(h: History, capacity: nat, c: nat)
    requires Inv(h, capacity) && c < |h.q.cursors|
    ensures Inv(Next(h, capacity, Recv(c)), capacity)
  {
    var h' := Next(h, capacity, Recv(c));
    forall d | 0 <= d < |h'.q.cursors| ensures ConsumerOk(h', d) {
      assert ConsumerOk(h, d);
      if d == c && h' != h {
        var s, p := h.starts[c], h.q.cursors[c];
        assert h.accepted[s..p + 1] == h.accepted[s..p] + [h.accepted[p]];
      }
    }
  }

  lemma KeepsInv(h: History, capacity: nat, op: Op)
    requires Inv(h, capacity) && Allowed(h, op)
    ensures Inv(Next(h, capacity, op), capacity)
  {
    match op
    case Register => RegisterKeeps(h, capacity);
    case Push(v) => PushKeeps(h, capacity, v);
    case Recv(c) => RecvKeeps(h, capacity, c);
  }

  const NEW: History := History(Queue([], [], 0), [], [], [])

  ghost predicate StepAt(run: seq<History>, ops: seq<Op>, capacity: nat, i: nat) {
    && i < |ops| && i + 1 < |run| && Inv(run[i], capacity) && Allowed(run[i], ops[i])
    && run[i + 1] == Next(run[i], capacity, ops[i])
  }

  ghost predicate IsHistory(run: seq<History>, ops: seq<Op>, capacity: nat) {
    |run| == |ops| + 1 && run[0] == NEW && forall i :: 0 <= i < |ops| ==> StepAt(run, ops, capacity, i)
  }

  /** No history is left out: whatever call comes next can be taken. */
  lemma HistoryExtends(run: seq<History>, ops: seq<Op>, capacity: nat, op: Op)
    requires IsHistory(run, ops, capacity) && Allowed(run[|ops|], op)
    ensures Inv(run[|ops|], capacity) && IsHistory(run + [Next(run[|ops|], capacity, op)], ops + [op], capacity)
  {
    HistoryInv(run, ops, capacity, |ops|);
    var longer, more := run + [Next(run[|ops|], capacity, op)], ops + [op];
    forall i | 0 <= i < |more| ensures StepAt(longer, more, capacity, i) {
      if i < |ops| { assert StepAt(run, ops, capacity, i); }
    }
  }

  /** In every history each consumer has been given exactly the values accepted since it
      registered, in order, none lost or repeated; the rest is what it would be given by
      receiving on. */
  lemma EveryConsumerGetsAll(run: seq<History>, ops: seq<Op>, capacity: nat, n: nat, c: nat)
    requires IsHistory(run, ops, capacity) && n < |run| && c < |run[n].q.cursors|
    ensures var h := run[n];
            && |h.q.deque| <= capacity && c < |h.starts| == |h.given|
            && h.starts[c] <= h.q.cursors[c] <= |h.accepted| && h.q.base <= h.q.cursors[c] <= h.q.base + |h.q.deque|
            && h.given[c] == h.accepted[h.starts[c]..h.q.cursors[c]]
            && h.accepted[h.starts[c]..] == h.given[c] + Backlog(h.q, c)
  {
    HistoryInv(run, ops, capacity, n);
    var h := run[n];
    assert ConsumerOk(h, c);
    var s, p := h.starts[c], h.q.cursors[c];
    assert h.accepted[s..] == h.accepted[s..p] + h.accepted[p..];
    assert h.q.deque[p - h.q.base..] == h.accepted[p..];
    BacklogIsRest(h.q, c);
  }

  lemma {:induction false} HistoryInv(run: seq<History>, ops: seq<Op>, capacity: nat, n: nat)
    requires IsHistory(run, ops, capacity) && n < |run|
    ensures Inv(run[n], capacity)
    decreases n
  {
    if n > 0 {
      HistoryInv(run, ops, capacity, n - 1);
      assert StepAt(run, ops, capacity, n - 1);
      KeepsInv(run[n - 1], capacity, ops[n - 1]);
    }
  }
}
