/** The mutex-protected token bucket, with its 32-bit microsecond clock. Each method runs
    under the lock and so counts as one step; the clock reading is an argument. */
module RateLimiter {

  const MICROS: nat := 1_000_000
  const WORD: nat := 0x1_0000_0000
  const U32_MAX: nat := 0xFFFF_FFFF

  datatype Limits = Limits(capacity: nat, rate: nat)

  datatype Bucket = Bucket(tokens: nat, lastRefill: nat)

  /** Limits and tokens are 32-bit numbers. */
  predicate Fits(p: Limits) {
    p.capacity <= U32_MAX && p.rate <= U32_MAX
  }

  function Min(a: nat, b: nat): nat {
    if a < b then a else b
  }

  /** What the rate gives in so many microseconds. */
  function Refill(micros: nat, rate: nat): nat {
    micros * rate / MICROS
  }

  /** The tokens there are at clock reading `now`, a time in microseconds that the clock
      shows in 32 bits. */
  function TokensAt(p: Limits, b: Bucket, now: nat): (t: nat)
    ensures t <= p.capacity
  {
    var elapsed := (now % WORD - b.lastRefill) % WORD;
    var refilled := Min(Refill(elapsed, p.rate), U32_MAX);
    Min(Min(b.tokens + refilled, U32_MAX), p.capacity)
  }

  /** A refused request leaves the bucket as it is. */
  function Acquire(p: Limits, b: Bucket, now: nat, n: nat): (bool, Bucket) {
    var after := TokensAt(p, b, now);
    if after < n then (false, b) else (true, Bucket(after - n, now % WORD))
  }

  // ---------------------------------------------------------------- the code

  class MutexBucket {
    const capacity: nat
    const rate: nat
    var tokens: nat
    var lastRefill: nat

    ghost predicate Valid()
      reads this
    {
      Fits(Limits(capacity, rate)) && tokens <= capacity && lastRefill < WORD
    }

    function Contents(): Bucket
      reads this
    {
      Bucket(tokens, lastRefill)
    }

    constructor (capacity: nat, rate: nat, now: nat)
      requires Fits(Limits(capacity, rate))
      ensures Valid() && this.capacity == capacity && this.rate == rate && Contents() == Bucket(capacity, now % WORD)
    {
      this.capacity, this.rate := capacity, rate;
      tokens, lastRefill := capacity, now % WORD;
    }

    method TryAcquire(now: nat, n: nat) returns (ok: bool)
      requires Valid()
      modifies this
      ensures Valid() && (ok, Contents()) == Acquire(Limits(capacity, rate), old(Contents()), now, n)
    {
      var clock := now % WORD;
      var elapsed := (clock - lastRefill) % WORD;
      var refilled := Min(elapsed * rate / MICROS, U32_MAX);
      var after := Min(Min(tokens + refilled, U32_MAX), capacity);
      if after < n {
        return false;
      }
      tokens := after - n;
      lastRefill := clock;
      ok := true;
    }

    /** What is available is the most that would be granted now. */
    method Available(now: nat) returns (a: nat)
      requires Valid()
      ensures forall n: nat :: n <= a <==> Acquire(Limits(capacity, rate), Contents(), now, n).0
    {
      var elapsed := (now % WORD - lastRefill) % WORD;
      var refilled := Min(elapsed * rate / MICROS, U32_MAX);
      a := Min(Min(tokens + refilled, U32_MAX), capacity);
      assert a == TokensAt(Limits(capacity, rate), Contents(), now);
    }
  }

  // ---------------------------------------------------------------- what is granted

  /** The bucket was last refilled at true time `last`. */
  ghost predicate RefilledAt(b: Bucket, last: nat) {
    b.lastRefill == last % WORD
  }

  lemma ElapsedIs(last: nat, now: nat)
    requires last <= now < last + WORD
    ensures (now % WORD - last % WORD) % WORD == now - last
  {
  }

  /** Less than a turn of the clock after the last refill, a request is granted if and only
      if the tokens left, with what the rate has given since, cover it, up to the capacity;
      what is left is what was there less what was asked for. */
  lemma GrantedIffCovered(p: Limits, b: Bucket, last: nat, now: nat, n: nat)
    requires Fits(p) && RefilledAt(b, last) && last <= now < last + WORD
    ensures var there := Min(p.capacity, b.tokens + Refill(now - last, p.rate));
            var (ok, after) := Acquire(p, b, now, n);
            && (ok <==> n <= there)
            && (if ok then after.tokens == there - n && RefilledAt(after, now) else after == b)
  {
    ElapsedIs(last, now);
  }

  // ---------------------------------------------------------------- any window of any run

  /** A request for `n` tokens at a true time that does not wrap. */
  datatype Call = Call(time: nat, n: nat)

  /** The clock does not go back between calls in lock order. */
  ghost predicate InOrder(calls: seq<Call>) {
    forall i, j :: 0 <= i < j < |calls| ==> calls[i].time <= calls[j].time
  }

  function Granted(p: Limits, b: Bucket, calls: seq<Call>): nat
    decreases |calls|
  {
    if |calls| == 0 then 0
    else
      var (ok, after) := Acquire(p, b, calls[0].time, calls[0].n);
      (if ok then calls[0].n else 0) + Granted(p, after, calls[1..])
  }

  function Run(p: Limits, b: Bucket, calls: seq<Call>): Bucket
    decreases |calls|
  {
    if |calls| == 0 then b else Run(p, Acquire(p, b, calls[0].time, calls[0].n).1, calls[1..])
  }

  lemma DivisionAdds(x: nat, y: nat)
    ensures x / MICROS + y / MICROS <= (x + y) / MICROS
  {
  }

  lemma RefillAdds(a: nat, b: nat, rate: nat)
    ensures Refill(a, rate) + Refill(b, rate) <= Refill(a + b, rate)
  {
    assert (a + b) * rate == a * rate + b * rate;
    DivisionAdds(a * rate, b * rate);
  }

  lemma RefillGrows(a: nat, b: nat, rate: nat)
    requires a <= b
    ensures Refill(a, rate) <= Refill(b, rate)
  {
    RefillAdds(a, b - a, rate);
  }

  /** The wrapped clock never shows more time than has passed. */
  lemma ElapsedAtMost(now: nat, last: nat)
    requires last <= now
    ensures 0 <= (now % WORD - last % WORD) % WORD <= now - last
  {
    assert now - last == (now / WORD - last / WORD) * WORD + (now % WORD - last % WORD);
  }

  lemma TokensAtMost(p: Limits, b: Bucket, now: nat, last: nat)
    requires RefilledAt(b, last) && last <= now
    ensures TokensAt(p, b, now) <= b.tokens + Refill(now - last, p.rate)
  {
    ElapsedAtMost(now, last);
    RefillGrows((now % WORD - b.lastRefill) % WORD, now - last, p.rate);
  }

  /** From a bucket refilled at `last`, no more is granted by time `end` than was in it
      and what the rate gives in between. */
  lemma {:induction false} GrantedAtMost(p: Limits, b: Bucket, calls: seq<Call>, last: nat, end: nat)
    requires InOrder(calls) && RefilledAt(b, last) && last <= end
    requires forall i :: 0 <= i < |calls| ==> last <= calls[i].time <= end
    ensures Granted(p, b, calls) <= b.tokens + Refill(end - last, p.rate)
    decreases |calls|
  {
    if |calls| > 0 {
      var now, n := calls[0].time, calls[0].n;
      var (ok, after) := Acquire(p, b, now, n);
      if ok {
        TokensAtMost(p, b, now, last);
        GrantedAtMost(p, after, calls[1..], now, end);
        RefillAdds(now - last, end - now, p.rate);
      } else {
        GrantedAtMost(p, b, calls[1..], last, end);
      }
    }
  }

  /** In any window of calls, from any bucket whose last refill was not after it began, the
      tokens granted are at most the capacity and what the rate gives in the window. */
  lemma {:induction false} WindowBound(p: Limits, b: Bucket, calls: seq<Call>, last: nat, start: nat, end: nat)
    requires InOrder(calls) && RefilledAt(b, last) && last <= start <= end
    requires forall i :: 0 <= i < |calls| ==> start <= calls[i].time <= end
    ensures Granted(p, b, calls) <= p.capacity + Refill(end - start, p.rate)
  {
    if |calls| > 0 {
      var now, n := calls[0].time, calls[0].n;
      var (ok, after) := Acquire(p, b, now, n);
      if ok {
        GrantedAtMost(p, after, calls[1..], now, end);
        RefillGrows(end - now, end - start, p.rate);
      } else {
        WindowBound(p, b, calls[1..], last, start, end);
      }
    }
  }

  /** Every bucket a run reaches was last refilled at a time not after the calls so far. */
  lemma {:induction false} RunRefilled(p: Limits, b: Bucket, calls: seq<Call>, last: nat, end: nat) returns (latest: nat)
    requires InOrder(calls) && RefilledAt(b, last) && last <= end
    requires forall i :: 0 <= i < |calls| ==> last <= calls[i].time <= end
    ensures RefilledAt(Run(p, b, calls), latest) && latest <= end
    decreases |calls|
  {
    latest := last;
    if |calls| > 0 {
      var (ok, after) := Acquire(p, b, calls[0].time, calls[0].n);
      latest := RunRefilled(p, after, calls[1..], if ok then calls[0].time else last, end);
    }
  }

  /** Any run from a new bucket, and any window of it. */
  lemma AnyWindow(p: Limits, created: nat, before: seq<Call>, window: seq<Call>, start: nat, end: nat)
    requires InOrder(before) && InOrder(window) && created <= start <= end
    requires forall i :: 0 <= i < |before| ==> created <= before[i].time <= start
    requires forall i :: 0 <= i < |window| ==> start <= window[i].time <= end
    ensures var b := Run(p, Bucket(p.capacity, created % WORD), before);
            Granted(p, b, window) <= p.capacity + Refill(end - start, p.rate)
  {
    var full := Bucket(p.capacity, created % WORD);
    var latest := RunRefilled(p, full, before, created, start);
    WindowBound(p, Run(p, full, before), window, latest, start, end);
  }

  // ---------------------------------------------------------------- exactly when the bound holds

  const HALF_WORD: nat := 0x8000_0000

  ghost predicate Ordered(times: seq<nat>) {
    forall i, j :: 0 <= i < j < |times| ==> times[i] <= times[j]
  }

  /** No reading is half a turn of the clock or more behind the one before it. */
  ghost predicate SmallStepsBack(times: seq<nat>) {
    forall k :: 0 <= k < |times| - 1 ==> times[k] < times[k + 1] + HALF_WORD
  }

  /** The calls were made at these readings, in lock order. */
  ghost predicate MadeAt(calls: seq<Call>, times: seq<nat>) {
    |calls| == |times| && forall k :: 0 <= k < |calls| ==> calls[k].time == times[k]
  }

  /** Calls `i` to `j` lie between `start` and `end`. */
  ghost predicate IsWindow(calls: seq<Call>, i: nat, j: nat, start: nat, end: nat) {
    i <= j <= |calls| && start <= end && forall k :: i <= k < j ==> start <= calls[k].time <= end
  }

  /** What the window grants, in a run from a bucket made at `created`, is within the bound. */
  ghost predicate WithinBound(p: Limits, created: nat, calls: seq<Call>, i: nat, j: nat, start: nat, end: nat)
    requires IsWindow(calls, i, j, start, end)
  {
    Granted(p, Run(p, Bucket(p.capacity, created % WORD), calls[..i]), calls[i..j])
    <= p.capacity + Refill(end - start, p.rate)
  }

  /** The bound holds for all limits, all requests made at these readings and all windows. */
  ghost predicate AlwaysBounded(created: nat, times: seq<nat>) {
    forall p, calls, i: nat, j: nat, start: nat, end: nat ::
      Fits(p) && MadeAt(calls, times) && IsWindow(calls, i, j, start, end) ==>
        WithinBound(p, created, calls, i, j, start, end)
  }

  lemma OrderSuffices(p: Limits, created: nat, calls: seq<Call>, times: seq<nat>, i: nat, j: nat, start: nat, end: nat)
    requires Ordered(times) && MadeAt(calls, times) && IsWindow(calls, i, j, start, end)
    requires forall k :: 0 <= k < |times| ==> created <= times[k]
    ensures WithinBound(p, created, calls, i, j, start, end)
  {
    if i < j {
      WindowTimes(calls, times, i, j);
      AnyWindow(p, created, calls[..i], calls[i..j], times[i], times[j - 1]);
      assert start <= calls[i].time && calls[j - 1].time <= end;
      RefillGrows(times[j - 1] - times[i], end - start, p.rate);
    }
  }

  lemma WindowTimes(calls: seq<Call>, times: seq<nat>, i: nat, j: nat)
    requires Ordered(times) && MadeAt(calls, times) && i < j <= |calls|
    ensures InOrder(calls[..i]) && InOrder(calls[i..j])
    ensures forall k :: 0 <= k < i ==> calls[..i][k].time == times[k] <= times[i]
    ensures forall k :: 0 <= k < j - i ==> times[i] <= calls[i..j][k].time <= times[j - 1]
  {
    var window := calls[i..j];
    forall k | 0 <= k < |window| ensures times[i] <= window[k].time <= times[j - 1] {
      assert window[k] == calls[i + k];
    }
    forall k, m | 0 <= k < m < |window| ensures window[k].time <= window[m].time {
      assert window[k] == calls[i + k] && window[m] == calls[i + m];
    }
  }

  lemma {:induction false} StepsBack(times: seq<nat>)
    ensures Ordered(times) || exists k :: 0 <= k < |times| - 1 && times[k] > times[k + 1]
  {
    if |times| > 1 {
      var n := |times| - 1;
      var front := times[..n];
      StepsBack(front);
      if !Ordered(front) {
        var k :| 0 <= k < n - 1 && front[k] > front[k + 1];
        assert times[k] > times[k + 1];
      } else if times[n - 1] <= times[n] {
        forall i, j | 0 <= i < j < |times| ensures times[i] <= times[j] {
          if j < n { assert front[i] <= front[j]; } else if i < n - 1 { assert front[i] <= front[n - 1]; }
        }
      }
    }
  }

  /** Requests for nothing leave a full bucket full. */
  lemma {:induction false} StaysFull(p: Limits, b: Bucket, calls: seq<Call>)
    requires Fits(p) && b.tokens == p.capacity && forall k :: 0 <= k < |calls| ==> calls[k].n == 0
    ensures Run(p, b, calls).tokens == p.capacity
    decreases |calls|
  {
    if |calls| > 0 {
      StaysFull(p, Acquire(p, b, calls[0].time, 0).1, calls[1..]);
    }
  }

  /** A step back shows on the clock as the rest of a turn. */
  lemma BackIsForward(now: nat, last: nat)
    requires now < last < now + HALF_WORD
    ensures (now % WORD - last % WORD) % WORD == WORD - (last - now)
  {
    assert now - last == (now / WORD - last / WORD) * WORD + (now % WORD - last % WORD);
    assert (now - last) % WORD == WORD - (last - now);
  }

  /** So a full bucket grants its capacity twice over a step back. */
  lemma GrantsTwice(b: Bucket, first: nat, second: nat)
    requires b.tokens == HALF_WORD && second < first < second + HALF_WORD
    ensures Granted(Limits(HALF_WORD, MICROS), b, [Call(first, HALF_WORD), Call(second, HALF_WORD)]) == 2 * HALF_WORD
  {
    var p, c, d := Limits(HALF_WORD, MICROS), Call(first, HALF_WORD), Call(second, HALF_WORD);
    var between := Bucket(0, first % WORD);
    assert Acquire(p, b, first, HALF_WORD) == (true, between);
    BackIsForward(second, first);
    var elapsed := (second % WORD - first % WORD) % WORD;
    assert Refill(elapsed, MICROS) == elapsed > HALF_WORD;
    assert Acquire(p, between, second, HALF_WORD).0;
    assert [c, d][1..] == [d] && [d][1..] == [];
    assert Granted(p, between, [d]) == HALF_WORD;
  }

  /** A step back of less than half a turn breaks the bound for some limits and requests. */
  lemma StepBackBreaks(created: nat, times: seq<nat>, k: nat)
    requires k + 1 < |times| && times[k + 1] < times[k] < times[k + 1] + HALF_WORD
    ensures !AlwaysBounded(created, times)
  {
    var p := Limits(HALF_WORD, MICROS);
    var calls := seq(|times|, m requires 0 <= m < |times| => Call(times[m], if m == k || m == k + 1 then HALF_WORD else 0));
    var full := Bucket(p.capacity, created % WORD);
    StaysFull(p, full, calls[..k]);
    assert calls[k..k + 2] == [Call(times[k], HALF_WORD), Call(times[k + 1], HALF_WORD)];
    GrantsTwice(Run(p, full, calls[..k]), times[k], times[k + 1]);
    assert MadeAt(calls, times) && IsWindow(calls, k, k + 2, times[k + 1], times[k]);
    assert Refill(times[k] - times[k + 1], MICROS) == times[k] - times[k + 1];
    assert !WithinBound(p, created, calls, k, k + 2, times[k + 1], times[k]);
  }

  /** For readings not before the bucket was made, with no step back of half a turn or
      more, the bound holds for all limits, requests and windows exactly when the readings
      do not go back in lock order. */
  lemma BoundedIffOrdered(created: nat, times: seq<nat>)
    requires SmallStepsBack(times) && forall k :: 0 <= k < |times| ==> created <= times[k]
    ensures AlwaysBounded(created, times) <==> Ordered(times)
  {
    if Ordered(times) {
      forall p, calls, i: nat, j: nat, start: nat, end: nat
        | Fits(p) && MadeAt(calls, times) && IsWindow(calls, i, j, start, end)
        ensures WithinBound(p, created, calls, i, j, start, end)
      {
        OrderSuffices(p, created, calls, times, i, j, start, end);
      }
    } else {
      StepsBack(times);
      var k :| 0 <= k < |times| - 1 && times[k] > times[k + 1];
      StepBackBreaks(created, times, k);
    }
  }

  /** With clock readings that go back between calls the bound fails: one microsecond back
      shows as a whole turn of the clock. */
  lemma OrderIsNeeded()
    ensures var p, calls := Limits(1, 1), [Call(5, 1), Call(4, 1)];
            && !InOrder(calls) && RefilledAt(Bucket(1, 4), 4)
            && Granted(p, Bucket(1, 4), calls) == 2 > p.capacity + (5 - 4) * p.rate / MICROS
  {
    var p, calls := Limits(1, 1), [Call(5, 1), Call(4, 1)];
    assert calls[0].time > calls[1].time;
    assert Acquire(p, Bucket(1, 4), 5, 1) == (true, Bucket(0, 5));
    assert (4 % WORD - 5) % WORD == U32_MAX;
    assert Acquire(p, Bucket(0, 5), 4, 1) == (true, Bucket(0, 4));
    assert calls[1..] == [Call(4, 1)];
    assert Granted(p, Bucket(0, 5), [Call(4, 1)]) == 1;
  }
}
