/** The in-place step from one combination to the next in lexicographic order. */
module Combinations {

  /** `t` places out of `n`, in ascending order. */
  ghost predicate IsCombination(c: seq<nat>, n: nat, t: nat) {
    |c| == t && (forall i :: 0 <= i < t ==> c[i] < n) && (forall i, j :: 0 <= i < j < t ==> c[i] < c[j])
  }

  /** `a` and `b` first differ at `d`, where `a` is smaller. */
  ghost predicate LessAt(a: seq<nat>, b: seq<nat>, d: nat) {
    d < |a| == |b| && a[..d] == b[..d] && a[d] < b[d]
  }

  ghost predicate Less(a: seq<nat>, b: seq<nat>) {
    exists d :: LessAt(a, b, d)
  }

  lemma {:induction false} FirstDifference(a: seq<nat>, b: seq<nat>, from: nat)
    requires |a| == |b| && from <= |a| && a[..from] == b[..from]
    ensures a == b || Less(a, b) || Less(b, a)
    decreases |a| - from
  {
    if from == |a| {
      assert a == a[..from] && b == b[..from];
    } else if a[from] == b[from] {
      assert a[..from + 1] == a[..from] + [a[from]];
      assert b[..from + 1] == b[..from] + [b[from]];
      FirstDifference(a, b, from + 1);
    } else {
      assert LessAt(a, b, from) || LessAt(b, a, from);
    }
  }

  lemma LessTransitive(a: seq<nat>, b: seq<nat>, c: seq<nat>)
    requires Less(a, b) && Less(b, c)
    ensures Less(a, c)
  {
    var d: nat :| LessAt(a, b, d);
    var e: nat :| LessAt(b, c, e);
    var f := if d < e then d else e;
    assert a[..f] == a[..d][..f] && b[..f] == b[..d][..f] && b[..f] == b[..e][..f] && c[..f] == c[..e][..f];
    if d < e {
      assert b[..e][d] == c[..e][d];
    } else if e < d {
      assert a[..d][e] == b[..d][e];
    }
    assert LessAt(a, c, f);
  }

  lemma NotBoth(a: seq<nat>, b: seq<nat>)
    requires Less(a, b)
    ensures a != b && !Less(b, a)
  {
    assert !Less(a, a);
    if Less(b, a) {
      LessTransitive(a, b, a);
    }
  }

  /** Places of a combination are at least so far apart, and leave room for the rest. */
  lemma {:induction false} Spread(c: seq<nat>, n: nat, t: nat, i: nat, j: nat)
    requires IsCombination(c, n, t) && i <= j < t
    ensures c[j] >= c[i] + (j - i) && c[i] + t <= i + n
    decreases t - i
  {
    if i < j {
      Spread(c, n, t, i + 1, j);
    } else if i + 1 < t {
      Spread(c, n, t, i + 1, i + 1);
    }
  }

  /** Every place from `i` on is as late as it can be. */
  ghost predicate AtEnd(c: seq<nat>, n: nat, t: nat, i: nat) {
    |c| == t && forall j :: i <= j < t ==> c[j] + t == j + n
  }

  /** What follows a combination that is at its end from place `i + 1` on. */
  function Stepped(c: seq<nat>, i: nat): (s: seq<nat>)
    requires i < |c|
    ensures |s| == |c| && forall j :: 0 <= j < |c| ==> s[j] == if j < i then c[j] else c[i] + 1 + (j - i)
  {
    seq(|c|, j requires 0 <= j < |c| => if j < i then c[j] else c[i] + 1 + (j - i))
  }

  lemma SteppedIsNext(c: seq<nat>, n: nat, t: nat, i: nat)
    requires IsCombination(c, n, t) && i < t && c[i] + t != i + n && AtEnd(c, n, t, i + 1)
    ensures IsCombination(Stepped(c, i), n, t) && Less(c, Stepped(c, i))
    ensures forall b :: IsCombination(b, n, t) && Less(c, b) ==> b == Stepped(c, i) || Less(Stepped(c, i), b)
  {
    var s := Stepped(c, i);
    Spread(c, n, t, i, i);
    assert c[..i] == s[..i];
    assert LessAt(c, s, i);
    forall b | IsCombination(b, n, t) && Less(c, b) ensures b == s || Less(s, b) {
      var d: nat :| LessAt(c, b, d);
      Spread(b, n, t, d, d);
      assert d <= i;
      if d < i {
        assert s[..d] == c[..d];
        assert LessAt(s, b, d);
      } else {
        AfterStep(c, b, n, t, i);
      }
    }
  }

  /** A combination that agrees before place `i` and is later there is not before the step. */
  lemma AfterStep(c: seq<nat>, b: seq<nat>, n: nat, t: nat, i: nat)
    requires |c| == t && IsCombination(b, n, t) && LessAt(c, b, i)
    ensures b == Stepped(c, i) || Less(Stepped(c, i), b)
  {
    var s := Stepped(c, i);
    assert s[..i] == b[..i];
    forall e | 0 <= e < t ensures b[e] >= s[e] {
      if e < i { assert s[..i][e] == b[..i][e]; } else { Spread(b, n, t, i, e); }
    }
    FirstDifference(s, b, i);
  }

  lemma NothingAfterEnd(c: seq<nat>, n: nat, t: nat, b: seq<nat>)
    requires AtEnd(c, n, t, 0) && IsCombination(b, n, t)
    ensures !Less(c, b)
  {
    if Less(c, b) {
      var d: nat :| LessAt(c, b, d);
      Spread(b, n, t, d, d);
    }
  }

  lemma FirstCombination(c: seq<nat>, n: nat, t: nat, b: seq<nat>)
    requires |c| == t && (forall i :: 0 <= i < t ==> c[i] == i) && IsCombination(b, n, t)
    ensures !Less(b, c)
  {
    if Less(b, c) {
      var d: nat :| LessAt(b, c, d);
      Spread(b, n, t, 0, d);
    }
  }

  /** Advance `idx` to the next combination, or report that it is the last. */
  method NextCombination(idx: array<nat>, n: nat) returns (more: bool)
    requires IsCombination(idx[..], n, idx.Length)
    modifies idx
    ensures var t, c, s := idx.Length, old(idx[..]), idx[..];
            if more then
              && IsCombination(s, n, t) && Less(c, s)
              && forall b :: IsCombination(b, n, t) && Less(c, b) ==> b == s || Less(s, b)
            else
              s == c && forall b :: IsCombination(b, n, t) ==> !Less(c, b)
  {
    var t := idx.Length;
    ghost var c := idx[..];
    var i := t;
    while true
      invariant 0 <= i <= t && idx[..] == c && AtEnd(c, n, t, i)
      decreases i
    {
      if i == 0 {
        forall b | IsCombination(b, n, t) ensures !Less(c, b) { NothingAfterEnd(c, n, t, b); }
        return false;
      }
      i := i - 1;
      if idx[i] + t != i + n { break; }
    }
    SteppedIsNext(c, n, t, i);
    idx[i] := idx[i] + 1;
    for j := i + 1 to t
      invariant forall m :: 0 <= m < j ==> idx[m] == Stepped(c, i)[m]
    {
      idx[j] := idx[j - 1] + 1;
    }
    assert idx[..] == Stepped(c, i);
    more := true;
  }

  // ---------------------------------------------------------------- all of them

  /** The combinations of `t` out of `n` places: those without the last place, and those
      with it. */
  ghost function All(n: nat, t: nat): set<seq<nat>> {
    if t == 0 then {[]}
    else if n == 0 then {}
    else All(n - 1, t) + WithLast(All(n - 1, t - 1), n - 1)
  }

  ghost function WithLast(cs: set<seq<nat>>, last: nat): set<seq<nat>> {
    set c | c in cs :: c + [last]
  }

  lemma InWithLast(c: seq<nat>, cs: set<seq<nat>>, last: nat)
    ensures c in WithLast(cs, last) <==> |c| > 0 && c[|c| - 1] == last && c[..|c| - 1] in cs
  {
    if c in WithLast(cs, last) {
      var b :| b in cs && c == b + [last];
      assert c[..|c| - 1] == b;
    }
    if |c| > 0 && c[|c| - 1] == last {
      assert c == c[..|c| - 1] + [last];
    }
  }

  lemma LastOrNot(c: seq<nat>, n: nat, t: nat)
    requires t > 0 && n > 0
    ensures IsCombination(c, n, t) <==>
            IsCombination(c, n - 1, t) || (|c| > 0 && c[|c| - 1] == n - 1 && IsCombination(c[..|c| - 1], n - 1, t - 1))
  {
    if IsCombination(c, n, t) {
      assert forall i :: 0 <= i < t - 1 ==> c[i] < c[t - 1];
    }
  }

  lemma {:induction false} AllAreCombinations(c: seq<nat>, n: nat, t: nat)
    ensures c in All(n, t) <==> IsCombination(c, n, t)
    decreases n
  {
    if t > 0 && n > 0 {
      AllAreCombinations(c, n - 1, t);
      InWithLast(c, All(n - 1, t - 1), n - 1);
      if |c| > 0 { AllAreCombinations(c[..|c| - 1], n - 1, t - 1); }
      LastOrNot(c, n, t);
    }
  }

  function Binomial(n: nat, t: nat): nat {
    if t == 0 then 1 else if n == 0 then 0 else Binomial(n - 1, t) + Binomial(n - 1, t - 1)
  }

  /** Out of `n` places there are as many as the binomial coefficient says, whatever their
      length. */
  ghost predicate Counted(n: nat) {
    forall t: nat :: |All(n, t)| == Binomial(n, t)
  }

  lemma CountedStep(n: nat)
    requires n > 0 && Counted(n - 1)
    ensures Counted(n)
  {
    forall t: nat ensures |All(n, t)| == Binomial(n, t) {
      if t > 0 { AllStep(n, t); }
    }
  }

  lemma {:induction false} EachCounted(n: nat)
    ensures Counted(n)
  {
    if n > 0 {
      EachCounted(n - 1);
      CountedStep(n);
    }
  }

  lemma AllCounted(n: nat, t: nat)
    ensures |All(n, t)| == Binomial(n, t)
  {
    EachCounted(n);
  }

  lemma AllMembers(n: nat, t: nat)
    ensures forall c :: c in All(n, t) <==> IsCombination(c, n, t)
  {
    forall c ensures c in All(n, t) <==> IsCombination(c, n, t) { AllAreCombinations(c, n, t); }
  }

  lemma NotInBoth(c: seq<nat>, n: nat, t: nat)
    requires n > 0 && t > 0 && c in WithLast(All(n - 1, t - 1), n - 1)
    ensures c !in All(n - 1, t)
  {
    InWithLast(c, All(n - 1, t - 1), n - 1);
    AllAreCombinations(c, n - 1, t);
  }

  lemma Apart(n: nat, t: nat)
    requires n > 0 && t > 0
    ensures All(n - 1, t) !! WithLast(All(n - 1, t - 1), n - 1)
  {
    var without, longer := All(n - 1, t), WithLast(All(n - 1, t - 1), n - 1);
    forall c | c in longer ensures c !in without { NotInBoth(c, n, t); }
  }

  lemma ApartCounted(without: set<seq<nat>>, shorter: set<seq<nat>>, last: nat)
    requires without !! WithLast(shorter, last)
    ensures |without + WithLast(shorter, last)| == |without| + |shorter|
  {
    WithLastCounted(shorter, last);
  }

  lemma AllStep(n: nat, t: nat)
    requires n > 0 && t > 0
    ensures |All(n, t)| == |All(n - 1, t)| + |All(n - 1, t - 1)|
  {
    Apart(n, t);
    ApartCounted(All(n - 1, t), All(n - 1, t - 1), n - 1);
  }

  lemma {:induction false} WithLastCounted(cs: set<seq<nat>>, last: nat)
    ensures |WithLast(cs, last)| == |cs|
  {
    if c :| c in cs {
      WithLastCounted(cs - {c}, last);
      assert WithLast(cs, last) == WithLast(cs - {c}, last) + {c + [last]};
      InWithLast(c + [last], cs - {c}, last);
      assert (c + [last])[..|c|] == c;
    }
  }

  /** A list of all combinations in lexicographic order, each once. */
  ghost predicate IsEnumeration(visited: seq<seq<nat>>, n: nat, t: nat) {
    && (forall c :: c in visited <==> IsCombination(c, n, t))
    && (forall i, j :: 0 <= i < j < |visited| ==> Less(visited[i], visited[j]))
  }
}
