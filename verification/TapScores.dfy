/** `score_at` and `bound_at`: every loss pattern of one weight, visited once, and the
    ceiling over all tables. */
module TapScores {
  import opened Fields
  import opened FiniteSets
  import opened LinearAlgebra
  import opened Elimination
  import Matching
  import opened Combinations
  import opened TapSearch

  // ---------------------------------------------------------------- visiting all combinations

  ghost predicate Ascending(visited: seq<seq<nat>>) {
    forall i, j :: 0 <= i < j < |visited| ==> Less(visited[i], visited[j])
  }

  /** What comes before `at` has been visited, in order. */
  ghost predicate Visiting(visited: seq<seq<nat>>, at: seq<nat>, n: nat, t: nat) {
    && IsCombination(at, n, t) && Ascending(visited)
    && (forall c :: c in visited <==> IsCombination(c, n, t) && Less(c, at))
  }

  lemma VisitFirst(at: seq<nat>, n: nat, t: nat)
    requires |at| == t <= n && forall i :: 0 <= i < t ==> at[i] == i
    ensures Visiting([], at, n, t)
  {
    forall c | IsCombination(c, n, t) ensures !Less(c, at) { FirstCombination(at, n, t, c); }
  }

  lemma VisitOne(visited: seq<seq<nat>>, at: seq<nat>, n: nat, t: nat)
    requires Visiting(visited, at, n, t)
    ensures at !in visited && Ascending(visited + [at])
    ensures forall c :: c in visited + [at] <==> c == at || (IsCombination(c, n, t) && Less(c, at))
  {
    assert !Less(at, at);
    forall i | 0 <= i < |visited| ensures Less(visited[i], at) { assert visited[i] in visited; }
  }

  lemma VisitNext(visited: seq<seq<nat>>, at: seq<nat>, next: seq<nat>, n: nat, t: nat)
    requires Visiting(visited, at, n, t) && IsCombination(next, n, t) && Less(at, next)
    requires forall b :: IsCombination(b, n, t) && Less(at, b) ==> b == next || Less(next, b)
    ensures Visiting(visited + [at], next, n, t)
  {
    VisitOne(visited, at, n, t);
    forall c ensures c in visited + [at] <==> IsCombination(c, n, t) && Less(c, next) {
      if IsCombination(c, n, t) {
        FirstDifference(c, at, 0);
        if Less(c, at) {
          LessTransitive(c, at, next);
        } else if Less(c, next) {
          NotBoth(c, next);
        }
      }
    }
  }

  lemma VisitLast(visited: seq<seq<nat>>, at: seq<nat>, n: nat, t: nat)
    requires Visiting(visited, at, n, t) && forall b :: IsCombination(b, n, t) ==> !Less(at, b)
    ensures IsEnumeration(visited + [at], n, t)
  {
    VisitOne(visited, at, n, t);
    forall c | IsCombination(c, n, t) ensures c in visited + [at] { FirstDifference(c, at, 0); }
  }

  lemma VisitedOnce(visited: seq<seq<nat>>)
    requires Ascending(visited)
    ensures |Elements(visited)| == |visited|
  {
    forall i, j | 0 <= i < j < |visited| ensures visited[i] != visited[j] { NotBoth(visited[i], visited[j]); }
    EachOnce(visited);
  }

  /** The visits so far leave out the place they have come to, so there are more to come. */
  lemma NotAllVisited(visited: seq<seq<nat>>, at: seq<nat>, n: nat, t: nat)
    requires Visiting(visited, at, n, t)
    ensures |visited| < |All(n, t)|
  {
    VisitOne(visited, at, n, t);
    VisitedOnce(visited);
    AllMembers(n, t);
    Smaller(Elements(visited), All(n, t) - {at});
  }

  lemma SameElements(visited: seq<seq<nat>>, all: set<seq<nat>>, n: nat, t: nat)
    requires IsEnumeration(visited, n, t) && forall c :: c in all <==> IsCombination(c, n, t)
    ensures Elements(visited) == all
  {
  }

  lemma AllVisited(visited: seq<seq<nat>>, n: nat, t: nat)
    requires IsEnumeration(visited, n, t)
    ensures |visited| == |All(n, t)| == Binomial(n, t) && Elements(visited) == All(n, t)
  {
    VisitedOnce(visited);
    AllCounted(n, t);
    AllMembers(n, t);
    SameElements(visited, All(n, t), n, t);
  }

  /** Two enumerations visit the same patterns in the same order. */
  lemma {:induction false} SameOrder(a: seq<seq<nat>>, b: seq<seq<nat>>)
    requires Ascending(a) && Ascending(b) && forall c :: c in a <==> c in b
    ensures a == b
  {
    if |a| == 0 {
      SomeMember(b);
    } else {
      assert a[|a| - 1] in a;
      var n, m := |a| - 1, |b| - 1;
      LastIsLargest(a);
      LastIsLargest(b);
      assert b[m] in b;
      if a[n] != b[m] { NotBoth(a[n], b[m]); }
      forall c ensures c in a[..n] <==> c in b[..m] {
        FrontMembers(a, c);
        FrontMembers(b, c);
      }
      SameOrder(a[..n], b[..m]);
      assert a == a[..n] + [a[n]] && b == b[..m] + [b[m]];
    }
  }

  lemma SomeMember(a: seq<seq<nat>>)
    ensures a == [] || exists c :: c in a
  {
    if a != [] {
      assert a[0] in a;
    }
  }

  lemma LastIsLargest(a: seq<seq<nat>>)
    requires Ascending(a) && |a| > 0
    ensures forall c :: c in a ==> c == a[|a| - 1] || Less(c, a[|a| - 1])
  {
  }

  lemma FrontMembers(a: seq<seq<nat>>, c: seq<nat>)
    requires Ascending(a) && |a| > 0
    ensures c in a[..|a| - 1] <==> c in a && c != a[|a| - 1]
  {
    var n := |a| - 1;
    forall i | 0 <= i < n ensures a[i] != a[n] { NotBoth(a[i], a[n]); }
  }

  // ---------------------------------------------------------------- counting hits

  ghost function Hits(visited: seq<seq<nat>>, p: seq<nat> -> bool): nat {
    if |visited| == 0 then 0
    else Hits(visited[..|visited| - 1], p) + if p(visited[|visited| - 1]) then 1 else 0
  }

  lemma HitsNext(visited: seq<seq<nat>>, at: seq<nat>, p: seq<nat> -> bool)
    ensures Hits(visited + [at], p) == Hits(visited, p) + if p(at) then 1 else 0
  {
    assert (visited + [at])[..|visited|] == visited;
  }

  ghost function Chosen(cs: set<seq<nat>>, p: seq<nat> -> bool): set<seq<nat>> {
    set c | c in cs && p(c)
  }

  lemma {:induction false} HitsCount(visited: seq<seq<nat>>, p: seq<nat> -> bool)
    requires Ascending(visited)
    ensures Hits(visited, p) == |Chosen(Elements(visited), p)|
  {
    if |visited| > 0 {
      var n := |visited| - 1;
      HitsCount(visited[..n], p);
      FrontMembers(visited, visited[n]);
      assert Elements(visited) == Elements(visited[..n]) + {visited[n]};
      OneMoreChosen(Elements(visited[..n]), visited[n], p);
    }
  }

  lemma OneMoreChosen(cs: set<seq<nat>>, c: seq<nat>, p: seq<nat> -> bool)
    requires c !in cs
    ensures |Chosen(cs + {c}, p)| == |Chosen(cs, p)| + if p(c) then 1 else 0
  {
    assert Chosen(cs + {c}, p) == Chosen(cs, p) + if p(c) then {c} else {};
  }

  // ---------------------------------------------------------------- scores

  function Ids(g: Geometry): (ids: seq<nat>)
    ensures |ids| == if g.floor < g.span then g.span - g.floor else 0
    ensures forall i :: 0 <= i < |ids| ==> ids[i] == g.floor + i
  {
    seq(if g.floor < g.span then g.span - g.floor else 0, i requires i >= 0 => g.floor + i)
  }

  /** The table recovers the losses at places `c` of `ids`. */
  ghost predicate RecoversAt<F(!new)>(k: Field<F>, taps: seq<F>, reps: seq<Repair>, ids: seq<nat>, c: seq<nat>) {
    Below(c, |ids|) && Recovers(k, taps, reps, Pick(ids, c))
  }

  /** Each loss at places `c` of `ids` can have a repair of its own. */
  ghost predicate MatchesAt(reps: seq<Repair>, ids: seq<nat>, c: seq<nat>) {
    Below(c, |ids|) && Matching.MatchingSize(CoverGraph(reps, Pick(ids, c))) == |c|
  }

  /** The share of loss patterns of weight `t` with the property. */
  ghost function Share(n: nat, t: nat, p: seq<nat> -> bool): real
    requires t <= n
  {
    SomePattern(n, t);
    |Chosen(All(n, t), p)| as real / |All(n, t)| as real
  }

  lemma SomePattern(n: nat, t: nat)
    requires t <= n
    ensures |All(n, t)| > 0
  {
    var at := seq(t, i requires i >= 0 => i);
    VisitFirst(at, n, t);
    NotAllVisited([], at, n, t);
  }

  ghost function Score<F(!new)>(k: Field<F>, taps: seq<F>, reps: seq<Repair>, t: nat, g: Geometry): real
    requires t <= |Ids(g)|
  {
    Share(|Ids(g)|, t, c => RecoversAt(k, taps, reps, Ids(g), c))
  }

  ghost function Bound(reps: seq<Repair>, t: nat, g: Geometry): real
    requires t <= |Ids(g)|
  {
    Share(|Ids(g)|, t, c => MatchesAt(reps, Ids(g), c))
  }

  method FirstIndices(t: nat) returns (idx: array<nat>)
    ensures idx.Length == t && fresh(idx) && forall i :: 0 <= i < t ==> idx[i] == i
  {
    idx := new nat[t](i => i);
  }

  /** The exact share of weight-`t` losses that the table recovers, with the patterns in
      the order they are visited. */
  method ScoreAt<F(==, !new)>(k: Field<F>, taps: seq<F>, reps: seq<Repair>, t: nat, g: Geometry)
    returns (score: real, ghost visited: seq<seq<nat>>)
    requires IsField(k) && |taps| == TAPS_LEN && t <= |Ids(g)|
    ensures score == Score(k, taps, reps, t, g)
    ensures IsEnumeration(visited, |Ids(g)|, t)
  {
    var ids := Ids(g);
    var n := |ids|;
    ghost var p := c => RecoversAt(k, taps, reps, ids, c);
    var total, ok := 0, 0;
    var idx := FirstIndices(t);
    visited := [];
    VisitFirst(idx[..], n, t);
    var more := true;
    while more
      invariant idx.Length == t && fresh(idx) && total == |visited| && ok == Hits(visited, p)
      invariant if more then Visiting(visited, idx[..], n, t) else IsEnumeration(visited, n, t)
      decreases more, |All(n, t)| - |visited|
    {
      ghost var at := idx[..];
      NotAllVisited(visited, at, n, t);
      var lost := Pick(ids, idx[..]);
      total := total + 1;
      var recovered := AllRecovered(k, taps, reps, lost);
      if recovered {
        ok := ok + 1;
      }
      HitsNext(visited, at, p);
      more := NextCombination(idx, n);
      if more { VisitNext(visited, at, idx[..], n, t); } else { VisitLast(visited, at, n, t); }
      visited := visited + [at];
    }
    AllVisited(visited, n, t);
    HitsCount(visited, p);
    SomePattern(n, t);
    score := ok as real / total as real;
  }

  /** The exact share of weight-`t` losses whose symbols can all have repairs of their own. */
  method BoundAt(reps: seq<Repair>, t: nat, g: Geometry) returns (bound: real, ghost visited: seq<seq<nat>>)
    requires t <= |Ids(g)|
    ensures bound == Bound(reps, t, g)
    ensures IsEnumeration(visited, |Ids(g)|, t)
  {
    var ids := Ids(g);
    var n := |ids|;
    ghost var p := c => MatchesAt(reps, ids, c);
    var total, ok := 0, 0;
    var idx := FirstIndices(t);
    visited := [];
    VisitFirst(idx[..], n, t);
    var more := true;
    while more
      invariant idx.Length == t && fresh(idx) && total == |visited| && ok == Hits(visited, p)
      invariant if more then Visiting(visited, idx[..], n, t) else IsEnumeration(visited, n, t)
      decreases more, |All(n, t)| - |visited|
    {
      ghost var at := idx[..];
      NotAllVisited(visited, at, n, t);
      var lost := Pick(ids, idx[..]);
      total := total + 1;
      var size := Matching.MaxMatching(CoverGraph(reps, lost));
      if size == t {
        ok := ok + 1;
      }
      HitsNext(visited, at, p);
      more := NextCombination(idx, n);
      if more { VisitNext(visited, at, idx[..], n, t); } else { VisitLast(visited, at, n, t); }
      visited := visited + [at];
    }
    AllVisited(visited, n, t);
    HitsCount(visited, p);
    SomePattern(n, t);
    bound := ok as real / total as real;
  }

  // ---------------------------------------------------------------- the ceiling

  /** A pattern some table recovers is one that can be matched in full. */
  lemma RecoveredIsMatched<F(!new)>(k: Field<F>, taps: seq<F>, reps: seq<Repair>, lost: seq<nat>)
    requires IsField(k) && |taps| == TAPS_LEN && Recovers(k, taps, reps, lost)
    ensures Matching.MatchingSize(CoverGraph(reps, lost)) == |lost|
  {
    var m := Equations(k, taps, reps, lost);
    RecoversIff(k, taps, reps, lost);
    var basis := SomeBasis(k, m, |lost|);
    DeterminedIffFullRank(k, basis, m, |lost|);
    NoTableBeatsMatching(k, taps, reps, lost, |lost|);
    Matching.FullMatching(CoverGraph(reps, lost));
  }

  /** No table scores above the ceiling. */
  lemma ScoreAtMostBound<F(!new)>(k: Field<F>, taps: seq<F>, reps: seq<Repair>, t: nat, g: Geometry)
    requires IsField(k) && |taps| == TAPS_LEN && t <= |Ids(g)|
    ensures 0.0 <= Score(k, taps, reps, t, g) <= Bound(reps, t, g) <= 1.0
  {
    var ids, all := Ids(g), All(|Ids(g)|, t);
    var p, q := c => RecoversAt(k, taps, reps, ids, c), c => MatchesAt(reps, ids, c);
    forall c | p(c) ensures q(c) { RecoveredIsMatched(k, taps, reps, Pick(ids, c)); }
    Smaller(Chosen(all, p), Chosen(all, q));
    Smaller(Chosen(all, q), all);
    SomePattern(|ids|, t);
    Ratios(|Chosen(all, p)|, |Chosen(all, q)|, |all|);
  }

  lemma Ratios(a: nat, b: nat, c: nat)
    requires a <= b <= c && c > 0
    ensures 0.0 <= a as real / c as real <= b as real / c as real <= 1.0
  {
    DividesAlike(0.0, a as real, c as real);
    DividesAlike(a as real, b as real, c as real);
    DividesAlike(b as real, c as real, c as real);
  }

  lemma DividesAlike(x: real, y: real, z: real)
    requires x <= y && z > 0.0
    ensures x / z <= y / z
  {
  }
}
