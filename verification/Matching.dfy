/** `augment` and `max_matching`: augmenting paths between lost symbols and the repairs
    that cover them, over any relation of covering. */
module Matching {
  import opened Options
  import opened FiniteSets

  /** Which of `reps` repairs cover which of `lost` symbols. */
  datatype Graph = Graph(reps: nat, lost: nat, covers: (nat, nat) -> bool)

  type Pairing = seq<Option<nat>>

  /** What a search leaves behind. */
  datatype Search = Search(found: bool, paired: Pairing, seen: seq<bool>)

  ghost predicate InRange(g: Graph, paired: Pairing) {
    |paired| == g.reps && forall r :: 0 <= r < |paired| && paired[r].Some? ==> paired[r].value < g.lost
  }

  ghost predicate Grows(before: seq<bool>, after: seq<bool>) {
    |after| == |before| && forall r :: 0 <= r < |before| && before[r] ==> after[r]
  }

  ghost function Unseen(seen: seq<bool>): set<nat> {
    set r: nat | r < |seen| && !seen[r]
  }

  /** `augment` for symbol `j` with its loop at repair `ri`. */
  ghost function Try(g: Graph, j: nat, ri: nat, paired: Pairing, seen: seq<bool>): (s: Search)
    requires InRange(g, paired) && |seen| == g.reps && j < g.lost && ri <= g.reps
    ensures InRange(g, s.paired) && Grows(seen, s.seen)
    decreases Unseen(seen), g.reps - ri
  {
    if ri == g.reps then Search(false, paired, seen)
    else if seen[ri] || !g.covers(ri, j) then Try(g, j, ri + 1, paired, seen)
    else
      var marked := seen[ri := true];
      assert ri in Unseen(seen) && ri !in Unseen(marked);
      if paired[ri].None? then Search(true, paired[ri := Some(j)], marked)
      else
        var inner := Try(g, paired[ri].value, 0, paired, marked);
        assert ri !in Unseen(inner.seen) && Unseen(inner.seen) <= Unseen(seen);
        if inner.found then Search(true, inner.paired[ri := Some(j)], inner.seen)
        else Try(g, j, ri + 1, inner.paired, inner.seen)
  }

  // ---------------------------------------------------------------- pairings

  /** Every pair is one of a repair and a symbol it covers. */
  ghost predicate Covering(g: Graph, paired: Pairing) {
    InRange(g, paired) && forall r :: 0 <= r < |paired| && paired[r].Some? ==> g.covers(r, paired[r].value)
  }

  ghost predicate OneToOne(paired: Pairing) {
    forall r, q :: 0 <= r < |paired| && 0 <= q < |paired| && r != q && paired[r].Some? ==> paired[r] != paired[q]
  }

  /** Repairs paired with `j` are seen already. */
  ghost predicate OnlySeen(paired: Pairing, seen: seq<bool>, j: nat) {
    |seen| == |paired| && forall r :: 0 <= r < |paired| && paired[r] == Some(j) ==> seen[r]
  }

  ghost predicate Has(paired: Pairing, j: nat) {
    exists r :: 0 <= r < |paired| && paired[r] == Some(j)
  }

  /** The rest of the symbols reached by a failed search: what was newly seen is paired,
      and what its symbols could be paired with is seen. */
  ghost predicate DeadEnds(g: Graph, paired: Pairing, before: seq<bool>, after: seq<bool>)
    requires |paired| == |before| == |after| == g.reps
  {
    forall r :: 0 <= r < g.reps && after[r] && !before[r] ==> paired[r].Some? && AllSeen(g, paired[r].value, 0, after)
  }

  /** Repairs from `ri` on that cover `j` are seen. */
  ghost predicate AllSeen(g: Graph, j: nat, ri: nat, seen: seq<bool>)
    requires |seen| == g.reps
  {
    forall r :: ri <= r < g.reps && g.covers(r, j) ==> seen[r]
  }

  lemma {:induction false} TryFails(g: Graph, j: nat, ri: nat, paired: Pairing, seen: seq<bool>)
    requires InRange(g, paired) && |seen| == g.reps && j < g.lost && ri <= g.reps
    requires !Try(g, j, ri, paired, seen).found
    ensures var s := Try(g, j, ri, paired, seen);
            s.paired == paired && AllSeen(g, j, ri, s.seen) && DeadEnds(g, paired, seen, s.seen)
    decreases Unseen(seen), g.reps - ri
  {
    if ri < g.reps {
      if seen[ri] || !g.covers(ri, j) {
        TryFails(g, j, ri + 1, paired, seen);
      } else {
        var marked := seen[ri := true];
        assert ri in Unseen(seen) && ri !in Unseen(marked);
        var inner := Try(g, paired[ri].value, 0, paired, marked);
        assert ri !in Unseen(inner.seen) && Unseen(inner.seen) <= Unseen(seen);
        TryFails(g, paired[ri].value, 0, paired, marked);
        TryFails(g, j, ri + 1, inner.paired, inner.seen);
      }
    }
  }

  /** A search that succeeds pairs `j` with a repair not seen before, leaves alone what
      was seen, and keeps every other symbol paired, each with one repair only. */
  ghost predicate Augmented(g: Graph, j: nat, before: Pairing, seen: seq<bool>, after: Pairing) {
    && Covering(g, after) && |before| == |seen| == g.reps
    && (forall r :: 0 <= r < g.reps && seen[r] ==> after[r] == before[r])
    && (exists r :: 0 <= r < g.reps && !seen[r] && after[r] == Some(j))
    && (forall r, q :: 0 <= r < g.reps && 0 <= q < g.reps && r != q && after[r].Some? && after[r] == after[q] ==>
          after[r] == Some(j) && (seen[r] || seen[q]))
    && (forall i :: Has(after, i) <==> i == j || Has(before, i))
  }

  /** Pairing `j` with a free repair. */
  lemma TakesFree(g: Graph, j: nat, ri: nat, paired: Pairing, seen: seq<bool>)
    requires Covering(g, paired) && OneToOne(paired) && OnlySeen(paired, seen, j) && j < g.lost
    requires ri < g.reps && !seen[ri] && g.covers(ri, j) && paired[ri].None?
    ensures Augmented(g, j, paired, seen, paired[ri := Some(j)])
  {
    var after := paired[ri := Some(j)];
    assert after[ri] == Some(j);
    forall i ensures Has(after, i) <==> i == j || Has(paired, i) {
      if Has(paired, i) {
        var r :| 0 <= r < |paired| && paired[r] == Some(i);
        assert after[r] == Some(i);
      }
    }
  }

  /** Pairing `j` with a repair whose symbol has found another. */
  lemma TakesOver(g: Graph, j: nat, ri: nat, paired: Pairing, seen: seq<bool>, moved: Pairing)
    requires Covering(g, paired) && OneToOne(paired) && OnlySeen(paired, seen, j) && j < g.lost
    requires ri < g.reps && !seen[ri] && g.covers(ri, j) && paired[ri].Some?
    requires Augmented(g, paired[ri].value, paired, seen[ri := true], moved)
    ensures Augmented(g, j, paired, seen, moved[ri := Some(j)])
  {
    var other := paired[ri].value;
    var marked := seen[ri := true];
    var after := moved[ri := Some(j)];
    assert moved[ri] == paired[ri] && other != j;
    var taken :| 0 <= taken < g.reps && !marked[taken] && moved[taken] == Some(other);
    assert after[taken] == Some(other) && after[ri] == Some(j);
    forall r | 0 <= r < g.reps && r != ri && moved[r] == Some(j) ensures seen[r] {
      assert Has(moved, j);
      var q :| 0 <= q < |paired| && paired[q] == Some(j);
      assert moved[q] == Some(j);
    }
    forall i ensures Has(after, i) <==> i == j || Has(paired, i) {
      if Has(paired, i) && i != j && i != other {
        var r :| 0 <= r < |moved| && moved[r] == Some(i);
        assert after[r] == Some(i);
      }
      if Has(after, i) && i != j {
        var r :| 0 <= r < |after| && after[r] == Some(i);
        assert moved[r] == Some(i);
        assert Has(moved, i);
        assert paired[ri] == Some(other);
      }
    }
  }

  lemma {:induction false} TrySucceeds(g: Graph, j: nat, ri: nat, paired: Pairing, seen: seq<bool>)
    requires Covering(g, paired) && OneToOne(paired) && OnlySeen(paired, seen, j) && j < g.lost && ri <= g.reps
    requires Try(g, j, ri, paired, seen).found
    ensures Augmented(g, j, paired, seen, Try(g, j, ri, paired, seen).paired)
    decreases Unseen(seen), g.reps - ri
  {
    if seen[ri] || !g.covers(ri, j) {
      TrySucceeds(g, j, ri + 1, paired, seen);
    } else {
      var marked := seen[ri := true];
      assert ri in Unseen(seen) && ri !in Unseen(marked);
      assert Covering(g, paired) && OnlySeen(paired, marked, j);
      if paired[ri].None? {
        TakesFree(g, j, ri, paired, seen);
      } else {
        var inner := Try(g, paired[ri].value, 0, paired, marked);
        assert ri !in Unseen(inner.seen) && Unseen(inner.seen) <= Unseen(seen);
        if inner.found {
          TrySucceeds(g, paired[ri].value, 0, paired, marked);
          TakesOver(g, j, ri, paired, seen, inner.paired);
        } else {
          TryFails(g, paired[ri].value, 0, paired, marked);
          TrySucceeds(g, j, ri + 1, paired, inner.seen);
          WeakerSeen(g, j, paired, seen, inner.seen, Try(g, j, ri + 1, paired, inner.seen).paired);
        }
      }
    }
  }

  lemma WeakerSeen(g: Graph, j: nat, paired: Pairing, seen: seq<bool>, more: seq<bool>, after: Pairing)
    requires OneToOne(paired) && OnlySeen(paired, seen, j) && Grows(seen, more) && Augmented(g, j, paired, more, after)
    ensures Augmented(g, j, paired, seen, after)
  {
    forall r, q | 0 <= r < g.reps && 0 <= q < g.reps && r != q && after[r].Some? && after[r] == after[q]
      ensures after[r] == Some(j) && (seen[r] || seen[q])
    {
      assert more[r] || more[q];
    }
  }

  // ---------------------------------------------------------------- the whole matching

  function Nothing(n: nat): (s: seq<bool>)
    ensures |s| == n && forall r :: 0 <= r < n ==> !s[r]
  {
    seq(n, r => false)
  }

  function Unpaired(n: nat): (p: Pairing)
    ensures |p| == n && forall r :: 0 <= r < n ==> p[r] == None
  {
    seq(n, r => None)
  }

  /** `max_matching` after its first `j` symbols. */
  ghost function Matched(g: Graph, j: nat): (p: Pairing)
    requires j <= g.lost
    ensures InRange(g, p)
  {
    if j == 0 then Unpaired(g.reps) else Try(g, j - 1, 0, Matched(g, j - 1), Nothing(g.reps)).paired
  }

  /** How many of the first `j` symbols found a repair. */
  ghost function Size(g: Graph, j: nat): nat
    requires j <= g.lost
  {
    if j == 0 then 0
    else Size(g, j - 1) + if Try(g, j - 1, 0, Matched(g, j - 1), Nothing(g.reps)).found then 1 else 0
  }

  /** The symbols that are paired. */
  ghost function Symbols(paired: Pairing): set<nat> {
    if |paired| == 0 then {}
    else
      var n := |paired| - 1;
      Symbols(paired[..n]) + if paired[n].Some? then {paired[n].value} else {}
  }

  lemma {:induction false} HasSymbol(paired: Pairing, i: nat)
    ensures i in Symbols(paired) <==> Has(paired, i)
  {
    if |paired| > 0 {
      var n := |paired| - 1;
      HasSymbol(paired[..n], i);
      if Has(paired[..n], i) {
        var r :| 0 <= r < n && paired[..n][r] == Some(i);
        assert paired[r] == Some(i);
      }
      if Has(paired, i) && paired[n] != Some(i) {
        var r :| 0 <= r < |paired| && paired[r] == Some(i);
        assert paired[..n][r] == Some(i);
      }
    }
  }

  /** The repairs paired with symbols of `t`. */
  ghost function RepairsOf(paired: Pairing, t: set<nat>): set<nat> {
    set r: nat | r < |paired| && paired[r].Some? && paired[r].value in t
  }

  lemma LastRepair(paired: Pairing, t: set<nat>)
    requires |paired| > 0
    ensures var n := |paired| - 1;
            RepairsOf(paired, t)
            == RepairsOf(paired[..n], t) + if paired[n].Some? && paired[n].value in t then {n} else {}
  {
    var n := |paired| - 1;
    forall r: nat ensures r in RepairsOf(paired, t) && r != n <==> r in RepairsOf(paired[..n], t) {
      assert r < n ==> paired[..n][r] == paired[r];
    }
  }

  /** What `v` adds to the part of `a` that is in `t`. */
  lemma OneMore(a: set<nat>, t: set<nat>, v: Option<nat>)
    requires v.Some? ==> v.value !in a
    ensures |t * (a + if v.Some? then {v.value} else {})| == |t * a| + if v.Some? && v.value in t then 1 else 0
  {
    if v.Some? && v.value in t {
      assert t * (a + {v.value}) == t * a + {v.value};
    } else if v.Some? {
      assert t * (a + {v.value}) == t * a;
    } else {
      assert a + {} == a;
    }
  }

  lemma LastSymbol(paired: Pairing)
    requires |paired| > 0 && OneToOne(paired)
    ensures var n := |paired| - 1;
            OneToOne(paired[..n]) && (paired[n].Some? ==> paired[n].value !in Symbols(paired[..n]))
  {
    var n := |paired| - 1;
    if paired[n].Some? {
      HasSymbol(paired[..n], paired[n].value);
    }
  }

  /** How many repairs are paired with symbols of `t`. */
  ghost function Count(paired: Pairing, t: set<nat>): nat {
    if |paired| == 0 then 0
    else
      var n := |paired| - 1;
      Count(paired[..n], t) + if paired[n].Some? && paired[n].value in t then 1 else 0
  }

  lemma {:induction false} CountRepairs(paired: Pairing, t: set<nat>)
    ensures |RepairsOf(paired, t)| == Count(paired, t)
  {
    if |paired| > 0 {
      CountRepairs(paired[..|paired| - 1], t);
      LastRepair(paired, t);
    }
  }

  lemma SymbolsStep(paired: Pairing, t: set<nat>)
    requires |paired| > 0 && OneToOne(paired)
    ensures var n := |paired| - 1;
            |t * Symbols(paired)| == |t * Symbols(paired[..n])| + if paired[n].Some? && paired[n].value in t then 1 else 0
  {
    var n := |paired| - 1;
    LastSymbol(paired);
    OneMore(Symbols(paired[..n]), t, paired[n]);
  }

  lemma {:induction false} CountSymbols(paired: Pairing, t: set<nat>)
    requires OneToOne(paired)
    ensures |t * Symbols(paired)| == Count(paired, t)
  {
    if |paired| == 0 {
      assert t * Symbols(paired) == {};
    } else {
      CountSymbols(paired[..|paired| - 1], t);
      SymbolsStep(paired, t);
    }
  }

  lemma AsManyRepairs(paired: Pairing, t: set<nat>)
    requires OneToOne(paired)
    ensures |RepairsOf(paired, t)| == |t * Symbols(paired)|
  {
    CountRepairs(paired, t);
    CountSymbols(paired, t);
  }

  // ---------------------------------------------------------------- why no pairing is larger

  /** A set of the first `j` symbols, holding all of them left unpaired, whose members
      are covered only by repairs paired within the set. */
  ghost predicate Stuck(g: Graph, paired: Pairing, j: nat, t: set<nat>) {
    && |paired| == g.reps && (forall i :: i in t ==> i < j)
    && (forall i: nat :: i < j && i !in Symbols(paired) ==> i in t)
    && (forall i, r :: i in t && 0 <= r < g.reps && g.covers(r, i) ==> paired[r].Some? && paired[r].value in t)
  }

  /** The repairs that cover a symbol of `t`. */
  ghost function Neighbours(g: Graph, t: set<nat>): set<nat> {
    set r: nat | r < g.reps && Touches(g, r, t)
  }

  ghost predicate Touches(g: Graph, r: nat, t: set<nat>) {
    exists i :: i in t && g.covers(r, i)
  }

  /** Repairs that cover a stuck set are those paired with it. */
  lemma StuckRepairs(g: Graph, paired: Pairing, j: nat, t: set<nat>)
    requires Covering(g, paired) && Stuck(g, paired, j, t)
    ensures Neighbours(g, t) == RepairsOf(paired, t)
  {
  }

  lemma SameRepairs(g: Graph, paired: Pairing, after: Pairing, j: nat, t: set<nat>)
    requires Covering(g, paired) && OneToOne(paired) && Covering(g, after) && OneToOne(after)
    requires Stuck(g, paired, j, t) && Symbols(after) == Symbols(paired) + {j}
    ensures RepairsOf(after, t) == RepairsOf(paired, t)
  {
    assert t * Symbols(after) == t * Symbols(paired);
    AsManyRepairs(paired, t);
    AsManyRepairs(after, t);
    StuckRepairs(g, paired, j, t);
    assert RepairsOf(after, t) <= Neighbours(g, t);
    SameSize(RepairsOf(after, t), RepairsOf(paired, t));
  }

  /** Finding a repair for a further symbol leaves a stuck set stuck: its symbols stay
      paired, with repairs that cover them, of which there are no others. */
  lemma StaysStuck(g: Graph, paired: Pairing, after: Pairing, j: nat, t: set<nat>)
    requires Covering(g, paired) && OneToOne(paired) && Covering(g, after) && OneToOne(after)
    requires Stuck(g, paired, j, t) && Symbols(after) == Symbols(paired) + {j}
    ensures Stuck(g, after, j + 1, t)
  {
    SameRepairs(g, paired, after, j, t);
    StuckRepairs(g, paired, j, t);
    forall i, r | i in t && 0 <= r < g.reps && g.covers(r, i) ensures after[r].Some? && after[r].value in t {
      assert r in RepairsOf(after, t);
    }
  }

  /** A failed search adds its symbol, and those it reached, to the stuck set. */
  lemma GetsStuck(g: Graph, paired: Pairing, j: nat, t: set<nat>) returns (more: set<nat>)
    requires InRange(g, paired) && j < g.lost && Stuck(g, paired, j, t) && forall i :: i in Symbols(paired) ==> i < j
    requires !Try(g, j, 0, paired, Nothing(g.reps)).found
    ensures Stuck(g, paired, j + 1, more)
  {
    TryFails(g, j, 0, paired, Nothing(g.reps));
    var seen := Try(g, j, 0, paired, Nothing(g.reps)).seen;
    var reached := set r: nat | r < g.reps && seen[r] :: paired[r].value;
    more := t + {j} + reached;
    forall r: nat | r < g.reps && seen[r] ensures paired[r].value in Symbols(paired) {
      HasSymbol(paired, paired[r].value);
    }
    forall i, r | i in more && 0 <= r < g.reps && g.covers(r, i) ensures paired[r].Some? && paired[r].value in more {
      if i in reached {
        var q: nat :| q < g.reps && seen[q] && paired[q].value == i;
        assert AllSeen(g, i, 0, seen);
      }
    }
  }

  lemma FoundOne(g: Graph, paired: Pairing, j: nat)
    requires Covering(g, paired) && OneToOne(paired) && j < g.lost && j !in Symbols(paired)
    requires Try(g, j, 0, paired, Nothing(g.reps)).found
    ensures var after := Try(g, j, 0, paired, Nothing(g.reps)).paired;
            Covering(g, after) && OneToOne(after) && Symbols(after) == Symbols(paired) + {j}
  {
    var none := Nothing(g.reps);
    HasSymbol(paired, j);
    TrySucceeds(g, j, 0, paired, none);
    var after := Try(g, j, 0, paired, none).paired;
    forall i: nat ensures i in Symbols(after) <==> i in Symbols(paired) + {j} {
      HasSymbol(after, i);
      HasSymbol(paired, i);
    }
  }

  /** The pairing is one-to-one, of the first `j` symbols, with a stuck set. */
  ghost predicate Kept(g: Graph, paired: Pairing, j: nat, size: nat, t: set<nat>) {
    && Covering(g, paired) && OneToOne(paired) && Stuck(g, paired, j, t)
    && |Symbols(paired)| == size && forall i :: i in Symbols(paired) ==> i < j
  }

  lemma FoundKeeps(g: Graph, paired: Pairing, j: nat, size: nat, t: set<nat>)
    requires Kept(g, paired, j, size, t) && j < g.lost && Try(g, j, 0, paired, Nothing(g.reps)).found
    ensures Kept(g, Try(g, j, 0, paired, Nothing(g.reps)).paired, j + 1, size + 1, t)
  {
    FoundOne(g, paired, j);
    StaysStuck(g, paired, Try(g, j, 0, paired, Nothing(g.reps)).paired, j, t);
  }

  lemma FailedKeeps(g: Graph, paired: Pairing, j: nat, size: nat, t: set<nat>) returns (more: set<nat>)
    requires Kept(g, paired, j, size, t) && j < g.lost && !Try(g, j, 0, paired, Nothing(g.reps)).found
    ensures Kept(g, Try(g, j, 0, paired, Nothing(g.reps)).paired, j + 1, size, more)
  {
    TryFails(g, j, 0, paired, Nothing(g.reps));
    more := GetsStuck(g, paired, j, t);
  }

  /** What `max_matching` keeps. */
  lemma NoneMatched(g: Graph)
    ensures Kept(g, Matched(g, 0), 0, Size(g, 0), {})
  {
    forall i: nat ensures i !in Symbols(Matched(g, 0)) { HasSymbol(Matched(g, 0), i); }
    assert Symbols(Matched(g, 0)) == {};
  }

  lemma {:induction false} MatchedKeeps(g: Graph, j: nat) returns (t: set<nat>)
    requires j <= g.lost
    ensures Kept(g, Matched(g, j), j, Size(g, j), t)
  {
    t := {};
    if j == 0 {
      NoneMatched(g);
    } else {
      t := MatchedKeeps(g, j - 1);
      var paired := Matched(g, j - 1);
      if Try(g, j - 1, 0, paired, Nothing(g.reps)).found {
        FoundKeeps(g, paired, j - 1, Size(g, j - 1), t);
      } else {
        t := FailedKeeps(g, paired, j - 1, Size(g, j - 1), t);
      }
    }
  }

  // ---------------------------------------------------------------- maximality

  /** Symbols given distinct repairs that cover them. */
  ghost predicate IsAssignment(g: Graph, a: map<nat, nat>) {
    && (forall j :: j in a ==> j < g.lost && a[j] < g.reps && g.covers(a[j], j))
    && (forall i, j :: i in a && j in a && i != j ==> a[i] != a[j])
  }

  /** The pairing read from the symbols' side. */
  lemma {:induction false} AsAssignment(g: Graph, paired: Pairing, n: nat) returns (a: map<nat, nat>)
    requires Covering(g, paired) && OneToOne(paired) && n <= |paired|
    ensures IsAssignment(g, a) && a.Keys == Symbols(paired[..n]) && forall j :: j in a ==> a[j] < n && paired[a[j]] == Some(j)
  {
    a := map[];
    if n > 0 {
      a := AsAssignment(g, paired, n - 1);
      assert paired[..n][..n - 1] == paired[..n - 1];
      if paired[n - 1].Some? { HasSymbol(paired[..n - 1], paired[n - 1].value); }
      if paired[n - 1].Some? {
        a := a[paired[n - 1].value := n - 1];
      }
    }
  }

  /** A set of symbols `t` and a set of repairs `rs` that takes in all that cover them:
      every pair of an assignment has its symbol outside `t` or its repair in `rs`. */
  ghost predicate IsCover(g: Graph, t: set<nat>, rs: set<nat>) {
    && (forall i :: i in t ==> i < g.lost) && (forall r :: r in rs ==> r < g.reps)
    && (forall i, r: nat :: i in t && r < g.reps && g.covers(r, i) ==> r in rs)
  }

  /** No assignment is larger than a cover. */
  lemma AssignmentBound(g: Graph, a: map<nat, nat>, t: set<nat>, rs: set<nat>)
    requires IsAssignment(g, a) && IsCover(g, t, rs)
    ensures |a| <= |rs| + g.lost - |t|
  {
    InjectionBound(a, a.Keys * t, rs);
    var all := Upto(g.lost);
    Smaller(a.Keys - t, all - t);
    Split(all, t);
    assert all * t == t;
    Split(a.Keys, t);
    assert |a| == |a.Keys|;
  }

  ghost function MatchingSize(g: Graph): nat {
    Size(g, g.lost)
  }

  lemma CoverSize(g: Graph, paired: Pairing, t: set<nat>)
    requires Covering(g, paired) && OneToOne(paired) && Stuck(g, paired, g.lost, t)
    requires forall i :: i in Symbols(paired) ==> i < g.lost
    ensures IsCover(g, t, RepairsOf(paired, t)) && |RepairsOf(paired, t)| + g.lost - |t| == |Symbols(paired)|
  {
    AsManyRepairs(paired, t);
    var all, symbols := Upto(g.lost), Symbols(paired);
    Split(all, t);
    assert all * t == t && t * symbols == symbols * t && symbols - t == all - t;
    Split(symbols, t);
  }

  /** `max_matching` is the size of a largest assignment, and of a cover that shows why
      there is no larger one. */
  lemma MatchingIsMaximum(g: Graph) returns (a: map<nat, nat>, t: set<nat>, rs: set<nat>)
    ensures IsAssignment(g, a) && |a| == MatchingSize(g)
    ensures IsCover(g, t, rs) && |rs| + g.lost - |t| == MatchingSize(g)
    ensures forall b :: IsAssignment(g, b) ==> |b| <= MatchingSize(g)
  {
    var paired := Matched(g, g.lost);
    t := MatchedKeeps(g, g.lost);
    a := AsAssignment(g, paired, g.reps);
    assert paired[..g.reps] == paired;
    assert |a| == |a.Keys|;
    rs := RepairsOf(paired, t);
    CoverSize(g, paired, t);
    forall b | IsAssignment(g, b) ensures |b| <= MatchingSize(g) { AssignmentBound(g, b, t, rs); }
  }

  /** The whole of `lost` is matched exactly when every symbol can have a repair of its own. */
  lemma FullMatching(g: Graph)
    ensures MatchingSize(g) <= g.lost
    ensures MatchingSize(g) == g.lost <==> exists a :: IsAssignment(g, a) && |a| == g.lost
  {
    var a, t, rs := MatchingIsMaximum(g);
    Smaller(a.Keys, Upto(g.lost));
    assert |a| == |a.Keys|;
  }

  // ---------------------------------------------------------------- the code

  method Augment(g: Graph, j: nat, paired: array<Option<nat>>, seen: array<bool>) returns (ok: bool)
    requires InRange(g, paired[..]) && seen.Length == g.reps && j < g.lost
    modifies paired, seen
    ensures Search(ok, paired[..], seen[..]) == Try(g, j, 0, old(paired[..]), old(seen[..]))
    decreases Unseen(seen[..])
  {
    ghost var result := Try(g, j, 0, paired[..], seen[..]);
    ghost var unseen := Unseen(seen[..]);
    for ri := 0 to g.reps
      invariant InRange(g, paired[..]) && Unseen(seen[..]) <= unseen
      invariant Try(g, j, ri, paired[..], seen[..]) == result
    {
      if seen[ri] || !g.covers(ri, j) {
        continue;
      }
      ghost var before := seen[..];
      seen[ri] := true;
      assert seen[..] == before[ri := true];
      assert ri in Unseen(before) && ri !in Unseen(seen[..]);
      ok := true;
      if paired[ri].Some? {
        ok := Augment(g, paired[ri].value, paired, seen);
      }
      if ok {
        ghost var moved := paired[..];
        paired[ri] := Some(j);
        assert paired[..] == moved[ri := Some(j)];
        return;
      }
    }
    ok := false;
  }

  method MaxMatching(g: Graph) returns (size: nat)
    ensures size == MatchingSize(g)
  {
    var paired := new Option<nat>[g.reps](_ => None);
    assert paired[..] == Unpaired(g.reps);
    size := 0;
    for j := 0 to g.lost
      invariant paired[..] == Matched(g, j) && size == Size(g, j)
    {
      var seen := new bool[g.reps](_ => false);
      assert seen[..] == Nothing(g.reps);
      var ok := Augment(g, j, paired, seen);
      if ok {
        size := size + 1;
      }
    }
  }
}
