/** Scoring tap tables: which losses a table recovers, and the ceiling no table passes. */
module TapSearch {
  import opened Fields
  import opened FiniteSets
  import opened LinearAlgebra
  import opened Elimination
  import Matching

  const TAPS_LEN: nat := 64

  /** The window of source ids a repair covers. */
  datatype Repair = Repair(first: nat, size: nat)

  datatype Geometry = Geometry(window: nat, step: nat, span: nat, floor: nat)

  /** The repairs sent across the span: one after every `step` sources, of the newest
      `window` of them, or of all when there are fewer. */
  method Repairs(g: Geometry) returns (out: seq<Repair>)
    requires g.step > 0
    ensures AreRepairs(g, out)
  {
    out := [];
    for sid := 0 to g.span
      invariant |out| == sid / g.step
      invariant forall i :: 0 <= i < |out| ==> RepairAfter(g, out[i], Newest(g, i)) && Newest(g, i) <= sid
    {
      NextQuotient(sid, g.step);
      if (sid + 1) % g.step == 0 {
        var size := if sid + 1 < g.window then sid + 1 else g.window;
        assert sid + 1 == Newest(g, |out|);
        out := out + [Repair(sid + 1 - size, size)];
      }
    }
  }

  /** One repair for each whole `step` of the span, ending at the newest source then and
      reaching back over the window or to the first. */
  ghost predicate AreRepairs(g: Geometry, out: seq<Repair>) {
    && g.step > 0 && |out| == g.span / g.step
    && forall i :: 0 <= i < |out| ==> RepairAfter(g, out[i], Newest(g, i)) && Newest(g, i) <= g.span
  }

  /** How many sources there are when repair `i` is sent. */
  function Newest(g: Geometry, i: nat): nat {
    (i + 1) * g.step
  }

  predicate RepairAfter(g: Geometry, r: Repair, newest: nat) {
    r.first + r.size == newest && r.size == if newest < g.window then newest else g.window
  }

  lemma NextQuotient(n: nat, d: nat)
    requires d > 0
    ensures if (n + 1) % d == 0 then (n + 1) / d == n / d + 1 && n + 1 == (n / d + 1) * d else (n + 1) / d == n / d
  {
    var q, r := n / d, n % d;
    assert n == q * d + r;
    if r + 1 == d {
      assert n + 1 == (q + 1) * d;
      Quotient(n + 1, d, q + 1, 0);
    } else {
      Quotient(n + 1, d, q, r + 1);
    }
  }

  lemma Quotient(n: nat, d: nat, q: nat, r: nat)
    requires n == q * d + r && r < d
    ensures n / d == q && n % d == r
  {
    assert (n / d - q) * d == r - n % d;
    if n / d != q {
      AtLeastOnce(n / d - q, d);
    }
  }

  lemma AtLeastOnce(z: int, d: int)
    requires z != 0 && d >= 0
    ensures z * d >= d || z * d <= -d
  {
    if z > 0 {
      Product(z - 1, d);
      assert z * d == (z - 1) * d + d;
    } else {
      Product(-z - 1, d);
      assert z * d == -((-z - 1) * d) - d;
    }
  }

  lemma Product(a: nat, b: nat)
    ensures a * b >= 0
  {
  }

  // ---------------------------------------------------------------- equations

  function Coef<F>(k: Field<F>, taps: seq<F>, size: nat, off: nat): F
    requires off < size
  {
    var idx := size - 1 - off;
    if idx < |taps| then taps[idx] else k.zero
  }

  predicate InWindow(r: Repair, id: nat) {
    r.first <= id < r.first + r.size
  }

  predicate Covers(r: Repair, id: nat) {
    InWindow(r, id) && r.size - 1 - (id - r.first) < TAPS_LEN
  }

  /** What the repair multiplies source `id` by. */
  function Weight<F>(k: Field<F>, taps: seq<F>, r: Repair, id: nat): F {
    if InWindow(r, id) then Coef(k, taps, r.size, id - r.first) else k.zero
  }

  /** A repair covers a source exactly when some table gives it a nonzero coefficient. */
  lemma CoversIffSomeTable<F(!new)>(k: Field<F>, r: Repair, id: nat)
    requires IsField(k)
    ensures Covers(r, id) <==> exists taps :: |taps| == TAPS_LEN && Weight(k, taps, r, id) != k.zero
  {
    if Covers(r, id) {
      var ones := seq(TAPS_LEN, i => k.one);
      assert Weight(k, ones, r, id) == k.one;
    }
  }

  function Row<F>(k: Field<F>, taps: seq<F>, r: Repair, lost: seq<nat>): (row: seq<F>)
    ensures |row| == |lost| && forall j :: 0 <= j < |lost| ==> row[j] == Weight(k, taps, r, lost[j])
  {
    seq(|lost|, j requires 0 <= j < |lost| => Weight(k, taps, r, lost[j]))
  }

  /** One equation in the lost symbols for each repair. */
  function Equations<F>(k: Field<F>, taps: seq<F>, reps: seq<Repair>, lost: seq<nat>): (m: seq<seq<F>>)
    ensures |m| == |reps| && IsMatrix(m, |lost|)
    ensures forall i :: 0 <= i < |reps| ==> m[i] == Row(k, taps, reps[i], lost)
  {
    seq(|reps|, i requires 0 <= i < |reps| => Row(k, taps, reps[i], lost))
  }

  /** Source `id` is `d` places older than the newest that the repair covers. */
  predicate HasAge(r: Repair, id: nat, d: nat) {
    d < r.size && id + d + 1 == r.first + r.size
  }

  /** The table gives its tap number `d` to the source of age `d`, and nothing to a source
      outside the window or older than the table. */
  ghost predicate IsCoefficient<F>(k: Field<F>, taps: seq<F>, r: Repair, id: nat, x: F) {
    && (forall d: nat :: HasAge(r, id, d) && d < |taps| ==> x == taps[d])
    && ((forall d: nat :: HasAge(r, id, d) ==> d >= |taps|) ==> x == k.zero)
  }

  ghost predicate IsRowOf<F>(k: Field<F>, taps: seq<F>, r: Repair, lost: seq<nat>, row: seq<F>) {
    |row| == |lost| && forall j :: 0 <= j < |lost| ==> IsCoefficient(k, taps, r, lost[j], row[j])
  }

  /** One row for each repair, with the coefficients its table gives the lost sources. */
  ghost predicate AreEquations<F>(k: Field<F>, taps: seq<F>, reps: seq<Repair>, lost: seq<nat>, m: seq<seq<F>>) {
    |m| == |reps| && forall i :: 0 <= i < |reps| ==> IsRowOf(k, taps, reps[i], lost, m[i])
  }

  /** The repairs determine every lost symbol, whatever they carry. */
  ghost predicate Recovers<F(!new)>(k: Field<F>, taps: seq<F>, reps: seq<Repair>, lost: seq<nat>) {
    exists m :: AreEquations(k, taps, reps, lost, m) && Determined(k, m, |lost|)
  }

  lemma WeightIsCoefficient<F>(k: Field<F>, taps: seq<F>, r: Repair, id: nat)
    ensures IsCoefficient(k, taps, r, id, Weight(k, taps, r, id))
  {
    if InWindow(r, id) {
      assert HasAge(r, id, r.size - 1 - (id - r.first));
    }
  }

  lemma OneCoefficient<F>(k: Field<F>, taps: seq<F>, r: Repair, id: nat, x: F)
    requires IsCoefficient(k, taps, r, id, x)
    ensures x == Weight(k, taps, r, id)
  {
    if InWindow(r, id) {
      assert HasAge(r, id, r.size - 1 - (id - r.first));
    }
  }

  /** The rows built are those the table stands for, and there are no others. */
  lemma RowIff<F>(k: Field<F>, taps: seq<F>, r: Repair, lost: seq<nat>, row: seq<F>)
    ensures IsRowOf(k, taps, r, lost, row) <==> row == Row(k, taps, r, lost)
  {
    forall j | 0 <= j < |lost| ensures IsCoefficient(k, taps, r, lost[j], Row(k, taps, r, lost)[j]) {
      WeightIsCoefficient(k, taps, r, lost[j]);
    }
    if IsRowOf(k, taps, r, lost, row) {
      forall j | 0 <= j < |lost| ensures row[j] == Weight(k, taps, r, lost[j]) {
        OneCoefficient(k, taps, r, lost[j], row[j]);
      }
    }
  }

  lemma EquationsIff<F>(k: Field<F>, taps: seq<F>, reps: seq<Repair>, lost: seq<nat>, m: seq<seq<F>>)
    ensures AreEquations(k, taps, reps, lost, m) <==> m == Equations(k, taps, reps, lost)
  {
    var eqs := Equations(k, taps, reps, lost);
    forall i | 0 <= i < |reps| ensures IsRowOf(k, taps, reps[i], lost, eqs[i]) { RowIff(k, taps, reps[i], lost, eqs[i]); }
    if AreEquations(k, taps, reps, lost, m) {
      forall i | 0 <= i < |reps| ensures m[i] == eqs[i] { RowIff(k, taps, reps[i], lost, m[i]); }
    }
  }

  lemma RecoversIff<F(!new)>(k: Field<F>, taps: seq<F>, reps: seq<Repair>, lost: seq<nat>)
    ensures Recovers(k, taps, reps, lost) <==> Determined(k, Equations(k, taps, reps, lost), |lost|)
  {
    var eqs := Equations(k, taps, reps, lost);
    EquationsIff(k, taps, reps, lost, eqs);
    if Recovers(k, taps, reps, lost) {
      var m :| AreEquations(k, taps, reps, lost, m) && Determined(k, m, |lost|);
      EquationsIff(k, taps, reps, lost, m);
    }
  }

  /** Every tap within the window counts: tables that differ in one give some loss other
      equations. */
  lemma TapsTell<F>(k: Field<F>, taps: seq<F>, others: seq<F>, r: Repair, d: nat)
    requires d < r.size && d < |taps| && d < |others| && taps[d] != others[d]
    ensures var lost := [r.first + r.size - 1 - d];
            forall row :: !(IsRowOf(k, taps, r, lost, row) && IsRowOf(k, others, r, lost, row))
  {
    var id := r.first + r.size - 1 - d;
    assert HasAge(r, id, d);
    forall row ensures !(IsRowOf(k, taps, r, [id], row) && IsRowOf(k, others, r, [id], row)) {
      assert [id][0] == id;
    }
  }

  // ---------------------------------------------------------------- all_recovered

  /** The rows that are not all zero. */
  ghost function NonZero<F>(k: Field<F>, rows: seq<seq<F>>): seq<seq<F>> {
    if |rows| == 0 then []
    else
      var n := |rows| - 1;
      NonZero(k, rows[..n]) + if IsZero(k, rows[n]) then [] else [rows[n]]
  }

  ghost predicate IsZero<F>(k: Field<F>, row: seq<F>) {
    forall j :: 0 <= j < |row| ==> row[j] == k.zero
  }

  lemma {:induction false} NonZeroRows<F(!new)>(k: Field<F>, rows: seq<seq<F>>, cols: nat)
    requires IsMatrix(rows, cols)
    ensures IsMatrix(NonZero(k, rows), cols)
    ensures forall i :: 0 <= i < |rows| ==> IsZero(k, rows[i]) || rows[i] in NonZero(k, rows)
    ensures forall i :: 0 <= i < |NonZero(k, rows)| ==> NonZero(k, rows)[i] in rows
  {
    if |rows| > 0 {
      NonZeroRows(k, rows[..|rows| - 1], cols);
    }
  }

  lemma ZeroRowsSayNothing<F(!new)>(k: Field<F>, rows: seq<seq<F>>, x: seq<F>, y: seq<F>)
    requires IsField(k) && IsMatrix(rows, |x|) && |x| == |y|
    ensures SameSides(k, rows, x, y) <==> SameSides(k, NonZero(k, rows), x, y)
  {
    NonZeroRows(k, rows, |x|);
    if SameSides(k, NonZero(k, rows), x, y) {
      forall i | 0 <= i < |rows| ensures Dot(k, rows[i], x) == Dot(k, rows[i], y) {
        if IsZero(k, rows[i]) {
          DotApart(k, rows[i], x);
          DotApart(k, rows[i], y);
        }
      }
    }
  }

  lemma DeterminedWithoutZeros<F(!new)>(k: Field<F>, rows: seq<seq<F>>, cols: nat)
    requires IsField(k) && IsMatrix(rows, cols)
    ensures Determined(k, rows, cols) <==> Determined(k, NonZero(k, rows), cols)
  {
    forall x: seq<F>, y: seq<F> | |x| == |y| == cols
      ensures SameSides(k, rows, x, y) <==> SameSides(k, NonZero(k, rows), x, y)
    {
      ZeroRowsSayNothing(k, rows, x, y);
    }
  }

  lemma TooFewRows<F(!new)>(k: Field<F>, rows: seq<seq<F>>, cols: nat)
    requires IsField(k) && IsMatrix(rows, cols) && |rows| < cols
    ensures !Determined(k, rows, cols)
  {
    var x := MoreUnknowns(k, rows, cols, Upto(cols));
    if Determined(k, rows, cols) {
      ZeroOnly(k, rows, x);
    }
  }

  lemma RankDecides<F(!new)>(k: Field<F>, rows: seq<seq<F>>, cols: nat, r: nat)
    requires IsField(k) && IsMatrix(rows, cols) && IsRank(k, rows, cols, r)
    ensures Determined(k, rows, cols) <==> r == cols
    ensures r <= cols
  {
    var basis :| IsBasis(k, basis, rows, cols) && |basis| == r;
    DeterminedIffFullRank(k, basis, rows, cols);
  }

  method BuildRow<F(==)>(k: Field<F>, taps: seq<F>, r: Repair, lost: seq<nat>) returns (row: seq<F>, any: bool)
    ensures IsRowOf(k, taps, r, lost, row) && any == !IsZero(k, row)
  {
    row := Zeros(k, |lost|);
    any := false;
    for j := 0 to |lost|
      invariant |row| == |lost|
      invariant forall i :: 0 <= i < |lost| ==> row[i] == if i < j then Weight(k, taps, r, lost[i]) else k.zero
      invariant any <==> exists i :: 0 <= i < j && row[i] != k.zero
    {
      var id := lost[j];
      ghost var before := row;
      if id >= r.first && id < r.first + r.size {
        var c := Coef(k, taps, r.size, id - r.first);
        row := row[j := c];
        any := any || c != k.zero;
      }
      assert forall i :: 0 <= i < j ==> row[i] == before[i];
    }
    assert row == Row(k, taps, r, lost);
    RowIff(k, taps, r, lost, row);
  }

  /** The repairs are said to recover the losses exactly when they determine them. */
  method AllRecovered<F(==, !new)>(k: Field<F>, taps: seq<F>, reps: seq<Repair>, lost: seq<nat>) returns (ok: bool)
    requires IsField(k) && |taps| == TAPS_LEN
    ensures ok == Recovers(k, taps, reps, lost)
  {
    var m: seq<seq<F>> := [];
    ghost var eqs := Equations(k, taps, reps, lost);
    for i := 0 to |reps|
      invariant m == NonZero(k, eqs[..i])
    {
      var row, any := BuildRow(k, taps, reps[i], lost);
      RowIff(k, taps, reps[i], lost, row);
      assert eqs[..i + 1][..i] == eqs[..i] && eqs[..i + 1][i] == row;
      if any {
        m := m + [row];
      }
    }
    assert eqs[..|reps|] == eqs;
    RecoversIff(k, taps, reps, lost);
    DeterminedWithoutZeros(k, eqs, |lost|);
    NonZeroRows(k, eqs, |lost|);
    if |m| < |lost| {
      TooFewRows(k, m, |lost|);
      return false;
    }
    var rank := Rank(k, m, |lost|);
    RankDecides(k, m, |lost|, rank);
    ok := rank == |lost|;
  }

  // ---------------------------------------------------------------- the ceiling

  function CoverGraph(reps: seq<Repair>, lost: seq<nat>): Matching.Graph {
    Matching.Graph(|reps|, |lost|, (r: nat, j: nat) => r < |reps| && j < |lost| && Covers(reps[r], lost[j]))
  }

  ghost function ListOf(s: set<nat>): (l: seq<nat>)
    ensures |l| == |s| && Distinct(l) && forall x :: x in l <==> x in s
  {
    if s == {} then [] else
      var x :| x in s;
      [x] + ListOf(s - {x})
  }

  predicate Below(l: seq<nat>, n: nat) {
    forall i :: 0 <= i < |l| ==> l[i] < n
  }

  function Pick<T>(list: seq<T>, at: seq<nat>): (p: seq<T>)
    requires Below(at, |list|)
    ensures |p| == |at| && forall i :: 0 <= i < |at| ==> p[i] == list[at[i]]
  {
    seq(|at|, i requires 0 <= i < |at| => list[at[i]])
  }

  ghost predicate Distinct(l: seq<nat>) {
    forall i, j :: 0 <= i < j < |l| ==> l[i] != l[j]
  }

  lemma FromUnitsAt<F(!new)>(k: Field<F>, cols: nat, cs: seq<nat>, row: seq<F>, j: nat)
    requires IsField(k) && |row| == cols && Below(cs, cols) && Distinct(cs) && j < cols && (j !in cs ==> row[j] == k.zero)
    ensures Dot(k, Pick(row, cs), Column(Pick(Units(k, cols), cs), j)) == row[j]
  {
    var w, column := Pick(row, cs), Column(Pick(Units(k, cols), cs), j);
    assert forall i :: 0 <= i < |cs| ==> column[i] == if cs[i] == j then k.one else k.zero;
    if j in cs {
      var p :| 0 <= p < |cs| && cs[p] == j;
      DotAt(k, w, column, p);
      TimesOne(k, row[j]);
    } else {
      DotApart(k, w, column);
    }
  }

  /** A row with nothing outside the columns `cs` is made of their unit rows. */
  lemma FromUnits<F(!new)>(k: Field<F>, cols: nat, cs: seq<nat>, row: seq<F>)
    requires IsField(k) && |row| == cols && Below(cs, cols) && Distinct(cs)
    requires forall j: nat :: j < cols && j !in cs ==> row[j] == k.zero
    ensures InSpan(k, row, Pick(Units(k, cols), cs))
  {
    var units := Pick(Units(k, cols), cs);
    forall j | 0 <= j < cols ensures Comb(k, Pick(row, cs), units, cols)[j] == row[j] {
      FromUnitsAt(k, cols, cs, row, j);
    }
    assert IsComb(k, row, Pick(row, cs), units);
  }

  lemma SpanOfMore<F(!new)>(k: Field<F>, a: seq<seq<F>>, b: seq<seq<F>>, cols: nat)
    requires IsField(k) && IsMatrix(a, cols) && IsMatrix(b, cols)
    ensures IsMatrix(a + b, cols) && AllInSpan(k, a, a + b) && AllInSpan(k, b, a + b)
  {
    forall i | 0 <= i < |a| ensures InSpan(k, a[i], a + b) { RowInSpan(k, a + b, cols, i); }
    forall i | 0 <= i < |b| ensures InSpan(k, b[i], a + b) {
      RowInSpan(k, a + b, cols, |a| + i);
      assert (a + b)[|a| + i] == b[i];
    }
  }

  lemma OutsideCover<F>(k: Field<F>, taps: seq<F>, reps: seq<Repair>, lost: seq<nat>, t: set<nat>, rs: set<nat>, i: nat, j: nat)
    requires |taps| == TAPS_LEN && Matching.IsCover(CoverGraph(reps, lost), t, rs)
    requires i < |reps| && j < |lost| && i !in rs && j in t
    ensures Equations(k, taps, reps, lost)[i][j] == k.zero
  {
    assert !CoverGraph(reps, lost).covers(i, j);
  }

  /** The rows of a cover's repairs, and unit rows for the columns it leaves out, span
      all equations. */
  lemma CoverSpans<F(!new)>(k: Field<F>, taps: seq<F>, reps: seq<Repair>, lost: seq<nat>, t: set<nat>, rs: set<nat>,
                            rl: seq<nat>, cl: seq<nat>)
    requires IsField(k) && |taps| == TAPS_LEN && Matching.IsCover(CoverGraph(reps, lost), t, rs)
    requires Below(rl, |reps|) && Below(cl, |lost|) && Distinct(cl)
    requires (forall r: nat :: r in rs ==> r in rl) && (forall j: nat :: j < |lost| && j !in cl ==> j in t)
    ensures var m := Equations(k, taps, reps, lost);
            AllInSpan(k, m, Pick(m, rl) + Pick(Units(k, |lost|), cl))
  {
    var m, cols := Equations(k, taps, reps, lost), |lost|;
    var rows, units := Pick(m, rl), Pick(Units(k, cols), cl);
    SpanOfMore(k, rows, units, cols);
    forall i | 0 <= i < |m| ensures InSpan(k, m[i], rows + units) {
      if i in rs {
        var p :| 0 <= p < |rl| && rl[p] == i;
        assert m[i] == rows[p];
      } else {
        forall j: nat | j < cols && j !in cl ensures m[i][j] == k.zero { OutsideCover(k, taps, reps, lost, t, rs, i, j); }
        FromUnits(k, cols, cl, m[i]);
        SpanTransitive(k, [m[i]], units, rows + units, cols);
        assert [m[i]][0] == m[i];
      }
    }
  }

  /** Repairs `rs` and all symbols but `t` hold every nonzero entry of the equations, so
      the rank is at most their number. */
  lemma RankAtMostCover<F(!new)>(k: Field<F>, taps: seq<F>, reps: seq<Repair>, lost: seq<nat>, r: nat,
                                 t: set<nat>, rs: set<nat>)
    requires IsField(k) && |taps| == TAPS_LEN && Matching.IsCover(CoverGraph(reps, lost), t, rs)
    requires IsRank(k, Equations(k, taps, reps, lost), |lost|, r)
    ensures r <= |rs| + |lost| - |t|
  {
    var m, cols := Equations(k, taps, reps, lost), |lost|;
    var rl, cl := ListOf(rs), ListOf(Upto(cols) - t);
    Split(Upto(cols), t);
    assert Upto(cols) * t == t;
    forall i | 0 <= i < |rl| ensures rl[i] < |m| { assert rl[i] in rl; }
    forall i | 0 <= i < |cl| ensures cl[i] < cols { assert cl[i] in cl; }
    CoverSpans(k, taps, reps, lost, t, rs, rl, cl);
    RankBound(k, m, Pick(m, rl) + Pick(Units(k, cols), cl), cols, r);
  }

  lemma RankBound<F(!new)>(k: Field<F>, rows: seq<seq<F>>, lines: seq<seq<F>>, cols: nat, r: nat)
    requires IsField(k) && IsMatrix(rows, cols) && IsMatrix(lines, cols) && AllInSpan(k, rows, lines)
    requires IsRank(k, rows, cols, r)
    ensures r <= |lines|
  {
    var basis :| IsBasis(k, basis, rows, cols) && |basis| == r;
    SpanTransitive(k, basis, rows, lines, cols);
    IndependentBound(k, basis, lines, cols);
  }

  /** The matching size is the rank no table can beat. */
  lemma NoTableBeatsMatching<F(!new)>(k: Field<F>, taps: seq<F>, reps: seq<Repair>, lost: seq<nat>, r: nat)
    requires IsField(k) && |taps| == TAPS_LEN && IsRank(k, Equations(k, taps, reps, lost), |lost|, r)
    ensures r <= Matching.MatchingSize(CoverGraph(reps, lost))
  {
    var a, t, rs := Matching.MatchingIsMaximum(CoverGraph(reps, lost));
    RankAtMostCover(k, taps, reps, lost, r, t, rs);
  }
}
