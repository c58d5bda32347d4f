/** Row spaces over a field: products, combinations, independence and bases. */
module LinearAlgebra {
  import opened Fields
  import opened FiniteSets

  ghost predicate IsMatrix<F>(rows: seq<seq<F>>, cols: nat) {
    forall i :: 0 <= i < |rows| ==> |rows[i]| == cols
  }

  function Column<F>(rows: seq<seq<F>>, j: nat): (c: seq<F>)
    requires forall i :: 0 <= i < |rows| ==> j < |rows[i]|
    ensures |c| == |rows| && forall i :: 0 <= i < |rows| ==> c[i] == rows[i][j]
  {
    seq(|rows|, i requires 0 <= i < |rows| => rows[i][j])
  }

  function Columns<F>(rows: seq<seq<F>>, cols: nat): (c: seq<seq<F>>)
    requires IsMatrix(rows, cols)
    ensures |c| == cols && IsMatrix(c, |rows|) && forall j :: 0 <= j < cols ==> c[j] == Column(rows, j)
  {
    seq(cols, j requires 0 <= j < cols => Column(rows, j))
  }

  function Zeros<F>(k: Field<F>, n: nat): (z: seq<F>)
    ensures |z| == n && forall i :: 0 <= i < n ==> z[i] == k.zero
  {
    seq(n, i => k.zero)
  }

  function Unit<F>(k: Field<F>, n: nat, p: nat): (e: seq<F>)
    requires p < n
    ensures |e| == n && forall i :: 0 <= i < n ==> e[i] == if i == p then k.one else k.zero
  {
    Zeros(k, n)[p := k.one]
  }

  function Dot<F>(k: Field<F>, a: seq<F>, b: seq<F>): F
    requires |a| == |b|
  {
    if |a| == 0 then k.zero
    else k.add(Dot(k, a[..|a| - 1], b[..|a| - 1]), k.mul(a[|a| - 1], b[|a| - 1]))
  }

  /** `a` plus `f` times `b`. */
  function Plus<F>(k: Field<F>, a: seq<F>, f: F, b: seq<F>): (r: seq<F>)
    requires |a| == |b|
    ensures |r| == |a| && forall i :: 0 <= i < |a| ==> r[i] == k.add(a[i], k.mul(f, b[i]))
  {
    seq(|a|, i requires 0 <= i < |a| => k.add(a[i], k.mul(f, b[i])))
  }

  /** The rows weighted by `c` and summed. */
  function Comb<F>(k: Field<F>, c: seq<F>, rows: seq<seq<F>>, cols: nat): (v: seq<F>)
    requires |c| == |rows| && IsMatrix(rows, cols)
    ensures |v| == cols && forall j :: 0 <= j < cols ==> v[j] == Dot(k, c, Column(rows, j))
  {
    seq(cols, j requires 0 <= j < cols => Dot(k, c, Column(rows, j)))
  }

  ghost predicate IsComb<F(!new)>(k: Field<F>, v: seq<F>, c: seq<F>, rows: seq<seq<F>>) {
    |c| == |rows| && IsMatrix(rows, |v|) && Comb(k, c, rows, |v|) == v
  }

  ghost predicate InSpan<F(!new)>(k: Field<F>, v: seq<F>, rows: seq<seq<F>>) {
    exists c :: IsComb(k, v, c, rows)
  }

  ghost predicate AllInSpan<F(!new)>(k: Field<F>, vs: seq<seq<F>>, rows: seq<seq<F>>) {
    forall i :: 0 <= i < |vs| ==> InSpan(k, vs[i], rows)
  }

  /** Only the zero combination of the rows is zero. */
  ghost predicate Independent<F(!new)>(k: Field<F>, rows: seq<seq<F>>, cols: nat) {
    IsMatrix(rows, cols) && forall c :: IsComb(k, Zeros(k, cols), c, rows) ==> c == Zeros(k, |rows|)
  }

  /** `basis` is independent and spans what `rows` span. */
  ghost predicate IsBasis<F(!new)>(k: Field<F>, basis: seq<seq<F>>, rows: seq<seq<F>>, cols: nat) {
    Independent(k, basis, cols) && AllInSpan(k, basis, rows) && AllInSpan(k, rows, basis)
  }

  /** `x` solves every equation `row . x = 0`. */
  ghost predicate Kills<F>(k: Field<F>, rows: seq<seq<F>>, x: seq<F>) {
    forall i :: 0 <= i < |rows| ==> |rows[i]| == |x| && Dot(k, rows[i], x) == k.zero
  }

  // ---------------------------------------------------------------- products

  lemma {:induction false} DotPlus<F(!new)>(k: Field<F>, a: seq<F>, f: F, b: seq<F>, x: seq<F>)
    requires IsField(k) && |a| == |b| == |x|
    ensures Dot(k, Plus(k, a, f, b), x) == k.add(Dot(k, a, x), k.mul(f, Dot(k, b, x)))
  {
    if |a| == 0 {
      TimesZero(k, f);
      PlusZero(k, k.zero);
    } else {
      var n := |a| - 1;
      assert Plus(k, a, f, b)[..n] == Plus(k, a[..n], f, b[..n]);
      DotPlus(k, a[..n], f, b[..n], x[..n]);
      OneMoreTerm(k, Dot(k, a[..n], x[..n]), f, Dot(k, b[..n], x[..n]), a[n], b[n], x[n]);
    }
  }

  lemma {:induction false} DotCommutes<F(!new)>(k: Field<F>, a: seq<F>, b: seq<F>)
    requires IsField(k) && |a| == |b|
    ensures Dot(k, a, b) == Dot(k, b, a)
  {
    if |a| > 0 {
      var n := |a| - 1;
      DotCommutes(k, a[..n], b[..n]);
      Commutes(k, a[n], b[n]);
    }
  }

  /** Vectors with no common nonzero place. */
  lemma {:induction false} DotApart<F(!new)>(k: Field<F>, a: seq<F>, b: seq<F>)
    requires IsField(k) && |a| == |b| && forall i :: 0 <= i < |a| ==> a[i] == k.zero || b[i] == k.zero
    ensures Dot(k, a, b) == k.zero
  {
    if |a| > 0 {
      var n := |a| - 1;
      DotApart(k, a[..n], b[..n]);
      TimesZero(k, a[n]);
      TimesZero(k, b[n]);
      PlusZero(k, k.zero);
    }
  }

  /** Vectors with at most one common nonzero place. */
  lemma {:induction false} DotAt<F(!new)>(k: Field<F>, a: seq<F>, b: seq<F>, p: nat)
    requires IsField(k) && |a| == |b| && p < |a|
    requires forall i :: 0 <= i < |a| && i != p ==> a[i] == k.zero || b[i] == k.zero
    ensures Dot(k, a, b) == k.mul(a[p], b[p])
  {
    var n := |a| - 1;
    if p == n {
      DotApart(k, a[..n], b[..n]);
      PlusZero(k, k.mul(a[p], b[p]));
    } else {
      DotAt(k, a[..n], b[..n], p);
      TimesZero(k, a[n]);
      TimesZero(k, b[n]);
      PlusZero(k, k.mul(a[p], b[p]));
    }
  }

  /** A vector, changed in a place where it was zero. */
  lemma DotChanged<F(!new)>(k: Field<F>, a: seq<F>, x: seq<F>, p: nat, v: F)
    requires IsField(k) && |a| == |x| && p < |a| && x[p] == k.zero
    ensures Dot(k, a, x[p := v]) == k.add(Dot(k, a, x), k.mul(a[p], v))
  {
    var e := Unit(k, |x|, p);
    assert x[p := v] == Plus(k, x, v, e) by {
      TimesOne(k, v);
      TimesZero(k, v);
      PlusZero(k, v);
      forall i | 0 <= i < |x| ensures x[p := v][i] == Plus(k, x, v, e)[i] { PlusZero(k, x[i]); }
    }
    DotCommutes(k, a, x[p := v]);
    DotPlus(k, x, v, e, a);
    DotCommutes(k, a, x);
    DotAt(k, e, a, p);
    TimesOne(k, a[p]);
    Commutes(k, v, a[p]);
  }

  // ---------------------------------------------------------------- combinations

  lemma CombPlus<F(!new)>(k: Field<F>, c: seq<F>, f: F, d: seq<F>, rows: seq<seq<F>>, cols: nat)
    requires IsField(k) && |c| == |d| == |rows| && IsMatrix(rows, cols)
    ensures Comb(k, Plus(k, c, f, d), rows, cols) == Plus(k, Comb(k, c, rows, cols), f, Comb(k, d, rows, cols))
  {
    forall j | 0 <= j < cols
      ensures Comb(k, Plus(k, c, f, d), rows, cols)[j] == Plus(k, Comb(k, c, rows, cols), f, Comb(k, d, rows, cols))[j]
    {
      DotPlus(k, c, f, d, Column(rows, j));
    }
  }

  lemma CombZero<F(!new)>(k: Field<F>, rows: seq<seq<F>>, cols: nat)
    requires IsField(k) && IsMatrix(rows, cols)
    ensures Comb(k, Zeros(k, |rows|), rows, cols) == Zeros(k, cols)
  {
    forall j | 0 <= j < cols ensures Comb(k, Zeros(k, |rows|), rows, cols)[j] == k.zero {
      DotApart(k, Zeros(k, |rows|), Column(rows, j));
    }
  }

  lemma CombUnit<F(!new)>(k: Field<F>, rows: seq<seq<F>>, cols: nat, p: nat)
    requires IsField(k) && IsMatrix(rows, cols) && p < |rows|
    ensures Comb(k, Unit(k, |rows|, p), rows, cols) == rows[p]
  {
    forall j | 0 <= j < cols ensures Comb(k, Unit(k, |rows|, p), rows, cols)[j] == rows[p][j] {
      DotAt(k, Unit(k, |rows|, p), Column(rows, j), p);
      TimesOne(k, rows[p][j]);
    }
  }

  /** The last row apart from the others. */
  lemma CombLast<F(!new)>(k: Field<F>, c: seq<F>, rows: seq<seq<F>>, cols: nat)
    requires |c| == |rows| > 0 && IsMatrix(rows, cols)
    ensures var n := |rows| - 1;
            Comb(k, c, rows, cols) == Plus(k, Comb(k, c[..n], rows[..n], cols), c[n], rows[n])
  {
    var n := |rows| - 1;
    forall j | 0 <= j < cols
      ensures Comb(k, c, rows, cols)[j] == Plus(k, Comb(k, c[..n], rows[..n], cols), c[n], rows[n])[j]
    {
      assert Column(rows, j)[..n] == Column(rows[..n], j);
    }
  }

  // ---------------------------------------------------------------- spans

  lemma RowInSpan<F(!new)>(k: Field<F>, rows: seq<seq<F>>, cols: nat, p: nat)
    requires IsField(k) && IsMatrix(rows, cols) && p < |rows|
    ensures InSpan(k, rows[p], rows)
  {
    CombUnit(k, rows, cols, p);
    assert IsComb(k, rows[p], Unit(k, |rows|, p), rows);
  }

  lemma ZeroInSpan<F(!new)>(k: Field<F>, rows: seq<seq<F>>, cols: nat)
    requires IsField(k) && IsMatrix(rows, cols)
    ensures InSpan(k, Zeros(k, cols), rows)
  {
    CombZero(k, rows, cols);
    assert IsComb(k, Zeros(k, cols), Zeros(k, |rows|), rows);
  }

  lemma PlusInSpan<F(!new)>(k: Field<F>, v: seq<F>, f: F, w: seq<F>, rows: seq<seq<F>>)
    requires IsField(k) && |v| == |w| && InSpan(k, v, rows) && InSpan(k, w, rows)
    ensures InSpan(k, Plus(k, v, f, w), rows)
  {
    var c :| IsComb(k, v, c, rows);
    var d :| IsComb(k, w, d, rows);
    CombPlus(k, c, f, d, rows, |v|);
    assert IsComb(k, Plus(k, v, f, w), Plus(k, c, f, d), rows);
  }

  lemma {:induction false} CombInSpan<F(!new)>(k: Field<F>, c: seq<F>, mid: seq<seq<F>>, rows: seq<seq<F>>, cols: nat)
    requires IsField(k) && |c| == |mid| && IsMatrix(mid, cols) && IsMatrix(rows, cols) && AllInSpan(k, mid, rows)
    ensures InSpan(k, Comb(k, c, mid, cols), rows)
  {
    if |mid| == 0 {
      assert Comb(k, c, mid, cols) == Zeros(k, cols);
      ZeroInSpan(k, rows, cols);
    } else {
      var n := |mid| - 1;
      CombInSpan(k, c[..n], mid[..n], rows, cols);
      PlusInSpan(k, Comb(k, c[..n], mid[..n], cols), c[n], mid[n], rows);
      CombLast(k, c, mid, cols);
    }
  }

  lemma SpanTransitive<F(!new)>(k: Field<F>, vs: seq<seq<F>>, mid: seq<seq<F>>, rows: seq<seq<F>>, cols: nat)
    requires IsField(k) && IsMatrix(vs, cols) && IsMatrix(rows, cols) && AllInSpan(k, vs, mid) && AllInSpan(k, mid, rows)
    requires IsMatrix(mid, cols)
    ensures AllInSpan(k, vs, rows)
  {
    forall i | 0 <= i < |vs| ensures InSpan(k, vs[i], rows) {
      var c :| IsComb(k, vs[i], c, mid);
      CombInSpan(k, c, mid, rows, cols);
    }
  }

  lemma {:induction false} CombKilled<F(!new)>(k: Field<F>, c: seq<F>, rows: seq<seq<F>>, x: seq<F>)
    requires IsField(k) && |c| == |rows| && Kills(k, rows, x) && IsMatrix(rows, |x|)
    ensures Dot(k, Comb(k, c, rows, |x|), x) == k.zero
  {
    if |rows| == 0 {
      DotApart(k, Comb(k, c, rows, |x|), x);
    } else {
      var n := |rows| - 1;
      CombKilled(k, c[..n], rows[..n], x);
      CombLast(k, c, rows, |x|);
      DotPlus(k, Comb(k, c[..n], rows[..n], |x|), c[n], rows[n], x);
      TimesZero(k, c[n]);
      PlusZero(k, k.zero);
    }
  }

  /** What solves the equations of `rows` solves every equation they imply. */
  lemma SpanKilled<F(!new)>(k: Field<F>, vs: seq<seq<F>>, rows: seq<seq<F>>, x: seq<F>)
    requires IsField(k) && Kills(k, rows, x) && IsMatrix(vs, |x|) && AllInSpan(k, vs, rows)
    ensures Kills(k, vs, x)
  {
    forall i | 0 <= i < |vs| ensures Dot(k, vs[i], x) == k.zero {
      var c :| IsComb(k, vs[i], c, rows);
      CombKilled(k, c, rows, x);
    }
  }

  // ---------------------------------------------------------------- more unknowns than equations

  /** `x` is a nonzero solution with nothing outside `live`. */
  ghost predicate Solves<F>(k: Field<F>, rows: seq<seq<F>>, live: set<nat>, x: seq<F>) {
    && Kills(k, rows, x)
    && (forall j :: 0 <= j < |x| && j !in live ==> x[j] == k.zero)
    && (exists j :: 0 <= j < |x| && x[j] != k.zero)
  }

  /** Fewer equations than unknowns leave a nonzero solution. */
  lemma {:induction false} MoreUnknowns<F(!new)>(k: Field<F>, rows: seq<seq<F>>, cols: nat, live: set<nat>) returns (x: seq<F>)
    requires IsField(k) && IsMatrix(rows, cols) && |rows| < |live| && forall j :: j in live ==> j < cols
    ensures |x| == cols && Solves(k, rows, live, x)
    decreases |rows|
  {
    if |rows| == 0 {
      var p :| p in live;
      x := Unit(k, cols, p);
      assert x[p] != k.zero;
    } else {
      var n := |rows| - 1;
      var last := rows[n];
      if p: nat :| p in live && last[p] != k.zero {
        var rest := Reduced(k, rows[..n], last, p);
        var y := MoreUnknowns(k, rest, cols, live - {p});
        x := Restored(k, rows, p, live, y);
      } else {
        x := MoreUnknowns(k, rows[..n], cols, live);
        DotApart(k, last, x);
      }
    }
  }

  /** The factor that clears place `p` of `row` with `last`. */
  function Factor<F>(k: Field<F>, row: seq<F>, last: seq<F>, p: nat): F
    requires p < |row| && p < |last|
  {
    k.mul(row[p], k.inv(last[p]))
  }

  function Reduced<F>(k: Field<F>, rows: seq<seq<F>>, last: seq<F>, p: nat): (r: seq<seq<F>>)
    requires IsMatrix(rows, |last|) && p < |last|
    ensures |r| == |rows| && IsMatrix(r, |last|)
    ensures forall i :: 0 <= i < |rows| ==> r[i] == Plus(k, rows[i], Factor(k, rows[i], last, p), last)
  {
    seq(|rows|, i requires 0 <= i < |rows| => Plus(k, rows[i], Factor(k, rows[i], last, p), last))
  }

  /** A solution without unknown `p` of the equations cleared of it, given its `p`. */
  lemma Restored<F(!new)>(k: Field<F>, rows: seq<seq<F>>, p: nat, live: set<nat>, y: seq<F>) returns (x: seq<F>)
    requires IsField(k) && |rows| > 0 && IsMatrix(rows, |y|) && p < |y| && rows[|rows| - 1][p] != k.zero && p in live
    requires Solves(k, Reduced(k, rows[..|rows| - 1], rows[|rows| - 1], p), live - {p}, y)
    ensures |x| == |y| && Solves(k, rows, live, x)
  {
    var n := |rows| - 1;
    var last := rows[n];
    var v := k.mul(Dot(k, last, y), k.inv(last[p]));
    x := y[p := v];
    forall i | 0 <= i < |rows| ensures Dot(k, rows[i], x) == k.zero {
      DotChanged(k, rows[i], y, p, v);
      if i == n {
        Inverse(k, last[p], Dot(k, last, y));
        Commutes(k, last[p], v);
        PlusZero(k, Dot(k, last, y));
      } else {
        var f := Factor(k, rows[i], last, p);
        assert Reduced(k, rows[..n], last, p)[i] == Plus(k, rows[i], f, last);
        DotPlus(k, rows[i], f, last, y);
        SameProduct(k, rows[i][p], k.inv(last[p]), Dot(k, last, y));
      }
    }
    var j :| 0 <= j < |y| && y[j] != k.zero;
    assert x[j] != k.zero;
  }

  lemma SameProduct<F(!new)>(k: Field<F>, a: F, b: F, c: F)
    requires IsField(k)
    ensures k.mul(k.mul(a, b), c) == k.mul(a, k.mul(c, b))
  {
    assert TripleLaws(k, a, b, c) && PairLaws(k, b, c);
  }

  // ---------------------------------------------------------------- dimension

  /** Rows, weighted by combinations of others, are a combination of the others. */
  lemma {:induction false} CombComb<F(!new)>(k: Field<F>, c: seq<F>, vs: seq<seq<F>>, ds: seq<seq<F>>, rows: seq<seq<F>>, cols: nat)
    requires IsField(k) && |c| == |vs| == |ds| && IsMatrix(vs, cols) && IsMatrix(rows, cols) && IsMatrix(ds, |rows|)
    requires forall i :: 0 <= i < |vs| ==> Comb(k, ds[i], rows, cols) == vs[i]
    ensures Comb(k, c, vs, cols) == Comb(k, Comb(k, c, ds, |rows|), rows, cols)
  {
    if |c| == 0 {
      assert Comb(k, c, ds, |rows|) == Zeros(k, |rows|);
      assert Comb(k, c, vs, cols) == Zeros(k, cols);
      CombZero(k, rows, cols);
    } else {
      var n := |c| - 1;
      CombComb(k, c[..n], vs[..n], ds[..n], rows, cols);
      CombLast(k, c, vs, cols);
      CombLast(k, c, ds, |rows|);
      CombPlus(k, Comb(k, c[..n], ds[..n], |rows|), c[n], ds[n], rows, cols);
    }
  }

  /** The combinations that make up the vectors of a span. */
  lemma {:induction false} Weights<F(!new)>(k: Field<F>, vs: seq<seq<F>>, rows: seq<seq<F>>, cols: nat) returns (ds: seq<seq<F>>)
    requires AllInSpan(k, vs, rows) && IsMatrix(vs, cols) && IsMatrix(rows, cols)
    ensures |ds| == |vs| && IsMatrix(ds, |rows|)
    ensures forall i :: 0 <= i < |vs| ==> Comb(k, ds[i], rows, cols) == vs[i]
  {
    ds := [];
    if |vs| > 0 {
      var n := |vs| - 1;
      ds := Weights(k, vs[..n], rows, cols);
      var d :| IsComb(k, vs[n], d, rows);
      ds := ds + [d];
    }
  }

  /** More vectors in the span of `rows` than rows have a nonzero combination that is zero. */
  lemma Dependent<F(!new)>(k: Field<F>, vs: seq<seq<F>>, rows: seq<seq<F>>, cols: nat) returns (c: seq<F>)
    requires IsField(k) && IsMatrix(vs, cols) && IsMatrix(rows, cols) && AllInSpan(k, vs, rows) && |vs| > |rows|
    ensures IsComb(k, Zeros(k, cols), c, vs) && c != Zeros(k, |vs|)
  {
    var ds := Weights(k, vs, rows, cols);
    var eqs := Columns(ds, |rows|);
    c := MoreUnknowns(k, eqs, |vs|, Upto(|vs|));
    forall j | 0 <= j < |rows| ensures Comb(k, c, ds, |rows|)[j] == k.zero {
      assert Dot(k, eqs[j], c) == k.zero;
      DotCommutes(k, c, Column(ds, j));
    }
    assert Comb(k, c, ds, |rows|) == Zeros(k, |rows|);
    CombComb(k, c, vs, ds, rows, cols);
    CombZero(k, rows, cols);
  }

  /** Independent vectors in the span of `rows` are no more than the rows. */
  lemma IndependentBound<F(!new)>(k: Field<F>, vs: seq<seq<F>>, rows: seq<seq<F>>, cols: nat)
    requires IsField(k) && Independent(k, vs, cols) && IsMatrix(rows, cols) && AllInSpan(k, vs, rows)
    ensures |vs| <= |rows|
  {
    if |vs| > |rows| {
      var c := Dependent(k, vs, rows, cols);
    }
  }

  /** All bases of one row space have one size: its dimension. */
  lemma BasisSize<F(!new)>(k: Field<F>, a: seq<seq<F>>, b: seq<seq<F>>, rows: seq<seq<F>>, cols: nat)
    requires IsField(k) && IsMatrix(rows, cols) && IsBasis(k, a, rows, cols) && IsBasis(k, b, rows, cols)
    ensures |a| == |b|
  {
    SpanTransitive(k, a, rows, b, cols);
    IndependentBound(k, a, b, cols);
    SpanTransitive(k, b, rows, a, cols);
    IndependentBound(k, b, a, cols);
  }

  // ---------------------------------------------------------------- determined unknowns

  /** Whatever the right-hand sides, the equations have at most one solution. */
  ghost predicate Determined<F(!new)>(k: Field<F>, rows: seq<seq<F>>, cols: nat) {
    forall x: seq<F>, y: seq<F> :: |x| == |y| == cols && SameSides(k, rows, x, y) ==> x == y
  }

  ghost predicate SameSides<F>(k: Field<F>, rows: seq<seq<F>>, x: seq<F>, y: seq<F>) {
    forall i :: 0 <= i < |rows| ==> |rows[i]| == |x| == |y| && Dot(k, rows[i], x) == Dot(k, rows[i], y)
  }

  lemma ZeroOnly<F(!new)>(k: Field<F>, rows: seq<seq<F>>, x: seq<F>)
    requires IsField(k) && Kills(k, rows, x) && IsMatrix(rows, |x|) && Determined(k, rows, |x|)
    ensures x == Zeros(k, |x|)
  {
    forall i | 0 <= i < |rows| ensures Dot(k, rows[i], Zeros(k, |x|)) == k.zero {
      DotApart(k, rows[i], Zeros(k, |x|));
    }
    assert SameSides(k, rows, x, Zeros(k, |x|));
  }

  /** Two solutions of the same equations differ by a solution of the homogeneous ones. */
  lemma DifferenceKills<F(!new)>(k: Field<F>, rows: seq<seq<F>>, x: seq<F>, y: seq<F>)
    requires IsField(k) && IsMatrix(rows, |x|) && |x| == |y| && SameSides(k, rows, x, y)
    ensures Kills(k, rows, Plus(k, x, k.one, y))
  {
    forall i | 0 <= i < |rows| ensures Dot(k, rows[i], Plus(k, x, k.one, y)) == k.zero {
      DotCommutes(k, rows[i], Plus(k, x, k.one, y));
      DotPlus(k, x, k.one, y, rows[i]);
      DotCommutes(k, x, rows[i]);
      DotCommutes(k, y, rows[i]);
      TimesOne(k, Dot(k, rows[i], y));
      PlusZero(k, Dot(k, rows[i], y));
    }
  }

  /** Equations as many as unknowns, with a nonzero homogeneous solution, are dependent:
      all places of a combination but one can be cleared, and that one then is clear. */
  lemma OtherColumn<F(!new)>(k: Field<F>, rows: seq<seq<F>>, n: nat, c: seq<F>, p: nat, j: nat)
    requires IsField(k) && IsMatrix(rows, n) && |rows| == |c| == n && p < n && j < n && j != p
    requires Kills(k, Columns(rows, n)[..p] + Columns(rows, n)[p + 1..], c)
    ensures Comb(k, c, rows, n)[j] == k.zero
  {
    var others := Columns(rows, n)[..p] + Columns(rows, n)[p + 1..];
    var i := if j < p then j else j - 1;
    assert others[i] == Column(rows, j);
    assert Dot(k, others[i], c) == k.zero;
    DotCommutes(k, c, Column(rows, j));
  }

  lemma SolvedDependent<F(!new)>(k: Field<F>, rows: seq<seq<F>>, x: seq<F>, p: nat) returns (c: seq<F>)
    requires IsField(k) && IsMatrix(rows, |x|) && |rows| == |x| && Kills(k, rows, x) && p < |x| && x[p] != k.zero
    ensures IsComb(k, Zeros(k, |x|), c, rows) && c != Zeros(k, |rows|)
  {
    var n := |x|;
    var columns := Columns(rows, n);
    var others := columns[..p] + columns[p + 1..];
    c := MoreUnknowns(k, others, n, Upto(n));
    var v := Comb(k, c, rows, n);
    forall j | 0 <= j < n && j != p ensures v[j] == k.zero { OtherColumn(k, rows, n, c, p, j); }
    CombKilled(k, c, rows, x);
    DotAt(k, v, x, p);
    NoZeroDivisors(k, v[p], x[p]);
    assert v == Zeros(k, n);
  }

  /** As many independent equations as unknowns have no nonzero homogeneous solution. */
  lemma FullRankKills<F(!new)>(k: Field<F>, basis: seq<seq<F>>, x: seq<F>)
    requires IsField(k) && Independent(k, basis, |x|) && |basis| == |x| && Kills(k, basis, x)
    ensures x == Zeros(k, |x|)
  {
    if p :| 0 <= p < |x| && x[p] != k.zero {
      var c := SolvedDependent(k, basis, x, p);
    }
  }

  /** The equations determine every unknown exactly when their rank is the number of
      unknowns. */
  lemma DeterminedIffFullRank<F(!new)>(k: Field<F>, basis: seq<seq<F>>, rows: seq<seq<F>>, cols: nat)
    requires IsField(k) && IsMatrix(rows, cols) && IsBasis(k, basis, rows, cols)
    ensures Determined(k, rows, cols) <==> |basis| == cols
    ensures |basis| <= cols
  {
    UnitsSpan(k, basis, cols);
    if |basis| < cols {
      var x := MoreUnknowns(k, basis, cols, Upto(cols));
      SpanKilled(k, rows, basis, x);
      if Determined(k, rows, cols) { ZeroOnly(k, rows, x); }
    } else {
      forall x: seq<F>, y: seq<F> | |x| == |y| == cols && SameSides(k, rows, x, y) ensures x == y {
        DifferenceKills(k, rows, x, y);
        var z := Plus(k, x, k.one, y);
        SpanKilled(k, basis, rows, z);
        FullRankKills(k, basis, z);
        forall i | 0 <= i < cols ensures x[i] == y[i] {
          assert z[i] == k.zero;
          TimesOne(k, y[i]);
          SumZero(k, x[i], y[i]);
        }
      }
    }
  }

  function Units<F>(k: Field<F>, n: nat): (u: seq<seq<F>>)
    ensures |u| == n && IsMatrix(u, n) && forall i :: 0 <= i < n ==> u[i] == Unit(k, n, i)
  {
    seq(n, i requires 0 <= i < n => Unit(k, n, i))
  }

  lemma UnitsSpan<F(!new)>(k: Field<F>, basis: seq<seq<F>>, cols: nat)
    requires IsField(k) && Independent(k, basis, cols)
    ensures |basis| <= cols
  {
    forall i | 0 <= i < |basis| ensures InSpan(k, basis[i], Units(k, cols)) {
      forall j | 0 <= j < cols ensures Comb(k, basis[i], Units(k, cols), cols)[j] == basis[i][j] {
        DotAt(k, basis[i], Column(Units(k, cols), j), j);
        TimesOne(k, basis[i][j]);
      }
      assert IsComb(k, basis[i], basis[i], Units(k, cols));
    }
    IndependentBound(k, basis, Units(k, cols), cols);
  }
}
