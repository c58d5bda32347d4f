/** `rank`: Gaussian elimination in place, proved to return the dimension of the row
    space of the matrix it was given. */
module Elimination {
  import opened Fields
  import opened LinearAlgebra

  /** `r` is the dimension of the row space. */
  ghost predicate IsRank<F(!new)>(k: Field<F>, rows: seq<seq<F>>, cols: nat, r: nat) {
    exists basis :: IsBasis(k, basis, rows, cols) && |basis| == r
  }

  lemma RankIsUnique<F(!new)>(k: Field<F>, rows: seq<seq<F>>, cols: nat, r: nat, q: nat)
    requires IsField(k) && IsMatrix(rows, cols) && IsRank(k, rows, cols, r) && IsRank(k, rows, cols, q)
    ensures r == q
  {
    var a :| IsBasis(k, a, rows, cols) && |a| == r;
    var b :| IsBasis(k, b, rows, cols) && |b| == q;
    BasisSize(k, a, b, rows, cols);
  }

  // ---------------------------------------------------------------- row operations

  ghost predicate SameSpan<F(!new)>(k: Field<F>, a: seq<seq<F>>, b: seq<seq<F>>, cols: nat) {
    IsMatrix(a, cols) && IsMatrix(b, cols) && AllInSpan(k, a, b) && AllInSpan(k, b, a)
  }

  lemma SameSpanTransitive<F(!new)>(k: Field<F>, a: seq<seq<F>>, b: seq<seq<F>>, c: seq<seq<F>>, cols: nat)
    requires IsField(k) && SameSpan(k, a, b, cols) && SameSpan(k, b, c, cols)
    ensures SameSpan(k, a, c, cols)
  {
    SpanTransitive(k, a, b, c, cols);
    SpanTransitive(k, c, b, a, cols);
  }

  lemma SwapSpan<F(!new)>(k: Field<F>, m: seq<seq<F>>, cols: nat, p: nat, q: nat)
    requires IsField(k) && IsMatrix(m, cols) && p < |m| && q < |m|
    ensures SameSpan(k, m[p := m[q]][q := m[p]], m, cols)
  {
    var n := m[p := m[q]][q := m[p]];
    forall i | 0 <= i < |m| ensures InSpan(k, n[i], m) && InSpan(k, m[i], n) {
      var j := if i == p then q else if i == q then p else i;
      assert n[i] == m[j] && m[i] == n[j];
      RowInSpan(k, m, cols, j);
      RowInSpan(k, n, cols, j);
    }
  }

  function Scaled<F>(k: Field<F>, row: seq<F>, f: F): (r: seq<F>)
    ensures |r| == |row| && forall j :: 0 <= j < |row| ==> r[j] == k.mul(row[j], f)
  {
    seq(|row|, j requires 0 <= j < |row| => k.mul(row[j], f))
  }

  lemma ScaledInSpan<F(!new)>(k: Field<F>, row: seq<F>, f: F, rows: seq<seq<F>>)
    requires IsField(k) && InSpan(k, row, rows)
    ensures InSpan(k, Scaled(k, row, f), rows)
  {
    var z := Zeros(k, |row|);
    ZeroInSpan(k, rows, |row|);
    PlusInSpan(k, z, f, row, rows);
    forall j | 0 <= j < |row| ensures Plus(k, z, f, row)[j] == Scaled(k, row, f)[j] {
      Commutes(k, row[j], f);
      PlusZero(k, k.mul(f, row[j]));
    }
    assert Plus(k, z, f, row) == Scaled(k, row, f);
  }

  lemma ScaleSpan<F(!new)>(k: Field<F>, m: seq<seq<F>>, cols: nat, q: nat, a: F)
    requires IsField(k) && IsMatrix(m, cols) && q < |m| && a != k.zero
    ensures SameSpan(k, m[q := Scaled(k, m[q], k.inv(a))], m, cols)
  {
    var n := m[q := Scaled(k, m[q], k.inv(a))];
    RowInSpan(k, m, cols, q);
    ScaledInSpan(k, m[q], k.inv(a), m);
    RowInSpan(k, n, cols, q);
    ScaledInSpan(k, n[q], a, n);
    forall j | 0 <= j < cols ensures Scaled(k, n[q], a)[j] == m[q][j] { Inverse(k, a, m[q][j]); }
    assert Scaled(k, n[q], a) == m[q];
    forall i | 0 <= i < |m| ensures InSpan(k, n[i], m) && InSpan(k, m[i], n) {
      if i != q {
        RowInSpan(k, m, cols, i);
        RowInSpan(k, n, cols, i);
      }
    }
  }

  /** Every row but row `q` cleared in column `col` with row `q`. */
  function Cleared<F>(k: Field<F>, m: seq<seq<F>>, cols: nat, q: nat, col: nat): (n: seq<seq<F>>)
    requires IsMatrix(m, cols) && q < |m| && col < cols
    ensures |n| == |m| && IsMatrix(n, cols) && n[q] == m[q]
    ensures forall i :: 0 <= i < |m| && i != q ==> n[i] == Plus(k, m[i], m[i][col], m[q])
  {
    seq(|m|, i requires 0 <= i < |m| => if i == q then m[q] else Plus(k, m[i], m[i][col], m[q]))
  }

  /** Adding the same multiple twice changes nothing. */
  lemma TwiceIsNothing<F(!new)>(k: Field<F>, a: seq<F>, f: F, b: seq<F>)
    requires IsField(k) && |a| == |b|
    ensures Plus(k, Plus(k, a, f, b), f, b) == a
  {
    forall j | 0 <= j < |a| ensures Plus(k, Plus(k, a, f, b), f, b)[j] == a[j] {
      var x := k.mul(f, b[j]);
      assert TripleLaws(k, a[j], x, x);
      PlusZero(k, x);
      PlusZero(k, a[j]);
    }
  }

  lemma ClearSpan<F(!new)>(k: Field<F>, m: seq<seq<F>>, cols: nat, q: nat, col: nat)
    requires IsField(k) && IsMatrix(m, cols) && q < |m| && col < cols
    ensures SameSpan(k, Cleared(k, m, cols, q, col), m, cols)
  {
    var n := Cleared(k, m, cols, q, col);
    RowInSpan(k, m, cols, q);
    RowInSpan(k, n, cols, q);
    forall i | 0 <= i < |m| ensures InSpan(k, n[i], m) && InSpan(k, m[i], n) {
      if i != q {
        RowInSpan(k, m, cols, i);
        PlusInSpan(k, m[i], m[i][col], m[q], m);
        RowInSpan(k, n, cols, i);
        PlusInSpan(k, n[i], m[i][col], n[q], n);
        TwiceIsNothing(k, m[i], m[i][col], m[q]);
      }
    }
  }

  // ---------------------------------------------------------------- every matrix has a rank

  /** A vector that cancels, times `a`, with one of the span is in the span. */
  lemma DividedOut<F(!new)>(k: Field<F>, rows: seq<seq<F>>, w: seq<F>, a: F, v: seq<F>)
    requires IsField(k) && a != k.zero && |w| == |v| && InSpan(k, w, rows)
    requires forall j :: 0 <= j < |v| ==> k.add(w[j], k.mul(a, v[j])) == k.zero
    ensures InSpan(k, v, rows)
  {
    ScaledInSpan(k, w, k.inv(a), rows);
    forall j | 0 <= j < |v| ensures Scaled(k, w, k.inv(a))[j] == v[j] {
      SumZero(k, w[j], k.mul(a, v[j]));
      UndoFactor(k, a, v[j]);
    }
    assert Scaled(k, w, k.inv(a)) == v;
  }

  /** A vector outside the span of independent ones is independent of them. */
  lemma OneMoreIndependent<F(!new)>(k: Field<F>, basis: seq<seq<F>>, v: seq<F>, c: seq<F>)
    requires IsField(k) && Independent(k, basis, |v|) && !InSpan(k, v, basis)
    requires IsComb(k, Zeros(k, |v|), c, basis + [v])
    ensures c == Zeros(k, |basis| + 1)
  {
    var n, cols := |basis|, |v|;
    var w := Comb(k, c[..n], basis, cols);
    CombLast(k, c, basis + [v], cols);
    assert (basis + [v])[..n] == basis;
    assert IsComb(k, w, c[..n], basis);
    var a := c[n];
    assert forall j :: 0 <= j < cols ==> k.add(w[j], k.mul(a, v[j])) == k.zero;
    if a != k.zero {
      DividedOut(k, basis, w, a, v);
    } else {
      forall j | 0 <= j < cols ensures w[j] == k.zero {
        TimesZero(k, v[j]);
        PlusZero(k, w[j]);
      }
      assert w == Zeros(k, cols);
      assert c == c[..n] + [a];
    }
  }

  lemma UndoFactor<F(!new)>(k: Field<F>, a: F, x: F)
    requires IsField(k) && a != k.zero
    ensures k.mul(k.mul(a, x), k.inv(a)) == x
  {
    assert PairLaws(k, a, x) && TripleLaws(k, x, a, k.inv(a)) && ElementLaws(k, a);
    TimesOne(k, x);
  }

  lemma {:induction false} SomeBasis<F(!new)>(k: Field<F>, rows: seq<seq<F>>, cols: nat) returns (basis: seq<seq<F>>)
    requires IsField(k) && IsMatrix(rows, cols)
    ensures IsBasis(k, basis, rows, cols)
  {
    basis := [];
    if |rows| > 0 {
      var n := |rows| - 1;
      var front := SomeBasis(k, rows[..n], cols);
      basis := front;
      if !InSpan(k, rows[n], front) {
        basis := front + [rows[n]];
        forall c | IsComb(k, Zeros(k, cols), c, basis) ensures c == Zeros(k, |basis|) {
          OneMoreIndependent(k, front, rows[n], c);
        }
      }
      BasisGrows(k, front, basis, rows, cols);
    }
  }

  lemma SpanOfPrefix<F(!new)>(k: Field<F>, vs: seq<seq<F>>, a: seq<seq<F>>, b: seq<seq<F>>, cols: nat)
    requires IsField(k) && IsMatrix(vs, cols) && IsMatrix(b, cols) && a <= b && AllInSpan(k, vs, a)
    ensures AllInSpan(k, vs, b)
  {
    forall i | 0 <= i < |a| ensures InSpan(k, a[i], b) { RowInSpan(k, b, cols, i); }
    SpanTransitive(k, vs, a, b, cols);
  }

  lemma BasisGrows<F(!new)>(k: Field<F>, front: seq<seq<F>>, basis: seq<seq<F>>, rows: seq<seq<F>>, cols: nat)
    requires IsField(k) && IsMatrix(rows, cols) && |rows| > 0 && IsBasis(k, front, rows[..|rows| - 1], cols)
    requires Independent(k, basis, cols)
    requires basis == front + [rows[|rows| - 1]] || (basis == front && InSpan(k, rows[|rows| - 1], front))
    ensures IsBasis(k, basis, rows, cols)
  {
    var n := |rows| - 1;
    SpanOfPrefix(k, front, rows[..n], rows, cols);
    SpanOfPrefix(k, rows[..n], front, basis, cols);
    RowInSpan(k, rows, cols, n);
    forall i | 0 <= i < |rows| ensures InSpan(k, rows[i], basis) {
      if i < n {
        assert rows[..n][i] == rows[i];
      } else if basis != front {
        RowInSpan(k, basis, cols, |front|);
      }
    }
    forall i | 0 <= i < |basis| ensures InSpan(k, basis[i], rows) {
      if i < |front| { assert basis[i] == front[i]; }
    }
  }

  // ---------------------------------------------------------------- the reduced form

  /** Row `p` of the first `|piv|` has the only entry, a one, of column `piv[p]`; the
      rows below have nothing before column `col`. */
  ghost predicate Echelon<F>(k: Field<F>, m: seq<seq<F>>, cols: nat, piv: seq<nat>, col: nat) {
    && IsMatrix(m, cols) && |piv| <= |m| && col <= cols
    && (forall p :: 0 <= p < |piv| ==> piv[p] < col)
    && (forall i, p :: 0 <= i < |m| && 0 <= p < |piv| ==> m[i][piv[p]] == if i == p then k.one else k.zero)
    && (forall i, j :: |piv| <= i < |m| && 0 <= j < col ==> m[i][j] == k.zero)
  }

  lemma EchelonBasis<F(!new)>(k: Field<F>, m: seq<seq<F>>, cols: nat, piv: seq<nat>, col: nat)
    requires IsField(k) && Echelon(k, m, cols, piv, col) && (col == cols || |piv| == |m|)
    ensures IsBasis(k, m[..|piv|], m, cols)
  {
    var r := |piv|;
    var basis := m[..r];
    forall c | IsComb(k, Zeros(k, cols), c, basis) ensures c == Zeros(k, r) {
      forall p | 0 <= p < r ensures c[p] == k.zero {
        var column := Column(basis, piv[p]);
        DotAt(k, c, column, p);
        TimesOne(k, c[p]);
        assert Comb(k, c, basis, cols)[piv[p]] == k.zero;
      }
    }
    forall i | 0 <= i < r ensures InSpan(k, basis[i], m) { RowInSpan(k, m, cols, i); }
    forall i | 0 <= i < |m| ensures InSpan(k, m[i], basis) {
      if i < r {
        RowInSpan(k, basis, cols, i);
      } else {
        assert m[i] == Zeros(k, cols);
        ZeroInSpan(k, basis, cols);
      }
    }
  }

  lemma SwapEchelon<F>(k: Field<F>, m: seq<seq<F>>, cols: nat, piv: seq<nat>, col: nat, p: nat)
    requires Echelon(k, m, cols, piv, col) && |piv| <= p < |m|
    ensures Echelon(k, m[|piv| := m[p]][p := m[|piv|]], cols, piv, col)
  {
  }

  lemma ScaleEchelon<F(!new)>(k: Field<F>, m: seq<seq<F>>, cols: nat, piv: seq<nat>, col: nat, f: F)
    requires IsField(k) && Echelon(k, m, cols, piv, col) && |piv| < |m|
    ensures Echelon(k, m[|piv| := Scaled(k, m[|piv|], f)], cols, piv, col)
  {
    TimesZero(k, f);
  }

  lemma ClearEchelon<F(!new)>(k: Field<F>, m: seq<seq<F>>, cols: nat, piv: seq<nat>, col: nat)
    requires IsField(k) && Echelon(k, m, cols, piv, col) && |piv| < |m| && col < cols && m[|piv|][col] == k.one
    ensures Echelon(k, Cleared(k, m, cols, |piv|, col), cols, piv + [col], col + 1)
  {
    var r := |piv|;
    var n := Cleared(k, m, cols, r, col);
    forall i, j | 0 <= i < |m| && 0 <= j < col && m[r][j] == k.zero ensures n[i][j] == m[i][j] {
      TimesZero(k, m[i][col]);
      PlusZero(k, m[i][j]);
    }
    forall i | 0 <= i < |m| && i != r ensures n[i][col] == k.zero {
      TimesOne(k, m[i][col]);
      PlusZero(k, m[i][col]);
    }
  }

  // ---------------------------------------------------------------- the code

  /** The entries from `col` on, times `f`. */
  method ScaleFrom<F>(k: Field<F>, row: seq<F>, col: nat, f: F) returns (out: seq<F>)
    requires col <= |row|
    ensures |out| == |row| && forall j :: 0 <= j < |row| ==> out[j] == if j < col then row[j] else k.mul(row[j], f)
  {
    out := row;
    for c := col to |row|
      invariant |out| == |row|
      invariant forall j :: 0 <= j < |row| ==> out[j] == if col <= j < c then k.mul(row[j], f) else row[j]
    {
      out := out[c := k.mul(out[c], f)];
    }
  }

  /** The entries from `col` on, less `factor` times the pivot row's. */
  method SubtractFrom<F>(k: Field<F>, row: seq<F>, factor: F, pivot: seq<F>, col: nat) returns (out: seq<F>)
    requires |row| == |pivot| && col <= |row|
    ensures |out| == |row|
    ensures forall j :: 0 <= j < |row| ==> out[j] == if j < col then row[j] else k.add(row[j], k.mul(factor, pivot[j]))
  {
    out := row;
    for c := col to |row|
      invariant |out| == |row|
      invariant forall j :: 0 <= j < |row| ==>
                  out[j] == if col <= j < c then k.add(row[j], k.mul(factor, pivot[j])) else row[j]
    {
      out := out[c := k.add(out[c], k.mul(factor, pivot[c]))];
    }
  }

  lemma NothingToClear<F(!new)>(k: Field<F>, row: seq<F>, pivot: seq<F>)
    requires IsField(k) && |row| == |pivot|
    ensures Plus(k, row, k.zero, pivot) == row
  {
    forall j | 0 <= j < |row| ensures Plus(k, row, k.zero, pivot)[j] == row[j] {
      TimesZero(k, pivot[j]);
      PlusZero(k, row[j]);
    }
  }

  method ClearColumn<F(==, !new)>(k: Field<F>, m: seq<seq<F>>, cols: nat, rank: nat, col: nat) returns (out: seq<seq<F>>)
    requires IsField(k) && IsMatrix(m, cols) && rank < |m| && col < cols
    requires forall j :: 0 <= j < col ==> m[rank][j] == k.zero
    ensures out == Cleared(k, m, cols, rank, col)
  {
    out := m;
    var pivot := m[rank];
    for r := 0 to |m|
      invariant |out| == |m|
      invariant forall i :: r <= i < |m| ==> out[i] == m[i]
      invariant forall i :: 0 <= i < r ==> out[i] == Cleared(k, m, cols, rank, col)[i]
    {
      if r == rank || out[r][col] == k.zero {
        NothingToClear(k, m[r], pivot);
      } else {
        var row := SubtractFrom(k, out[r], out[r][col], pivot, col);
        forall j | 0 <= j < cols ensures row[j] == Plus(k, m[r], m[r][col], pivot)[j] {
          TimesZero(k, m[r][col]);
          PlusZero(k, m[r][j]);
        }
        out := out[r := row];
        assert row == Cleared(k, m, cols, rank, col)[r];
      }
    }
  }

  /** The first row from `rank` on with an entry in column `col`, or `|m|`. */
  method FindPivot<F(==)>(k: Field<F>, m: seq<seq<F>>, cols: nat, rank: nat, col: nat) returns (p: nat)
    requires IsMatrix(m, cols) && rank <= |m| && col < cols
    ensures rank <= p <= |m| && (p < |m| ==> m[p][col] != k.zero)
    ensures forall i :: rank <= i < p ==> m[i][col] == k.zero
  {
    p := rank;
    while p < |m| && m[p][col] == k.zero
      invariant rank <= p <= |m|
      invariant forall i :: rank <= i < p ==> m[i][col] == k.zero
    {
      p := p + 1;
    }
  }

  /** Always true. `Stage` is quantified over it so that its long conjuncts stay shut while a
      stage is only carried from one part of the loop body to the next; the lemma that works
      on a stage opens it with `assert Open(col)`. */
  predicate Open(col: nat) { true }

  /** The elimination of `rows` stands at `m`, with columns before `col` done. */
  ghost predicate Stage<F(!new)>(k: Field<F>, rows: seq<seq<F>>, cols: nat, m: seq<seq<F>>, piv: seq<nat>, col: nat) {
    forall c {:trigger Open(c)} :: c == col ==> Echelon(k, m, cols, piv, c) && SameSpan(k, m, rows, cols)
  }

  lemma FirstStage<F(!new)>(k: Field<F>, rows: seq<seq<F>>, cols: nat)
    requires IsField(k) && IsMatrix(rows, cols)
    ensures Stage(k, rows, cols, rows, [], 0)
  {
    forall i | 0 <= i < |rows| ensures InSpan(k, rows[i], rows) { RowInSpan(k, rows, cols, i); }
    assert Echelon(k, rows, cols, [], 0) && SameSpan(k, rows, rows, cols);
  }

  lemma SwapStage<F(!new)>(k: Field<F>, rows: seq<seq<F>>, cols: nat, m: seq<seq<F>>, piv: seq<nat>, col: nat, p: nat)
    requires IsField(k) && Stage(k, rows, cols, m, piv, col) && |piv| <= p < |m|
    ensures Stage(k, rows, cols, m[|piv| := m[p]][p := m[|piv|]], piv, col)
  {
    assert Open(col);
    SwapSpan(k, m, cols, |piv|, p);
    SwapEchelon(k, m, cols, piv, col, p);
    SameSpanTransitive(k, m[|piv| := m[p]][p := m[|piv|]], m, rows, cols);
  }

  lemma ScaleStage<F(!new)>(k: Field<F>, rows: seq<seq<F>>, cols: nat, m: seq<seq<F>>, piv: seq<nat>, col: nat, row: seq<F>)
    requires IsField(k) && Stage(k, rows, cols, m, piv, col) && |piv| < |m| && |row| == |m[|piv|]| == cols
    requires col < cols && m[|piv|][col] != k.zero
    requires forall j :: 0 <= j < cols ==>
               row[j] == if j < col then m[|piv|][j] else k.mul(m[|piv|][j], k.inv(m[|piv|][col]))
    ensures Stage(k, rows, cols, m[|piv| := row], piv, col) && row[col] == k.one
    ensures forall j :: 0 <= j < col ==> row[j] == k.zero
  {
    assert Open(col);
    var a := m[|piv|][col];
    TimesZero(k, k.inv(a));
    assert row == Scaled(k, m[|piv|], k.inv(a));
    ScaleSpan(k, m, cols, |piv|, a);
    ScaleEchelon(k, m, cols, piv, col, k.inv(a));
    Inverse(k, a, k.one);
    SameSpanTransitive(k, m[|piv| := row], m, rows, cols);
  }

  lemma ClearStage<F(!new)>(k: Field<F>, rows: seq<seq<F>>, cols: nat, m: seq<seq<F>>, piv: seq<nat>, col: nat)
    requires IsField(k) && Stage(k, rows, cols, m, piv, col) && IsMatrix(m, cols) && col < cols
    requires |piv| < |m| && m[|piv|][col] == k.one
    ensures Stage(k, rows, cols, Cleared(k, m, cols, |piv|, col), piv + [col], col + 1)
  {
    assert Open(col);
    ClearSpan(k, m, cols, |piv|, col);
    ClearEchelon(k, m, cols, piv, col);
    SameSpanTransitive(k, Cleared(k, m, cols, |piv|, col), m, rows, cols);
  }

  /** A column with nothing from row `|piv|` on is done. */
  lemma SkipStage<F(!new)>(k: Field<F>, rows: seq<seq<F>>, cols: nat, m: seq<seq<F>>, piv: seq<nat>, col: nat)
    requires Stage(k, rows, cols, m, piv, col) && col < cols && IsMatrix(m, cols)
    requires forall i :: |piv| <= i < |m| ==> m[i][col] == k.zero
    ensures Stage(k, rows, cols, m, piv, col + 1)
  {
    assert Open(col);
    assert Echelon(k, m, cols, piv, col + 1);
  }

  lemma LastStage<F(!new)>(k: Field<F>, rows: seq<seq<F>>, cols: nat, m: seq<seq<F>>, piv: seq<nat>, col: nat)
    requires IsField(k) && Stage(k, rows, cols, m, piv, col) && (col == cols || |piv| == |m|)
    ensures IsRank(k, rows, cols, |piv|)
  {
    assert Open(col);
    EchelonBasis(k, m, cols, piv, col);
    SpanTransitive(k, m[..|piv|], m, rows, cols);
    SpanTransitive(k, rows, m, m[..|piv|], cols);
    assert IsBasis(k, m[..|piv|], rows, cols);
  }

  method Rank<F(==, !new)>(k: Field<F>, rows: seq<seq<F>>, cols: nat) returns (rank: nat)
    requires IsField(k) && IsMatrix(rows, cols)
    ensures IsRank(k, rows, cols, rank)
  {
    var m := rows;
    rank := 0;
    var col := 0;
    ghost var piv: seq<nat> := [];
    FirstStage(k, m, cols);
    while col < cols
      invariant col <= cols && IsMatrix(m, cols) && rank == |piv| <= |m| && Stage(k, rows, cols, m, piv, col)
    {
      var p := FindPivot(k, m, cols, rank, col);
      if p < |m| {
        SwapStage(k, rows, cols, m, piv, col, p);
        m := m[rank := m[p]][p := m[rank]];
        var inv := k.inv(m[rank][col]);
        var row := ScaleFrom(k, m[rank], col, inv);
        ScaleStage(k, rows, cols, m, piv, col, row);
        m := m[rank := row];
        ClearStage(k, rows, cols, m, piv, col);
        m := ClearColumn(k, m, cols, rank, col);
        piv := piv + [col];
        rank := rank + 1;
        col := col + 1;
        if rank == |m| { break; }
      } else {
        SkipStage(k, rows, cols, m, piv, col);
        col := col + 1;
      }
    }
    LastStage(k, rows, cols, m, piv, col);
  }
}
