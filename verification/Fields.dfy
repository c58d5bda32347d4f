/** Fields in which adding an element to itself gives zero, so that one operation serves
    for sum and difference. The field of 256 elements that the codes work in is one. */
module Fields {

  datatype Field<!F> = Field(zero: F, one: F, add: (F, F) -> F, mul: (F, F) -> F, inv: F -> F)

  ghost predicate ElementLaws<F>(k: Field<F>, a: F) {
    && k.add(a, k.zero) == a && k.add(a, a) == k.zero && k.mul(a, k.one) == a
    && (a != k.zero ==> k.mul(a, k.inv(a)) == k.one)
  }

  ghost predicate PairLaws<F>(k: Field<F>, a: F, b: F) {
    k.add(a, b) == k.add(b, a) && k.mul(a, b) == k.mul(b, a)
  }

  ghost predicate TripleLaws<F>(k: Field<F>, a: F, b: F, c: F) {
    && k.add(k.add(a, b), c) == k.add(a, k.add(b, c))
    && k.mul(k.mul(a, b), c) == k.mul(a, k.mul(b, c))
    && k.mul(a, k.add(b, c)) == k.add(k.mul(a, b), k.mul(a, c))
  }

  ghost predicate IsField<F(!new)>(k: Field<F>) {
    && k.zero != k.one
    && (forall a :: ElementLaws(k, a))
    && (forall a, b :: PairLaws(k, a, b))
    && (forall a, b, c :: TripleLaws(k, a, b, c))
  }

  lemma TimesZero<F(!new)>(k: Field<F>, a: F)
    requires IsField(k)
    ensures k.mul(a, k.zero) == k.zero && k.mul(k.zero, a) == k.zero
  {
    assert ElementLaws(k, k.zero) && TripleLaws(k, a, k.zero, k.zero);
    assert PairLaws(k, a, k.zero) && ElementLaws(k, k.mul(a, k.zero));
  }

  lemma PlusZero<F(!new)>(k: Field<F>, a: F)
    requires IsField(k)
    ensures k.add(a, k.zero) == a && k.add(k.zero, a) == a && k.add(a, a) == k.zero
  {
    assert ElementLaws(k, a) && PairLaws(k, a, k.zero);
  }

  lemma TimesOne<F(!new)>(k: Field<F>, a: F)
    requires IsField(k)
    ensures k.mul(a, k.one) == a && k.mul(k.one, a) == a
  {
    assert ElementLaws(k, a) && PairLaws(k, a, k.one);
  }

  lemma Commutes<F(!new)>(k: Field<F>, a: F, b: F)
    requires IsField(k)
    ensures k.mul(a, b) == k.mul(b, a) && k.add(a, b) == k.add(b, a)
  {
    assert PairLaws(k, a, b);
  }

  /** Dividing by a nonzero element. */
  lemma Inverse<F(!new)>(k: Field<F>, a: F, b: F)
    requires IsField(k) && a != k.zero
    ensures k.mul(a, k.inv(a)) == k.one && k.mul(k.inv(a), a) == k.one
    ensures k.mul(k.mul(b, k.inv(a)), a) == b
    ensures k.inv(a) != k.zero
  {
    assert ElementLaws(k, a) && PairLaws(k, a, k.inv(a)) && TripleLaws(k, b, k.inv(a), a) && ElementLaws(k, b);
    TimesZero(k, a);
  }

  lemma NoZeroDivisors<F(!new)>(k: Field<F>, a: F, b: F)
    requires IsField(k) && k.mul(a, b) == k.zero
    ensures a == k.zero || b == k.zero
  {
    if a != k.zero {
      Inverse(k, a, b);
      assert TripleLaws(k, k.inv(a), a, b);
      TimesOne(k, b);
      TimesZero(k, k.inv(a));
    }
  }

  /** What is equal up to a difference of zero is equal. */
  lemma SumZero<F(!new)>(k: Field<F>, a: F, b: F)
    requires IsField(k) && k.add(a, b) == k.zero
    ensures a == b
  {
    assert TripleLaws(k, a, b, b);
    PlusZero(k, a);
    PlusZero(k, b);
  }

  lemma Regroup<F(!new)>(k: Field<F>, a: F, b: F, c: F, d: F)
    requires IsField(k)
    ensures k.add(k.add(a, b), k.add(c, d)) == k.add(k.add(a, c), k.add(b, d))
  {
    assert TripleLaws(k, a, b, k.add(c, d)) && TripleLaws(k, b, c, d) && PairLaws(k, b, c);
    assert TripleLaws(k, c, b, d) && TripleLaws(k, a, c, k.add(b, d));
  }

  /** One more term of a product with a vector plus a multiple of another. */
  lemma OneMoreTerm<F(!new)>(k: Field<F>, sa: F, f: F, sb: F, a: F, b: F, x: F)
    requires IsField(k)
    ensures k.add(k.add(sa, k.mul(f, sb)), k.mul(k.add(a, k.mul(f, b)), x))
         == k.add(k.add(sa, k.mul(a, x)), k.mul(f, k.add(sb, k.mul(b, x))))
  {
    assert PairLaws(k, k.add(a, k.mul(f, b)), x) && TripleLaws(k, x, a, k.mul(f, b));
    assert PairLaws(k, x, a) && PairLaws(k, x, k.mul(f, b));
    assert TripleLaws(k, f, b, x) && TripleLaws(k, f, sb, k.mul(b, x));
    Regroup(k, sa, k.mul(f, sb), k.mul(a, x), k.mul(f, k.mul(b, x)));
  }
}
