/** The field of 256 elements the codes use: polynomials over one bit, modulo
    `x^8 + x^4 + x^3 + x^2 + 1`, with the tables that multiply and invert in it. */
module Gf256 {
  import opened Fields
  import opened FiniteSets

  datatype Bit = O | I

  function Plus(x: Bit, y: Bit): Bit {
    if x == y then O else I
  }

  /** A byte by its bits, the lowest first. */
  datatype Byte = Byte(b0: Bit, b1: Bit, b2: Bit, b3: Bit, b4: Bit, b5: Bit, b6: Bit, b7: Bit)

  const ZERO := Byte(O, O, O, O, O, O, O, O)
  const ONE := Byte(I, O, O, O, O, O, O, O)

  function Xor(a: Byte, c: Byte): Byte {
    Byte(Plus(a.b0, c.b0), Plus(a.b1, c.b1), Plus(a.b2, c.b2), Plus(a.b3, c.b3),
         Plus(a.b4, c.b4), Plus(a.b5, c.b5), Plus(a.b6, c.b6), Plus(a.b7, c.b7))
  }

  lemma XorSame(a: Byte, b: Byte)
    ensures Xor(a, ZERO) == a && Xor(ZERO, a) == a && Xor(a, a) == ZERO && Xor(a, b) == Xor(b, a)
  {
  }

  lemma XorAssociates(a: Byte, b: Byte, c: Byte)
    ensures Xor(Xor(a, b), c) == Xor(a, Xor(b, c))
  {
    var l, r := Xor(Xor(a, b), c), Xor(a, Xor(b, c));
    assert l.b0 == r.b0 && l.b1 == r.b1 && l.b2 == r.b2 && l.b3 == r.b3;
    assert l.b4 == r.b4 && l.b5 == r.b5 && l.b6 == r.b6 && l.b7 == r.b7;
  }

  lemma XorRegroup(a: Byte, b: Byte, c: Byte, d: Byte)
    ensures Xor(Xor(a, b), Xor(c, d)) == Xor(Xor(a, c), Xor(b, d))
  {
    XorAssociates(a, b, Xor(c, d));
    XorAssociates(b, c, d);
    XorSame(b, c);
    XorAssociates(c, b, d);
    XorAssociates(a, c, Xor(b, d));
  }

  /** Times the generator, which is the polynomial `x`: a shift, and the modulus taken off
      if a bit leaves at the top. */
  function Twice(a: Byte): Byte {
    Byte(a.b7, a.b0, Plus(a.b1, a.b7), Plus(a.b2, a.b7), Plus(a.b3, a.b7), a.b4, a.b5, a.b6)
  }

  lemma TwiceLaws(a: Byte, b: Byte)
    ensures Twice(Xor(a, b)) == Xor(Twice(a), Twice(b)) && Twice(ZERO) == ZERO
    ensures Twice(a) == Twice(b) ==> a == b
  {
  }

  // ---------------------------------------------------------------- polynomial products

  function At(b: Byte, i: nat): Bit
    requires i < 8
  {
    if i == 0 then b.b0 else if i == 1 then b.b1 else if i == 2 then b.b2 else if i == 3 then b.b3
    else if i == 4 then b.b4 else if i == 5 then b.b5 else if i == 6 then b.b6 else b.b7
  }

  function Only(bit: Bit, a: Byte): Byte {
    if bit == I then a else ZERO
  }

  lemma BitXor(b: Byte, d: Byte, i: nat)
    requires i < 8
    ensures At(Xor(b, d), i) == Plus(At(b, i), At(d, i))
  {
  }

  lemma OnlyAdds(b: Byte, d: Byte, i: nat, a: Byte)
    requires i < 8
    ensures Only(At(Xor(b, d), i), a) == Xor(Only(At(b, i), a), Only(At(d, i), a))
  {
    XorSame(a, a);
    BitXor(b, d, i);
  }

  /** `a` times the polynomial of the bits of `b` from bit `i` up, shifted down. */
  ghost function Times(a: Byte, b: Byte, i: nat): Byte
    requires i <= 8
    decreases 8 - i, b
  {
    if i == 8 then ZERO else Xor(Only(At(b, i), a), Twice(Times(a, b, i + 1)))
  }

  ghost function Product(a: Byte, b: Byte): Byte {
    Times(a, b, 0)
  }

  lemma {:induction false} TimesAdds(a: Byte, c: Byte, b: Byte, i: nat)
    requires i <= 8
    ensures Times(Xor(a, c), b, i) == Xor(Times(a, b, i), Times(c, b, i))
    decreases 8 - i
  {
    if i < 8 {
      TimesAdds(a, c, b, i + 1);
      var p, q := Times(a, b, i + 1), Times(c, b, i + 1);
      TwiceLaws(p, q);
      XorRegroup(Only(At(b, i), a), Only(At(b, i), c), Twice(p), Twice(q));
    }
  }

  lemma {:induction false} AddsTimes(a: Byte, b: Byte, d: Byte, i: nat)
    requires i <= 8
    ensures Times(a, Xor(b, d), i) == Xor(Times(a, b, i), Times(a, d, i))
    decreases 8 - i
  {
    if i < 8 {
      AddsTimes(a, b, d, i + 1);
      var p, q := Times(a, b, i + 1), Times(a, d, i + 1);
      TwiceLaws(p, q);
      OnlyAdds(b, d, i, a);
      XorRegroup(Only(At(b, i), a), Only(At(d, i), a), Twice(p), Twice(q));
    }
  }

  lemma {:induction false} TwiceTimes(a: Byte, b: Byte, i: nat)
    requires i <= 8
    ensures Times(Twice(a), b, i) == Twice(Times(a, b, i))
    decreases 8 - i
  {
    TwiceLaws(ZERO, ZERO);
    if i < 8 {
      TwiceTimes(a, b, i + 1);
      TwiceLaws(Only(At(b, i), a), Twice(Times(a, b, i + 1)));
      OnlyTwice(At(b, i), a);
    }
  }

  lemma OnlyTwice(bit: Bit, a: Byte)
    ensures Only(bit, Twice(a)) == Twice(Only(bit, a))
  {
  }

  lemma {:induction false} ZeroTimes(b: Byte, i: nat)
    requires i <= 8
    ensures Times(ZERO, b, i) == ZERO
    decreases 8 - i
  {
    if i < 8 {
      ZeroTimes(b, i + 1);
    }
  }

  lemma ProductTwice(a: Byte, b: Byte)
    ensures Product(Twice(a), b) == Twice(Product(a, b))
  {
    TwiceTimes(a, b, 0);
  }

  lemma ProductSteps(c: Byte, bit: Bit, rest: Byte, a: Byte)
    ensures Product(Xor(Only(bit, c), Twice(rest)), a) == Xor(Only(bit, Product(c, a)), Twice(Product(rest, a)))
  {
    TimesAdds(Only(bit, c), Twice(rest), a, 0);
    ProductTwice(rest, a);
    ZeroTimes(a, 0);
  }

  /** Multiplying by one polynomial and by another commute. */
  lemma {:induction false} TimesSwaps(c: Byte, a: Byte, b: Byte, i: nat, p: Byte)
    requires i <= 8 && p == Product(c, a)
    ensures Times(p, b, i) == Product(Times(c, b, i), a)
    decreases 8 - i
  {
    if i == 8 {
      ZeroTimes(a, 0);
    } else {
      TimesSwaps(c, a, b, i + 1, p);
      ProductSteps(c, At(b, i), Times(c, b, i + 1), a);
    }
  }

  lemma OneStep(b: Byte, i: nat, r: Byte)
    requires i < 8 && Times(ONE, b, i + 1) == r && r.b7 == O
    ensures Times(ONE, b, i) == Byte(At(b, i), r.b0, r.b1, r.b2, r.b3, r.b4, r.b5, r.b6)
  {
  }

  function BitOrNone(b: Byte, i: nat): Bit {
    if i < 8 then At(b, i) else O
  }

  function Shifted(b: Byte, i: nat): Byte {
    Byte(BitOrNone(b, i), BitOrNone(b, i + 1), BitOrNone(b, i + 2), BitOrNone(b, i + 3),
         BitOrNone(b, i + 4), BitOrNone(b, i + 5), BitOrNone(b, i + 6), BitOrNone(b, i + 7))
  }

  lemma {:induction false} OneTimesFrom(b: Byte, i: nat)
    requires i <= 8
    ensures Times(ONE, b, i) == Shifted(b, i)
    decreases 8 - i
  {
    if i < 8 {
      OneTimesFrom(b, i + 1);
      OneStep(b, i, Shifted(b, i + 1));
    }
  }

  lemma OneTimes(b: Byte)
    ensures Product(ONE, b) == b
  {
    OneTimesFrom(b, 0);
  }

  lemma ProductCommutes(a: Byte, b: Byte)
    ensures Product(a, b) == Product(b, a)
  {
    OneTimes(a);
    OneTimes(b);
    TimesSwaps(ONE, a, b, 0, a);
  }

  lemma ProductAssociates(a: Byte, b: Byte, c: Byte)
    ensures Product(Product(a, b), c) == Product(a, Product(b, c))
  {
    ProductCommutes(a, b);
    TimesSwaps(b, a, c, 0, Product(b, a));
    ProductCommutes(a, Product(b, c));
  }

  lemma ProductByZero(a: Byte)
    ensures Product(a, ZERO) == ZERO && Product(ZERO, a) == ZERO && Product(a, ONE) == a
  {
    ProductCommutes(a, ZERO);
    ZeroTimes(a, 0);
    ProductCommutes(a, ONE);
    OneTimes(a);
  }

  // ---------------------------------------------------------------- the generator

  /** Powers of the generator. */
  function Exp(i: nat): Byte {
    if i == 0 then ONE else Twice(Exp(i - 1))
  }

  predicate IsExp(b: Byte, i: nat) {
    b == Exp(i)
  }

  function Eight(a: Byte): Byte {
    Twice(Twice(Twice(Twice(Twice(Twice(Twice(Twice(a))))))))
  }

  /** The modulus without its highest bit. */
  const MODULUS := Byte(I, O, I, I, I, O, O, O)

  /** The bits moved up by one, the highest left out. */
  function MovedUp(a: Byte): Byte {
    Byte(O, a.b0, a.b1, a.b2, a.b3, a.b4, a.b5, a.b6)
  }

  lemma ShiftedValue(a: Byte)
    ensures Value(MovedUp(a)) + 0x100 * Weight(a.b7) == 2 * Value(a)
    ensures Value(a) < 0x80 <==> a.b7 == O
  {
    assert LowHalf(MovedUp(a)) == 2 * LowHalf(a) - 16 * Weight(a.b3);
    assert HighHalf(MovedUp(a)) == Weight(a.b3) + 2 * HighHalf(a) - 16 * Weight(a.b7);
  }

  lemma TwiceShifted(a: Byte)
    ensures if a.b7 == O then Twice(a) == MovedUp(a) else Xor(Twice(a), MODULUS) == MovedUp(a)
  {
  }

  /** `Twice` is the shift by one, with the modulus `0x11D` taken off when a bit leaves at the
      top. */
  lemma TwiceIsShift(a: Byte)
    ensures Value(ONE) == 1 && Value(MODULUS) == 0x1D
    ensures if Value(a) < 0x80 then Value(Twice(a)) == 2 * Value(a)
            else Value(Xor(Twice(a), MODULUS)) + 0x100 == 2 * Value(a)
  {
    ShiftedValue(a);
    TwiceShifted(a);
  }

  /** None of the eight powers from `a` on is one. */
  predicate Clear(a: Byte) {
    var b := Twice(Twice(a));
    var c := Twice(Twice(b));
    var d := Twice(Twice(c));
    a != ONE && Twice(a) != ONE && b != ONE && Twice(b) != ONE && c != ONE && Twice(c) != ONE && d != ONE && Twice(d) != ONE
  }

  predicate Clears(a: Byte, n: nat)
    decreases n
  {
    n == 0 || (Clear(a) && Clears(Eight(a), n - 1))
  }

  function After(a: Byte, n: nat): Byte
    decreases n
  {
    if n == 0 then a else After(Eight(a), n - 1)
  }

  lemma Powers1()
    ensures Clears(Byte(O, I, O, O, O, O, O, O), 8)
    ensures After(Byte(O, I, O, O, O, O, O, O), 8) == Byte(O, I, I, I, I, I, O, I)
  {
  }

  lemma Powers65()
    ensures Clears(Byte(O, I, I, I, I, I, O, I), 8)
    ensures After(Byte(O, I, I, I, I, I, O, I), 8) == Byte(I, I, I, O, I, O, O, O)
  {
  }

  lemma Powers129()
    ensures Clears(Byte(I, I, I, O, I, O, O, O), 8)
    ensures After(Byte(I, I, I, O, I, O, O, O), 8) == Byte(I, O, O, I, I, O, O, O)
  {
  }

  lemma Powers193()
    ensures Clears(Byte(I, O, O, I, I, O, O, O), 7)
    ensures After(Byte(I, O, O, I, I, O, O, O), 7) == Byte(O, I, I, O, I, I, O, O)
  {
  }

  ghost predicate NoneIsOne(lo: nat, hi: nat) {
    forall d :: lo <= d < hi ==> !IsExp(ONE, d)
  }

  lemma ExpEight(i: nat)
    ensures Exp(i + 8) == Eight(Exp(i))
    ensures Clear(Exp(i)) ==> NoneIsOne(i, i + 8)
  {
    assert Exp(i + 1) == Twice(Exp(i)) && Exp(i + 3) == Twice(Exp(i + 2));
    assert Exp(i + 5) == Twice(Exp(i + 4)) && Exp(i + 7) == Twice(Exp(i + 6));
    assert Exp(i + 2) == Twice(Exp(i + 1)) && Exp(i + 4) == Twice(Exp(i + 3));
    assert Exp(i + 6) == Twice(Exp(i + 5)) && Exp(i + 8) == Twice(Exp(i + 7));
  }

  lemma {:induction false} ClearsExp(i: nat, n: nat)
    requires Clears(Exp(i), n)
    ensures NoneIsOne(i, i + 8 * n) && Exp(i + 8 * n) == After(Exp(i), n)
    decreases n
  {
    if n > 0 {
      ExpEight(i);
      ClearsExp(i + 8, n - 1);
      assert i + 8 + 8 * (n - 1) == i + 8 * n;
    }
  }

  lemma FirstPowers(i: nat)
    requires Exp(i) == Byte(O, I, O, O, O, O, O, O)
    ensures NoneIsOne(i, i + 128) && Exp(i + 128) == Byte(I, I, I, O, I, O, O, O)
  {
    Powers1();
    ClearsExp(i, 8);
    Powers65();
    ClearsExp(i + 64, 8);
  }

  lemma NextPowers(i: nat)
    requires Exp(i) == Byte(I, I, I, O, I, O, O, O)
    ensures NoneIsOne(i, i + 120) && Exp(i + 120) == Byte(O, I, I, O, I, I, O, O)
  {
    Powers129();
    ClearsExp(i, 8);
    Powers193();
    ClearsExp(i + 64, 7);
  }

  lemma LastPowers(i: nat)
    requires Exp(i) == Byte(O, I, I, O, I, I, O, O)
    ensures NoneIsOne(i, i + 6) && Exp(i + 6) == ONE
  {
    assert Exp(i + 2) == Twice(Exp(i + 1)) && Exp(i + 4) == Twice(Exp(i + 3)) && Exp(i + 6) == Twice(Exp(i + 5));
  }

  // How many nonzero bytes there are. The lemmas below take it as an argument, so that
  // powers are reasoned about and not computed.
  const ORDER: nat := 255

  /** The generator has order 255. */
  lemma Order(n: nat)
    requires n == ORDER
    ensures NoneIsOne(1, n) && Exp(n) == ONE
  {
    var i := n - 254;
    FirstPowers(i);
    NextPowers(i + 128);
    LastPowers(i + 248);
  }

  lemma {:induction false} Cancel(i: nat, d: nat)
    requires Exp(i) == Exp(i + d)
    ensures Exp(d) == ONE
  {
    if i > 0 {
      TwiceLaws(Exp(i - 1), Exp(i + d - 1));
      Cancel(i - 1, d);
    }
  }

  /** `b` times the generator, `i` times over. */
  function Raised(b: Byte, i: nat): Byte {
    if i == 0 then b else Twice(Raised(b, i - 1))
  }

  lemma {:induction false} RaisedProduct(i: nat, b: Byte)
    ensures Product(Exp(i), b) == Raised(b, i)
  {
    if i == 0 {
      OneTimes(b);
    } else {
      RaisedProduct(i - 1, b);
      ProductTwice(Exp(i - 1), b);
    }
  }

  lemma {:induction false} RaisedExp(j: nat, i: nat)
    ensures Raised(Exp(j), i) == Exp(i + j)
  {
    if i > 0 {
      RaisedExp(j, i - 1);
    }
  }

  lemma ExpProduct(i: nat, j: nat)
    ensures Product(Exp(i), Exp(j)) == Exp(i + j)
  {
    RaisedProduct(i, Exp(j));
    RaisedExp(j, i);
  }

  lemma ExpPeriod(i: nat, n: nat)
    requires n == ORDER
    ensures Exp(i + n) == Exp(i)
  {
    Order(n);
    ExpProduct(i, n);
    ProductByZero(Exp(i));
  }

  lemma {:induction false} ExpNotZero(i: nat)
    ensures Exp(i) != ZERO
  {
    if i > 0 {
      ExpNotZero(i - 1);
      TwiceLaws(Exp(i - 1), ZERO);
    }
  }

  // ---------------------------------------------------------------- every element is a power

  function Weight(bit: Bit): nat {
    if bit == I then 1 else 0
  }

  /** The byte as a number. */
  function Value(b: Byte): nat {
    LowHalf(b) + 16 * HighHalf(b)
  }

  function LowHalf(b: Byte): nat {
    Weight(b.b0) + 2 * Weight(b.b1) + 4 * Weight(b.b2) + 8 * Weight(b.b3)
  }

  function HighHalf(b: Byte): nat {
    Weight(b.b4) + 2 * Weight(b.b5) + 4 * Weight(b.b6) + 8 * Weight(b.b7)
  }

  lemma LowInjective(a: Byte, b: Byte)
    ensures LowHalf(a) < 16
    ensures LowHalf(a) == LowHalf(b) ==> a.b0 == b.b0 && a.b1 == b.b1 && a.b2 == b.b2 && a.b3 == b.b3
  {
  }

  lemma HighInjective(a: Byte, b: Byte)
    ensures HighHalf(a) < 16
    ensures HighHalf(a) == HighHalf(b) ==> a.b4 == b.b4 && a.b5 == b.b5 && a.b6 == b.b6 && a.b7 == b.b7
  {
  }

  lemma SameHalves(x: nat, u: nat, y: nat, v: nat)
    requires x < 16 && y < 16 && u < 16
    ensures x + 16 * u < 256 && (x + 16 * u == y + 16 * v ==> x == y && u == v)
  {
  }

  lemma ValueInjective(a: Byte, b: Byte)
    ensures Value(a) < 256 && (Value(a) == Value(b) ==> a == b)
  {
    LowInjective(a, b);
    LowInjective(b, a);
    HighInjective(a, b);
    SameHalves(LowHalf(a), HighHalf(a), LowHalf(b), HighHalf(b));
  }

  lemma NotZero(a: Byte)
    requires a != ZERO
    ensures 0 < Value(a) < 256
  {
    ValueInjective(a, ZERO);
    assert Value(ZERO) == 0;
  }

  ghost function Values(bytes: set<Byte>): set<nat> {
    set b | b in bytes :: Value(b)
  }

  lemma {:induction false} ValuesCounted(bytes: set<Byte>)
    ensures |Values(bytes)| == |bytes|
  {
    if a :| a in bytes {
      var rest := bytes - {a};
      ValuesCounted(rest);
      assert Values(bytes) == Values(rest) + {Value(a)};
      if Value(a) in Values(rest) {
        var b :| b in rest && Value(b) == Value(a);
        ValueInjective(a, b);
      }
    }
  }

  /** There are no more than 255 nonzero bytes. */
  lemma NonzeroBytes(bytes: set<Byte>, n: nat)
    requires ZERO !in bytes && n == ORDER
    ensures |bytes| <= n
  {
    ValuesCounted(bytes);
    forall v | v in Values(bytes) ensures v in Upto(n + 1) - {0} {
      var b :| b in bytes && Value(b) == v;
      NotZero(b);
    }
    Smaller(Values(bytes), Upto(n + 1) - {0});
  }

  /** The first `k` powers. */
  ghost function Powers(k: nat): set<Byte> {
    if k == 0 then {} else Powers(k - 1) + {Exp(k - 1)}
  }

  lemma {:induction false} InPowers(k: nat, b: Byte)
    requires b in Powers(k)
    ensures exists i: nat :: i < k && IsExp(b, i)
  {
    if b == Exp(k - 1) {
      assert IsExp(b, k - 1);
    } else {
      InPowers(k - 1, b);
    }
  }

  lemma PowersDiffer(i: nat, j: nat, n: nat)
    requires i < j < n == ORDER
    ensures Exp(i) != Exp(j)
  {
    Order(n);
    assert !IsExp(ONE, j - i);
    if Exp(i) == Exp(j) {
      Cancel(i, j - i);
    }
  }

  lemma NewPower(k: nat, n: nat)
    requires k < n == ORDER
    ensures Exp(k) !in Powers(k)
  {
    if Exp(k) in Powers(k) {
      InPowers(k, Exp(k));
      var i: nat :| i < k && IsExp(Exp(k), i);
      PowersDiffer(i, k, n);
    }
  }

  lemma {:induction false} PowersCounted(k: nat, n: nat)
    requires k <= n == ORDER
    ensures |Powers(k)| == k && ZERO !in Powers(k)
  {
    if k > 0 {
      PowersCounted(k - 1, n);
      NewPower(k - 1, n);
      ExpNotZero(k - 1);
    }
  }

  /** Every nonzero byte is a power of the generator. */
  lemma IsPower(a: Byte, n: nat) returns (i: nat)
    requires a != ZERO && n == ORDER
    ensures i < n && Exp(i) == a
  {
    PowersCounted(n, n);
    if a !in Powers(n) {
      NonzeroBytes(Powers(n) + {a}, n);
    }
    InPowers(n, a);
    i :| i < n && IsExp(a, i);
  }

  // ---------------------------------------------------------------- the tables

  ghost predicate AreTables(log: seq<nat>, exp: seq<Byte>) {
    && |log| == 256 && |exp| == 512
    && (forall i :: 0 <= i < 512 ==> IsExp(exp[i], i))
    && (forall i :: 0 <= i < ORDER ==> Logged(log, i, i))
  }

  /** The logarithm of power `i` is given as `v`. */
  predicate Logged(log: seq<nat>, i: nat, v: nat) {
    Value(Exp(i)) < |log| && log[Value(Exp(i))] == v
  }

  function Lookup<T>(table: seq<T>, i: int, none: T): T {
    if 0 <= i < |table| then table[i] else none
  }

  function Log(log: seq<nat>, a: Byte): int {
    Lookup(log, Value(a), 0)
  }

  function Mul(log: seq<nat>, exp: seq<Byte>, a: Byte, b: Byte): Byte {
    if a == ZERO || b == ZERO then ZERO
    else Lookup(exp, Log(log, a) + Log(log, b), ZERO)
  }

  function Inv(log: seq<nat>, exp: seq<Byte>, a: Byte): Byte {
    Lookup(exp, ORDER as int - Log(log, a), ZERO)
  }

  function Div(log: seq<nat>, exp: seq<Byte>, a: Byte, b: Byte): Byte {
    if a == ZERO then ZERO
    else Lookup(exp, Log(log, a) + ORDER - Log(log, b), ZERO)
  }

  lemma LogOf(log: seq<nat>, exp: seq<Byte>, a: Byte) returns (i: nat)
    requires AreTables(log, exp) && a != ZERO
    ensures i < ORDER && Exp(i) == a && Log(log, a) == i
  {
    i := IsPower(a, ORDER);
    assert Logged(log, i, i);
  }

  /** Adding logarithms multiplies polynomials. */
  lemma MulIsProduct(log: seq<nat>, exp: seq<Byte>, a: Byte, b: Byte)
    requires AreTables(log, exp)
    ensures Mul(log, exp, a, b) == Product(a, b)
  {
    if a == ZERO || b == ZERO {
      ProductByZero(a);
      ProductByZero(b);
    } else {
      var i := LogOf(log, exp, a);
      var j := LogOf(log, exp, b);
      ExpProduct(i, j);
    }
  }

  lemma InvInverts(log: seq<nat>, exp: seq<Byte>, a: Byte)
    requires AreTables(log, exp) && a != ZERO
    ensures Product(a, Inv(log, exp, a)) == ONE
  {
    var i := LogOf(log, exp, a);
    ExpProduct(i, ORDER - i);
    Order(ORDER);
  }

  lemma Looked(log: seq<nat>, exp: seq<Byte>, k: nat)
    requires AreTables(log, exp) && k < 512
    ensures Lookup(exp, k, ZERO) == Exp(k)
  {
    assert IsExp(exp[k], k);
  }

  lemma ExpQuotient(i: nat, j: nat, n: nat)
    requires j <= n == ORDER
    ensures Product(Exp(i + n - j), Exp(j)) == Exp(i)
  {
    ExpProduct(i + n - j, j);
    ExpPeriod(i, n);
  }

  lemma DivDivides(log: seq<nat>, exp: seq<Byte>, a: Byte, b: Byte)
    requires AreTables(log, exp) && b != ZERO
    ensures Product(Div(log, exp, a, b), b) == a
  {
    if a == ZERO {
      ProductByZero(b);
    } else {
      var i := LogOf(log, exp, a);
      var j := LogOf(log, exp, b);
      Looked(log, exp, i + ORDER - j);
      ExpQuotient(i, j, ORDER);
    }
  }

  function TableField(log: seq<nat>, exp: seq<Byte>): Field<Byte> {
    Field(ZERO, ONE, Xor, (a, b) => Mul(log, exp, a, b), a => Inv(log, exp, a))
  }

  /** The tables compute in a field. */
  lemma TablesMakeField(log: seq<nat>, exp: seq<Byte>)
    requires AreTables(log, exp)
    ensures IsField(TableField(log, exp))
  {
    var k := TableField(log, exp);
    forall a ensures ElementLaws(k, a) { ElementHolds(log, exp, a); }
    forall a, b ensures PairLaws(k, a, b) { PairHolds(log, exp, a, b); }
    forall a, b, c ensures TripleLaws(k, a, b, c) { TripleHolds(log, exp, a, b, c); }
  }

  lemma ElementHolds(log: seq<nat>, exp: seq<Byte>, a: Byte)
    requires AreTables(log, exp)
    ensures ElementLaws(TableField(log, exp), a)
  {
    XorSame(a, a);
    MulIsProduct(log, exp, a, ONE);
    ProductByZero(a);
    if a != ZERO {
      MulIsProduct(log, exp, a, Inv(log, exp, a));
      InvInverts(log, exp, a);
    }
  }

  lemma PairHolds(log: seq<nat>, exp: seq<Byte>, a: Byte, b: Byte)
    requires AreTables(log, exp)
    ensures PairLaws(TableField(log, exp), a, b)
  {
    XorSame(a, b);
    MulIsProduct(log, exp, a, b);
    MulIsProduct(log, exp, b, a);
    ProductCommutes(a, b);
  }

  lemma TripleHolds(log: seq<nat>, exp: seq<Byte>, a: Byte, b: Byte, c: Byte)
    requires AreTables(log, exp)
    ensures TripleLaws(TableField(log, exp), a, b, c)
  {
    XorAssociates(a, b, c);
    MulIsProduct(log, exp, a, b);
    MulIsProduct(log, exp, b, c);
    MulIsProduct(log, exp, a, c);
    MulIsProduct(log, exp, Product(a, b), c);
    MulIsProduct(log, exp, a, Product(b, c));
    MulIsProduct(log, exp, a, Xor(b, c));
    ProductAssociates(a, b, c);
    AddsTimes(a, b, c, 0);
  }

  lemma LogStep(log: seq<nat>, i: nat, after: seq<nat>)
    requires |log| == 256 && i < ORDER && forall m :: 0 <= m < i ==> Logged(log, m, m)
    requires Value(Exp(i)) < 256 && after == log[Value(Exp(i)) := i]
    ensures forall m :: 0 <= m <= i ==> Logged(after, m, m)
  {
    forall m | 0 <= m < i ensures Logged(after, m, m) {
      assert Logged(log, m, m);
      PowersDiffer(m, i, ORDER);
      ValueInjective(Exp(m), Exp(i));
    }
  }

  method BuildTables() returns (log: array<nat>, exp: array<Byte>)
    ensures AreTables(log[..], exp[..])
  {
    log := new nat[256](_ => 0);
    exp := new Byte[512](_ => ZERO);
    var x := ONE;
    for i := 0 to ORDER
      invariant x == Exp(i)
      invariant forall m :: 0 <= m < i ==> IsExp(exp[m], m)
      invariant forall m :: 0 <= m < i ==> Logged(log[..], m, m)
    {
      exp[i] := x;
      ghost var before := log[..];
      ValueInjective(x, x);
      log[Value(x)] := i;
      LogStep(before, i, log[..]);
      x := Twice(x);
    }
    ghost var logged := log[..];
    for j := ORDER to 512
      invariant log[..] == logged
      invariant forall m :: 0 <= m < j ==> IsExp(exp[m], m)
    {
      exp[j] := exp[j - ORDER];
      ExpPeriod(j - ORDER, ORDER);
    }
  }
}
