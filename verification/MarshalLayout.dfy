/** The format, byte by byte, said without the encoding: what is marshalled is the value
    laid out, and what is unmarshalled is the value whose layout the bytes are. */
module MarshalLayout {
  import opened Marshal

  // ---------------------------------------------------------------- where each byte goes

  lemma ProductGrows(x: nat, y: nat, a: nat)
    requires x <= y
    ensures x * a <= y * a
  {
  }

  lemma DivisionIs(n: int, d: nat, q: int, r: nat)
    requires n == q * d + r && r < d
    ensures n / d == q && n % d == r
  {
    assert (n / d - q) * d == r - n % d;
    if n / d > q {
      ProductGrows(1, n / d - q, d);
    } else if n / d < q {
      ProductGrows(1, q - n / d, d);
    }
  }

  lemma DivideAgain(n: nat, b: nat, d: nat)
    requires b > 0 && d == 256 * b
    ensures n / 256 / b == n / d
  {
    var q := n / 256;
    var k, r := q / b, q % b;
    assert q == k * b + r;
    assert k * d == 256 * (k * b);
    DivisionIs(n, d, k, 256 * r + n % 256);
  }

  /** The lowest byte goes first. */
  lemma {:induction false} ByteAt(n: nat, w: nat, k: nat)
    requires k < w
    ensures ToBytes(n, w)[k] == n / Power(k) % 256
  {
    if k > 0 {
      ByteAt(n / 256, w - 1, k - 1);
      DivideAgain(n, Power(k - 1), Power(k));
    }
  }

  /** The bytes are those of the number, lowest first. */
  ghost predicate AreBytesOf(s: seq<byte>, n: nat) {
    n < Power(|s|) && forall k :: 0 <= k < |s| ==> s[k] == n / Power(k) % 256
  }

  lemma BytesAre(n: nat, w: nat)
    requires n < Power(w)
    ensures AreBytesOf(ToBytes(n, w), n)
  {
    forall k | 0 <= k < w ensures ToBytes(n, w)[k] == n / Power(k) % 256 { ByteAt(n, w, k); }
  }

  lemma BytesDecide(s: seq<byte>, n: nat)
    requires AreBytesOf(s, n)
    ensures s == ToBytes(n, |s|)
  {
    forall k | 0 <= k < |s| ensures s[k] == ToBytes(n, |s|)[k] { ByteAt(n, |s|, k); }
  }

  /** The item's bytes in an array's. */
  function ItemBytes(s: seq<byte>, w: nat, i: nat): seq<byte> {
    if i * w + w <= |s| then s[i * w..i * w + w] else []
  }

  /** The bytes are the value as the format lays it out: numbers lowest byte first, signed
      ones modulo the width's range, truth as 0 or 1, element `i` of an array at `i` widths,
      and the second of a pair after the first. */
  ghost predicate IsLayout(v: Value, t: Type, s: seq<byte>)
    decreases t
  {
    && |s| == Width(t)
    && match t
       case Unsigned(_) => v.Natural? && AreBytesOf(s, v.n)
       case Signed(w) => v.Whole? && AreBytesOf(s, v.i % Power(w))
       case Bool => v.Truth? && s == [if v.b then 1 else 0]
       case Unit => v.Nothing?
       case Array(e, n) =>
         && v.Items? && |v.items| == n
         && forall i {:trigger ItemBytes(s, Width(e), i)} :: 0 <= i < n ==> IsLayout(v.items[i], e, ItemBytes(s, Width(e), i))
       case Pair(a, b) => v.Both? && IsLayout(v.a, a, s[..Width(a)]) && IsLayout(v.c, b, s[Width(a)..])
  }

  lemma SignedIsModulo(i: int, w: nat)
    requires w > 0 && -(Half(w) as int) <= i < Half(w)
    ensures ToUnsigned(i, w) == i % Power(w)
  {
    var q := if i < 0 then -1 else 0;
    SignedRoundTrip(i, w);
    DivisionIs(i, Power(w), q, ToUnsigned(i, w));
  }

  /** An encoding is the value laid out, and nothing else is. */
  lemma {:induction false} LaidOutIffEncoded(v: Value, t: Type, s: seq<byte>)
    requires HasType(v, t) && IsType(t)
    ensures IsLayout(v, t, s) <==> s == Encode(v, t)
    decreases t, 0
  {
    EncodeWidth(v, t);
    match t
    case Unsigned(w) => NumberLaidOut(v.n, w, s);
    case Signed(w) =>
      SignedRoundTrip(v.i, w);
      SignedIsModulo(v.i, w);
      NumberLaidOut(ToUnsigned(v.i, w), w, s);
    case Bool =>
    case Unit =>
    case Array(e, n) => ArrayLaidOut(v, e, n, s);
    case Pair(a, b) =>
      if |s| == Width(t) {
        EncodeWidth(v.a, a);
        EncodeWidth(v.c, b);
        LaidOutIffEncoded(v.a, a, s[..Width(a)]);
        LaidOutIffEncoded(v.c, b, s[Width(a)..]);
        assert s == s[..Width(a)] + s[Width(a)..];
      }
  }

  lemma NumberLaidOut(n: nat, w: nat, s: seq<byte>)
    requires n < Power(w)
    ensures |s| == w && AreBytesOf(s, n) <==> s == ToBytes(n, w)
  {
    BytesAre(n, w);
    if |s| == w && AreBytesOf(s, n) {
      BytesDecide(s, n);
    }
  }

  lemma {:induction false} ItemHasType(vs: seq<Value>, e: Type, i: nat)
    requires AllHaveType(vs, e) && i < |vs|
    ensures HasType(vs[i], e)
  {
    if i > 0 {
      ItemHasType(vs[1..], e, i - 1);
    }
  }

  lemma {:induction false} FrontHasType(vs: seq<Value>, e: Type, i: nat)
    requires AllHaveType(vs, e) && i <= |vs|
    ensures AllHaveType(vs[..i], e)
  {
    if i > 0 {
      FrontHasType(vs[1..], e, i - 1);
      assert vs[..i][1..] == vs[1..][..i - 1];
    }
  }

  lemma {:induction false} EncodeLast(vs: seq<Value>, e: Type, i: nat)
    requires IsType(e) && AllHaveType(vs, e) && i < |vs|
    ensures AllHaveType(vs[..i], e) && AllHaveType(vs[..i + 1], e) && HasType(vs[i], e)
    ensures EncodeItems(vs[..i + 1], e) == EncodeItems(vs[..i], e) + Encode(vs[i], e)
  {
    FrontHasType(vs, e, i);
    FrontHasType(vs, e, i + 1);
    ItemHasType(vs, e, i);
    if i == 0 {
      assert vs[..1] == [vs[0]] && vs[..0] == [];
      assert EncodeItems(vs[..1], e) == Encode(vs[0], e) + EncodeItems([], e);
    } else {
      EncodeLast(vs[1..], e, i - 1);
      assert vs[..i + 1][1..] == vs[1..][..i] && vs[..i][1..] == vs[1..][..i - 1];
      Regrouped(Encode(vs[0], e), EncodeItems(vs[1..][..i - 1], e), Encode(vs[i], e));
    }
  }

  lemma {:induction false} ArrayLaidOut(v: Value, e: Type, n: nat, s: seq<byte>)
    requires HasType(v, Array(e, n)) && IsType(e)
    ensures IsLayout(v, Array(e, n), s) <==> s == EncodeItems(v.items, e)
    decreases e, n + 1
  {
    ItemsWidth(v.items, e);
    if n > 0 && |s| == Total(Width(e), n) {
      var m, k := n - 1, Total(Width(e), n - 1);
      EncodeLast(v.items, e, m);
      assert v.items[..n] == v.items;
      ItemsWidth(v.items[..m], e);
      LaidOutIffEncoded(v.items[m], e, s[k..]);
      ArrayLaidOut(Items(v.items[..m]), e, m, s[..k]);
      ArrayStep(v, e, n, s, EncodeItems(v.items[..m], e), Encode(v.items[m], e));
    }
  }

  lemma ArrayStep(v: Value, e: Type, n: nat, s: seq<byte>, a: seq<byte>, b: seq<byte>)
    requires v.Items? && |v.items| == n > 0 && |s| == Total(Width(e), n) && |a| == Total(Width(e), n - 1)
    requires IsLayout(Items(v.items[..n - 1]), Array(e, n - 1), s[..|a|]) <==> s[..|a|] == a
    requires IsLayout(v.items[n - 1], e, s[|a|..]) <==> s[|a|..] == b
    ensures IsLayout(v, Array(e, n), s) <==> s == a + b
  {
    FrontAndLast(v, e, n, s);
    SplitsAt(s, a, b);
  }

  lemma SplitsAt(s: seq<byte>, a: seq<byte>, b: seq<byte>)
    requires |a| <= |s|
    ensures s == a + b <==> s[..|a|] == a && s[|a|..] == b
  {
    assert s == s[..|a|] + s[|a|..];
  }

  /** An array is laid out as the array of all but its last element and then that. */
  lemma FrontAndLast(v: Value, e: Type, n: nat, s: seq<byte>)
    requires v.Items? && |v.items| == n > 0 && |s| == Total(Width(e), n)
    ensures var k := Total(Width(e), n - 1);
            IsLayout(v, Array(e, n), s) <==>
            IsLayout(Items(v.items[..n - 1]), Array(e, n - 1), s[..k]) && IsLayout(v.items[n - 1], e, s[k..])
  {
    LastBytes(s, Width(e), n);
    if IsLayout(v, Array(e, n), s) {
      FrontLaidOut(v, e, n, s);
    }
    if IsLayout(Items(v.items[..n - 1]), Array(e, n - 1), s[..Total(Width(e), n - 1)])
       && IsLayout(v.items[n - 1], e, s[Total(Width(e), n - 1)..]) {
      AllLaidOut(v, e, n, s);
    }
  }

  lemma FrontLaidOut(v: Value, e: Type, n: nat, s: seq<byte>)
    requires v.Items? && |v.items| == n > 0 && |s| == Total(Width(e), n) && IsLayout(v, Array(e, n), s)
    ensures IsLayout(Items(v.items[..n - 1]), Array(e, n - 1), s[..Total(Width(e), n - 1)])
  {
    var front, bytes, w := v.items[..n - 1], s[..Total(Width(e), n - 1)], Width(e);
    forall i | 0 <= i < n - 1 ensures IsLayout(front[i], e, ItemBytes(bytes, w, i)) {
      FrontBytes(s, Width(e), n, i);
      assert IsLayout(v.items[i], e, ItemBytes(s, Width(e), i));
    }
  }

  lemma AllLaidOut(v: Value, e: Type, n: nat, s: seq<byte>)
    requires v.Items? && |v.items| == n > 0 && |s| == Total(Width(e), n)
    requires IsLayout(Items(v.items[..n - 1]), Array(e, n - 1), s[..Total(Width(e), n - 1)])
    requires IsLayout(v.items[n - 1], e, s[Total(Width(e), n - 1)..])
    ensures IsLayout(v, Array(e, n), s)
  {
    forall i | 0 <= i < n ensures IsLayout(v.items[i], e, ItemBytes(s, Width(e), i)) {
      if i == n - 1 {
        LastBytes(s, Width(e), n);
      } else {
        FrontBytes(s, Width(e), n, i);
        assert IsLayout(v.items[..n - 1][i], e, ItemBytes(s[..Total(Width(e), n - 1)], Width(e), i));
      }
    }
  }

  lemma LastBytes(s: seq<byte>, w: nat, n: nat)
    requires n > 0 && |s| == Total(w, n)
    ensures ItemBytes(s, w, n - 1) == s[Total(w, n - 1)..]
  {
    TotalIsProduct(w, n - 1);
    Commutes(w, n - 1);
    BytesFrom(s, w, n - 1, Total(w, n - 1));
  }

  lemma Commutes(a: nat, b: nat)
    ensures a * b == b * a
  {
  }

  lemma BytesFrom(s: seq<byte>, w: nat, i: nat, k: nat)
    requires i * w == k && k + w == |s|
    ensures ItemBytes(s, w, i) == s[k..]
  {
  }

  lemma FrontBytes(s: seq<byte>, w: nat, n: nat, i: nat)
    requires i + 1 < n && |s| == Total(w, n)
    ensures ItemBytes(s[..Total(w, n - 1)], w, i) == ItemBytes(s, w, i)
  {
    TotalIsProduct(w, n - 1);
    Commutes(w, n - 1);
    ProductGrows(i + 1, n - 1, w);
    assert (i + 1) * w == i * w + w;
  }

  /** What is read is the value whose layout the bytes are. */
  lemma DecodesLayout(t: Type, src: seq<byte>, v: Value)
    requires IsType(t)
    ensures Decode(t, src) == Ok(v) <==> |src| >= Width(t) && HasType(v, t) && IsLayout(v, t, src[..Width(t)])
  {
    if Decode(t, src) == Ok(v) {
      Canonical(t, src);
      LaidOutIffEncoded(v, t, src[..Width(t)]);
    } else if |src| >= Width(t) && HasType(v, t) {
      LayoutIsRead(t, src, v);
    }
  }

  lemma LayoutIsRead(t: Type, src: seq<byte>, v: Value)
    requires IsType(t) && |src| >= Width(t) && HasType(v, t)
    ensures IsLayout(v, t, src[..Width(t)]) ==> Decode(t, src) == Ok(v)
  {
    var exact, rest := src[..Width(t)], src[Width(t)..];
    assert src == exact + rest;
    LaidOutIffEncoded(v, t, exact);
    if exact == Encode(v, t) {
      AcceptedAs(t, exact, v, rest);
    }
  }
}
