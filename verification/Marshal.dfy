/** Fixed-width byte encodings of values built from integers, booleans, unit, arrays and
    pairs. Floating-point numbers count as unsigned integers of their bit patterns. */
module Marshal {

  type byte = n: nat | n < 256

  datatype Type =
    | Unsigned(width: nat)
    | Signed(width: nat)
    | Bool
    | Unit
    | Array(elem: Type, length: nat)
    | Pair(first: Type, second: Type)

  datatype Value =
    | Natural(n: nat)
    | Whole(i: int)
    | Truth(b: bool)
    | Nothing
    | Items(items: seq<Value>)
    | Both(a: Value, c: Value)

  datatype Error = ShortBuffer(expected: nat, got: nat) | InvalidEncoding

  datatype Result<T> = Ok(value: T) | Err(error: Error)

  /** Two to the power `k`. */
  function Doubled(k: nat): (w: nat)
    ensures w > 0
  {
    if k == 0 then 1 else 2 * Doubled(k - 1)
  }

  /** Integers come in 1, 2, 4, 8 and 16 bytes. */
  ghost predicate IsWidth(w: nat) {
    exists k: nat :: k <= 4 && w == Doubled(k)
  }

  ghost predicate IsType(t: Type) {
    match t
    case Unsigned(w) => IsWidth(w)
    case Signed(w) => IsWidth(w)
    case Bool => true
    case Unit => true
    case Array(e, _) => IsType(e)
    case Pair(a, b) => IsType(a) && IsType(b)
  }

  function Power(w: nat): (p: nat)
    ensures p > 0
  {
    if w == 0 then 1 else 256 * Power(w - 1)
  }

  /** Half the range of a width, for signed numbers. */
  function Half(w: nat): nat {
    if w == 0 then 0 else 128 * Power(w - 1)
  }

  ghost predicate HasType(v: Value, t: Type)
    decreases t, 0
  {
    match t
    case Unsigned(w) => v.Natural? && v.n < Power(w)
    case Signed(w) => v.Whole? && -(Half(w) as int) <= v.i < Half(w)
    case Bool => v.Truth?
    case Unit => v.Nothing?
    case Array(e, n) => v.Items? && |v.items| == n && AllHaveType(v.items, e)
    case Pair(a, b) => v.Both? && HasType(v.a, a) && HasType(v.c, b)
  }

  ghost predicate AllHaveType(vs: seq<Value>, e: Type)
    decreases e, |vs| + 1
  {
    |vs| > 0 ==> HasType(vs[0], e) && AllHaveType(vs[1..], e)
  }

  /** `PAYLOAD_BYTES`. */
  function Width(t: Type): nat {
    match t
    case Unsigned(w) => w
    case Signed(w) => w
    case Bool => 1
    case Unit => 0
    case Array(e, n) => Total(Width(e), n)
    case Pair(a, b) => Width(a) + Width(b)
  }

  /** `n` widths of `w`. */
  function Total(w: nat, n: nat): nat {
    if n == 0 then 0 else w + Total(w, n - 1)
  }

  lemma {:induction false} TotalIsProduct(w: nat, n: nat)
    ensures Total(w, n) == w * n
  {
    if n > 0 {
      TotalIsProduct(w, n - 1);
    }
  }

  // ---------------------------------------------------------------- little-endian numbers

  function ToBytes(n: nat, w: nat): (s: seq<byte>)
    ensures |s| == w
  {
    if w == 0 then [] else [n % 256] + ToBytes(n / 256, w - 1)
  }

  function FromBytes(s: seq<byte>): nat {
    if |s| == 0 then 0 else s[0] + 256 * FromBytes(s[1..])
  }

  lemma {:induction false} BytesRoundTrip(n: nat, w: nat)
    requires n < Power(w)
    ensures FromBytes(ToBytes(n, w)) == n
  {
    if w > 0 {
      BytesRoundTrip(n / 256, w - 1);
      assert ToBytes(n, w)[1..] == ToBytes(n / 256, w - 1);
    }
  }

  lemma LowestByte(b: byte, n: nat)
    ensures (b + 256 * n) % 256 == b && (b + 256 * n) / 256 == n
  {
  }

  lemma {:induction false} NumberRoundTrip(s: seq<byte>)
    ensures FromBytes(s) < Power(|s|) && ToBytes(FromBytes(s), |s|) == s
  {
    if |s| > 0 {
      NumberRoundTrip(s[1..]);
      LowestByte(s[0], FromBytes(s[1..]));
      assert s == [s[0]] + s[1..];
    }
  }

  /** Two's complement. */
  function ToUnsigned(i: int, w: nat): int {
    if i < 0 then i + Power(w) else i
  }

  function ToSigned(n: nat, w: nat): int {
    if n < Half(w) then n else n - Power(w)
  }

  // ---------------------------------------------------------------- the encoding

  function Encode(v: Value, t: Type): (s: seq<byte>)
    requires HasType(v, t) && IsType(t)
    decreases t, 0
  {
    match t
    case Unsigned(w) => ToBytes(v.n, w)
    case Signed(w) => ToBytes(ToUnsigned(v.i, w), w)
    case Bool => [if v.b then 1 else 0]
    case Unit => []
    case Array(e, n) => EncodeItems(v.items, e)
    case Pair(a, b) => Encode(v.a, a) + Encode(v.c, b)
  }

  function EncodeItems(items: seq<Value>, e: Type): seq<byte>
    requires IsType(e) && AllHaveType(items, e)
    decreases e, |items| + 1
  {
    if |items| == 0 then [] else Encode(items[0], e) + EncodeItems(items[1..], e)
  }

  /** `unmarshal`. Arrays and pairs check their whole width first. */
  function Decode(t: Type, src: seq<byte>): Result<Value>
    decreases t, 0
  {
    match t
    case Unsigned(w) => if |src| < w then Err(ShortBuffer(w, |src|)) else Ok(Natural(FromBytes(src[..w])))
    case Signed(w) => if |src| < w then Err(ShortBuffer(w, |src|)) else Ok(Whole(ToSigned(FromBytes(src[..w]), w)))
    case Bool =>
      if |src| == 0 then Err(ShortBuffer(1, 0))
      else if src[0] == 0 then Ok(Truth(false))
      else if src[0] == 1 then Ok(Truth(true))
      else Err(InvalidEncoding)
    case Unit => Ok(Nothing)
    case Array(e, n) =>
      if |src| < Total(Width(e), n) then Err(ShortBuffer(Total(Width(e), n), |src|))
      else
        var r := DecodeItems(e, n, src);
        if r.Err? then Err(r.error) else Ok(Items(r.value))
    case Pair(a, b) =>
      if |src| < Width(a) + Width(b) then Err(ShortBuffer(Width(a) + Width(b), |src|))
      else
        var x := Decode(a, src[..Width(a)]);
        if x.Err? then x
        else
          var y := Decode(b, src[Width(a)..Width(a) + Width(b)]);
          if y.Err? then y else Ok(Both(x.value, y.value))
  }

  /** `n` values one after another, up to the first that is not valid. */
  function DecodeItems(e: Type, n: nat, src: seq<byte>): Result<seq<Value>>
    requires |src| >= Total(Width(e), n)
    decreases e, n + 1
  {
    if n == 0 then Ok([])
    else
      var x := Decode(e, src[..Width(e)]);
      if x.Err? then Err(x.error)
      else
        var r := DecodeItems(e, n - 1, src[Width(e)..]);
        if r.Err? then r else Ok([x.value] + r.value)
  }

  // ---------------------------------------------------------------- widths

  lemma {:induction false} EncodeWidth(v: Value, t: Type)
    requires HasType(v, t) && IsType(t)
    ensures |Encode(v, t)| == Width(t)
    decreases t, 0
  {
    match t
    case Array(e, n) => ItemsWidth(v.items, e);
    case Pair(a, b) =>
      EncodeWidth(v.a, a);
      EncodeWidth(v.c, b);
    case _ =>
  }

  lemma {:induction false} ItemsWidth(items: seq<Value>, e: Type)
    requires IsType(e) && AllHaveType(items, e)
    ensures |EncodeItems(items, e)| == Total(Width(e), |items|)
    decreases e, |items| + 1
  {
    if |items| > 0 {
      EncodeWidth(items[0], e);
      ItemsWidth(items[1..], e);
    }
  }

  // ---------------------------------------------------------------- what goes out comes back

  lemma SignedRoundTrip(i: int, w: nat)
    requires w > 0 && -(Half(w) as int) <= i < Half(w)
    ensures 0 <= ToUnsigned(i, w) < Power(w) && ToSigned(ToUnsigned(i, w), w) == i
  {
  }

  lemma UnsignedRoundTrip(n: nat, w: nat)
    requires w > 0 && n < Power(w)
    ensures -(Half(w) as int) <= ToSigned(n, w) < Half(w) && ToUnsigned(ToSigned(n, w), w) == n
  {
  }

  /** Unmarshalling what was marshalled, with anything after it, gives the value back. */
  lemma {:induction false} RoundTrip(v: Value, t: Type, rest: seq<byte>)
    requires HasType(v, t) && IsType(t)
    ensures Decode(t, Encode(v, t) + rest) == Ok(v)
    decreases t, 0
  {
    var src := Encode(v, t) + rest;
    EncodeWidth(v, t);
    assert src[..Width(t)] == Encode(v, t);
    match t
    case Unsigned(w) => BytesRoundTrip(v.n, w);
    case Signed(w) =>
      SignedRoundTrip(v.i, w);
      BytesRoundTrip(ToUnsigned(v.i, w), w);
    case Bool =>
    case Unit =>
    case Array(e, n) => ItemsRoundTrip(v.items, e, Encode(v, t), rest);
    case Pair(a, b) =>
      EncodeWidth(v.a, a);
      EncodeWidth(v.c, b);
      RoundTrip(v.a, a, []);
      RoundTrip(v.c, b, []);
      assert src[..Width(a)] == Encode(v.a, a) + [];
      assert src[Width(a)..Width(a) + Width(b)] == Encode(v.c, b) + [];
  }

  lemma {:induction false} ItemsRoundTrip(items: seq<Value>, e: Type, enc: seq<byte>, rest: seq<byte>)
    requires IsType(e) && AllHaveType(items, e) && enc == EncodeItems(items, e)
    requires |enc| == Total(Width(e), |items|)
    ensures DecodeItems(e, |items|, enc + rest) == Ok(items)
    decreases e, |items| + 1
  {
    if |items| > 0 {
      var v, vs := items[0], items[1..];
      var x, xs := Encode(v, e), EncodeItems(vs, e);
      EncodeWidth(v, e);
      ItemsWidth(vs, e);
      RoundTrip(v, e, []);
      ItemsRoundTrip(vs, e, xs, rest);
      FirstItem(e, |items|, x, xs + rest, v, vs);
      Regrouped(x, xs, rest);
      assert items == [v] + vs;
    }
  }

  lemma Regrouped(x: seq<byte>, y: seq<byte>, z: seq<byte>)
    ensures (x + y) + z == x + (y + z)
  {
  }

  lemma FirstItem(e: Type, n: nat, x: seq<byte>, xs: seq<byte>, v: Value, vs: seq<Value>)
    requires n > 0 && |x| == Width(e) && |xs| >= Total(Width(e), n - 1)
    requires Decode(e, x + []) == Ok(v) && DecodeItems(e, n - 1, xs) == Ok(vs)
    ensures |x + xs| >= Total(Width(e), n) && DecodeItems(e, n, x + xs) == Ok([v] + vs)
  {
    assert (x + xs)[..Width(e)] == x == x + [] && (x + xs)[Width(e)..] == xs;
  }

  // ---------------------------------------------------------------- what is accepted is canonical

  /** `v` is of the type, and its encoding is what `src` begins with. */
  ghost predicate Begins(v: Value, t: Type, src: seq<byte>)
    requires IsType(t)
  {
    |src| >= Width(t) && HasType(v, t) && Encode(v, t) == src[..Width(t)]
  }

  /** Bytes that are accepted are the encoding of the value they give. */
  lemma {:induction false} Canonical(t: Type, src: seq<byte>)
    requires IsType(t) && Decode(t, src).Ok?
    ensures Begins(Decode(t, src).value, t, src)
    decreases t, 0
  {
    match t
    case Unsigned(w) => UnsignedCanonical(w, src);
    case Signed(w) => SignedCanonical(w, src);
    case Bool =>
    case Unit =>
    case Array(e, n) => ItemsCanonical(e, n, src);
    case Pair(a, b) =>
      var x, y := src[..Width(a)], src[Width(a)..Width(a) + Width(b)];
      Canonical(a, x);
      Canonical(b, y);
      PairCanonical(a, b, src, Decode(a, x).value, Decode(b, y).value);
  }

  lemma UnsignedCanonical(w: nat, src: seq<byte>)
    requires IsType(Unsigned(w)) && |src| >= w
    ensures Begins(Natural(FromBytes(src[..w])), Unsigned(w), src)
  {
    NumberRoundTrip(src[..w]);
  }

  lemma SignedCanonical(w: nat, src: seq<byte>)
    requires IsType(Signed(w)) && |src| >= w
    ensures Begins(Whole(ToSigned(FromBytes(src[..w]), w)), Signed(w), src)
  {
    NumberRoundTrip(src[..w]);
    UnsignedRoundTrip(FromBytes(src[..w]), w);
  }

  lemma PairCanonical(a: Type, b: Type, src: seq<byte>, v: Value, w: Value)
    requires |src| >= Width(a) + Width(b) && IsType(a) && IsType(b)
    requires Begins(v, a, src[..Width(a)]) && Begins(w, b, src[Width(a)..Width(a) + Width(b)])
    ensures Begins(Both(v, w), Pair(a, b), src)
  {
    PairEncodes(a, b, v, w);
    Halves(src, Width(a), Width(b), Encode(v, a), Encode(w, b));
  }

  lemma PairEncodes(a: Type, b: Type, v: Value, w: Value)
    requires IsType(a) && IsType(b) && HasType(v, a) && HasType(w, b)
    ensures HasType(Both(v, w), Pair(a, b)) && Encode(Both(v, w), Pair(a, b)) == Encode(v, a) + Encode(w, b)
  {
  }

  lemma Halves(s: seq<byte>, m: nat, n: nat, x: seq<byte>, y: seq<byte>)
    requires m + n <= |s| && x == s[..m][..m] && y == s[m..m + n][..n]
    ensures s[..m + n] == x + y
  {
  }

  /** The same for `n` values one after another. */
  ghost predicate ItemsBegin(vs: seq<Value>, e: Type, n: nat, src: seq<byte>)
    requires IsType(e)
  {
    |src| >= Total(Width(e), n) && |vs| == n && AllHaveType(vs, e) && EncodeItems(vs, e) == src[..Total(Width(e), n)]
  }

  lemma {:induction false} ItemsCanonical(e: Type, n: nat, src: seq<byte>)
    requires IsType(e) && |src| >= Total(Width(e), n) && DecodeItems(e, n, src).Ok?
    ensures ItemsBegin(DecodeItems(e, n, src).value, e, n, src)
    decreases e, n + 1
  {
    if n > 0 {
      var x, xs := DecodedFirst(e, n, src);
      Canonical(e, src[..Width(e)]);
      ItemsCanonical(e, n - 1, src[Width(e)..]);
      ItemCanonical(e, n, src, x, xs);
    }
  }

  lemma DecodedFirst(e: Type, n: nat, src: seq<byte>) returns (v: Value, vs: seq<Value>)
    requires n > 0 && |src| >= Total(Width(e), n) && DecodeItems(e, n, src).Ok?
    ensures Decode(e, src[..Width(e)]) == Ok(v) && DecodeItems(e, n - 1, src[Width(e)..]) == Ok(vs)
    ensures DecodeItems(e, n, src) == Ok([v] + vs)
  {
    v, vs := Decode(e, src[..Width(e)]).value, DecodeItems(e, n - 1, src[Width(e)..]).value;
  }

  lemma ItemCanonical(e: Type, n: nat, src: seq<byte>, v: Value, vs: seq<Value>)
    requires IsType(e) && n > 0 && |src| >= Total(Width(e), n)
    requires Begins(v, e, src[..Width(e)]) && ItemsBegin(vs, e, n - 1, src[Width(e)..])
    ensures ItemsBegin([v] + vs, e, n, src)
  {
    OneMoreItem(v, vs, e);
    FrontSplits(src, Width(e), Total(Width(e), n - 1));
  }

  lemma OneMoreItem(v: Value, vs: seq<Value>, e: Type)
    requires IsType(e) && HasType(v, e) && AllHaveType(vs, e)
    ensures AllHaveType([v] + vs, e) && EncodeItems([v] + vs, e) == Encode(v, e) + EncodeItems(vs, e)
  {
    assert ([v] + vs)[1..] == vs;
  }

  lemma FrontSplits(src: seq<byte>, w: nat, m: nat)
    requires w + m <= |src|
    ensures src[..w + m] == src[..w][..w] + src[w..][..m]
  {
  }

  // ---------------------------------------------------------------- errors

  /** A short buffer is reported exactly when there are too few bytes for the whole type,
      with the whole width and the bytes there are, before anything is found invalid. */
  lemma {:induction false} ShortIffTooFew(t: Type, src: seq<byte>)
    requires IsType(t)
    ensures |src| < Width(t) <==> Decode(t, src).Err? && Decode(t, src).error.ShortBuffer?
    ensures |src| < Width(t) ==> Decode(t, src) == Err(ShortBuffer(Width(t), |src|))
    decreases t, 0
  {
    match t
    case Array(e, n) => if |src| >= Width(t) { ItemsNotShort(e, n, src); }
    case Pair(a, b) =>
      if |src| >= Width(t) {
        ShortIffTooFew(a, src[..Width(a)]);
        ShortIffTooFew(b, src[Width(a)..Width(a) + Width(b)]);
      }
    case _ =>
  }

  lemma {:induction false} ItemsNotShort(e: Type, n: nat, src: seq<byte>)
    requires IsType(e) && |src| >= Total(Width(e), n)
    ensures DecodeItems(e, n, src).Err? ==> DecodeItems(e, n, src).error.InvalidEncoding?
    decreases e, n + 1
  {
    if n > 0 {
      ShortIffTooFew(e, src[..Width(e)]);
      ItemsNotShort(e, n - 1, src[Width(e)..]);
    }
  }

  lemma AcceptedAs(t: Type, exact: seq<byte>, v: Value, rest: seq<byte>)
    requires IsType(t) && HasType(v, t) && Encode(v, t) == exact
    ensures Decode(t, exact + rest) == Ok(v)
  {
    RoundTrip(v, t, rest);
  }

  lemma AcceptedPrefix(t: Type, exact: seq<byte>, rest: seq<byte>)
    requires IsType(t) && |exact| == Width(t) && Decode(t, exact + rest).Ok?
    ensures Decode(t, exact + rest) == Decode(t, exact)
  {
    Canonical(t, exact + rest);
    assert (exact + rest)[..Width(t)] == exact;
    AcceptedAs(t, exact, Decode(t, exact + rest).value, []);
    assert exact + [] == exact;
  }

  lemma InvalidOtherwise(t: Type, src: seq<byte>)
    requires IsType(t) && |src| >= Width(t)
    ensures Decode(t, src).Ok? || Decode(t, src) == Err(InvalidEncoding)
  {
    ShortIffTooFew(t, src);
    NotShort(Decode(t, src));
  }

  lemma NotShort(r: Result<Value>)
    ensures r.Ok? || r == Err(InvalidEncoding) || (r.Err? && r.error.ShortBuffer?)
  {
  }

  /** Only the bytes of the width are read: what follows them changes nothing. */
  lemma ReadsItsWidth(t: Type, exact: seq<byte>, rest: seq<byte>)
    requires IsType(t) && |exact| == Width(t)
    ensures Decode(t, exact + rest) == Decode(t, exact)
  {
    InvalidOtherwise(t, exact);
    InvalidOtherwise(t, exact + rest);
    if Decode(t, exact).Ok? {
      Canonical(t, exact);
      assert exact[..Width(t)] == exact;
      AcceptedAs(t, exact, Decode(t, exact).value, rest);
    } else if Decode(t, exact + rest).Ok? {
      AcceptedPrefix(t, exact, rest);
    }
  }
}
