/** `marshal` and `unmarshal` as they work on buffers. */
module MarshalCode {
  import opened Marshal
  import opened MarshalLayout

  /** The buffer with `bytes` from place `lo` on. */
  function Written(s: seq<byte>, lo: nat, bytes: seq<byte>): (w: seq<byte>)
    requires lo + |bytes| <= |s|
    ensures |w| == |s|
  {
    s[..lo] + bytes + s[lo + |bytes|..]
  }

  /** Bytes written after others are the two written together. */
  lemma WrittenTwice(s: seq<byte>, lo: nat, a: seq<byte>, b: seq<byte>)
    requires lo + |a| + |b| <= |s|
    ensures Written(Written(s, lo, a), lo + |a|, b) == Written(s, lo, a + b)
  {
    var once := Written(s, lo, a);
    assert once[..lo + |a|] == s[..lo] + a;
    assert once[lo + |a| + |b|..] == s[lo + |a| + |b|..];
    assert s[..lo] + a + b == s[..lo] + (a + b);
  }

  method CopyInto(dst: array<byte>, lo: nat, bytes: seq<byte>)
    requires lo + |bytes| <= dst.Length
    modifies dst
    ensures dst[..] == Written(old(dst[..]), lo, bytes)
  {
    forall i | 0 <= i < |bytes| { dst[lo + i] := bytes[i]; }
    assert dst[..] == Written(old(dst[..]), lo, bytes);
  }

  /** Write the value's encoding at the start of the slice from `lo` to `hi`, and nothing
      else. */
  method MarshalInto(v: Value, t: Type, dst: array<byte>, lo: nat, hi: nat)
    requires HasType(v, t) && IsType(t) && lo + Width(t) <= hi <= dst.Length
    modifies dst
    ensures |Encode(v, t)| == Width(t)
    ensures dst[..] == Written(old(dst[..]), lo, Encode(v, t))
    decreases t, 0
  {
    EncodeWidth(v, t);
    match t
    case Unsigned(w) => CopyInto(dst, lo, ToBytes(v.n, w));
    case Signed(w) =>
      SignedRoundTrip(v.i, w);
      CopyInto(dst, lo, ToBytes(ToUnsigned(v.i, w), w));
    case Bool => CopyInto(dst, lo, [if v.b then 1 else 0]);
    case Unit => assert dst[..] == Written(dst[..], lo, []);
    case Array(e, n) => MarshalItems(v.items, e, dst, lo, hi);
    case Pair(a, b) =>
      EncodeWidth(v.a, a);
      EncodeWidth(v.c, b);
      ghost var before := dst[..];
      MarshalInto(v.a, a, dst, lo, lo + Width(a));
      MarshalInto(v.c, b, dst, lo + Width(a), lo + Width(a) + Width(b));
      WrittenTwice(before, lo, Encode(v.a, a), Encode(v.c, b));
  }

  method MarshalItems(items: seq<Value>, e: Type, dst: array<byte>, lo: nat, hi: nat)
    requires IsType(e) && AllHaveType(items, e) && lo + Total(Width(e), |items|) <= hi <= dst.Length
    modifies dst
    ensures |EncodeItems(items, e)| == Total(Width(e), |items|)
    ensures dst[..] == Written(old(dst[..]), lo, EncodeItems(items, e))
    decreases e, 2
  {
    ghost var before, enc := dst[..], [];
    EncodingStarts(items, e);
    assert Written(before, lo, enc) == before;
    for i := 0 to |items|
      invariant Encoding(items, e, i, enc) && dst[..] == Written(before, lo, enc)
    {
      NextEncoded(items, e, i, enc);
      MarshalItem(items[i], e, i, dst, lo, before, enc);
      enc := enc + Encode(items[i], e);
    }
    assert items[..|items|] == items;
  }

  /** Element `i` goes after the encodings of those before it. */
  method MarshalItem(v: Value, e: Type, i: nat, dst: array<byte>, lo: nat, ghost before: seq<byte>, ghost enc: seq<byte>)
    requires HasType(v, e) && IsType(e) && i * Width(e) == |enc| && lo + |enc| + Width(e) <= dst.Length == |before|
    requires dst[..] == Written(before, lo, enc)
    modifies dst
    ensures |Encode(v, e)| == Width(e) && dst[..] == Written(before, lo, enc + Encode(v, e))
    decreases e, 1
  {
    EncodeWidth(v, e);
    var off := i * Width(e);
    MarshalInto(v, e, dst, lo + off, lo + off + Width(e));
    WrittenTwice(before, lo, enc, Encode(v, e));
  }

  /** `enc` encodes the first `i` items, and there is room for it. */
  ghost predicate Encoding(items: seq<Value>, e: Type, i: nat, enc: seq<byte>) {
    && IsType(e) && i <= |items| && AllHaveType(items[..i], e) && enc == EncodeItems(items[..i], e)
    && |enc| == Total(Width(e), i) <= Total(Width(e), |items|)
  }

  lemma EncodingStarts(items: seq<Value>, e: Type)
    requires IsType(e) && AllHaveType(items, e)
    ensures Encoding(items, e, 0, [])
  {
    FrontHasType(items, e, 0);
  }

  lemma NextEncoded(items: seq<Value>, e: Type, i: nat, enc: seq<byte>)
    requires AllHaveType(items, e) && i < |items| && Encoding(items, e, i, enc)
    ensures HasType(items[i], e) && |Encode(items[i], e)| == Width(e) && i * Width(e) == |enc|
    ensures Encoding(items, e, i + 1, enc + Encode(items[i], e))
    ensures |enc| + Width(e) <= Total(Width(e), |items|)
  {
    EncodeLast(items, e, i);
    EncodeWidth(items[i], e);
    TotalGrows(Width(e), i + 1, |items|);
    TotalIsProduct(Width(e), i);
  }

  lemma {:induction false} TotalGrows(w: nat, m: nat, n: nat)
    requires m <= n
    ensures Total(w, m) <= Total(w, n)
  {
    if m < n {
      TotalGrows(w, m, n - 1);
    }
  }

  method ArrayWidth(e: Type, n: nat) returns (need: nat)
    ensures need == Width(Array(e, n)) == Total(Width(e), n)
  {
    TotalIsProduct(Width(e), n);
    need := Width(e) * n;
  }

  /** Read a value from the start of the buffer. */
  method Unmarshal(t: Type, src: seq<byte>) returns (r: Result<Value>)
    ensures r == Decode(t, src)
    decreases t, 0
  {
    match t
    case Unsigned(w) =>
      if |src| < w { return Err(ShortBuffer(w, |src|)); }
      r := Ok(Natural(FromBytes(src[..w])));
    case Signed(w) =>
      if |src| < w { return Err(ShortBuffer(w, |src|)); }
      r := Ok(Whole(ToSigned(FromBytes(src[..w]), w)));
    case Bool =>
      if |src| == 0 { return Err(ShortBuffer(1, 0)); }
      r := if src[0] == 0 then Ok(Truth(false)) else if src[0] == 1 then Ok(Truth(true)) else Err(InvalidEncoding);
    case Unit => r := Ok(Nothing);
    case Array(e, n) =>
      var need := ArrayWidth(e, n);
      if |src| < need { return Err(ShortBuffer(need, |src|)); }
      var items := UnmarshalItems(e, n, src);
      r := if items.Err? then Err(items.error) else Ok(Items(items.value));
    case Pair(a, b) =>
      var need := Width(a) + Width(b);
      if |src| < need { return Err(ShortBuffer(need, |src|)); }
      r := Unmarshal(a, src[..Width(a)]);
      if r.Err? { return; }
      var y := Unmarshal(b, src[Width(a)..need]);
      r := if y.Err? then y else Ok(Both(r.value, y.value));
  }

  /** What is decoded so far, with what is still to come. */
  function After(done: seq<Value>, rest: Result<seq<Value>>): Result<seq<Value>> {
    if rest.Err? then rest else Ok(done + rest.value)
  }

  method UnmarshalItems(e: Type, n: nat, src: seq<byte>) returns (r: Result<seq<Value>>)
    requires |src| >= Total(Width(e), n)
    ensures r == DecodeItems(e, n, src)
    decreases e, 1
  {
    var w := Width(e);
    var out: seq<Value> := [];
    ghost var result := DecodeItems(e, n, src);
    ItemsStart(e, n, src);
    for i := 0 to n
      invariant Total(w, i) + Total(w, n - i) <= |src| && Decoding(e, n - i, src, Total(w, i), out, result)
    {
      TotalIsProduct(w, i);
      var off := i * w;
      NextDecoded(e, n - i, src, Total(w, i), out, result);
      var x := Unmarshal(e, src[off..off + w]);
      if x.Err? {
        return Err(x.error);
      }
      out := out + [x.value];
    }
    AfterNothing(result, out);
    r := Ok(out);
  }

  /** With `out` decoded, the whole result hangs on the `n` items at the offset. */
  ghost predicate Decoding(e: Type, n: nat, src: seq<byte>, off: nat, out: seq<Value>, result: Result<seq<Value>>) {
    off + Total(Width(e), n) <= |src| && result == After(out, DecodeItems(e, n, src[off..]))
  }

  lemma ItemsStart(e: Type, n: nat, src: seq<byte>)
    requires |src| >= Total(Width(e), n)
    ensures Decoding(e, n, src, 0, [], DecodeItems(e, n, src))
  {
    AfterNothing(DecodeItems(e, n, src), []);
    assert src[0..] == src;
  }

  lemma NextDecoded(e: Type, n: nat, src: seq<byte>, off: nat, out: seq<Value>, result: Result<seq<Value>>)
    requires n > 0 && Decoding(e, n, src, off, out, result)
    ensures off + Width(e) <= |src|
    ensures var x := Decode(e, src[off..off + Width(e)]);
            if x.Err? then result == Err(x.error) else Decoding(e, n - 1, src, off + Width(e), out + [x.value], result)
  {
    ItemAt(e, n, src, off);
    var x := Decode(e, src[off..off + Width(e)]);
    if x.Ok? {
      TakeItem(out, x.value, DecodeItems(e, n - 1, src[off + Width(e)..]));
    }
  }

  /** The item at an offset, and the rest after it. */
  lemma ItemAt(e: Type, n: nat, src: seq<byte>, off: nat)
    requires n > 0 && off + Total(Width(e), n) <= |src|
    ensures off + Width(e) <= |src|
    ensures var x := Decode(e, src[off..off + Width(e)]);
            DecodeItems(e, n, src[off..])
            == if x.Err? then Err(x.error) else After([x.value], DecodeItems(e, n - 1, src[off + Width(e)..]))
  {
    var rest := src[off..];
    assert src[off..off + Width(e)] == rest[..Width(e)] && src[off + Width(e)..] == rest[Width(e)..];
  }

  lemma AfterNothing(r: Result<seq<Value>>, done: seq<Value>)
    ensures After([], r) == r && After(done, Ok([])) == Ok(done)
  {
    assert done + [] == done;
    if r.Ok? {
      assert [] + r.value == r.value;
    }
  }

  lemma TakeItem(done: seq<Value>, x: Value, rest: Result<seq<Value>>)
    ensures After(done, After([x], rest)) == After(done + [x], rest)
  {
    if rest.Ok? {
      assert done + ([x] + rest.value) == done + [x] + rest.value;
    }
  }

  // ---------------------------------------------------------------- the format on buffers

  lemma WrittenIsLaidOut(v: Value, t: Type, s: seq<byte>, lo: nat)
    requires HasType(v, t) && IsType(t) && |Encode(v, t)| == Width(t) && lo + Width(t) <= |s|
    ensures IsLayout(v, t, Written(s, lo, Encode(v, t))[lo..lo + Width(t)])
  {
    assert Written(s, lo, Encode(v, t))[lo..lo + Width(t)] == Encode(v, t);
    LaidOutIffEncoded(v, t, Encode(v, t));
  }

  /** The value is laid out at the start of the slice, and no other byte changes. */
  method WriteLayout(v: Value, t: Type, dst: array<byte>, lo: nat, hi: nat)
    requires HasType(v, t) && IsType(t) && lo + Width(t) <= hi <= dst.Length
    modifies dst
    ensures IsLayout(v, t, dst[lo..lo + Width(t)])
    ensures dst[..lo] == old(dst[..lo]) && dst[lo + Width(t)..] == old(dst[lo + Width(t)..])
  {
    ghost var before := dst[..];
    EncodeWidth(v, t);
    WrittenIsLaidOut(v, t, before, lo);
    MarshalInto(v, t, dst, lo, hi);
    WrittenApart(before, lo, Encode(v, t));
    assert dst[lo..lo + Width(t)] == dst[..][lo..lo + Width(t)];
    assert dst[..lo] == dst[..][..lo] && dst[lo + Width(t)..] == dst[..][lo + Width(t)..];
  }

  lemma WrittenApart(s: seq<byte>, lo: nat, bytes: seq<byte>)
    requires lo + |bytes| <= |s|
    ensures Written(s, lo, bytes)[..lo] == s[..lo]
    ensures Written(s, lo, bytes)[lo + |bytes|..] == s[lo + |bytes|..]
  {
  }

  /** What is read is a value exactly if the buffer begins with its layout. */
  method ReadLayout(t: Type, src: seq<byte>) returns (r: Result<Value>)
    requires IsType(t)
    ensures forall v: Value :: r == Ok(v) <==> |src| >= Width(t) && HasType(v, t) && IsLayout(v, t, src[..Width(t)])
    ensures r.Err? ==> r.error == if |src| < Width(t) then ShortBuffer(Width(t), |src|) else InvalidEncoding
  {
    forall v: Value { DecodesLayout(t, src, v); }
    ShortIffTooFew(t, src);
    if |src| >= Width(t) { InvalidOtherwise(t, src); }
    r := Unmarshal(t, src);
  }
}
