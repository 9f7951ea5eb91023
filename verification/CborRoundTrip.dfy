/** What `from_cbor` makes of the output of `to_cbor`. */
module CborRoundTrip {
  import opened Bytes
  import opened JsonValue
  import opened Cbor

  /** The decoded value: a signed number that is not negative comes back unsigned. */
  function Norm(j: Json): Json
    decreases j
  {
    match j
    case Int(i) => if i >= 0 then UInt(i) else j
    case Array(a) => Array(seq(|a|, i requires 0 <= i < |a| => Norm(a[i])))
    case Object(m) => Object(map k | k in m :: Norm(m[k]))
    case _ => j
  }

  /** Lengths that a size_t can hold, as those of every value in memory. */
  predicate Sized(j: Json)
    decreases j
  {
    match j
    case String(s) => SizedLength(|s|)
    case Array(a) => SizedLength(|a|) && forall i | 0 <= i < |a| :: Sized(a[i])
    case Object(m) => SizedLength(|m|) && forall k | k in m :: SizedLength(|k|) && Sized(m[k])
    case _ => true
  }

  predicate SizedLength(n: nat) {
    n < 0x1_0000_0000_0000_0000
  }

  /** v holds the bytes b at index idx. */
  predicate Holds(v: seq<byte>, idx: nat, b: seq<byte>) {
    idx + |b| <= |v| && v[idx..idx + |b|] == b
  }

  lemma HoldsParts(v: seq<byte>, idx: nat, a: seq<byte>, b: seq<byte>)
    requires Holds(v, idx, a + b)
    ensures Holds(v, idx, a) && Holds(v, idx + |a|, b)
  {
    var s := v[idx..idx + |a + b|];
    assert s[..|a|] == a && s[|a|..] == b;
    assert v[idx..idx + |a|] == s[..|a|];
    assert v[idx + |a|..idx + |a| + |b|] == s[|a|..];
  }

  lemma BytesBack(v: seq<byte>, cur: nat, b: byte, n: nat, size: nat)
    requires Holds(v, cur, [b] + BE(n, size)) && n < Pow256(size)
    ensures cur + size < |v| && v[cur] == b && BytesBehind(v, cur, size) == Ok(n)
  {
    hide Pow256;
    var s := v[cur..cur + 1 + size];
    assert s[0] == b && s[1..] == BE(n, size);
    assert v[cur + 1..cur + 1 + size] == s[1..];
    BERoundTrip(n, size);
  }

  /** The width of an argument that does not fit its first byte, by the low five bits of that byte. */
  function Width(low: nat): nat {
    if low == 0x18 then 1 else if low == 0x19 then 2 else if low == 0x1a then 4 else 8
  }

  lemma WideBack(v: seq<byte>, idx: nat, major: nat, low: nat, n: nat)
    requires major <= 5 && 0x18 <= low <= 0x1b && n < Pow256(Width(low))
    requires Holds(v, idx, [32 * major + low] + BE(n, Width(low)))
    ensures idx < |v| && v[idx] / 32 == major && v[idx] % 32 == low
    ensures Argument(v, idx, low) == Ok(At(n, idx + 1 + Width(low)))
  {
    hide BE, FromBE, Pow256, BytesBehind;
    BytesBack(v, idx, 32 * major + low, n, Width(low));
  }

  lemma NarrowBack(v: seq<byte>, idx: nat, major: nat, n: nat)
    requires major <= 5 && n <= 0x17 && Holds(v, idx, [32 * major + n])
    ensures idx < |v| && v[idx] / 32 == major && v[idx] % 32 == n && Argument(v, idx, n) == Ok(At(n, idx + 1))
  {
    var one := v[idx..idx + 1];
    assert v[idx] == one[0];
  }

  /** The argument of an item is read back, whatever its width. */
  lemma HeadBack(v: seq<byte>, idx: nat, major: nat, n: nat)
    requires major <= 5 && SizedLength(n) && Holds(v, idx, Head(32 * major, n))
    ensures idx < |v| && v[idx] / 32 == major && v[idx] % 32 <= 0x1b
    ensures Argument(v, idx, v[idx] % 32) == Ok(At(n, idx + |Head(32 * major, n)|))
  {
    hide BE, FromBE, Pow256, BytesBehind, Argument, Holds;
    PowerValues();
    if n <= 0x17 {
      NarrowBack(v, idx, major, n);
    } else {
      WideBack(v, idx, major, if n <= 0xff then 0x18 else if n <= 0xffff then 0x19 else if n <= 0xffff_ffff then 0x1a else 0x1b, n);
    }
  }

  lemma StringBack(v: seq<byte>, idx: nat, s: Str)
    requires SizedLength(|s|) && Holds(v, idx, EncodeString(s))
    ensures Decode(v, idx) == Ok(At(String(s), idx + |EncodeString(s)|))
  {
    hide Head, Argument;
    HoldsParts(v, idx, Head(0x60, |s|), s);
    HeadBack(v, idx, 3, |s|);
  }

  lemma {:induction false} ElementsBack(v: seq<byte>, idx: nat, j: Json, i: nat, done: seq<Json>)
    requires j.Array? && Sized(j) && i <= |j.a| && Holds(v, idx, EncodeElements(j, i))
    ensures DecodeElements(v, idx, |j.a| - i, done) == Ok(At(Array(done + Norm(j).a[i..]), idx + |EncodeElements(j, i)|))
    decreases j, |j.a| - i
  {
    hide Encode, Decode;
    if i < |j.a| {
      HoldsParts(v, idx, Encode(j.a[i]), EncodeElements(j, i + 1));
      ValueBack(v, idx, j.a[i]);
      var e := Norm(j.a[i]);
      ElementsBack(v, idx + |Encode(j.a[i])|, j, i + 1, done + [e]);
      assert done + [e] + Norm(j).a[i + 1..] == done + Norm(j).a[i..];
    } else {
      assert done + Norm(j).a[i..] == done;
    }
  }

  /** The members read so far and those that are still to come. */
  function Filled(done: map<Str, Json>, j: Json, ks: seq<Str>): map<Str, Json>
    requires j.Object? && forall k | k in ks :: k in j.m
    decreases |ks|
  {
    if ks == [] then done else Filled(done[ks[0] := Norm(j.m[ks[0]])], j, ks[1..])
  }

  lemma {:induction false} FilledAt(done: map<Str, Json>, j: Json, ks: seq<Str>)
    requires j.Object? && forall k | k in ks :: k in j.m
    ensures forall k :: k in Filled(done, j, ks) <==> k in done || k in ks
    ensures forall k | k in Filled(done, j, ks) :: Filled(done, j, ks)[k] == if k in ks then Norm(j.m[k]) else done[k]
    decreases |ks|
  {
    hide Norm;
    if ks != [] {
      FilledAt(done[ks[0] := Norm(j.m[ks[0]])], j, ks[1..]);
    }
  }

  lemma SizedMember(j: Json, k: Str)
    requires j.Object? && Sized(j) && k in j.m
    ensures SizedLength(|j.m|) && SizedLength(|k|) && Sized(j.m[k])
  {}

  lemma {:induction false} PairBack(v: seq<byte>, idx: nat, j: Json, k: Str)
    requires j.Object? && Sized(j) && k in j.m && Holds(v, idx, EncodeString(k) + Encode(j.m[k]))
    ensures DecodePair(v, idx) == Ok(At((k, Norm(j.m[k])), idx + |EncodeString(k)| + |Encode(j.m[k])|))
    decreases j, 0
  {
    hide Encode, EncodeString, Decode, Norm, Sized;
    SizedMember(j, k);
    HoldsParts(v, idx, EncodeString(k), Encode(j.m[k]));
    StringBack(v, idx, k);
    ValueBack(v, idx + |EncodeString(k)|, j.m[k]);
  }

  lemma {:induction false} PairsBack(v: seq<byte>, idx: nat, j: Json, ks: seq<Str>, done: map<Str, Json>)
    requires j.Object? && Sized(j) && forall k | k in ks :: k in j.m
    requires Holds(v, idx, EncodePairs(j, ks))
    ensures DecodePairs(v, idx, |ks|, done) == Ok(At(Object(Filled(done, j, ks)), idx + |EncodePairs(j, ks)|))
    decreases j, |ks|
  {
    hide Encode, EncodeString, DecodePair, Norm, Sized, Holds;
    if ks != [] {
      var k := ks[0];
      HoldsParts(v, idx, EncodeString(k) + Encode(j.m[k]), EncodePairs(j, ks[1..]));
      PairBack(v, idx, j, k);
      PairsBack(v, idx + |EncodeString(k)| + |Encode(j.m[k])|, j, ks[1..], done[k := Norm(j.m[k])]);
    }
  }

  lemma {:induction false} ArrayBack(v: seq<byte>, idx: nat, j: Json)
    requires j.Array? && Sized(j) && Holds(v, idx, Encode(j))
    ensures Decode(v, idx) == Ok(At(Norm(j), idx + |Encode(j)|))
    decreases j, |j.a| + 1
  {
    hide Head, Argument, EncodeElements, DecodeElements;
    HoldsParts(v, idx, Head(0x80, |j.a|), EncodeElements(j, 0));
    HeadBack(v, idx, 4, |j.a|);
    ElementsBack(v, idx + |Head(0x80, |j.a|)|, j, 0, []);
    assert [] + Norm(j).a[0..] == Norm(j).a;
  }

  lemma {:induction false} ObjectBack(v: seq<byte>, idx: nat, j: Json)
    requires j.Object? && Sized(j) && Holds(v, idx, Encode(j))
    ensures Decode(v, idx) == Ok(At(Norm(j), idx + |Encode(j)|))
    decreases j, |j.m| + 1
  {
    hide Head, Argument, EncodePairs, DecodePairs, SortedKeys, Filled, Sized, Norm, Holds;
    var ks := SortedKeys(j.m.Keys);
    KeysSorted(j.m.Keys);
    assert SizedLength(|j.m|) by {
      SizedObject(j);
    }
    HoldsParts(v, idx, Head(0xa0, |j.m|), EncodePairs(j, ks));
    HeadBack(v, idx, 5, |j.m|);
    PairsBack(v, idx + |Head(0xa0, |j.m|)|, j, ks, map[]);
    FilledAt(map[], j, ks);
    NormObject(j, Filled(map[], j, ks));
  }

  lemma SizedObject(j: Json)
    requires j.Object? && Sized(j)
    ensures SizedLength(|j.m|)
  {}

  lemma NormObject(j: Json, n: map<Str, Json>)
    requires j.Object? && (forall k :: k in n <==> k in j.m) && forall k | k in n :: n[k] == Norm(j.m[k])
    ensures Norm(j) == Object(n)
  {
    assert Norm(j).m == n;
  }

  lemma SimpleBack(v: seq<byte>, idx: nat, b: byte)
    requires Holds(v, idx, [b])
    ensures idx < |v| && v[idx] == b
  {
    var one := v[idx..idx + 1];
    assert v[idx] == one[0];
  }

  lemma ConstantBack(v: seq<byte>, idx: nat, j: Json)
    requires (j.Null? || j.Bool?) && Sized(j) && Holds(v, idx, Encode(j))
    ensures Decode(v, idx) == Ok(At(Norm(j), idx + |Encode(j)|))
  {
    hide Head, Argument, EncodeString, BytesBehind, DecodeElements, DecodePairs, DecodeChunks, DecodeOpenArray, DecodeOpenMap;
    SimpleBack(v, idx, if j.Null? then 0xf6 else if j.b then 0xf5 else 0xf4);
  }

  lemma SignedBack(v: seq<byte>, idx: nat, j: Json)
    requires j.Int? && Sized(j) && Holds(v, idx, Encode(j))
    ensures Decode(v, idx) == Ok(At(Norm(j), idx + |Encode(j)|))
  {
    hide Head, Argument, EncodeString, BytesBehind, DecodeElements, DecodePairs, DecodeChunks, DecodeOpenArray, DecodeOpenMap;
    if j.i >= 0 {
      HeadBack(v, idx, 0, j.i);
    } else {
      HeadBack(v, idx, 1, -1 - j.i);
    }
  }

  lemma UnsignedBack(v: seq<byte>, idx: nat, j: Json)
    requires j.UInt? && Sized(j) && Holds(v, idx, Encode(j))
    ensures Decode(v, idx) == Ok(At(Norm(j), idx + |Encode(j)|))
  {
    hide Head, Argument, EncodeString, BytesBehind, DecodeElements, DecodePairs, DecodeChunks, DecodeOpenArray, DecodeOpenMap;
    HeadBack(v, idx, 0, j.u);
  }

  lemma FloatBack(v: seq<byte>, idx: nat, j: Json)
    requires j.Float? && Sized(j) && Holds(v, idx, Encode(j))
    ensures Decode(v, idx) == Ok(At(Norm(j), idx + |Encode(j)|))
  {
    hide Head, Argument, EncodeString, BytesBehind, DecodeElements, DecodePairs, DecodeChunks, DecodeOpenArray, DecodeOpenMap;
    PowerValues();
    BytesBack(v, idx, 0xfb, j.bits, 8);
  }

  /** An encoded value is read back wherever it stands, and nothing behind it is touched. */
  lemma {:induction false} ValueBack(v: seq<byte>, idx: nat, j: Json)
    requires Sized(j) && Holds(v, idx, Encode(j))
    ensures Decode(v, idx) == Ok(At(Norm(j), idx + |Encode(j)|))
    decreases j
  {
    hide Head, Argument, Decode, EncodeString;
    match j {
      case Null | Bool(_) => ConstantBack(v, idx, j);
      case Int(_) => SignedBack(v, idx, j);
      case UInt(_) => UnsignedBack(v, idx, j);
      case Float(_) => FloatBack(v, idx, j);
      case String(s) => StringBack(v, idx, s);
      case Array(_) => ArrayBack(v, idx, j);
      case Object(_) => ObjectBack(v, idx, j);
    }
  }

  /** The decoded value equals the original exactly when that holds no NaN. */
  lemma {:induction false} NormEqual(j: Json)
    ensures JsonEq(Norm(j), j) <==> NaNFree(j)
    decreases j
  {
    hide FloatValue, ToDouble;
    match j {
      case Array(a) =>
        forall i | 0 <= i < |a| ensures JsonEq(Norm(j).a[i], a[i]) <==> NaNFree(a[i]) { NormEqual(a[i]); }
      case Object(m) =>
        forall k | k in m ensures JsonEq(Norm(j).m[k], m[k]) <==> NaNFree(m[k]) { NormEqual(m[k]); }
      case _ => EqualToItself(j);
    }
  }

  /** from_cbor(to_cbor(j)), with anything before and behind the encoding. */
  lemma RoundTrip(before: seq<byte>, j: Json, behind: seq<byte>)
    requires Sized(j)
    ensures var r := Decode(before + Encode(j) + behind, |before|);
      r == Ok(At(Norm(j), |before| + |Encode(j)|)) && (JsonEq(r.value.value, j) <==> NaNFree(j))
  {
    hide Encode, Decode, Norm, JsonEq, NaNFree;
    var v := before + Encode(j) + behind;
    assert v[|before|..|before| + |Encode(j)|] == Encode(j);
    ValueBack(v, |before|, j);
    NormEqual(j);
  }

  /** No encoding is the beginning of the encoding of another value. */
  lemma PrefixFree(j: Json, k: Json)
    requires Sized(j) && Sized(k) && Encode(j) <= Encode(k)
    ensures Norm(j) == Norm(k) && Encode(j) == Encode(k)
  {
    hide Encode, Decode, Norm;
    var v := Encode(k);
    ValueBack(v, 0, j);
    ValueBack(v, 0, k);
  }
}
