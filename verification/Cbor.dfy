/** CBOR (RFC 7049) as `to_cbor` writes it and `from_cbor` reads it. */
module Cbor {
  import opened Bytes
  import opened JsonValue

  // ---------------------------------------------------------------- encoding

  /** The initial byte of an item and its argument, in the shortest form. */
  function Head(base: byte, n: nat): seq<byte>
    requires base <= 0xe0
  {
    if n <= 0x17 then [base + n]
    else if n <= 0xff then [base + 0x18] + BE(n, 1)
    else if n <= 0xffff then [base + 0x19] + BE(n, 2)
    else if n <= 0xffff_ffff then [base + 0x1a] + BE(n, 4)
    else [base + 0x1b] + BE(n, 8)
  }

  /** What `to_cbor_internal` appends for a value. */
  function Encode(j: Json): seq<byte>
    decreases j
  {
    match j
    case Null => [0xf6]
    case Bool(b) => [if b then 0xf5 else 0xf4]
    case Int(i) => if i >= 0 then Head(0x00, i) else Head(0x20, -1 - i)
    case UInt(u) => Head(0x00, u)
    case Float(bits) => [0xfb] + BE(bits, 8)
    case String(s) => EncodeString(s)
    case Array(a) => Head(0x80, |a|) + EncodeElements(j, 0)
    case Object(m) => Head(0xa0, |m|) + EncodePairs(j, SortedKeys(m.Keys))
  }

  function EncodeString(s: Str): seq<byte> {
    Head(0x60, |s|) + s
  }

  function EncodeElements(j: Json, i: nat): seq<byte>
    requires j.Array?
    decreases j, |j.a| - i
  {
    if i < |j.a| then Encode(j.a[i]) + EncodeElements(j, i + 1) else []
  }

  function EncodePairs(j: Json, ks: seq<Str>): seq<byte>
    requires j.Object? && forall k | k in ks :: k in j.m
    decreases j, |ks|
  {
    if ks == [] then [] else EncodeString(ks[0]) + Encode(j.m[ks[0]]) + EncodePairs(j, ks[1..])
  }

  /** `add_to_vector`: each byte is shifted out on its own. */
  method AddToVector(v0: seq<byte>, bytes: nat, number: nat) returns (v: seq<byte>)
    requires bytes == 1 || bytes == 2 || bytes == 4 || bytes == 8
    ensures v == v0 + BE(number, bytes)
  {
    var n1 := number / 0x100;
    var n2 := n1 / 0x100;
    var n3 := n2 / 0x100;
    v := v0;
    if bytes == 8 {
      var n4 := n3 / 0x100;
      var n5 := n4 / 0x100;
      var n6 := n5 / 0x100;
      var n7 := n6 / 0x100;
      v := v + [n7 % 0x100] + [n6 % 0x100] + [n5 % 0x100] + [n4 % 0x100];
      assert BE(n7, 1) == [n7 % 0x100];
      assert BE(n6, 2) == [n7 % 0x100, n6 % 0x100];
      assert BE(n5, 3) == [n7 % 0x100, n6 % 0x100, n5 % 0x100];
      assert BE(n4, 4) == [n7 % 0x100, n6 % 0x100, n5 % 0x100, n4 % 0x100];
      assert v == v0 + BE(n4, 4);
      v := v + [n3 % 0x100] + [n2 % 0x100] + [n1 % 0x100] + [number % 0x100];
      FourMore(number, 4);
    } else if bytes == 4 {
      v := v + [n3 % 0x100] + [n2 % 0x100] + [n1 % 0x100] + [number % 0x100];
      FourMore(number, 0);
      assert BE(n3 / 0x100, 0) == [];
    } else if bytes == 2 {
      v := v + [n1 % 0x100] + [number % 0x100];
      assert BE(n1, 1) == [n1 % 0x100];
    } else {
      v := v + [number % 0x100];
    }
  }

  lemma FourMore(n: nat, k: nat)
    ensures BE(n, k + 4) == BE(n / 0x100 / 0x100 / 0x100 / 0x100, k)
            + [n / 0x100 / 0x100 / 0x100 % 0x100, n / 0x100 / 0x100 % 0x100, n / 0x100 % 0x100, n % 0x100]
  {
    var n1 := n / 0x100;
    var n2 := n1 / 0x100;
    var n3 := n2 / 0x100;
    assert BE(n3, k + 1) == BE(n3 / 0x100, k) + [n3 % 0x100];
    assert BE(n2, k + 2) == BE(n3, k + 1) + [n2 % 0x100];
    assert BE(n1, k + 3) == BE(n2, k + 2) + [n1 % 0x100];
  }

  method AppendHead(v0: seq<byte>, base: byte, n: nat) returns (v: seq<byte>)
    requires base <= 0xe0
    ensures v == v0 + Head(base, n)
  {
    if n <= 0x17 {
      v := v0 + [base + n];
    } else if n <= 0xff {
      v := AddToVector(v0 + [base + 0x18], 1, n);
    } else if n <= 0xffff {
      v := AddToVector(v0 + [base + 0x19], 2, n);
    } else if n <= 0xffff_ffff {
      v := AddToVector(v0 + [base + 0x1a], 4, n);
    } else {
      v := AddToVector(v0 + [base + 0x1b], 8, n);
    }
  }

  /** `to_cbor_internal`, which appends to the vector it is given. */
  method ToCbor(j: Json, v0: seq<byte>) returns (v: seq<byte>)
    ensures v == v0 + Encode(j)
    decreases j
  {
    hide Head, BE, EncodeString, SortedKeys;
    match j
    case Null => v := v0 + [0xf6];
    case Bool(b) => v := v0 + [if b then 0xf5 else 0xf4];
    case Int(i) =>
      if i >= 0 { v := AppendHead(v0, 0x00, i); } else { v := AppendHead(v0, 0x20, -1 - i); }
    case UInt(u) => v := AppendHead(v0, 0x00, u);
    case Float(bits) => v := AddToVector(v0 + [0xfb], 8, bits);
    case String(s) => v := AppendString(v0, s);
    case Array(a) =>
      v := AppendHead(v0, 0x80, |a|);
      v := AppendElements(j, v);
    case Object(m) =>
      v := AppendHead(v0, 0xa0, |m|);
      v := AppendPairs(j, v);
  }

  method AppendString(v0: seq<byte>, s: Str) returns (v: seq<byte>)
    ensures v == v0 + EncodeString(s)
  {
    v := AppendHead(v0, 0x60, |s|);
    v := v + s;
  }

  method AppendElements(j: Json, v0: seq<byte>) returns (v: seq<byte>)
    requires j.Array?
    ensures v == v0 + EncodeElements(j, 0)
    decreases j, 0
  {
    hide Encode;
    v := v0;
    var i := 0;
    while i < |j.a|
      invariant 0 <= i <= |j.a|
      invariant v + EncodeElements(j, i) == v0 + EncodeElements(j, 0)
    {
      v := ToCbor(j.a[i], v);
      i := i + 1;
    }
  }

  method AppendPairs(j: Json, v0: seq<byte>) returns (v: seq<byte>)
    requires j.Object?
    ensures v == v0 + EncodePairs(j, SortedKeys(j.m.Keys))
    decreases j, 0
  {
    hide Encode, EncodeString, SortedKeys;
    v := v0;
    var ks := SortedKeys(j.m.Keys);
    var i := 0;
    while i < |ks|
      invariant 0 <= i <= |ks|
      invariant v + EncodePairs(j, ks[i..]) == v0 + EncodePairs(j, ks)
    {
      assert ks[i] in ks && ks[i..][0] == ks[i] && ks[i..][1..] == ks[i + 1..];
      v := AppendString(v, ks[i]);
      v := ToCbor(j.m[ks[i]], v);
      i := i + 1;
    }
  }

  // ---------------------------------------------------------------- decoding

  /** A value and the index behind it. */
  datatype At<+T> = At(value: T, next: nat)

  /** `get_from_vector`: the number in the bytes behind index cur. */
  function BytesBehind(v: seq<byte>, cur: nat, size: nat): Result<nat> {
    if cur + size + 1 > |v| then Err(OutOfRange) else Ok(FromBE(v[cur + 1..cur + 1 + size]))
  }

  /** The memory of the result is filled from its least significant byte on. */
  method GetFromVector(v: seq<byte>, cur: nat, size: nat) returns (r: Result<nat>)
    ensures r == BytesBehind(v, cur, size)
  {
    if cur + size + 1 > |v| {
      return Err(OutOfRange);
    }
    var memory: seq<byte> := [];
    var i := 0;
    while i < size
      invariant 0 <= i <= size && |memory| == i
      invariant forall k | 0 <= k < i :: memory[k] == v[cur + size - k]
    {
      memory := memory + [v[cur + size - i]];
      i := i + 1;
    }
    MirrorValue(memory, v[cur + 1..cur + 1 + size]);
    return Ok(FromLE(memory));
  }

  lemma {:induction false} MirrorValue(a: seq<byte>, b: seq<byte>)
    requires |a| == |b| && forall k | 0 <= k < |a| :: a[k] == b[|b| - 1 - k]
    ensures FromLE(a) == FromBE(b)
  {
    if a != [] {
      MirrorValue(a[1..], b[..|b| - 1]);
    }
  }

  /** The argument of the item whose initial byte, at index cur, has these five low bits. */
  function Argument(v: seq<byte>, cur: nat, low: nat): (r: Result<At<nat>>)
    requires cur < |v| && low <= 0x1b
    ensures r.Ok? ==> cur < r.value.next <= |v|
  {
    if low <= 0x17 then Ok(At(low, cur + 1))
    else
      var size := if low == 0x18 then 1 else if low == 0x19 then 2 else if low == 0x1a then 4 else 8;
      var n :- BytesBehind(v, cur, size);
      Ok(At(n, cur + 1 + size))
  }

  /** `check_length` and the copy behind it. */
  function TakeString(v: seq<byte>, len: nat, offset: nat): (r: Result<At<Json>>)
    ensures r.Ok? ==> offset <= r.value.next <= |v| && r.value.value.String?
  {
    if len > |v| || offset > |v| || len + offset > |v| then Err(OutOfRange)
    else Ok(At(String(v[offset..offset + len]), offset + len))
  }

  /** The implicit conversion to std::string. */
  function AsString(j: Json): Result<Str> {
    if j.String? then Ok(j.s) else Err(DomainError)
  }

  function Log2(n: nat): nat
    requires n > 0
  {
    if n == 1 then 0 else 1 + Log2(n / 2)
  }

  function Power2(n: nat): (r: nat)
    ensures r > 0
  {
    if n == 0 then 1 else 2 * Power2(n - 1)
  }

  lemma {:induction false} Log2Bounds(n: nat)
    requires n > 0
    ensures Power2(Log2(n)) <= n < 2 * Power2(Log2(n))
  {
    if n > 1 {
      Log2Bounds(n / 2);
    }
  }

  lemma {:induction false} Power2Sum(a: nat, b: nat)
    ensures Power2(a) * Power2(b) == Power2(a + b)
  {
    if a > 0 {
      Power2Sum(a - 1, b);
      assert Power2(a) * Power2(b) == 2 * (Power2(a - 1) * Power2(b));
    }
  }

  lemma {:induction false} Power2Monotone(a: nat, b: nat)
    requires a <= b
    ensures Power2(a) <= Power2(b)
  {
    if a < b {
      Power2Monotone(a, b - 1);
    }
  }

  lemma Power2Values()
    ensures Power2(10) == 1024 && Power2(23) == 0x80_0000 && Power2(52) == 0x10_0000_0000_0000
  {
    assert Power2(5) == 32;
    Power2Sum(5, 5);
    Power2Sum(10, 3);
    Power2Sum(13, 10);
    Power2Sum(23, 23);
    Power2Sum(46, 6);
    assert Power2(6) == 64 && Power2(3) == 8;
  }

  lemma ShiftedBound(rest: nat, p: nat)
    requires p <= 52 && rest < Power2(p)
    ensures rest * Power2(52 - p) < 0x10_0000_0000_0000
  {
    hide Power2;
    Power2Values();
    Power2Sum(p, 52 - p);
    assert Power2(52 - p) > 0;
    Scale(rest, Power2(p), Power2(52 - p));
  }

  lemma Scale(a: nat, b: nat, c: nat)
    requires a < b
    ensures c > 0 ==> a * c < b * c
  {
    assert (b - a) * c == b * c - a * c;
  }

  /** The fraction field of a double that has leading bit p and lower bits rest. */
  function Shifted(rest: nat, p: nat): (r: nat)
    requires p <= 52 && rest < Power2(p)
    ensures r < 0x10_0000_0000_0000
  {
    ShiftedBound(rest, p);
    rest * Power2(52 - p)
  }

  /** The two shorter IEEE 754 formats, by the width of the fraction field. */
  predicate ShortFormat(f: nat, bias: nat) {
    (f == 10 && bias == 15) || (f == 23 && bias == 127)
  }

  /** The double for a float with f fraction bits; a NaN becomes quiet and keeps its payload. */
  function Widen(negative: bool, exponent: nat, fraction: nat, f: nat, bias: nat): uint64
    requires ShortFormat(f, bias) && exponent <= 2 * bias + 1 && fraction < Power2(f)
  {
    var sign := if negative then 0x8000_0000_0000_0000 else 0;
    if exponent == 2 * bias + 1 then
      var payload := Shifted(fraction, f);
      sign + 0x7ff0_0000_0000_0000
      + if fraction == 0 || payload >= 0x8_0000_0000_0000 then payload else payload + 0x8_0000_0000_0000
    else if exponent > 0 then
      sign + (exponent + 1023 - bias) * 0x10_0000_0000_0000 + Shifted(fraction, f)
    else if fraction == 0 then sign
    else
      Log2Bounds(fraction);
      assert Log2(fraction) < f by {
        if Log2(fraction) >= f { Power2Monotone(f, Log2(fraction)); }
      }
      var p := Log2(fraction);
      sign + (p + 1024 - bias - f) * 0x10_0000_0000_0000 + Shifted(fraction - Power2(p), p)
  }

  /** A half in the two bytes behind index cur; every NaN gives the same payload. */
  function Half(v: seq<byte>, cur: nat): uint64
    requires cur + 2 < |v|
  {
    Power2Values();
    var half: nat := 256 * (v[cur + 1] as int) + v[cur + 2];
    var exponent, mantissa := half / 1024 % 32, half % 1024;
    Widen(half >= 0x8000, exponent, if exponent == 31 && mantissa != 0 then 512 else mantissa, 10, 15)
  }

  /** A float in the four bytes behind index cur. */
  function Single(v: seq<byte>, cur: nat): uint64
    requires cur + 4 < |v|
  {
    Power2Values();
    var b := v[cur + 1..cur + 5];
    FromBEBound(b);
    PowerValues();
    var bits := FromBE(b);
    Widen(bits >= 0x8000_0000, bits / 0x80_0000 % 256, bits % 0x80_0000, 23, 127)
  }

  /** `from_cbor_internal`: the value whose encoding starts at index idx. */
  function Decode(v: seq<byte>, idx: nat): (r: Result<At<Json>>)
    ensures r.Ok? ==> idx < r.value.next <= |v|
    decreases |v| - idx, 0
  {
    if idx >= |v| then Err(OutOfRange)
    else
      var major, low := v[idx] / 32, v[idx] % 32;
      if major == 7 then DecodeSimple(v, idx)
      else if major == 2 || major == 6 || 0x1c <= low <= 0x1e || (low == 0x1f && major < 3) then Err(InvalidArgument)
      else if low == 0x1f then
        if major == 3 then DecodeChunks(v, idx + 1, [])
        else if major == 4 then DecodeOpenArray(v, idx + 1, [])
        else DecodeOpenMap(v, idx + 1, map[])
      else
        var n :- Argument(v, idx, low);
        if major == 0 then Ok(At(Unsigned(n.value), n.next))
        else if major == 1 then Ok(At(Negative(n.value), n.next))
        else if major == 3 then TakeString(v, n.value, n.next)
        else if major == 4 then DecodeElements(v, n.next, n.value, [])
        else DecodePairs(v, n.next, n.value, map[])
  }

  /** Arguments have at most eight bytes. */
  function Unsigned(n: nat): Json {
    UInt(n % 0x1_0000_0000_0000_0000)
  }

  /** -1 - static_cast<int64_t>(n). */
  function Negative(n: nat): Json {
    Int(-1 - ToSigned(n % 0x1_0000_0000_0000_0000))
  }

  /** The initial bytes 0xe0 to 0xff. */
  function DecodeSimple(v: seq<byte>, idx: nat): (r: Result<At<Json>>)
    requires idx < |v|
    ensures r.Ok? ==> idx < r.value.next <= |v|
  {
    match v[idx]
    case 0xf4 => Ok(At(Bool(false), idx + 1))
    case 0xf5 => Ok(At(Bool(true), idx + 1))
    case 0xf6 => Ok(At(Null, idx + 1))
    case 0xf9 => if idx + 2 < |v| then Ok(At(Float(Half(v, idx)), idx + 3)) else Err(OutOfRange)
    case 0xfa => if idx + 4 < |v| then Ok(At(Float(Single(v, idx)), idx + 5)) else Err(OutOfRange)
    case 0xfb =>
      var n :- BytesBehind(v, idx, 8);
      Ok(At(Float(n % 0x1_0000_0000_0000_0000), idx + 9))
    case _ => Err(InvalidArgument)
  }

  /** A string in chunks, up to the break byte. */
  function DecodeChunks(v: seq<byte>, idx: nat, result: Str): (r: Result<At<Json>>)
    ensures r.Ok? ==> idx < r.value.next <= |v|
    decreases |v| - idx, 1
  {
    if idx >= |v| then Err(OutOfRange)
    else if v[idx] == 0xff then Ok(At(String(result), idx + 1))
    else
      var chunk :- Decode(v, idx);
      var s :- AsString(chunk.value);
      DecodeChunks(v, chunk.next, result + s)
  }

  function DecodeElements(v: seq<byte>, idx: nat, n: nat, result: seq<Json>): (r: Result<At<Json>>)
    requires idx <= |v|
    ensures r.Ok? ==> idx <= r.value.next <= |v|
    decreases |v| - idx, 1
  {
    if n == 0 then Ok(At(Array(result), idx))
    else
      var e :- Decode(v, idx);
      DecodeElements(v, e.next, n - 1, result + [e.value])
  }

  function DecodeOpenArray(v: seq<byte>, idx: nat, result: seq<Json>): (r: Result<At<Json>>)
    ensures r.Ok? ==> idx < r.value.next <= |v|
    decreases |v| - idx, 1
  {
    if idx >= |v| then Err(OutOfRange)
    else if v[idx] == 0xff then Ok(At(Array(result), idx + 1))
    else
      var e :- Decode(v, idx);
      DecodeOpenArray(v, e.next, result + [e.value])
  }

  /** A key and its value. */
  function DecodePair(v: seq<byte>, idx: nat): (r: Result<At<(Str, Json)>>)
    ensures r.Ok? ==> idx < r.value.next <= |v|
    decreases |v| - idx, 1
  {
    var k :- Decode(v, idx);
    var key :- AsString(k.value);
    var e :- Decode(v, k.next);
    Ok(At((key, e.value), e.next))
  }

  function DecodePairs(v: seq<byte>, idx: nat, n: nat, result: map<Str, Json>): (r: Result<At<Json>>)
    requires idx <= |v|
    ensures r.Ok? ==> idx <= r.value.next <= |v|
    decreases |v| - idx, 2
  {
    if n == 0 then Ok(At(Object(result), idx))
    else
      var e :- DecodePair(v, idx);
      DecodePairs(v, e.next, n - 1, result[e.value.0 := e.value.1])
  }

  function DecodeOpenMap(v: seq<byte>, idx: nat, result: map<Str, Json>): (r: Result<At<Json>>)
    ensures r.Ok? ==> idx < r.value.next <= |v|
    decreases |v| - idx, 2
  {
    if idx >= |v| then Err(OutOfRange)
    else if v[idx] == 0xff then Ok(At(Object(result), idx + 1))
    else
      var e :- DecodePair(v, idx);
      DecodeOpenMap(v, e.next, result[e.value.0 := e.value.1])
  }

  /** `from_cbor_internal`, which moves the index it is given. */
  method FromCbor(v: seq<byte>, idx: nat) returns (r: Result<At<Json>>)
    ensures r == Decode(v, idx)
    decreases |v| - idx, 0
  {
    hide DecodeChunks, DecodeElements, DecodeOpenArray, DecodePairs, DecodeOpenMap, DecodeSimple, BytesBehind;
    if idx >= |v| {
      return Err(OutOfRange);
    }
    var major, low := v[idx] / 32, v[idx] % 32;
    if major == 7 {
      return DecodeSimple(v, idx);
    }
    if major == 2 || major == 6 || 0x1c <= low <= 0x1e || (low == 0x1f && major < 3) {
      return Err(InvalidArgument);
    }
    if low == 0x1f {
      if major == 3 {
        r := ReadChunks(v, idx + 1);
      } else if major == 4 {
        r := ReadOpenArray(v, idx + 1);
      } else {
        r := ReadOpenMap(v, idx + 1);
      }
      return;
    }
    var n :- ReadArgument(v, idx, low);
    match major
    case 0 => r := Ok(At(Unsigned(n.value), n.next));
    case 1 => r := Ok(At(Negative(n.value), n.next));
    case 3 => r := TakeString(v, n.value, n.next);
    case 4 => r := ReadElements(v, n.next, n.value);
    case _ => r := ReadPairs(v, n.next, n.value);
  }

  method ReadArgument(v: seq<byte>, cur: nat, low: nat) returns (r: Result<At<nat>>)
    requires cur < |v| && low <= 0x1b
    ensures r == Argument(v, cur, low)
  {
    if low <= 0x17 {
      return Ok(At(low, cur + 1));
    }
    var size := if low == 0x18 then 1 else if low == 0x19 then 2 else if low == 0x1a then 4 else 8;
    var n :- GetFromVector(v, cur, size);
    return Ok(At(n, cur + 1 + size));
  }

  method ReadChunks(v: seq<byte>, start: nat) returns (r: Result<At<Json>>)
    requires start <= |v|
    ensures r == DecodeChunks(v, start, [])
    decreases |v| - start, 1
  {
    hide Decode;
    var result: Str, idx := [], start;
    while idx < |v| && v[idx] != 0xff
      invariant start <= idx <= |v|
      invariant DecodeChunks(v, start, []) == DecodeChunks(v, idx, result)
    {
      var chunk :- FromCbor(v, idx);
      var s :- AsString(chunk.value);
      result, idx := result + s, chunk.next;
    }
    return if idx < |v| then Ok(At(String(result), idx + 1)) else Err(OutOfRange);
  }

  method ReadElements(v: seq<byte>, start: nat, n: nat) returns (r: Result<At<Json>>)
    requires start <= |v|
    ensures r == DecodeElements(v, start, n, [])
    decreases |v| - start, 1
  {
    hide Decode;
    var result: seq<Json>, idx, i := [], start, 0;
    while i < n
      invariant 0 <= i <= n && start <= idx <= |v|
      invariant DecodeElements(v, start, n, []) == DecodeElements(v, idx, n - i, result)
    {
      var e :- FromCbor(v, idx);
      result, idx, i := result + [e.value], e.next, i + 1;
    }
    return Ok(At(Array(result), idx));
  }

  method ReadOpenArray(v: seq<byte>, start: nat) returns (r: Result<At<Json>>)
    requires start <= |v|
    ensures r == DecodeOpenArray(v, start, [])
    decreases |v| - start, 1
  {
    hide Decode;
    var result: seq<Json>, idx := [], start;
    while idx < |v| && v[idx] != 0xff
      invariant start <= idx <= |v|
      invariant DecodeOpenArray(v, start, []) == DecodeOpenArray(v, idx, result)
    {
      var e :- FromCbor(v, idx);
      result, idx := result + [e.value], e.next;
    }
    return if idx < |v| then Ok(At(Array(result), idx + 1)) else Err(OutOfRange);
  }

  method ReadPair(v: seq<byte>, start: nat) returns (r: Result<At<(Str, Json)>>)
    requires start <= |v|
    ensures r == DecodePair(v, start)
    decreases |v| - start, 1
  {
    hide Decode;
    var k :- FromCbor(v, start);
    var key :- AsString(k.value);
    var e :- FromCbor(v, k.next);
    return Ok(At((key, e.value), e.next));
  }

  method ReadPairs(v: seq<byte>, start: nat, n: nat) returns (r: Result<At<Json>>)
    requires start <= |v|
    ensures r == DecodePairs(v, start, n, map[])
    decreases |v| - start, 2
  {
    hide DecodePair;
    var result: map<Str, Json>, idx, i := map[], start, 0;
    while i < n
      invariant 0 <= i <= n && start <= idx <= |v|
      invariant DecodePairs(v, start, n, map[]) == DecodePairs(v, idx, n - i, result)
    {
      var e :- ReadPair(v, idx);
      result, idx, i := result[e.value.0 := e.value.1], e.next, i + 1;
    }
    return Ok(At(Object(result), idx));
  }

  method ReadOpenMap(v: seq<byte>, start: nat) returns (r: Result<At<Json>>)
    requires start <= |v|
    ensures r == DecodeOpenMap(v, start, map[])
    decreases |v| - start, 2
  {
    hide DecodePair;
    var result: map<Str, Json>, idx := map[], start;
    while idx < |v| && v[idx] != 0xff
      invariant start <= idx <= |v|
      invariant DecodeOpenMap(v, start, map[]) == DecodeOpenMap(v, idx, result)
    {
      var e :- ReadPair(v, idx);
      result, idx := result[e.value.0 := e.value.1], e.next;
    }
    return if idx < |v| then Ok(At(Object(result), idx + 1)) else Err(OutOfRange);
  }
}
