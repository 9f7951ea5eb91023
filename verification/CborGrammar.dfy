/** The byte strings that `from_cbor` accepts (RFC 7049, section 2), and what each of them means. */
module CborGrammar {
  import opened Bytes
  import opened JsonValue
  import opened Cbor
  import opened CborFloat
  import opened CborRoundTrip

  /**
   * An item as it can be written; w is the width of its argument in bytes, 0 for one in the initial byte. The items of
   * members are keys and values in turn.
   */
  datatype Item =
    | Number(n: nat, w: nat)
    | Minus(n: nat, w: nat)
    | Text(s: Str, w: nat)
    | Chunks(items: seq<Item>)
    | Elements(items: seq<Item>, w: nat)
    | OpenElements(items: seq<Item>)
    | Members(items: seq<Item>, w: nat)
    | OpenMembers(items: seq<Item>)
    | False | True | Nil
    | HalfFloat(bits: nat)
    | SingleFloat(bits: nat)
    | DoubleFloat(bits: nat)

  predicate Fits(n: nat, w: nat) {
    if w == 0 then n < 24 else (w == 1 || w == 2 || w == 4 || w == 8) && n < Pow256(w)
  }

  /** Only strings can be chunks or keys, and a string in chunks is one of them. */
  predicate IsText(i: Item) { i.Text? || i.Chunks? }

  predicate Legal(i: Item)
    decreases i
  {
    match i
    case Number(n, w) => Fits(n, w)
    case Minus(n, w) => Fits(n, w)
    case Text(s, w) => Fits(|s|, w)
    case Chunks(items) => AllLegal(items) && forall k | 0 <= k < |items| :: IsText(items[k])
    case Elements(items, w) => Fits(|items|, w) && AllLegal(items)
    case OpenElements(items) => AllLegal(items)
    case Members(items, w) => Fits(|items| / 2, w) && AllLegal(items) && Keyed(items)
    case OpenMembers(items) => AllLegal(items) && Keyed(items)
    case HalfFloat(bits) => bits < Pow256(2)
    case SingleFloat(bits) => bits < Pow256(4)
    case DoubleFloat(bits) => bits < Pow256(8)
    case _ => true
  }

  predicate AllLegal(items: seq<Item>)
    decreases items
  {
    items == [] || (Legal(items[0]) && AllLegal(items[1..]))
  }

  predicate Keyed(items: seq<Item>) {
    |items| % 2 == 0 && forall k | 0 <= k < |items| && k % 2 == 0 :: IsText(items[k])
  }

  // ---------------------------------------------------------------- how it is written

  /** The initial byte, of a major type and what stands in its low five bits, and the argument behind it. */
  function Lead(major: nat, n: nat, w: nat): seq<byte>
    requires major <= 5 && Fits(n, w)
  {
    if w == 0 then [32 * major + n]
    else [32 * major + if w == 1 then 24 else if w == 2 then 25 else if w == 4 then 26 else 27] + BE(n, w)
  }

  const BREAK: byte := 0xff

  function Write(i: Item): seq<byte>
    requires Legal(i)
    decreases i
  {
    match i
    case Number(n, w) => Lead(0, n, w)
    case Minus(n, w) => Lead(1, n, w)
    case Text(s, w) => Lead(3, |s|, w) + s
    case Chunks(items) => [0x7f] + WriteAll(items) + [BREAK]
    case Elements(items, w) => Lead(4, |items|, w) + WriteAll(items)
    case OpenElements(items) => [0x9f] + WriteAll(items) + [BREAK]
    case Members(items, w) => Lead(5, |items| / 2, w) + WriteAll(items)
    case OpenMembers(items) => [0xbf] + WriteAll(items) + [BREAK]
    case False => [0xf4]
    case True => [0xf5]
    case Nil => [0xf6]
    case HalfFloat(bits) => [0xf9] + BE(bits, 2)
    case SingleFloat(bits) => [0xfa] + BE(bits, 4)
    case DoubleFloat(bits) => [0xfb] + BE(bits, 8)
  }

  function WriteAll(items: seq<Item>): seq<byte>
    requires AllLegal(items)
    decreases items
  {
    if items == [] then [] else Write(items[0]) + WriteAll(items[1..])
  }

  // ---------------------------------------------------------------- what it means

  /** The bytes of a string, in one piece or in chunks. */
  function TextOf(i: Item): Str
    decreases i
  {
    match i
    case Text(s, _) => s
    case Chunks(items) => TextsOf(items)
    case _ => []
  }

  function TextsOf(items: seq<Item>): Str
    decreases items
  {
    if items == [] then [] else TextOf(items[0]) + TextsOf(items[1..])
  }

  /** -1 - n; behind the range of a signed number it comes out 2^64 higher. */
  function MinusOf(n: nat): Json
    requires n < 0x1_0000_0000_0000_0000
  {
    if n < 0x8000_0000_0000_0000 then Int(-1 - n) else Int(0x1_0000_0000_0000_0000 - 1 - n)
  }

  /** The value of an item; of a key that comes more than once the last value counts. */
  function Meaning(i: Item): Json
    requires Legal(i)
    decreases i
  {
    match i
    case Number(n, w) => FitsBound(n, w); UInt(n)
    case Minus(n, w) => FitsBound(n, w); MinusOf(n)
    case Text(s, _) => String(s)
    case Chunks(items) => String(TextsOf(items))
    case Elements(items, _) => Array(Meanings(items))
    case OpenElements(items) => Array(Meanings(items))
    case Members(items, _) => Object(MapOf(map[], items))
    case OpenMembers(items) => Object(MapOf(map[], items))
    case False => Bool(false)
    case True => Bool(true)
    case Nil => Null
    case HalfFloat(bits) => Float(HalfBits(bits))
    case SingleFloat(bits) => Float(SingleBits(bits))
    case DoubleFloat(bits) => PowerValues(); Float(bits)
  }

  function Meanings(items: seq<Item>): (r: seq<Json>)
    requires AllLegal(items)
    decreases items
  {
    if items == [] then [] else [Meaning(items[0])] + Meanings(items[1..])
  }

  function MapOf(done: map<Str, Json>, items: seq<Item>): map<Str, Json>
    requires AllLegal(items) && |items| % 2 == 0
    decreases items
  {
    if items == [] then done
    else
      AllLegalAt(items);
      assert items[2..] == items[1..][1..];
      MapOf(done[TextOf(items[0]) := Meaning(items[1])], items[2..])
  }

  lemma AllLegalAt(items: seq<Item>)
    requires AllLegal(items) && |items| >= 2
    ensures Legal(items[0]) && Legal(items[1]) && AllLegal(items[2..])
  {
    assert items[1..][0] == items[1] && items[1..][1..] == items[2..];
  }

  lemma FitsBound(n: nat, w: nat)
    requires Fits(n, w)
    ensures n < 0x1_0000_0000_0000_0000
  {
    PowerValues();
  }

  /** The double for a half: that of its three fields, except that every NaN becomes the same quiet one. */
  function HalfBits(bits: nat): uint64
    requires bits < Pow256(2)
  {
    Power2Values();
    PowerValues();
    var exponent, fraction := bits / 1024 % 32, bits % 1024;
    Widen(bits >= 0x8000, exponent, if exponent == 31 && fraction != 0 then 512 else fraction, 10, 15)
  }

  function SingleBits(bits: nat): uint64
    requires bits < Pow256(4)
  {
    Power2Values();
    PowerValues();
    Widen(bits >= 0x8000_0000, bits / 0x80_0000 % 256, bits % 0x80_0000, 23, 127)
  }

  /** Both shorter floats keep their value, the sign of a zero included. */
  lemma FloatsKept(bits: nat)
    ensures bits < Pow256(2) ==>
      FloatValue(HalfBits(bits)) == ShortValue(bits / 0x8000 == 1, bits / 1024 % 32, bits % 1024, 10, 15) &&
      (HalfBits(bits) >= 0x8000_0000_0000_0000 <==> bits >= 0x8000)
    ensures bits < Pow256(4) ==>
      FloatValue(SingleBits(bits)) == ShortValue(bits / 0x8000_0000 == 1, bits / 0x80_0000 % 256, bits % 0x80_0000, 23, 127) &&
      (SingleBits(bits) >= 0x8000_0000_0000_0000 <==> bits >= 0x8000_0000)
  {
    hide FloatValue, Widen, Pow2, Power2;
    Power2Values();
    PowerValues();
    if bits < Pow256(2) {
      var exponent, fraction := bits / 1024 % 32, bits % 1024;
      var f := if exponent == 31 && fraction != 0 then 512 else fraction;
      WidenValue(bits >= 0x8000, exponent, f, 10, 15);
      WidenSign(bits >= 0x8000, exponent, f, 10, 15);
      assert ShortValue(bits >= 0x8000, exponent, f, 10, 15) == ShortValue(bits >= 0x8000, exponent, fraction, 10, 15);
    }
    if bits < Pow256(4) {
      WidenValue(bits >= 0x8000_0000, bits / 0x80_0000 % 256, bits % 0x80_0000, 23, 127);
      WidenSign(bits >= 0x8000_0000, bits / 0x80_0000 % 256, bits % 0x80_0000, 23, 127);
    }
  }

  lemma WidenSign(negative: bool, exponent: nat, fraction: nat, f: nat, bias: nat)
    requires ShortFormat(f, bias) && exponent <= 2 * bias + 1 && fraction < Power2(f)
    ensures Widen(negative, exponent, fraction, f, bias) >= 0x8000_0000_0000_0000 <==> negative
  {
    hide Power2, Log2, Shifted;
    if exponent == 0 && fraction > 0 {
      Log2Bounds(fraction);
      if Log2(fraction) >= f { Power2Monotone(f, Log2(fraction)); }
    }
  }

  // ---------------------------------------------------------------- every item is accepted

  lemma LeadBack(v: seq<byte>, idx: nat, major: nat, n: nat, w: nat)
    requires major <= 5 && Fits(n, w) && Holds(v, idx, Lead(major, n, w))
    ensures idx < |v| && v[idx] / 32 == major && v[idx] % 32 <= 0x1b
    ensures Argument(v, idx, v[idx] % 32) == Ok(At(n, idx + |Lead(major, n, w)|)) && idx + |Lead(major, n, w)| <= |v|
  {
    hide BE, FromBE, Pow256, BytesBehind, Argument, Holds;
    if w == 0 {
      NarrowBack(v, idx, major, n);
    } else {
      WideBack(v, idx, major, if w == 1 then 24 else if w == 2 then 25 else if w == 4 then 26 else 27, n);
    }
    HoldsLength(v, idx, Lead(major, n, w));
  }

  lemma HoldsLength(v: seq<byte>, idx: nat, b: seq<byte>)
    requires Holds(v, idx, b)
    ensures idx + |b| <= |v| && (b != [] ==> v[idx] == b[0])
  {
    if b != [] { assert v[idx] == v[idx..idx + |b|][0]; }
  }

  /** No item begins with the break byte. */
  lemma NoBreak(i: Item)
    requires Legal(i)
    ensures Write(i) != [] && Write(i)[0] != BREAK
  {
    hide BE, WriteAll;
  }

  lemma MeaningText(i: Item)
    requires Legal(i) && IsText(i)
    ensures Meaning(i) == String(TextOf(i))
  {}

  /** In a list that begins with an item. */
  lemma FrontHeld(v: seq<byte>, idx: nat, items: seq<Item>, behind: seq<byte>)
    requires AllLegal(items) && items != [] && Holds(v, idx, WriteAll(items) + behind)
    ensures Holds(v, idx, Write(items[0])) && Holds(v, idx + |Write(items[0])|, WriteAll(items[1..]) + behind)
    ensures |WriteAll(items)| == |Write(items[0])| + |WriteAll(items[1..])|
    ensures idx < |v| && v[idx] != BREAK
  {
    hide Write, Holds;
    var a, b := Write(items[0]), WriteAll(items[1..]);
    assert WriteAll(items) + behind == a + (b + behind);
    HoldsParts(v, idx, a, b + behind);
    NoBreak(items[0]);
    HoldsLength(v, idx, a);
  }

  lemma {:induction false} ElementsAccepted(v: seq<byte>, idx: nat, items: seq<Item>, done: seq<Json>, behind: seq<byte>)
    requires AllLegal(items) && Holds(v, idx, WriteAll(items) + behind)
    ensures idx <= |v| && DecodeElements(v, idx, |items|, done) == Ok(At(Array(done + Meanings(items)), idx + |WriteAll(items)|))
    decreases items
  {
    hide Decode, Write, Meaning, Holds;
    HoldsLength(v, idx, WriteAll(items) + behind);
    if items == [] {
      assert done + Meanings(items) == done;
    } else {
      FrontHeld(v, idx, items, behind);
      Accepted(v, idx, items[0]);
      var e := Meaning(items[0]);
      ElementsAccepted(v, idx + |Write(items[0])|, items[1..], done + [e], behind);
      assert done + [e] + Meanings(items[1..]) == done + Meanings(items);
    }
  }

  lemma {:induction false} OpenAccepted(v: seq<byte>, idx: nat, items: seq<Item>, done: seq<Json>)
    requires AllLegal(items) && Holds(v, idx, WriteAll(items) + [BREAK])
    ensures DecodeOpenArray(v, idx, done) == Ok(At(Array(done + Meanings(items)), idx + |WriteAll(items)| + 1))
    decreases items
  {
    hide Decode, Write, Meaning, Holds;
    HoldsLength(v, idx, WriteAll(items) + [BREAK]);
    if items == [] {
      assert done + Meanings(items) == done;
    } else {
      FrontHeld(v, idx, items, [BREAK]);
      Accepted(v, idx, items[0]);
      var e := Meaning(items[0]);
      OpenAccepted(v, idx + |Write(items[0])|, items[1..], done + [e]);
      assert done + [e] + Meanings(items[1..]) == done + Meanings(items);
    }
  }

  lemma {:induction false} ChunksAccepted(v: seq<byte>, idx: nat, items: seq<Item>, done: Str)
    requires AllLegal(items) && (forall k | 0 <= k < |items| :: IsText(items[k])) && Holds(v, idx, WriteAll(items) + [BREAK])
    ensures DecodeChunks(v, idx, done) == Ok(At(String(done + TextsOf(items)), idx + |WriteAll(items)| + 1))
    decreases items
  {
    hide Decode, Write, Meaning, Holds, TextOf, Legal, BE, Pow256, FromBE;
    HoldsLength(v, idx, WriteAll(items) + [BREAK]);
    if items == [] {
      assert done + TextsOf(items) == done;
    } else {
      FrontHeld(v, idx, items, [BREAK]);
      Accepted(v, idx, items[0]);
      MeaningText(items[0]);
      var t := TextOf(items[0]);
      ChunksAccepted(v, idx + |Write(items[0])|, items[1..], done + t);
      assert done + t + TextsOf(items[1..]) == done + TextsOf(items);
    }
  }

  /** A key and its value at the front of a list. */
  lemma {:induction false} PairAccepted(v: seq<byte>, idx: nat, items: seq<Item>, behind: seq<byte>)
    requires AllLegal(items) && Keyed(items) && |items| >= 2 && Holds(v, idx, WriteAll(items) + behind)
    ensures Legal(items[1]) && AllLegal(items[2..]) && Keyed(items[2..])
    ensures idx < |v| && v[idx] != BREAK
    ensures var n := idx + |WriteAll(items)| - |WriteAll(items[2..])|;
      idx < n && DecodePair(v, idx) == Ok(At((TextOf(items[0]), Meaning(items[1])), n)) &&
      Holds(v, n, WriteAll(items[2..]) + behind)
    decreases items, 0
  {
    hide Decode, Write, Meaning, Holds, TextOf;
    AllLegalAt(items);
    FrontHeld(v, idx, items, behind);
    NoBreak(items[0]);
    assert items[1..][0] == items[1] && items[1..][1..] == items[2..];
    var m := idx + |Write(items[0])|;
    FrontHeld(v, m, items[1..], behind);
    Accepted(v, idx, items[0]);
    Accepted(v, m, items[1]);
    MeaningText(items[0]);
  }

  lemma {:induction false} PairsAccepted(v: seq<byte>, idx: nat, items: seq<Item>, done: map<Str, Json>, behind: seq<byte>)
    requires AllLegal(items) && Keyed(items) && Holds(v, idx, WriteAll(items) + behind)
    ensures idx <= |v| && DecodePairs(v, idx, |items| / 2, done) == Ok(At(Object(MapOf(done, items)), idx + |WriteAll(items)|))
    decreases items, 1
  {
    hide DecodePair, Write, Meaning, Holds, TextOf, AllLegal;
    HoldsLength(v, idx, WriteAll(items) + behind);
    if items != [] {
      PairAccepted(v, idx, items, behind);
      var n := idx + |WriteAll(items)| - |WriteAll(items[2..])|;
      PairsAccepted(v, n, items[2..], done[TextOf(items[0]) := Meaning(items[1])], behind);
      AllLegalAt(items);
    }
  }

  lemma {:induction false} OpenPairsAccepted(v: seq<byte>, idx: nat, items: seq<Item>, done: map<Str, Json>)
    requires AllLegal(items) && Keyed(items) && Holds(v, idx, WriteAll(items) + [BREAK])
    ensures DecodeOpenMap(v, idx, done) == Ok(At(Object(MapOf(done, items)), idx + |WriteAll(items)| + 1))
    decreases items, 1
  {
    hide DecodePair, Write, Meaning, Holds, TextOf, AllLegal;
    HoldsLength(v, idx, WriteAll(items) + [BREAK]);
    if items != [] {
      PairAccepted(v, idx, items, [BREAK]);
      var n := idx + |WriteAll(items)| - |WriteAll(items[2..])|;
      OpenPairsAccepted(v, n, items[2..], done[TextOf(items[0]) := Meaning(items[1])]);
      AllLegalAt(items);
    }
  }

  lemma NumberAccepted(v: seq<byte>, idx: nat, i: Item)
    requires Legal(i) && (i.Number? || i.Minus? || i.Text?) && Holds(v, idx, Write(i))
    ensures Decode(v, idx) == Ok(At(Meaning(i), idx + |Write(i)|))
  {
    hide Argument, Lead, Fits, DecodeElements, DecodePairs, DecodeChunks, DecodeOpenArray, DecodeOpenMap, DecodeSimple;
    match i {
      case Number(n, w) => LeadBack(v, idx, 0, n, w); FitsBound(n, w);
      case Minus(n, w) => LeadBack(v, idx, 1, n, w); FitsBound(n, w);
      case Text(s, w) =>
        HoldsParts(v, idx, Lead(3, |s|, w), s);
        LeadBack(v, idx, 3, |s|, w);
    }
  }

  lemma TwoBytes(a: byte, b: byte)
    ensures FromBE([a, b]) == 256 * a + b
  {
    var s, t := [a, b], [a];
    assert s[..1] == t && t[..0] == [];
    assert FromBE(t) == 256 * FromBE(t[..0]) + t[0];
  }

  lemma SimpleAccepted(v: seq<byte>, idx: nat, i: Item)
    requires Legal(i) && (i.False? || i.True? || i.Nil?) && Holds(v, idx, Write(i))
    ensures Decode(v, idx) == Ok(At(Meaning(i), idx + |Write(i)|))
  {
    hide Argument, Lead, Fits, DecodeElements, DecodePairs, DecodeChunks, DecodeOpenArray, DecodeOpenMap, BytesBehind;
    HoldsLength(v, idx, Write(i));
  }

  lemma FloatAccepted(v: seq<byte>, idx: nat, i: Item)
    requires Legal(i) && (i.HalfFloat? || i.SingleFloat? || i.DoubleFloat?) && Holds(v, idx, Write(i))
    ensures Decode(v, idx) == Ok(At(Meaning(i), idx + |Write(i)|))
  {
    hide Argument, Lead, Fits, DecodeElements, DecodePairs, DecodeChunks, DecodeOpenArray, DecodeOpenMap, Widen, BytesBehind, FromBE,
         Pow256, Half, Single, HalfBits, SingleBits, BE;
    match i {
      case HalfFloat(bits) =>
        BytesBack(v, idx, 0xf9, bits, 2);
        HalfRead(v, idx, bits);
      case SingleFloat(bits) =>
        BytesBack(v, idx, 0xfa, bits, 4);
        SingleRead(v, idx, bits);
      case DoubleFloat(bits) =>
        BytesBack(v, idx, 0xfb, bits, 8);
        PowerValues();
    }
  }

  lemma HalfRead(v: seq<byte>, idx: nat, bits: nat)
    requires bits < Pow256(2) && idx + 2 < |v| && BytesBehind(v, idx, 2) == Ok(bits)
    ensures Half(v, idx) == HalfBits(bits)
  {
    hide Widen, FromBE;
    TwoBytes(v[idx + 1], v[idx + 2]);
    assert v[idx + 1..idx + 3] == [v[idx + 1], v[idx + 2]];
  }

  lemma SingleRead(v: seq<byte>, idx: nat, bits: nat)
    requires bits < Pow256(4) && idx + 4 < |v| && BytesBehind(v, idx, 4) == Ok(bits)
    ensures Single(v, idx) == SingleBits(bits)
  {
    hide Widen, FromBE;
  }

  lemma ListAccepted(v: seq<byte>, idx: nat, i: Item)
    requires Legal(i) && (i.Elements? || i.Members?) && Holds(v, idx, Write(i))
    ensures Decode(v, idx) == Ok(At(Meaning(i), idx + |Write(i)|))
    decreases i, 0
  {
    hide Argument, Lead, Fits, DecodeElements, DecodePairs, DecodeChunks, DecodeOpenArray, DecodeOpenMap, DecodeSimple, WriteAll,
         Holds, MapOf;
    var n := if i.Elements? then |i.items| else |i.items| / 2;
    var lead := Lead(if i.Elements? then 4 else 5, n, i.w);
    HoldsParts(v, idx, lead, WriteAll(i.items));
    LeadBack(v, idx, if i.Elements? then 4 else 5, n, i.w);
    var at := idx + |lead|;
    assert WriteAll(i.items) + [] == WriteAll(i.items);
    if i.Elements? {
      ElementsAccepted(v, at, i.items, [], []);
      assert [] + Meanings(i.items) == Meanings(i.items);
    } else {
      PairsAccepted(v, at, i.items, map[], []);
    }
  }

  lemma OpenListAccepted(v: seq<byte>, idx: nat, i: Item)
    requires Legal(i) && (i.Chunks? || i.OpenElements? || i.OpenMembers?) && Holds(v, idx, Write(i))
    ensures Decode(v, idx) == Ok(At(Meaning(i), idx + |Write(i)|))
    decreases i, 0
  {
    hide Argument, Lead, Fits, DecodeElements, DecodePairs, DecodeChunks, DecodeOpenArray, DecodeOpenMap, DecodeSimple, WriteAll,
         Holds, MapOf, TextsOf;
    var first: byte := if i.Chunks? then 0x7f else if i.OpenElements? then 0x9f else 0xbf;
    var w := WriteAll(i.items) + [BREAK];
    assert Write(i) == [first] + w;
    HoldsParts(v, idx, [first], w);
    HoldsLength(v, idx, [first]);
    match i {
      case Chunks(items) =>
        ChunksAccepted(v, idx + 1, items, []);
        assert [] + TextsOf(items) == TextsOf(items);
      case OpenElements(items) =>
        OpenAccepted(v, idx + 1, items, []);
        assert [] + Meanings(items) == Meanings(items);
      case OpenMembers(items) => OpenPairsAccepted(v, idx + 1, items, map[]);
    }
  }

  /** Wherever an item stands, it is read as what it means, and nothing behind it is touched. */
  lemma Accepted(v: seq<byte>, idx: nat, i: Item)
    requires Legal(i) && Holds(v, idx, Write(i))
    ensures Decode(v, idx) == Ok(At(Meaning(i), idx + |Write(i)|))
    decreases i, 1
  {
    hide Legal, Holds, Write, Decode, Meaning;
    match i
    case Number(_, _) | Minus(_, _) | Text(_, _) => NumberAccepted(v, idx, i);
    case Elements(_, _) | Members(_, _) => ListAccepted(v, idx, i);
    case Chunks(_) | OpenElements(_) | OpenMembers(_) => OpenListAccepted(v, idx, i);
    case False | True | Nil => SimpleAccepted(v, idx, i);
    case _ => FloatAccepted(v, idx, i);
  }

  // ---------------------------------------------------------------- and nothing else is

  lemma {:induction false} BEBack(b: seq<byte>)
    ensures BE(FromBE(b), |b|) == b
  {
    if b != [] {
      var n := |b| - 1;
      BEBack(b[..n]);
      assert FromBE(b) / 256 == FromBE(b[..n]) && FromBE(b) % 256 == b[n];
      assert b == b[..n] + [b[n]];
    }
  }

  lemma BehindIs(v: seq<byte>, cur: nat, size: nat)
    requires BytesBehind(v, cur, size).Ok? && size > 0
    ensures var n := BytesBehind(v, cur, size).value;
      n < Pow256(size) && cur < |v| && Holds(v, cur, [v[cur]] + BE(n, size))
  {
    var b := v[cur + 1..cur + 1 + size];
    BEBack(b);
    FromBEBound(b);
    assert v[cur..cur + 1 + size] == [v[cur]] + b;
  }

  lemma LeadAt(v: seq<byte>, idx: nat) returns (w: nat)
    requires idx < |v| && v[idx] / 32 <= 5 && v[idx] % 32 <= 0x1b && Argument(v, idx, v[idx] % 32).Ok?
    ensures var a := Argument(v, idx, v[idx] % 32).value;
      Fits(a.value, w) && Holds(v, idx, Lead(v[idx] / 32, a.value, w)) && a.next == idx + |Lead(v[idx] / 32, a.value, w)|
  {
    hide BE, Pow256, BytesBehind;
    var low := v[idx] % 32;
    if low <= 0x17 {
      w := 0;
      assert v[idx..idx + 1] == [v[idx]];
    } else {
      w := Width(low);
      BehindIs(v, idx, w);
    }
  }

  lemma HoldsJoined(v: seq<byte>, idx: nat, a: seq<byte>, b: seq<byte>)
    requires Holds(v, idx, a) && Holds(v, idx + |a|, b)
    ensures Holds(v, idx, a + b)
  {
    assert v[idx..idx + |a| + |b|] == v[idx..idx + |a|] + v[idx + |a|..idx + |a| + |b|];
  }

  lemma HoldsByte(v: seq<byte>, idx: nat)
    requires idx < |v|
    ensures Holds(v, idx, [v[idx]])
  {}

  lemma Front(i: Item, rest: seq<Item>)
    requires Legal(i) && AllLegal(rest)
    ensures AllLegal([i] + rest) && WriteAll([i] + rest) == Write(i) + WriteAll(rest)
  {
    hide Write;
    assert ([i] + rest)[1..] == rest;
  }

  lemma TextMeaning(i: Item)
    requires Legal(i) && Meaning(i).String?
    ensures IsText(i)
  {}

  lemma {:induction false} ElementsAt(v: seq<byte>, idx: nat, n: nat, done: seq<Json>) returns (items: seq<Item>)
    requires idx <= |v| && DecodeElements(v, idx, n, done).Ok?
    ensures |items| == n && AllLegal(items) && Holds(v, idx, WriteAll(items))
    decreases |v| - idx, 3
  {
    hide Decode, Write, Meaning;
    items := [];
    if n > 0 {
      var i := ItemAt(v, idx);
      var e := Decode(v, idx).value;
      var rest := ElementsAt(v, e.next, n - 1, done + [e.value]);
      items := [i] + rest;
      Front(i, rest);
      HoldsJoined(v, idx, Write(i), WriteAll(rest));
    }
  }

  lemma {:induction false} OpenAt(v: seq<byte>, idx: nat, done: seq<Json>) returns (items: seq<Item>)
    requires DecodeOpenArray(v, idx, done).Ok?
    ensures AllLegal(items) && Holds(v, idx, WriteAll(items) + [BREAK])
    decreases |v| - idx, 3
  {
    hide Decode, Write, Meaning;
    if v[idx] == BREAK {
      items := [];
      HoldsByte(v, idx);
      assert WriteAll(items) + [BREAK] == [BREAK];
    } else {
      var i := ItemAt(v, idx);
      var e := Decode(v, idx).value;
      var rest := OpenAt(v, e.next, done + [e.value]);
      items := [i] + rest;
      FrontJoined(v, idx, i, rest, [BREAK]);
    }
  }

  lemma FrontJoined(v: seq<byte>, idx: nat, i: Item, rest: seq<Item>, behind: seq<byte>)
    requires Legal(i) && AllLegal(rest) && Holds(v, idx, Write(i)) && Holds(v, idx + |Write(i)|, WriteAll(rest) + behind)
    ensures AllLegal([i] + rest) && Holds(v, idx, WriteAll([i] + rest) + behind)
  {
    hide Write, Holds;
    Front(i, rest);
    HoldsJoined(v, idx, Write(i), WriteAll(rest) + behind);
    assert Write(i) + (WriteAll(rest) + behind) == WriteAll([i] + rest) + behind;
  }

  lemma {:induction false} ChunksAt(v: seq<byte>, idx: nat, done: Str) returns (items: seq<Item>)
    requires DecodeChunks(v, idx, done).Ok?
    ensures AllLegal(items) && Holds(v, idx, WriteAll(items) + [BREAK]) && forall k | 0 <= k < |items| :: IsText(items[k])
    decreases |v| - idx, 3
  {
    hide Decode, Write, Meaning;
    if v[idx] == BREAK {
      items := [];
      HoldsByte(v, idx);
      assert WriteAll(items) + [BREAK] == [BREAK];
    } else {
      var i := ItemAt(v, idx);
      var e := Decode(v, idx).value;
      TextMeaning(i);
      var rest := ChunksAt(v, e.next, done + e.value.s);
      items := [i] + rest;
      FrontJoined(v, idx, i, rest, [BREAK]);
    }
  }

  lemma {:induction false} PairAt(v: seq<byte>, idx: nat) returns (k: Item, e: Item)
    requires DecodePair(v, idx).Ok?
    ensures Legal(k) && IsText(k) && Legal(e) && Holds(v, idx, Write(k)) && Holds(v, idx + |Write(k)|, Write(e))
    ensures DecodePair(v, idx).value.next == idx + |Write(k)| + |Write(e)|
    decreases |v| - idx, 3
  {
    hide Decode, Write, Meaning;
    k := ItemAt(v, idx);
    TextMeaning(k);
    e := ItemAt(v, Decode(v, idx).value.next);
  }

  lemma PairFront(v: seq<byte>, idx: nat, k: Item, e: Item, rest: seq<Item>, behind: seq<byte>)
    requires Legal(k) && IsText(k) && Legal(e) && AllLegal(rest) && Keyed(rest)
    requires Holds(v, idx, Write(k)) && Holds(v, idx + |Write(k)|, Write(e))
    requires Holds(v, idx + |Write(k)| + |Write(e)|, WriteAll(rest) + behind)
    ensures var items := [k, e] + rest; AllLegal(items) && Keyed(items) && Holds(v, idx, WriteAll(items) + behind)
  {
    hide Write, Holds, AllLegal;
    var items := [k, e] + rest;
    FrontJoined(v, idx + |Write(k)|, e, rest, behind);
    FrontJoined(v, idx, k, [e] + rest, behind);
    assert [k] + ([e] + rest) == items;
    forall m | 0 <= m < |items| && m % 2 == 0 ensures IsText(items[m]) {
      if m >= 2 { assert items[m] == rest[m - 2]; }
    }
  }

  lemma {:induction false} PairsAt(v: seq<byte>, idx: nat, n: nat, done: map<Str, Json>) returns (items: seq<Item>)
    requires idx <= |v| && DecodePairs(v, idx, n, done).Ok?
    ensures |items| == 2 * n && AllLegal(items) && Keyed(items) && Holds(v, idx, WriteAll(items) + [])
    decreases |v| - idx, 4
  {
    hide DecodePair, Write, Meaning;
    items := [];
    if n > 0 {
      var k, e := PairAt(v, idx);
      var p := DecodePair(v, idx).value;
      var rest := PairsAt(v, p.next, n - 1, done[p.value.0 := p.value.1]);
      items := [k, e] + rest;
      PairFront(v, idx, k, e, rest, []);
    }
  }

  lemma {:induction false} OpenPairsAt(v: seq<byte>, idx: nat, done: map<Str, Json>) returns (items: seq<Item>)
    requires DecodeOpenMap(v, idx, done).Ok?
    ensures AllLegal(items) && Keyed(items) && Holds(v, idx, WriteAll(items) + [BREAK])
    decreases |v| - idx, 4
  {
    hide DecodePair, Write, Meaning;
    if v[idx] == BREAK {
      items := [];
      HoldsByte(v, idx);
      assert WriteAll(items) + [BREAK] == [BREAK];
    } else {
      var k, e := PairAt(v, idx);
      var p := DecodePair(v, idx).value;
      var rest := OpenPairsAt(v, p.next, done[p.value.0 := p.value.1]);
      items := [k, e] + rest;
      PairFront(v, idx, k, e, rest, [BREAK]);
    }
  }

  /** The initial bytes 0xe0 to 0xff. */
  lemma SimpleAt(v: seq<byte>, idx: nat) returns (i: Item)
    requires idx < |v| && v[idx] >= 0xe0 && DecodeSimple(v, idx).Ok?
    ensures Legal(i) && Holds(v, idx, Write(i))
  {
    hide BE, Widen, FromBE, Pow256;
    HoldsByte(v, idx);
    match v[idx] {
      case 0xf4 => i := False;
      case 0xf5 => i := True;
      case 0xf6 => i := Nil;
      case 0xf9 => i := HalfFloat(BehindLong(v, idx, 2)); BehindIs(v, idx, 2);
      case 0xfa => i := SingleFloat(BehindLong(v, idx, 4)); BehindIs(v, idx, 4);
      case _ => i := DoubleFloat(BehindLong(v, idx, 8)); BehindIs(v, idx, 8);
    }
  }

  function BehindLong(v: seq<byte>, idx: nat, size: nat): nat
    requires idx + size < |v|
  {
    BytesBehind(v, idx, size).value
  }

  lemma ClosedAt(v: seq<byte>, idx: nat) returns (i: Item)
    requires Decode(v, idx).Ok? && v[idx] < 0xe0 && v[idx] % 32 != 0x1f
    ensures Legal(i) && Holds(v, idx, Write(i))
    decreases |v| - idx, 1
  {
    hide Argument, DecodeElements, DecodePairs, WriteAll, AllLegal, Lead, Holds, Fits, DecodeSimple;
    var w := LeadAt(v, idx);
    var a := Argument(v, idx, v[idx] % 32).value;
    match v[idx] / 32 {
      case 0 => i := Number(a.value, w);
      case 1 => i := Minus(a.value, w);
      case 3 =>
        var s := v[a.next..a.next + a.value];
        i := Text(s, w);
        assert Holds(v, a.next, s) by { TextAt(v, a.next, a.value); }
        HoldsJoined(v, idx, Lead(3, a.value, w), s);
      case 4 =>
        var items := ElementsAt(v, a.next, a.value, []);
        i := Elements(items, w);
        HoldsJoined(v, idx, Lead(4, a.value, w), WriteAll(items));
      case _ =>
        var items := PairsAt(v, a.next, a.value, map[]);
        i := Members(items, w);
        assert WriteAll(items) + [] == WriteAll(items);
        HoldsJoined(v, idx, Lead(5, a.value, w), WriteAll(items));
    }
  }

  lemma TextAt(v: seq<byte>, at: nat, n: nat)
    requires at + n <= |v|
    ensures Holds(v, at, v[at..at + n])
  {}

  lemma UnclosedAt(v: seq<byte>, idx: nat) returns (i: Item)
    requires Decode(v, idx).Ok? && v[idx] < 0xe0 && v[idx] % 32 == 0x1f
    ensures Legal(i) && Holds(v, idx, Write(i))
    decreases |v| - idx, 1
  {
    hide Argument, DecodeChunks, DecodeOpenArray, DecodeOpenMap, WriteAll, AllLegal, Lead, Holds, Fits, DecodeSimple;
    HoldsByte(v, idx);
    var items;
    match v[idx] / 32 {
      case 3 => items := ChunksAt(v, idx + 1, []); i := Chunks(items);
      case 4 => items := OpenAt(v, idx + 1, []); i := OpenElements(items);
      case _ => items := OpenPairsAt(v, idx + 1, map[]); i := OpenMembers(items);
    }
    HoldsJoined(v, idx, [v[idx]], WriteAll(items) + [BREAK]);
    assert Write(i) == [v[idx]] + (WriteAll(items) + [BREAK]);
  }

  lemma ItemAt(v: seq<byte>, idx: nat) returns (i: Item)
    requires Decode(v, idx).Ok?
    ensures Legal(i) && Holds(v, idx, Write(i)) && Decode(v, idx) == Ok(At(Meaning(i), idx + |Write(i)|))
    decreases |v| - idx, 2
  {
    assert idx < |v|;
    if v[idx] >= 0xe0 {
      i := SimpleAt(v, idx);
    } else if v[idx] % 32 != 0x1f {
      i := ClosedAt(v, idx);
    } else {
      i := UnclosedAt(v, idx);
    }
    hide Decode, Legal, Write, Meaning, Holds;
    Accepted(v, idx, i);
  }

  /** What is read from a place is exactly an item that stands there: its meaning, and the place behind it. */
  lemma AcceptsExactly(v: seq<byte>, idx: nat, j: Json, next: nat)
    ensures Decode(v, idx) == Ok(At(j, next)) <==>
            exists i :: Legal(i) && Holds(v, idx, Write(i)) && j == Meaning(i) && next == idx + |Write(i)|
  {
    hide Decode, Legal, Write, Meaning, Holds;
    if Decode(v, idx) == Ok(At(j, next)) {
      var i := ItemAt(v, idx);
    }
    if i :| Legal(i) && Holds(v, idx, Write(i)) && j == Meaning(i) && next == idx + |Write(i)| {
      Accepted(v, idx, i);
    }
  }

  // ---------------------------------------------------------------- what is written

  /** `to_cbor` writes the lead of an item in the shortest of the widths that fit. */
  lemma HeadShortest(major: nat, n: nat, w: nat)
    requires major <= 5 && SizedLength(n)
    ensures exists v :: Fits(n, v) && Head(32 * major, n) == Lead(major, n, v)
    ensures Fits(n, w) ==> |Head(32 * major, n)| <= |Lead(major, n, w)|
  {
    PowerValues();
    hide Pow256, BE;
    var v := if n <= 0x17 then 0 else if n <= 0xff then 1 else if n <= 0xffff then 2 else if n <= 0xffff_ffff then 4 else 8;
    assert Fits(n, v) && Head(32 * major, n) == Lead(major, n, v);
  }

  /** What `to_cbor` writes for a value is an item that means that value. */
  lemma EncodesItem(j: Json) returns (i: Item)
    requires Sized(j)
    ensures Legal(i) && Write(i) == Encode(j) && Meaning(i) == Norm(j)
  {
    hide Encode, Decode, Legal, Write, Meaning, Norm, Holds;
    var v := Encode(j);
    assert Holds(v, 0, v) by { WholeHeld(v); }
    ValueBack(v, 0, j);
    i := ItemAt(v, 0);
    HeldWhole(v, Write(i));
  }

  lemma WholeHeld(v: seq<byte>)
    ensures Holds(v, 0, v)
  {}

  lemma HeldWhole(v: seq<byte>, b: seq<byte>)
    requires Holds(v, 0, b) && |b| == |v|
    ensures b == v
  {}

  // ---------------------------------------------------------------- what is refused, and how

  /** Initial bytes that begin no item the reader knows: byte strings, tags, reserved widths and other simple values. */
  predicate Unknown(b: byte) {
    || 0x1c <= b <= 0x1f || 0x3c <= b <= 0x5f || 0x7c <= b <= 0x7e || 0x9c <= b <= 0x9e || 0xbc <= b <= 0xbe
    || 0xc0 <= b <= 0xf3 || b == 0xf7 || b == 0xf8 || 0xfc <= b
  }

  /** Whatever follows, an item that begins with such a byte is an invalid argument; one that is not there is out of range. */
  lemma UnknownRefused(v: seq<byte>, idx: nat)
    ensures idx >= |v| ==> Decode(v, idx) == Err(OutOfRange)
    ensures idx < |v| && Unknown(v[idx]) ==> Decode(v, idx) == Err(InvalidArgument)
    ensures idx < |v| && !Unknown(v[idx]) ==> exists i, w: seq<byte> :: Legal(i) && Write(i) == [v[idx]] + w
  {
    if idx < |v| && !Unknown(v[idx]) {
      var i := Known(v[idx]);
      hide Write, Legal;
      var w := Write(i)[1..];
      assert Write(i) == [v[idx]] + w;
    }
  }

  /** An item for every other initial byte. */
  lemma Known(b: byte) returns (i: Item)
    requires !Unknown(b)
    ensures Legal(i) && Write(i) != [] && Write(i)[0] == b
  {
    if b >= 0xe0 {
      i := KnownSimple(b);
    } else if b % 32 == 31 {
      i := if b / 32 == 3 then Chunks([]) else if b / 32 == 4 then OpenElements([]) else OpenMembers([]);
    } else {
      i := KnownLead(b / 32, b % 32);
    }
  }

  lemma KnownSimple(b: byte) returns (i: Item)
    requires !Unknown(b) && b >= 0xe0
    ensures Legal(i) && Write(i) != [] && Write(i)[0] == b
  {
    PowerValues();
    hide Pow256, BE;
    i := if b == 0xf4 then False else if b == 0xf5 then True else if b == 0xf6 then Nil
         else if b == 0xf9 then HalfFloat(0) else if b == 0xfa then SingleFloat(0) else DoubleFloat(0);
  }

  /** Of every major type with an argument, an item with every width of it. */
  lemma KnownLead(major: nat, low: nat) returns (i: Item)
    requires (major <= 1 || 3 <= major <= 5) && low <= 27
    ensures Legal(i) && Write(i) != [] && Write(i)[0] == 32 * major + low
  {
    PowerValues();
    hide Pow256, BE, AllLegal, WriteAll;
    var w := if low < 24 then 0 else Width(low);
    var n := if low < 24 then low else 0;
    assert Fits(n, w) && Lead(major, n, w)[0] == 32 * major + low;
    hide Fits, Lead;
    match major {
      case 0 => i := Number(n, w);
      case 1 => i := Minus(n, w);
      case 3 => i := Text(seq(n, _ => 0), w);
      case 4 =>
        NilsLegal(n);
        i := Elements(seq(n, _ => Nil), w);
      case _ =>
        EmptyTextsLegal(2 * n);
        i := Members(seq(2 * n, _ => Text([], 0)), w);
    }
  }

  lemma {:induction false} NilsLegal(n: nat)
    ensures AllLegal(seq(n, _ => Nil))
  {
    if n > 0 {
      assert seq(n, _ => Nil)[1..] == seq(n - 1, _ => Nil);
      NilsLegal(n - 1);
    }
  }

  lemma {:induction false} EmptyTextsLegal(n: nat)
    ensures AllLegal(seq(n, _ => Text([], 0)))
  {
    if n > 0 {
      assert seq(n, _ => Text([], 0))[1..] == seq(n - 1, _ => Text([], 0));
      EmptyTextsLegal(n - 1);
    }
  }

  /** A result that more bytes behind the input may change. */
  predicate Starved<T>(r: Result<T>) { r == Err(OutOfRange) }

  lemma BehindMore(v: seq<byte>, w: seq<byte>, cur: nat, size: nat)
    ensures !Starved(BytesBehind(v, cur, size)) ==> BytesBehind(v + w, cur, size) == BytesBehind(v, cur, size)
  {
    if cur + size + 1 <= |v| {
      assert (v + w)[cur + 1..cur + 1 + size] == v[cur + 1..cur + 1 + size];
    }
  }

  lemma ArgumentMore(v: seq<byte>, w: seq<byte>, cur: nat, low: nat)
    requires cur < |v| && low <= 0x1b
    ensures !Starved(Argument(v, cur, low)) ==> Argument(v + w, cur, low) == Argument(v, cur, low)
  {
    hide BytesBehind;
    BehindMore(v, w, cur, Width(low));
  }

  lemma StringMore(v: seq<byte>, w: seq<byte>, n: nat, at: nat)
    ensures !Starved(TakeString(v, n, at)) ==> TakeString(v + w, n, at) == TakeString(v, n, at)
  {
    if at + n <= |v| {
      assert (v + w)[at..at + n] == v[at..at + n];
    }
  }

  lemma SimpleMore(v: seq<byte>, w: seq<byte>, idx: nat)
    requires idx < |v|
    ensures !Starved(DecodeSimple(v, idx)) ==> DecodeSimple(v + w, idx) == DecodeSimple(v, idx)
  {
    hide BytesBehind, FromBE, Widen;
    BehindMore(v, w, idx, 8);
    if idx + 4 < |v| {
      assert (v + w)[idx + 1..idx + 5] == v[idx + 1..idx + 5];
    }
  }

  lemma {:induction false} ElementsMore(v: seq<byte>, w: seq<byte>, idx: nat, n: nat, done: seq<Json>)
    requires idx <= |v|
    ensures !Starved(DecodeElements(v, idx, n, done)) ==> DecodeElements(v + w, idx, n, done) == DecodeElements(v, idx, n, done)
    decreases |v| - idx, 3
  {
    hide Decode;
    if n > 0 {
      DecodeMore(v, w, idx);
      if Decode(v, idx).Ok? {
        var e := Decode(v, idx).value;
        ElementsMore(v, w, e.next, n - 1, done + [e.value]);
      }
    }
  }

  lemma {:induction false} OpenMore(v: seq<byte>, w: seq<byte>, idx: nat, done: seq<Json>)
    ensures !Starved(DecodeOpenArray(v, idx, done)) ==> DecodeOpenArray(v + w, idx, done) == DecodeOpenArray(v, idx, done)
    decreases |v| - idx, 3
  {
    hide Decode;
    if idx < |v| && v[idx] != 0xff {
      DecodeMore(v, w, idx);
      if Decode(v, idx).Ok? {
        var e := Decode(v, idx).value;
        OpenMore(v, w, e.next, done + [e.value]);
      }
    }
  }

  lemma {:induction false} ChunksMore(v: seq<byte>, w: seq<byte>, idx: nat, done: Str)
    ensures !Starved(DecodeChunks(v, idx, done)) ==> DecodeChunks(v + w, idx, done) == DecodeChunks(v, idx, done)
    decreases |v| - idx, 3
  {
    hide Decode;
    if idx < |v| && v[idx] != 0xff {
      DecodeMore(v, w, idx);
      if Decode(v, idx).Ok? && Decode(v, idx).value.value.String? {
        var e := Decode(v, idx).value;
        ChunksMore(v, w, e.next, done + e.value.s);
      }
    }
  }

  lemma {:induction false} PairMore(v: seq<byte>, w: seq<byte>, idx: nat)
    ensures !Starved(DecodePair(v, idx)) ==> DecodePair(v + w, idx) == DecodePair(v, idx)
    decreases |v| - idx, 3
  {
    hide Decode;
    DecodeMore(v, w, idx);
    if Decode(v, idx).Ok? { DecodeMore(v, w, Decode(v, idx).value.next); }
  }

  lemma {:induction false} PairsMore(v: seq<byte>, w: seq<byte>, idx: nat, n: nat, done: map<Str, Json>)
    requires idx <= |v|
    ensures !Starved(DecodePairs(v, idx, n, done)) ==> DecodePairs(v + w, idx, n, done) == DecodePairs(v, idx, n, done)
    decreases |v| - idx, 4
  {
    hide DecodePair;
    if n > 0 {
      PairMore(v, w, idx);
      if DecodePair(v, idx).Ok? {
        var e := DecodePair(v, idx).value;
        PairsMore(v, w, e.next, n - 1, done[e.value.0 := e.value.1]);
      }
    }
  }

  lemma {:induction false} OpenPairsMore(v: seq<byte>, w: seq<byte>, idx: nat, done: map<Str, Json>)
    ensures !Starved(DecodeOpenMap(v, idx, done)) ==> DecodeOpenMap(v + w, idx, done) == DecodeOpenMap(v, idx, done)
    decreases |v| - idx, 4
  {
    hide DecodePair;
    if idx < |v| && v[idx] != 0xff {
      PairMore(v, w, idx);
      if DecodePair(v, idx).Ok? {
        var e := DecodePair(v, idx).value;
        OpenPairsMore(v, w, e.next, done[e.value.0 := e.value.1]);
      }
    }
  }

  /** Every result but `OutOfRange`, a value or another error, stands however the input goes on. */
  lemma {:induction false} DecodeMore(v: seq<byte>, w: seq<byte>, idx: nat)
    ensures !Starved(Decode(v, idx)) ==> Decode(v + w, idx) == Decode(v, idx)
    decreases |v| - idx, 2
  {
    hide Argument, TakeString, DecodeSimple, DecodeElements, DecodePairs, DecodeChunks, DecodeOpenArray, DecodeOpenMap;
    if idx < |v| {
      var major, low := v[idx] / 32, v[idx] % 32;
      if major == 7 {
        SimpleMore(v, w, idx);
      } else if low == 0x1f {
        if major == 3 { ChunksMore(v, w, idx + 1, []); }
        else if major == 4 { OpenMore(v, w, idx + 1, []); }
        else if major == 5 { OpenPairsMore(v, w, idx + 1, map[]); }
      } else if low <= 0x1b {
        ArgumentMore(v, w, idx, low);
        if Argument(v, idx, low).Ok? {
          var n := Argument(v, idx, low).value;
          StringMore(v, w, n.value, n.next);
          if major == 4 { ElementsMore(v, w, n.next, n.value, []); }
          else if major == 5 { PairsMore(v, w, n.next, n.value, map[]); }
        }
      }
    }
  }

  /** So an item that is cut short, wherever it is cut, is refused as out of range. */
  lemma CutShort(i: Item, n: nat)
    requires Legal(i) && n < |Write(i)|
    ensures Decode(Write(i)[..n], 0) == Err(OutOfRange)
  {
    hide Decode, Legal, Write, Meaning;
    var b := Write(i);
    assert Holds(b, 0, b);
    Accepted(b, 0, i);
    DecodeMore(b[..n], b[n..], 0);
    assert b[..n] + b[n..] == b;
  }

  /** A key that is no string is refused once it is read, in either kind of map, and so is a chunk. */
  lemma NoTextRefused(i: Item, behind: seq<byte>)
    requires Legal(i) && !IsText(i)
    ensures Decode([0xa1] + Write(i) + behind, 0) == Err(DomainError)
    ensures Decode([0xbf] + Write(i) + behind, 0) == Err(DomainError)
    ensures Decode([0x7f] + Write(i) + behind, 0) == Err(DomainError)
  {
    hide Decode, Legal, Write, Holds, Meaning;
    NoTextMeaning(i);
    NoBreak(i);
    KeyRefused(0xa1, i, behind);
    KeyRefused(0xbf, i, behind);
    KeyRefused(0x7f, i, behind);
  }

  lemma NoTextMeaning(i: Item)
    requires Legal(i) && !IsText(i)
    ensures !Meaning(i).String?
  {}

  lemma KeyRefused(b: byte, i: Item, behind: seq<byte>)
    requires Legal(i) && !Meaning(i).String? && Write(i) != [] && Write(i)[0] != BREAK && (b == 0xa1 || b == 0xbf || b == 0x7f)
    ensures Decode([b] + Write(i) + behind, 0) == Err(DomainError)
  {
    hide Legal, Write, Meaning, Decode;
    var v := [b] + Write(i) + behind;
    assert v[1..1 + |Write(i)|] == Write(i) && Holds(v, 1, Write(i));
    Accepted(v, 1, i);
    assert v[0] == b && v[1] == Write(i)[0];
    BadKey(v, b);
  }

  lemma BadKey(v: seq<byte>, b: byte)
    requires |v| >= 2 && v[0] == b && v[1] != BREAK && (b == 0xa1 || b == 0xbf || b == 0x7f)
    requires Decode(v, 1).Ok? && !Decode(v, 1).value.value.String?
    ensures Decode(v, 0) == Err(DomainError)
  {
    assert DecodePair(v, 1) == Err(DomainError);
    hide DecodePair;
    if b == 0xa1 {
      assert Argument(v, 0, 1) == Ok(At(1, 1));
      assert DecodePairs(v, 1, 1, map[]) == Err(DomainError);
    } else if b == 0xbf {
      assert DecodeOpenMap(v, 1, map[]) == Err(DomainError);
    } else {
      assert DecodeChunks(v, 1, []) == Err(DomainError);
    }
  }
}
