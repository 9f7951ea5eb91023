/** What the text between quotes means (RFC 7159, section 7), and that `get_string` reads exactly that. */
module JsonText {
  import opened Bytes
  import opened JsonEscape
  import opened JsonValue
  import opened Options

  // ---------------------------------------------------------------- UTF-8 (RFC 3629, section 3)

  predicate Continues(b: byte) { 0x80 <= b < 0xc0 }

  /** Six more bits behind p. */
  function More(p: nat, b: byte): nat
    requires Continues(b)
  {
    p * 64 + (b - 0x80)
  }

  /** The code point that these bytes are the shortest form of. */
  function CodePoint(bs: Str): Option<nat> {
    if |bs| == 1 && bs[0] < 0x80 then Some(bs[0])
    else if |bs| == 2 && 0xc0 <= bs[0] < 0xe0 && Continues(bs[1]) then
      AtLeast(0x80, More(bs[0] - 0xc0, bs[1]))
    else if |bs| == 3 && 0xe0 <= bs[0] < 0xf0 && Continues(bs[1]) && Continues(bs[2]) then
      AtLeast(0x800, More(More(bs[0] - 0xe0, bs[1]), bs[2]))
    else if |bs| == 4 && 0xf0 <= bs[0] < 0xf8 && Continues(bs[1]) && Continues(bs[2]) && Continues(bs[3]) then
      AtLeast(0x10000, More(More(More(bs[0] - 0xf0, bs[1]), bs[2]), bs[3]))
    else None
  }

  function AtLeast(least: nat, p: nat): Option<nat> { if p < least then None else Some(p) }

  /** A code point is written in the one way that is read back as it; there are none above 0x10ffff. */
  lemma Utf8Exactly(p: nat, bs: Str)
    ensures if p <= 0x10ffff then Utf8(p).Ok? && (Utf8(p) == Ok(bs) <==> CodePoint(bs) == Some(p))
            else Utf8(p) == Err(OutOfRange)
  {
    if p <= 0x10ffff {
      hide Utf8, CodePoint;
      Utf8Back(p);
      if CodePoint(bs) == Some(p) {
        CodePointBack(bs, p);
      }
    } else {
      assert Utf8(p) == Err(OutOfRange);
    }
  }

  lemma MoreApart(p: nat, b: byte)
    requires Continues(b)
    ensures More(p, b) / 64 == p && 0x80 + More(p, b) % 64 == b
  {}

  lemma Divided(p: nat)
    ensures p / 64 / 64 == p / 4096 && p / 4096 / 64 == p / 262144
  {}

  lemma TwoPoint(x: byte, y: byte)
    requires 0xc0 <= x < 0xe0 && Continues(y)
    ensures CodePoint([x, y]) == AtLeast(0x80, More(x - 0xc0, y))
  {
    hide More;
  }

  lemma ThreePoint(x: byte, y: byte, z: byte)
    requires 0xe0 <= x < 0xf0 && Continues(y) && Continues(z)
    ensures CodePoint([x, y, z]) == AtLeast(0x800, More(More(x - 0xe0, y), z))
  {
    hide More;
  }

  lemma FourPoint(x: byte, y: byte, z: byte, w: byte)
    requires 0xf0 <= x < 0xf8 && Continues(y) && Continues(z) && Continues(w)
    ensures CodePoint([x, y, z, w]) == AtLeast(0x10000, More(More(More(x - 0xf0, y), z), w))
  {
    hide More;
  }

  /** The low six bits as a continuation byte. */
  function Low6(p: nat): (b: byte)
    ensures Continues(b)
  {
    0x80 + p % 64
  }

  lemma Joins(p: nat)
    ensures More(p / 64, Low6(p)) == p
  {}

  lemma Utf8Short(p: nat)
    ensures p < 0x80 ==> Utf8(p) == Ok([p])
    ensures 0x80 <= p <= 0x7ff ==> Utf8(p) == Ok([0xc0 + p / 64, Low6(p)])
  {}

  lemma Utf8Three(p: nat)
    requires 0x7ff < p <= 0xffff
    ensures Utf8(p) == Ok([0xe0 + p / 4096, Low6(p / 64), Low6(p)])
  {}

  lemma Utf8Four(p: nat)
    requires 0xffff < p <= 0x10ffff
    ensures Utf8(p) == Ok([0xf0 + p / 262144, Low6(p / 4096), Low6(p / 64), Low6(p)])
  {}

  lemma Utf8Back(p: nat)
    requires p <= 0x10ffff
    ensures Utf8(p).Ok? && CodePoint(Utf8(p).value) == Some(p)
  {
    if p < 0x80 {
      Utf8Short(p);
    } else {
      hide Low6, CodePoint, Utf8, More;
      Divided(p);
      Joins(p);
      if p <= 0x7ff {
        Utf8Short(p);
        TwoPoint(0xc0 + p / 64, Low6(p));
      } else if p <= 0xffff {
        Joins(p / 64);
        Utf8Three(p);
        ThreePoint(0xe0 + p / 4096, Low6(p / 64), Low6(p));
      } else {
        Joins(p / 64);
        Joins(p / 4096);
        Utf8Four(p);
        FourPoint(0xf0 + p / 262144, Low6(p / 4096), Low6(p / 64), Low6(p));
      }
    }
  }

  lemma ThreeBack(bs: Str, p: nat)
    requires |bs| == 3 && CodePoint(bs) == Some(p)
    ensures Utf8(p) == Ok(bs)
  {
    var q := More(bs[0] - 0xe0, bs[1]);
    assert q < 0x400 && p == More(q, bs[2]) < 0x10000;
    MoreApart(bs[0] - 0xe0, bs[1]);
    MoreApart(q, bs[2]);
    hide More, CodePoint;
    Divided(p);
    assert p / 4096 == bs[0] - 0xe0 && bs == [0xe0 + p / 4096, 0x80 + p / 64 % 64, 0x80 + p % 64];
  }

  lemma FourBack(bs: Str, p: nat)
    requires |bs| == 4 && CodePoint(bs) == Some(p) && p <= 0x10ffff
    ensures Utf8(p) == Ok(bs)
  {
    hide More;
    var q := More(bs[0] - 0xf0, bs[1]);
    var r := More(q, bs[2]);
    MoreApart(bs[0] - 0xf0, bs[1]);
    MoreApart(q, bs[2]);
    MoreApart(r, bs[3]);
    assert p == More(r, bs[3]) >= 0x10000;
    hide CodePoint;
    Divided(p);
    assert p / 262144 < 8 && bs == [0xf0 + p / 262144, 0x80 + p / 4096 % 64, 0x80 + p / 64 % 64, 0x80 + p % 64];
  }

  lemma CodePointBack(bs: Str, p: nat)
    requires CodePoint(bs) == Some(p) && p <= 0x10ffff
    ensures Utf8(p) == Ok(bs)
  {
    if |bs| == 1 {
      assert bs == [p];
    } else if |bs| == 2 {
      MoreApart(bs[0] - 0xc0, bs[1]);
      assert p / 64 < 32 && bs == [0xc0 + p / 64, 0x80 + p % 64];
    } else if |bs| == 3 {
      ThreeBack(bs, p);
    } else {
      FourBack(bs, p);
    }
  }

  // ---------------------------------------------------------------- the text

  /** A byte as it is, a byte with a letter of its own, or four hexadecimal digits in either case. */
  datatype Unit = Raw(c: byte) | Short(c: byte) | Code(p: nat, upper: seq<bool>)

  const LETTERS: map<byte, byte> := map[
    0x22 := 0x22, 0x5c := 0x5c, 0x2f := 0x2f, 0x08 := 0x62, 0x0c := 0x66, 0x0a := 0x6e, 0x0d := 0x72, 0x09 := 0x74]

  predicate Fine(u: Unit) {
    match u
    case Raw(c) => c >= 0x20 && c != QUOTE && c != BACKSLASH
    case Short(c) => c in LETTERS
    case Code(p, upper) => p < 0x10000 && |upper| == 4
  }

  function HexDigit(n: nat, upper: bool): byte
    requires n < 16
  {
    if n < 10 then 0x30 + n else if upper then 0x41 + n - 10 else 0x61 + n - 10
  }

  function Write(u: Unit): Str
    requires Fine(u)
  {
    match u
    case Raw(c) => [c]
    case Short(c) => [BACKSLASH, LETTERS[c]]
    case Code(p, up) => [BACKSLASH, LETTER_U, HexDigit(p / 4096, up[0]), HexDigit(p / 256 % 16, up[1]),
                         HexDigit(p / 16 % 16, up[2]), HexDigit(p % 16, up[3])]
  }

  predicate AllFine(us: seq<Unit>) { forall i | 0 <= i < |us| :: Fine(us[i]) }

  function WriteAll(us: seq<Unit>): Str
    requires AllFine(us)
  {
    if us == [] then [] else Write(us[0]) + WriteAll(us[1..])
  }

  predicate Leading(p: nat) { 0xd800 <= p < 0xdc00 }
  predicate Trailing(p: nat) { 0xdc00 <= p < 0xe000 }

  /** The code point of a surrogate pair. */
  function Paired(p: nat, q: nat): nat
    requires Leading(p) && Trailing(q)
  {
    0x10000 + (p - 0xd800) * 1024 + (q - 0xdc00)
  }

  /** What a text means: surrogates count in pairs, and one alone is refused. */
  function Read(us: seq<Unit>): Result<Str>
    requires AllFine(us)
  {
    if us == [] then Ok([])
    else
      match us[0]
      case Raw(c) => Joined([c], Read(us[1..]))
      case Short(c) => Joined([c], Read(us[1..]))
      case Code(p, _) =>
        if Leading(p) then
          if |us| >= 2 && us[1].Code? && Trailing(us[1].p) then Joined(Utf8(Paired(p, us[1].p)).value, Read(us[2..]))
          else Err(InvalidArgument)
        else if Trailing(p) then Err(InvalidArgument)
        else Joined(Utf8(p).value, Read(us[1..]))
  }

  function Joined(s: Str, r: Result<Str>): Result<Str> { if r.Ok? then Ok(s + r.value) else r }

  // ---------------------------------------------------------------- reading it

  lemma DigitBack(n: nat, upper: bool)
    requires n < 16
    ensures HexValue(HexDigit(n, upper)) == n
  {}

  lemma Nibbles(p: nat)
    ensures p / 4096 * 4096 + p / 256 % 16 * 256 + p / 16 % 16 * 16 + p % 16 == p
  {
    assert p / 16 / 16 == p / 256 && p / 256 / 16 == p / 4096;
  }

  lemma CodeBack(u: Unit, e: Str)
    requires u.Code? && Fine(u)
    ensures var w := Write(u) + e; |w| >= 6 && FourHex(w[2..]) && Hex4(w[2..]) == u.p && w[6..] == e
  {
    hide HexValue, HexDigit;
    var p, up, w := u.p, u.upper, Write(u) + e;
    Nibbles(p);
    DigitBack(p / 4096, up[0]);
    DigitBack(p / 256 % 16, up[1]);
    DigitBack(p / 16 % 16, up[2]);
    DigitBack(p % 16, up[3]);
    assert w[2..][0] == w[2] && w[2..][1] == w[3] && w[2..][2] == w[4] && w[2..][3] == w[5];
    assert w[6..] == e;
  }

  lemma ShortBack(c: byte)
    requires c in LETTERS
    ensures Meaning(LETTERS[c]) == c && LETTERS[c] != LETTER_U
  {}

  lemma TokenFront(u: Unit, e: Str)
    requires Fine(u) && Token(e)
    ensures Token(Write(u) + e)
  {
    hide HexValue, HexDigit, Meaning;
    var w := Write(u) + e;
    match u
    case Raw(c) => assert w[1..] == e;
    case Short(c) =>
      ShortBack(c);
      assert w[2..] == e;
    case Code(_, _) => CodeBack(u, e);
  }

  lemma {:induction false} TokenAll(us: seq<Unit>)
    requires AllFine(us)
    ensures Token(WriteAll(us))
  {
    hide Token, Write;
    if us == [] {
      NoText();
    } else {
      TokenAll(us[1..]);
      TokenFront(us[0], WriteAll(us[1..]));
    }
  }

  lemma NoText()
    ensures Token([]) && Unescape([]) == Ok([])
  {}

  /** What stands at the beginning of a text that does not begin with four digits. */
  lemma FirstByte(u: Unit, e: Str)
    requires Fine(u) && Token(e) && !u.Code?
    ensures var w := Write(u) + e; Token(w) && Unescape(w) == Joined([u.c], Unescape(e))
  {
    hide HexValue, HexDigit, Meaning;
    var w := Write(u) + e;
    TokenFront(u, e);
    if u.Short? {
      ShortBack(u.c);
      assert w[2..] == e;
    } else {
      assert w[1..] == e;
    }
  }

  /** And of one that does. */
  lemma FirstCode(u: Unit, e: Str)
    requires Fine(u) && Token(e) && u.Code? && !Leading(u.p)
    ensures var w := Write(u) + e;
      Token(w) && Unescape(w) == if Trailing(u.p) then Err(InvalidArgument) else Joined(Utf8(u.p).value, Unescape(e))
  {
    hide HexValue, HexDigit, Meaning, Token, Utf8;
    var w := Write(u) + e;
    TokenFront(u, e);
    CodeBack(u, e);
    Utf8Exactly(u.p, []);
    TokenCode(u, e);
  }

  lemma TokenCode(u: Unit, e: Str)
    requires Fine(u) && Token(e) && u.Code?
    ensures var w := Write(u) + e; |w| >= 6 && w[0] == BACKSLASH && w[1] == LETTER_U && w[6..] == e
  {
    CodeBack(u, e);
  }

  /** A leading surrogate with nothing behind it that completes it. */
  lemma FirstLone(u: Unit, e: Str)
    requires Fine(u) && Token(e) && u.Code? && Leading(u.p)
    requires |e| < 2 || e[0] != BACKSLASH || e[1] != LETTER_U
    ensures Token(Write(u) + e) && Unescape(Write(u) + e) == Err(InvalidArgument)
  {
    hide HexValue, HexDigit, Meaning, Token, Utf8;
    var w := Write(u) + e;
    TokenFront(u, e);
    CodeBack(u, e);
    TokenCode(u, e);
    assert |e| >= 2 ==> w[6] == e[0] && w[7] == e[1];
  }

  lemma PairedIs(p: nat, q: nat)
    requires Leading(p) && Trailing(q)
    ensures p * 1024 + q - 0x35fdc00 == Paired(p, q) && 0x10000 <= Paired(p, q) <= 0x10ffff
  {}

  lemma FirstPair(u: Unit, v: Unit, e: Str)
    requires Fine(u) && Fine(v) && Token(e) && u.Code? && v.Code? && Leading(u.p)
    ensures var w := Write(u) + (Write(v) + e);
      Token(w) && Unescape(w) ==
        if Trailing(v.p) then Joined(Utf8(Paired(u.p, v.p)).value, Unescape(e)) else Err(InvalidArgument)
  {
    hide HexValue, HexDigit, Meaning, Token, Utf8, Write, Hex4, FourHex;
    var f := Write(v) + e;
    var w := Write(u) + f;
    TokenFront(v, e);
    TokenFront(u, f);
    CodeBack(v, e);
    CodeBack(u, f);
    TokenCode(v, e);
    TokenCode(u, f);
    assert w[6] == f[0] && w[7] == f[1] && w[8..] == f[2..] && w[12..] == f[6..];
    if Trailing(v.p) {
      PairedIs(u.p, v.p);
      Utf8Exactly(Paired(u.p, v.p), []);
    }
  }

  lemma ReadPair(us: seq<Unit>)
    requires AllFine(us) && |us| >= 2
    ensures WriteAll(us) == Write(us[0]) + (Write(us[1]) + WriteAll(us[2..]))
  {
    hide Write;
    assert us[1..][0] == us[1] && us[1..][1..] == us[2..];
  }

  /** A text that does not begin with four digits does not look as if it did. */
  lemma NoCodeFirst(us: seq<Unit>)
    requires AllFine(us) && (us == [] || !us[0].Code?)
    ensures var e := WriteAll(us); |e| < 2 || e[0] != BACKSLASH || e[1] != LETTER_U
  {
    if us != [] && us[0].Short? { ShortBack(us[0].c); }
  }

  /**
   * Any text between quotes is read as it means: bytes and letters one by one, four digits as the code point they are, and
   * two surrogates as the one code point of the pair; and it is refused if and only if a surrogate stands alone.
   */
  lemma {:induction false} ReadsText(us: seq<Unit>)
    requires AllFine(us)
    ensures Token(WriteAll(us)) && Unescape(WriteAll(us)) == Read(us)
    decreases |us|
  {
    hide Token, Write, Unescape, Utf8;
    TokenAll(us);
    if us == [] {
      NoText();
    } else if !us[0].Code? {
      ReadsText(us[1..]);
      FirstByte(us[0], WriteAll(us[1..]));
    } else if !Leading(us[0].p) {
      ReadsText(us[1..]);
      FirstCode(us[0], WriteAll(us[1..]));
    } else if |us| >= 2 && us[1].Code? {
      ReadsText(us[2..]);
      ReadPair(us);
      FirstPair(us[0], us[1], WriteAll(us[2..]));
    } else {
      ReadsText(us[1..]);
      NoCodeFirst(us[1..]);
      FirstLone(us[0], WriteAll(us[1..]));
    }
  }

  // ---------------------------------------------------------------- there is no other text

  predicate UpperHex(c: byte) { 0x41 <= c <= 0x46 }

  lemma DigitOf(c: byte)
    requires HexValue(c) >= 0
    ensures HexDigit(HexValue(c), UpperHex(c)) == c
  {}

  lemma LetterOf(l: byte)
    requires Meaning(l) >= 0
    ensures Meaning(l) in LETTERS && LETTERS[Meaning(l)] == l
  {}

  lemma Hex4Nibbles(a: nat, b: nat, c: nat, d: nat)
    requires a < 16 && b < 16 && c < 16 && d < 16
    ensures var p := a * 4096 + b * 256 + c * 16 + d;
      p < 0x10000 && p / 4096 == a && p / 256 % 16 == b && p / 16 % 16 == c && p % 16 == d
  {
    var p := a * 4096 + b * 256 + c * 16 + d;
    assert p / 16 == a * 256 + b * 16 + c;
    assert p / 256 == a * 16 + b;
  }

  /** The first unit of a token. */
  lemma FrontUnit(e: Str) returns (u: Unit, n: nat)
    requires Token(e) && e != []
    ensures Fine(u) && 0 < n <= |e| && Token(e[n..]) && Write(u) + e[n..] == e
  {
    hide HexValue, HexDigit, Meaning;
    if e[0] != BACKSLASH {
      u, n := Raw(e[0]), 1;
    } else if e[1] != LETTER_U {
      LetterOf(e[1]);
      u, n := Short(Meaning(e[1])), 2;
      assert e == Write(u) + e[2..];
    } else {
      var d := e[2..];
      var a, b, c, f := HexValue(d[0]), HexValue(d[1]), HexValue(d[2]), HexValue(d[3]);
      Hex4Nibbles(a, b, c, f);
      DigitOf(d[0]);
      DigitOf(d[1]);
      DigitOf(d[2]);
      DigitOf(d[3]);
      u, n := Code(Hex4(d), [UpperHex(d[0]), UpperHex(d[1]), UpperHex(d[2]), UpperHex(d[3])]), 6;
      assert e[..6] == [e[0], e[1], d[0], d[1], d[2], d[3]];
      assert Write(u) == e[..6];
    }
  }

  /** Every token is such a text, so that `ReadsText` says what `get_string` does with any of them. */
  lemma {:induction false} EveryToken(e: Str) returns (us: seq<Unit>)
    requires Token(e)
    ensures AllFine(us) && WriteAll(us) == e
  {
    hide Token, Write;
    if e == [] {
      us := [];
    } else {
      var u, n := FrontUnit(e);
      var rest := EveryToken(e[n..]);
      us := [u] + rest;
      assert us[1..] == rest;
    }
  }

  // ---------------------------------------------------------------- what is written

  /**
   * The unit that `escape_string` writes for a byte: as it is if it can be, else a letter if it has one, else lower-case
   * digits.
   */
  lemma EscapeUnit(c: byte) returns (u: Unit)
    ensures Fine(u) && EscapeOf(c) == Write(u) && Read([u]) == Ok([c]) && (u.Code? ==> u == Code(c, [false, false, false, false]))
    ensures forall v | Fine(v) && Read([v]) == Ok([c]) :: |EscapeOf(c)| <= |Write(v)|
  {
    hide Hexify, HexDigit;
    u := if Letter(c) != 0 then Short(c) else if c <= 0x1f then Code(c, [false, false, false, false]) else Raw(c);
    LetterUnit(c);
    if u.Code? { CodeUnit(c); }
    OneUnit(u);
    forall v | Fine(v) && Read([v]) == Ok([c]) ensures |EscapeOf(c)| <= |Write(v)| {
      OneUnit(v);
    }
  }

  lemma LetterUnit(c: byte)
    ensures Letter(c) != 0 ==> c in LETTERS && LETTERS[c] == Letter(c)
    ensures Letter(c) == 0 ==> c != QUOTE && c != BACKSLASH && (c in LETTERS ==> c == 0x2f)
  {}

  lemma CodeUnit(c: byte)
    requires c <= 0x1f
    ensures EscapeOf(c) == Write(Code(c, [false, false, false, false])) || Letter(c) != 0
  {}

  /** What one unit means. */
  lemma OneUnit(u: Unit)
    requires Fine(u)
    ensures !u.Code? ==> Read([u]) == Ok([u.c])
    ensures u.Code? && u.p < 0x80 ==> Read([u]) == Ok([u.p])
  {
    var us := [u];
    assert us[1..] == [] && us[0] == u;
    assert Read(us[1..]) == Ok([]);
    if u.Code? {
      if u.p < 0x80 { assert [u.p] + [] == [u.p]; }
    } else {
      assert [u.c] + [] == [u.c];
    }
  }
}
