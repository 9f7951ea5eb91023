/** Strings between quotes (RFC 7159): `escape_string`, and `get_string` of the lexer. */
module JsonEscape {
  import opened Bytes
  import opened JsonValue

  const QUOTE: byte := 0x22
  const BACKSLASH: byte := 0x5c
  const LETTER_U: byte := 0x75

  /** The letter behind the backslash, for the bytes that have one. */
  function Letter(c: byte): byte {
    match c
    case 0x22 => 0x22
    case 0x5c => 0x5c
    case 0x08 => 0x62
    case 0x0c => 0x66
    case 0x0a => 0x6e
    case 0x0d => 0x72
    case 0x09 => 0x74
    case _ => 0
  }

  function Hexify(n: nat): byte
    requires n < 16
  {
    if n < 10 then 0x30 + n else 0x61 + (n - 10)
  }

  /** How one byte is written. Bytes from 0x80 on are negative characters to the program, and written as they are. */
  function EscapeOf(c: byte): Str {
    if Letter(c) != 0 then [BACKSLASH, Letter(c)]
    else if c <= 0x1f then [BACKSLASH, LETTER_U, 0x30, 0x30, Hexify(c / 16), Hexify(c % 16)]
    else [c]
  }

  function EscapeAll(s: Str): Str {
    if s == [] then [] else EscapeAll(s[..|s| - 1]) + EscapeOf(s[|s| - 1])
  }

  /** `extra_space`. */
  function ExtraSpace(s: Str): nat {
    if s == [] then 0 else ExtraSpace(s[..|s| - 1]) + |EscapeOf(s[|s| - 1])| - 1
  }

  lemma {:induction false} SpaceIsExact(s: Str)
    ensures |EscapeAll(s)| == |s| + ExtraSpace(s)
  {
    if s != [] { SpaceIsExact(s[..|s| - 1]); }
  }

  lemma {:induction false} SpaceGrows(s: Str, n: nat)
    requires n <= |s|
    ensures n + ExtraSpace(s[..n]) <= |s| + ExtraSpace(s)
    decreases |s| - n
  {
    if n < |s| {
      assert s[..n + 1][..n] == s[..n];
      SpaceGrows(s, n + 1);
    } else {
      assert s[..n] == s;
    }
  }

  lemma {:induction false} NothingToEscape(s: Str)
    requires ExtraSpace(s) == 0
    ensures EscapeAll(s) == s
  {
    if s != [] {
      NothingToEscape(s[..|s| - 1]);
      assert s == s[..|s| - 1] + [s[|s| - 1]];
    }
  }

  /** The body of the loop of `escape_string`: one byte of the string goes into the buffer. */
  method WriteEscaped(c: byte, result: array<byte>, pos: nat) returns (end: nat)
    requires pos + |EscapeOf(c)| <= result.Length
    requires forall k | pos <= k < result.Length :: result[k] == BACKSLASH
    modifies result
    ensures end == pos + |EscapeOf(c)| && result[pos..end] == EscapeOf(c)
    ensures forall k | 0 <= k < pos || end <= k < result.Length :: result[k] == old(result[k])
  {
    hide Letter, Hexify;
    BackslashLetter();
    if Letter(c) != 0 {
      if c != BACKSLASH {
        result[pos + 1] := Letter(c);
      }
      end := pos + 2;
    } else if c <= 0x1f {
      result[pos + 1], result[pos + 2], result[pos + 3] := LETTER_U, 0x30, 0x30;
      result[pos + 4], result[pos + 5] := Hexify(c / 16), Hexify(c % 16);
      end := pos + 6;
    } else {
      result[pos] := c;
      end := pos + 1;
    }
  }

  /** `escape_string`: the buffer is filled with backslashes first, and written to its last byte. */
  method EscapeString(s: Str) returns (r: Str)
    ensures r == EscapeAll(s)
  {
    hide EscapeOf, EscapeAll, ExtraSpace;
    var space := ExtraSpace(s);
    if space == 0 {
      NothingToEscape(s);
      return s;
    }
    var result := new byte[|s| + space](_ => BACKSLASH);
    var pos := 0;
    assert s[..0] == [] && result[..0] == [];
    EscapeNone();
    for i := 0 to |s|
      invariant pos == |EscapeAll(s[..i])| == i + ExtraSpace(s[..i]) <= result.Length
      invariant result[..pos] == EscapeAll(s[..i])
      invariant forall k | pos <= k < result.Length :: result[k] == BACKSLASH
    {
      EscapeNext(s, i);
      SpaceGrows(s, i + 1);
      ghost var before := result[..pos];
      var end := WriteEscaped(s[i], result, pos);
      assert result[..pos] == before && result[..end] == before + result[pos..end];
      pos := end;
    }
    assert s[..|s|] == s;
    SpaceIsExact(s);
    assert result[..] == result[..pos];
    r := result[..];
  }

  lemma EscapeNone()
    ensures EscapeAll([]) == [] && ExtraSpace([]) == 0
  {}

  lemma BackslashLetter()
    ensures Letter(BACKSLASH) == BACKSLASH
  {}

  lemma EscapeNext(s: Str, i: nat)
    requires i < |s|
    ensures EscapeAll(s[..i + 1]) == EscapeAll(s[..i]) + EscapeOf(s[i])
    ensures ExtraSpace(s[..i + 1]) == ExtraSpace(s[..i]) + |EscapeOf(s[i])| - 1
  {
    hide EscapeOf;
    assert s[..i + 1][..i] == s[..i];
  }

  // ---------------------------------------------------------------- reading back

  /** The byte a letter behind a backslash stands for, if it is one. */
  function Meaning(l: byte): (r: int)
    ensures -1 <= r < 256
  {
    match l
    case 0x74 => 0x09
    case 0x62 => 0x08
    case 0x66 => 0x0c
    case 0x6e => 0x0a
    case 0x72 => 0x0d
    case 0x5c => 0x5c
    case 0x2f => 0x2f
    case 0x22 => 0x22
    case _ => -1
  }

  function HexValue(c: byte): (r: int)
    ensures -1 <= r < 16
  {
    if 0x30 <= c <= 0x39 then c - 0x30
    else if 0x61 <= c <= 0x66 then c - 0x61 + 10
    else if 0x41 <= c <= 0x46 then c - 0x41 + 10
    else -1
  }

  predicate FourHex(e: Str) {
    |e| >= 4 && HexValue(e[0]) >= 0 && HexValue(e[1]) >= 0 && HexValue(e[2]) >= 0 && HexValue(e[3]) >= 0
  }

  /** The code point in four digits. */
  function Hex4(e: Str): nat
    requires FourHex(e)
  {
    HexValue(e[0]) * 4096 + HexValue(e[1]) * 256 + HexValue(e[2]) * 16 + HexValue(e[3])
  }

  /** What the lexer accepts between the quotes. */
  predicate Token(e: Str) {
    e == [] ||
    if e[0] != BACKSLASH then e[0] != QUOTE && e[0] > 0x1f && Token(e[1..])
    else |e| >= 2 &&
         if e[1] == LETTER_U then FourHex(e[2..]) && Token(e[6..]) else Meaning(e[1]) >= 0 && Token(e[2..])
  }

  function Utf8(p: nat): Result<Str> {
    if p < 0x80 then Ok([p])
    else if p <= 0x7ff then Ok([0xc0 + p / 64 % 32, 0x80 + p % 64])
    else if p <= 0xffff then Ok([0xe0 + p / 4096 % 16, 0x80 + p / 64 % 64, 0x80 + p % 64])
    else if p <= 0x10ffff then Ok([0xf0 + p / 262144 % 8, 0x80 + p / 4096 % 64, 0x80 + p / 64 % 64, 0x80 + p % 64])
    else Err(OutOfRange)
  }

  predicate High(p: nat) { 0xd800 <= p <= 0xdbff }

  predicate Low(p: nat) { 0xdc00 <= p <= 0xdfff }

  /** `to_unicode`. */
  function ToUnicode(p: nat, q: nat): Result<Str> {
    if !High(p) then Utf8(p)
    else if Low(q) then Utf8(p * 1024 + q - 0x35fdc00)
    else Err(InvalidArgument)
  }

  /** The bytes of one escape, and how many it takes. */
  datatype Piece = Piece(bytes: Str, len: nat)

  lemma SecondEscape(e: Str)
    requires Token(e) && |e| >= 8 && e[0] == BACKSLASH && e[1] == LETTER_U && e[6] == BACKSLASH && e[7] == LETTER_U
    ensures |e| >= 12 && FourHex(e[8..]) && Token(e[12..])
  {
    var t := e[6..];
    assert Token(t) && t[0] == BACKSLASH && t[1] == LETTER_U;
    assert t[2..] == e[8..];
    assert t[6..] == e[12..];
  }

  /** What stands at the beginning of a token that is not empty. */
  function First(e: Str): (r: Result<Piece>)
    requires Token(e) && e != []
    ensures r.Ok? ==> 0 < r.value.len <= |e| && Token(e[r.value.len..])
  {
    if e[0] != BACKSLASH then Ok(Piece([e[0]], 1))
    else if e[1] != LETTER_U then Ok(Piece([Meaning(e[1])], 2))
    else
      var p := Hex4(e[2..]);
      if High(p) then
        if |e| < 8 || e[6] != BACKSLASH || e[7] != LETTER_U then Err(InvalidArgument)
        else
          SecondEscape(e);
          var s :- ToUnicode(p, Hex4(e[8..]));
          Ok(Piece(s, 12))
      else if Low(p) then Err(InvalidArgument)
      else
        var s :- ToUnicode(p, 0);
        Ok(Piece(s, 6))
  }

  /** `get_string` on what stands between the quotes. */
  function Unescape(e: Str): Result<Str>
    requires Token(e)
  {
    if e == [] then Ok([])
    else
      var f :- First(e);
      var rest :- Unescape(e[f.len..]);
      Ok(f.bytes + rest)
  }

  /** The result when `done` was read before. */
  function After(done: Str, r: Result<Str>): Result<Str> {
    if r.Ok? then Ok(done + r.value) else r
  }

  /** The loop of `get_string`: text up to the next backslash is copied at once. */
  method GetString(e: Str) returns (r: Result<Str>)
    requires Token(e)
    ensures r == Unescape(e)
  {
    hide Token, First;
    var result: Str, i := [], 0;
    assert e[0..] == e;
    assert After([], Unescape(e)) == Unescape(e) by {
      if Unescape(e).Ok? { assert [] + Unescape(e).value == Unescape(e).value; }
    }
    while i < |e|
      invariant 0 <= i <= |e| && Token(e[i..])
      invariant Unescape(e) == After(result, Unescape(e[i..]))
      decreases |e| - i
    {
      if e[i] != BACKSLASH {
        var k := i;
        while k < |e| && e[k] != BACKSLASH
          invariant i <= k <= |e| && Token(e[k..])
          invariant Unescape(e) == After(result, Unescape(e[k..])) && (k == i ==> e[k] != BACKSLASH)
          decreases |e| - k
        {
          CopyOne(e[k..], result);
          assert e[k..][1..] == e[k + 1..];
          result := result + [e[k]];
          k := k + 1;
        }
        i := k;
      } else {
        Turn(e[i..], result);
        var f :- First(e[i..]);
        assert e[i..][f.len..] == e[i + f.len..];
        result := result + f.bytes;
        i := i + f.len;
      }
    }
    assert e[i..] == [] && result + [] == result;
    return Ok(result);
  }

  lemma Turn(e: Str, done: Str)
    requires Token(e) && e != []
    ensures var f := First(e);
      After(done, Unescape(e)) == if f.Ok? then After(done + f.value.bytes, Unescape(e[f.value.len..])) else Err(f.error)
  {
    hide First, Token;
    var f := First(e);
    if f.Ok? {
      var rest := Unescape(e[f.value.len..]);
      if rest.Ok? {
        assert done + (f.value.bytes + rest.value) == done + f.value.bytes + rest.value;
      }
    }
  }

  lemma CopyOne(e: Str, done: Str)
    requires Token(e) && e != [] && e[0] != BACKSLASH
    ensures Token(e[1..]) && After(done, Unescape(e)) == After(done + [e[0]], Unescape(e[1..]))
  {
    Turn(e, done);
  }

  // ---------------------------------------------------------------- round trip

  lemma EscapeFront(s: Str)
    requires s != []
    ensures EscapeAll(s) == EscapeOf(s[0]) + EscapeAll(s[1..])
    decreases |s|
  {
    hide EscapeOf;
    var n := |s| - 1;
    if n > 0 {
      EscapeFront(s[..n]);
      assert s[..n][1..] == s[1..][..n - 1];
    } else {
      assert s[..0] == [] && s[1..] == [];
    }
  }

  lemma HexBack(n: nat)
    requires n < 16
    ensures HexValue(Hexify(n)) == n
  {}

  /** One escaped byte is a piece of its own, and stands for that byte. */
  lemma EscapeBack(c: byte, e: Str)
    requires Token(e)
    ensures var w := EscapeOf(c) + e; Token(w) && First(w) == Ok(Piece([c], |EscapeOf(c)|)) && w[|EscapeOf(c)|..] == e
  {
    hide Hexify, HexValue;
    var w := EscapeOf(c) + e;
    assert w[|EscapeOf(c)|..] == e;
    if Letter(c) != 0 {
      LetterBack(c);
      assert w[2..] == e;
    } else if c <= 0x1f {
      HexBack(0);
      ZeroDigit();
      HexBack(c / 16);
      HexBack(c % 16);
      var t := w[2..];
      assert t[0] == 0x30 && t[1] == 0x30 && t[2] == Hexify(c / 16) && t[3] == Hexify(c % 16);
      assert w[6..] == e;
    } else {
      NoLetter(c);
      assert w[1..] == e;
    }
  }

  lemma ZeroDigit()
    ensures Hexify(0) == 0x30
  {}

  lemma LetterBack(c: byte)
    requires Letter(c) != 0
    ensures Meaning(Letter(c)) == c && Letter(c) != LETTER_U
  {}

  lemma NoLetter(c: byte)
    requires Letter(c) == 0
    ensures c != BACKSLASH && c != QUOTE
  {}

  /** Any string, escaped, is a token of the lexer, and reads back as itself. */
  lemma {:induction false} EscapeRoundTrip(s: Str)
    ensures Token(EscapeAll(s)) && Unescape(EscapeAll(s)) == Ok(s)
  {
    hide Token, First, EscapeOf;
    if s == [] {
      EmptyToken();
    } else {
      EscapeRoundTrip(s[1..]);
      EscapeFront(s);
      EscapeBack(s[0], EscapeAll(s[1..]));
      assert s == [s[0]] + s[1..];
    }
  }

  lemma EmptyToken()
    ensures EscapeAll([]) == [] && Token([])
  {}
}
