/** JSON Pointer (RFC 6901): reference tokens, their escaped spelling, and array indices. */
module JsonPointer {
  import opened Bytes
  import opened JsonValue

  const TILDE: byte := 0x7e
  const SLASH: byte := 0x2f
  const ZERO: byte := 0x30
  const ONE: byte := 0x31
  const MINUS: byte := 0x2d

  // ---------------------------------------------------------------- replace_substring

  /** All occurrences of f in s, left to right and not overlapping, become t. */
  function ReplaceAll(s: Str, f: Str, t: Str): Str
    requires f != []
  {
    if |s| < |f| then s
    else if s[..|f|] == f then t + ReplaceAll(s[|f|..], f, t)
    else [s[0]] + ReplaceAll(s[1..], f, t)
  }

  /** f occurs in s at position i. */
  predicate Occurs(s: Str, f: Str, i: nat) {
    i + |f| <= |s| && s[i..i + |f|] == f
  }

  predicate Absent(s: Str, f: Str, from: nat, to: nat) {
    forall i | from <= i < to :: !Occurs(s, f, i)
  }

  lemma OccursShift(s: Str, f: Str, k: nat, i: nat)
    requires k <= |s|
    ensures Occurs(s[k..], f, i) <==> Occurs(s, f, k + i)
  {
    if k + i + |f| <= |s| {
      assert s[k..][i..i + |f|] == s[k + i..k + i + |f|];
    }
  }

  /** `std::string::find`: the first position from pos on where f occurs, or |s| when there is none. */
  method Find(s: Str, f: Str, pos: nat) returns (r: nat)
    requires f != [] && pos <= |s|
    ensures pos <= r <= |s| && Absent(s, f, pos, r)
    ensures r < |s| ==> Occurs(s, f, r)
  {
    r := pos;
    while r + |f| <= |s|
      invariant pos <= r <= |s| && Absent(s, f, pos, r)
    {
      if s[r..r + |f|] == f {
        return;
      }
      r := r + 1;
    }
    r := |s|;
  }

  /** Text before the first occurrence is copied. */
  lemma {:induction false} ReplaceSkip(s: Str, f: Str, t: Str, n: nat)
    requires f != [] && n <= |s| && Absent(s, f, 0, n)
    ensures ReplaceAll(s, f, t) == s[..n] + ReplaceAll(s[n..], f, t)
  {
    if n == 0 {
      assert s[0..] == s;
    } else if |s| < |f| {
      assert s[..n] + s[n..] == s;
    } else {
      assert !Occurs(s, f, 0);
      assert s[0..0 + |f|] == s[..|f|];
      forall i | 0 <= i < n - 1 ensures !Occurs(s[1..], f, i) {
        OccursShift(s, f, 1, i);
      }
      ReplaceSkip(s[1..], f, t, n - 1);
      assert s[1..][n - 1..] == s[n..];
      assert [s[0]] + s[1..][..n - 1] == s[..n];
    }
  }

  /** The text from an occurrence on, once it is replaced and the search goes on behind it. */
  lemma ReplaceHere(f: Str, rest: Str, t: Str)
    requires f != []
    ensures ReplaceAll(f + rest, f, t) == t + ReplaceAll(rest, f, t)
  {
    assert (f + rest)[..|f|] == f && (f + rest)[|f|..] == rest;
  }

  lemma ReplaceNext(a: Str, rest: Str, f: Str, t: Str, next: nat)
    requires f != [] && |a| + |t| <= next <= |a + t + rest| && Absent(a + t + rest, f, |a| + |t|, next)
    ensures a + ReplaceAll(f + rest, f, t) == (a + t + rest)[..next] + ReplaceAll((a + t + rest)[next..], f, t)
  {
    hide Occurs, ReplaceAll;
    var s, k := a + t + rest, |a| + |t|;
    var n := next - k;
    ReplaceHere(f, rest, t);
    assert s[k..] == rest;
    forall i | 0 <= i < n ensures !Occurs(rest, f, i) {
      OccursShift(s, f, k, i);
    }
    ReplaceSkip(rest, f, t, n);
    assert s[next..] == rest[n..];
    assert s[..next] == a + t + rest[..n];
    calc {
      a + ReplaceAll(f + rest, f, t);
      a + (t + ReplaceAll(rest, f, t));
      a + (t + (rest[..n] + ReplaceAll(rest[n..], f, t)));
      (a + t + rest[..n]) + ReplaceAll(rest[n..], f, t);
    }
  }

  /** `replace_substring`, which changes its argument in place. */
  method ReplaceSubstring(s0: Str, f: Str, t: Str) returns (s: Str)
    requires f != []
    ensures s == ReplaceAll(s0, f, t)
  {
    s := s0;
    var pos := Find(s, f, 0);
    ReplaceSkip(s0, f, t, pos);
    while pos < |s|
      invariant 0 <= pos <= |s| && (pos < |s| ==> Occurs(s, f, pos))
      invariant ReplaceAll(s0, f, t) == s[..pos] + ReplaceAll(s[pos..], f, t)
      decreases |s| - pos
    {
      ghost var before, rest := s[..pos], s[pos + |f|..];
      assert s[pos..] == f + rest;
      s := s[..pos] + t + s[pos + |f|..];
      pos := Find(s, f, pos + |t|);
      ReplaceNext(before, rest, f, t, pos);
    }
    assert s[..pos] + s[pos..] == s;
  }

  // ---------------------------------------------------------------- escaping a token

  /** `escape`: "~" becomes "~0", then "/" becomes "~1". */
  function Escape(s: Str): Str {
    ReplaceAll(ReplaceAll(s, [TILDE], [TILDE, ZERO]), [SLASH], [TILDE, ONE])
  }

  /** `unescape`: "~1" becomes "/", then "~0" becomes "~". */
  function Unescape(s: Str): Str {
    ReplaceAll(ReplaceAll(s, [TILDE, ONE], [SLASH]), [TILDE, ZERO], [TILDE])
  }

  /** The spelling of one byte of a token. */
  function EscapeByte(c: byte): Str {
    if c == TILDE then [TILDE, ZERO] else if c == SLASH then [TILDE, ONE] else [c]
  }

  /** Escaping spells a token byte by byte. */
  function Spell(s: Str): Str {
    if s == [] then [] else EscapeByte(s[0]) + Spell(s[1..])
  }

  function SpellTilde(s: Str): Str {
    if s == [] then [] else (if s[0] == TILDE then [TILDE, ZERO] else [s[0]]) + SpellTilde(s[1..])
  }

  lemma {:induction false} TildesFirst(s: Str)
    ensures ReplaceAll(s, [TILDE], [TILDE, ZERO]) == SpellTilde(s)
  {
    if s != [] {
      assert s[..1] == [s[0]];
      TildesFirst(s[1..]);
    }
  }

  lemma ReplaceOne(c: byte, rest: Str)
    ensures ReplaceAll([c] + rest, [SLASH], [TILDE, ONE]) ==
            (if c == SLASH then [TILDE, ONE] else [c]) + ReplaceAll(rest, [SLASH], [TILDE, ONE])
  {
    var e := [c] + rest;
    assert e[..1] == [c] && e[1..] == rest && e[0] == c;
  }

  lemma ReplaceNone(f: Str, t: Str)
    requires f != []
    ensures ReplaceAll([], f, t) == []
  {}

  lemma {:induction false} SlashesNext(s: Str)
    ensures ReplaceAll(SpellTilde(s), [SLASH], [TILDE, ONE]) == Spell(s)
  {
    hide ReplaceAll;
    if s == [] {
      ReplaceNone([SLASH], [TILDE, ONE]);
    } else {
      SlashesNext(s[1..]);
      var rest := SpellTilde(s[1..]);
      if s[0] == TILDE {
        assert SpellTilde(s) == [TILDE] + ([ZERO] + rest);
        ReplaceOne(TILDE, [ZERO] + rest);
        ReplaceOne(ZERO, rest);
        assert Spell(s) == [TILDE] + ([ZERO] + Spell(s[1..]));
      } else {
        ReplaceOne(s[0], rest);
      }
    }
  }

  /** The two passes of `escape` come to spelling the token byte by byte. */
  lemma EscapeSpells(s: Str)
    ensures Escape(s) == Spell(s)
  {
    TildesFirst(s);
    SlashesNext(s);
  }

  lemma {:induction false} SlashesBack(s: Str)
    ensures ReplaceAll(Spell(s), [TILDE, ONE], [SLASH]) == SpellTilde(s)
  {
    if s != [] {
      SlashesBack(s[1..]);
      var rest := Spell(s[1..]);
      assert Spell(s) == EscapeByte(s[0]) + rest;
      hide Spell, SpellTilde, ReplaceAll;
      SlashBack(s[0], rest);
      SpellTildeNext(s);
    }
  }

  lemma SpellTildeNext(s: Str)
    requires s != []
    ensures SpellTilde(s) == (if s[0] == TILDE then [TILDE, ZERO] else [s[0]]) + SpellTilde(s[1..])
  {}

  /** Replacing "~1" by "/" undoes the second half of the spelling of one byte. */
  lemma SlashBack(c: byte, rest: Str)
    ensures ReplaceAll(EscapeByte(c) + rest, [TILDE, ONE], [SLASH])
            == (if c == TILDE then [TILDE, ZERO] else [c]) + ReplaceAll(rest, [TILDE, ONE], [SLASH])
  {
    hide ReplaceAll;
    if c == SLASH {
      ReplaceHere([TILDE, ONE], rest, [SLASH]);
    } else {
      var e := EscapeByte(c) + rest;
      var n := |EscapeByte(c)|;
      assert e[..n] == EscapeByte(c) && e[n..] == rest;
      forall i | 0 <= i < n ensures !Occurs(e, [TILDE, ONE], i) {
        assert i + 2 <= |e| ==> e[i..i + 2] == [e[i], e[i + 1]];
      }
      ReplaceSkip(e, [TILDE, ONE], [SLASH], n);
    }
  }

  lemma {:induction false} TildesBack(s: Str)
    ensures ReplaceAll(SpellTilde(s), [TILDE, ZERO], [TILDE]) == s
  {
    if s != [] {
      TildesBack(s[1..]);
      var rest := SpellTilde(s[1..]);
      if s[0] == TILDE {
        var e := [TILDE, ZERO] + rest;
        assert SpellTilde(s) == e && e[..2] == [TILDE, ZERO] && e[2..] == rest;
      } else {
        var e := [s[0]] + rest;
        assert SpellTilde(s) == e && e[0] == s[0] && e[1..] == rest;
      }
    }
  }

  /** `unescape` undoes `escape`. */
  lemma UnescapeEscape(s: Str)
    ensures Unescape(Escape(s)) == s
  {
    EscapeSpells(s);
    SlashesBack(s);
    TildesBack(s);
  }

  // ---------------------------------------------------------------- pointers as strings

  /** Every "~" is followed by "0" or "1". */
  predicate WellEscaped(s: Str) {
    forall i | 0 <= i < |s| :: s[i] == TILDE ==> i + 1 < |s| && (s[i + 1] == ZERO || s[i + 1] == ONE)
  }

  predicate NoSlash(s: Str) {
    forall i | 0 <= i < |s| :: s[i] != SLASH
  }

  /** `to_string`: "/" and the escaped token, token after token. */
  function ToString(ts: seq<Str>): Str {
    if ts == [] then [] else ToString(ts[..|ts| - 1]) + [SLASH] + Escape(ts[|ts| - 1])
  }

  lemma {:induction false} ToStringCons(t: Str, ts: seq<Str>)
    ensures ToString([t] + ts) == [SLASH] + Escape(t) + ToString(ts)
  {
    hide Escape;
    if ts == [] {
      assert [t] + ts == [t] && [t][..0] == [];
    } else {
      ToStringCons(t, ts[..|ts| - 1]);
      assert ([t] + ts)[..|ts|] == [t] + ts[..|ts| - 1];
    }
  }

  function FirstSlash(s: Str): (n: nat)
    ensures n <= |s| && NoSlash(s[..n]) && (n < |s| ==> s[n] == SLASH)
  {
    if s == [] || s[0] == SLASH then 0
    else assert s == [s[0]] + s[1..]; 1 + FirstSlash(s[1..])
  }

  predicate IsFirstSlash(s: Str, n: nat) {
    n <= |s| && (forall i | 0 <= i < n :: s[i] != SLASH) && (n < |s| ==> s[n] == SLASH)
  }

  lemma FirstSlashUnique(s: Str, n: nat)
    requires IsFirstSlash(s, n)
    ensures FirstSlash(s) == n
  {
    var k := FirstSlash(s);
    assert forall i | 0 <= i < k :: s[..k][i] == s[i];
  }

  /** The tokens of the text behind a slash. */
  function Tokens(s: Str): Result<seq<Str>> {
    var n := FirstSlash(s);
    if !WellEscaped(s[..n]) then Err(DomainError)
    else if n == |s| then Ok([Unescape(s)])
    else
      var rest :- Tokens(s[n + 1..]);
      Ok([Unescape(s[..n])] + rest)
  }

  /** `split`. */
  function Split(p: Str): Result<seq<Str>> {
    if p == [] then Ok([]) else if p[0] != SLASH then Err(DomainError) else Tokens(p[1..])
  }

  /** What `split` still has to return once it holds the tokens before. */
  function After(before: seq<Str>, rest: Result<seq<Str>>): Result<seq<Str>> {
    if rest.Ok? then Ok(before + rest.value) else rest
  }

  /** One turn of the loop of `split`. */
  lemma SplitTurn(p: Str, start: nat, slash: nat, before: seq<Str>)
    requires start <= slash <= |p| && Absent(p, [SLASH], start, slash)
    requires slash < |p| ==> Occurs(p, [SLASH], slash)
    ensures var token := p[start..slash];
      After(before, Tokens(p[start..])) ==
      if !WellEscaped(token) then Err(DomainError)
      else if slash == |p| then Ok(before + [Unescape(token)])
      else After(before + [Unescape(token)], Tokens(p[slash + 1..]))
  {
    hide Unescape, WellEscaped;
    FirstSlashFound(p, start, slash);
    var s, token := p[start..], p[start..slash];
    assert s[..slash - start] == token;
    if slash == |p| {
      assert token == s;
    } else {
      assert s[slash - start + 1..] == p[slash + 1..];
      var rest := Tokens(p[slash + 1..]);
      if rest.Ok? {
        assert before + ([Unescape(token)] + rest.value) == before + [Unescape(token)] + rest.value;
      }
    }
  }

  lemma FirstSlashFound(p: Str, start: nat, slash: nat)
    requires start <= slash <= |p| && Absent(p, [SLASH], start, slash)
    requires slash < |p| ==> Occurs(p, [SLASH], slash)
    ensures FirstSlash(p[start..]) == slash - start
  {
    var s := p[start..];
    forall i | 0 <= i < slash - start ensures s[i] != SLASH {
      assert !Occurs(p, [SLASH], start + i);
      assert p[start + i..start + i + 1] == [p[start + i]];
    }
    if slash < |p| {
      assert p[slash..slash + 1] == [p[slash]];
    }
    FirstSlashUnique(s, slash - start);
  }

  /** `split`, which walks from slash to slash. */
  method SplitString(p: Str) returns (r: Result<seq<Str>>)
    ensures r == Split(p)
  {
    hide Tokens, WellEscaped, ReplaceAll, Absent, Occurs;
    if p == [] {
      return Ok([]);
    }
    if p[0] != SLASH {
      return Err(DomainError);
    }
    var result: seq<Str> := [];
    var start := 1;
    assert After([], Tokens(p[1..])) == Tokens(p[1..]) by {
      if Tokens(p[1..]).Ok? {
        assert [] + Tokens(p[1..]).value == Tokens(p[1..]).value;
      }
    }
    while true
      invariant 1 <= start <= |p|
      invariant Split(p) == After(result, Tokens(p[start..]))
      decreases |p| - start
    {
      var slash := Find(p, [SLASH], start);
      SplitTurn(p, start, slash, result);
      var token := p[start..slash];
      if !WellEscaped(token) {
        return Err(DomainError);
      }
      token := ReplaceSubstring(token, [TILDE, ONE], [SLASH]);
      token := ReplaceSubstring(token, [TILDE, ZERO], [TILDE]);
      result := result + [token];
      if slash == |p| {
        return Ok(result);
      }
      start := slash + 1;
    }
  }

  lemma {:induction false} SpellOk(t: Str)
    ensures WellEscaped(Spell(t)) && NoSlash(Spell(t))
  {
    if t != [] {
      SpellOk(t[1..]);
    }
  }

  /** A spelled token is the whole text, or ends at the slash that follows it. */
  lemma TokensSpelled(t: Str, more: Str)
    requires more == [] || more[0] == SLASH
    ensures Tokens(Escape(t) + more) ==
            if more == [] then Ok([t]) else After([t], Tokens(more[1..]))
  {
    hide WellEscaped, Escape, Unescape;
    var e := Escape(t);
    var s := e + more;
    assert WellEscaped(e) && NoSlash(e) by {
      EscapeSpells(t);
      SpellOk(t);
    }
    UnescapeEscape(t);
    FirstSlashUnique(s, |e|);
    assert s[..|e|] == e;
    if more == [] {
      assert s == e;
    } else {
      assert s[|e| + 1..] == more[1..];
    }
  }

  /** A pointer's string splits into its own tokens. */
  lemma {:induction false} SplitToString(ts: seq<Str>)
    ensures Split(ToString(ts)) == Ok(ts)
  {
    hide Escape, Tokens;
    if ts != [] {
      var t, rest := ts[0], ts[1..];
      assert ts == [t] + rest;
      ToStringCons(t, rest);
      var more := ToString(rest);
      assert ToString(ts)[1..] == Escape(t) + more;
      if rest != [] {
        ToStringCons(rest[0], rest[1..]);
        assert rest == [rest[0]] + rest[1..];
      }
      TokensSpelled(t, more);
      SplitToString(rest);
      assert Split(ToString(ts)) == Tokens(Escape(t) + more);
      if rest == [] {
        assert more == [];
        assert ts == [t];
      } else {
        assert Tokens(more[1..]) == Ok(rest);
        assert After([t], Tokens(more[1..])) == Ok([t] + rest);
      }
    }
  }

  /** What a well-escaped token stands for, read in one pass. */
  function Meaning(s: Str): Str
    requires WellEscaped(s)
  {
    if s == [] then []
    else if s[0] == TILDE then
      assert s[2..] == s[1..][1..];
      [if s[1] == ZERO then TILDE else SLASH] + Meaning(s[2..])
    else [s[0]] + Meaning(s[1..])
  }

  lemma {:induction false} SpellMeaning(s: Str)
    requires WellEscaped(s) && NoSlash(s)
    ensures Spell(Meaning(s)) == s
    decreases |s|
  {
    if s != [] {
      if s[0] == TILDE {
        SpellMeaning(s[2..]);
        var c: byte := if s[1] == ZERO then TILDE else SLASH;
        assert Meaning(s)[0] == c && Meaning(s)[1..] == Meaning(s[2..]);
        assert s == [s[0], s[1]] + s[2..];
      } else {
        SpellMeaning(s[1..]);
        assert Meaning(s)[1..] == Meaning(s[1..]);
        assert s == [s[0]] + s[1..];
      }
    }
  }

  lemma EscapeUnescape(s: Str)
    requires WellEscaped(s) && NoSlash(s)
    ensures Escape(Unescape(s)) == s
  {
    SpellMeaning(s);
    EscapeSpells(Meaning(s));
    UnescapeEscape(Meaning(s));
  }

  lemma {:induction false} TokensBack(s: Str)
    requires Tokens(s).Ok?
    ensures ToString(Tokens(s).value) == [SLASH] + s
    decreases |s|
  {
    hide Escape, Unescape, WellEscaped, NoSlash, FirstSlash;
    var n := FirstSlash(s);
    var t := s[..n];
    assert Escape(Unescape(t)) == t by {
      EscapeUnescape(t);
    }
    if n == |s| {
      assert t == s;
      assert [Unescape(s)][..0] == [];
      assert ToString([Unescape(s)]) == [] + [SLASH] + s;
    } else {
      var more := s[n + 1..];
      TokensBack(more);
      ToStringCons(Unescape(t), Tokens(more).value);
      assert s == t + [SLASH] + more;
      assert [SLASH] + t + ([SLASH] + more) == [SLASH] + (t + [SLASH] + more);
    }
  }

  /** Two strings never stand for the same pointer: a string that splits is its pointer's own string. */
  lemma ToStringSplit(p: Str)
    requires Split(p).Ok?
    ensures ToString(Split(p).value) == p
  {
    if p != [] {
      TokensBack(p[1..]);
      assert p == [p[0]] + p[1..];
    }
  }

  // ---------------------------------------------------------------- array indices

  const INT_MAX: int := 0x7fff_ffff

  predicate IsDigit(c: byte) {
    ZERO <= c <= 0x39
  }

  predicate IsSpace(c: byte) {
    c == 0x20 || 0x09 <= c <= 0x0d
  }

  /** `std::to_string` of a count. */
  function Decimal(n: nat): (s: Str)
    ensures s != [] && forall i | 0 <= i < |s| :: IsDigit(s[i])
    ensures |s| > 1 ==> s[0] != ZERO
    ensures n > 0 ==> s[0] != ZERO
  {
    if n < 10 then [ZERO + n] else Decimal(n / 10) + [ZERO + n % 10]
  }

  function DigitRun(s: Str): (n: nat)
    ensures n <= |s|
  {
    if s == [] || !IsDigit(s[0]) then 0 else 1 + DigitRun(s[1..])
  }

  function Value(s: Str): nat
    requires forall i | 0 <= i < |s| :: IsDigit(s[i])
  {
    if s == [] then 0
    else
      assert IsDigit(s[|s| - 1]);
      10 * Value(s[..|s| - 1]) + (s[|s| - 1] - ZERO)
  }

  lemma {:induction false} DigitRunDigits(s: Str)
    ensures forall i | 0 <= i < DigitRun(s) :: IsDigit(s[i])
    ensures (forall i | 0 <= i < |s| :: IsDigit(s[i])) ==> DigitRun(s) == |s|
  {
    if s != [] && IsDigit(s[0]) {
      DigitRunDigits(s[1..]);
      assert forall i | 1 <= i < |s| :: s[i] == s[1..][i - 1];
    }
  }

  /** `std::stoi`: blanks, a sign, digits, and then anything. */
  function StoI(s: Str): Result<int> {
    if s == [] then Err(InvalidArgument)
    else if IsSpace(s[0]) then StoI(s[1..])
    else if s[0] == MINUS then
      var n :- LeadingNumber(s[1..]);
      if n <= INT_MAX + 1 then Ok(-(n as int)) else Err(OutOfRange)
    else
      var n :- LeadingNumber(if s[0] == 0x2b then s[1..] else s);
      if n <= INT_MAX then Ok(n) else Err(OutOfRange)
  }

  function LeadingNumber(s: Str): (r: Result<int>)
    ensures r.Ok? ==> r.value >= 0
  {
    DigitRunDigits(s);
    if DigitRun(s) == 0 then Err(InvalidArgument) else Ok(Value(s[..DigitRun(s)]))
  }

  lemma {:induction false} ValueDecimal(n: nat)
    ensures Value(Decimal(n)) == n
  {
    if n >= 10 {
      ValueDecimal(n / 10);
      assert Decimal(n)[..|Decimal(n)| - 1] == Decimal(n / 10);
    } else {
      assert [ZERO + n][..0] == [];
    }
  }

  /** An index that fits an int is read back as it was written; a larger one is refused. */
  lemma StoIDecimal(n: nat)
    ensures StoI(Decimal(n)) == if n <= INT_MAX then Ok(n) else Err(OutOfRange)
  {
    var s := Decimal(n);
    assert IsDigit(s[0]);
    DigitRunDigits(s);
    assert s[..|s|] == s;
    ValueDecimal(n);
  }

  /** Digits need no escaping. */
  lemma {:induction false} PlainSpell(s: Str)
    requires NoSlash(s) && forall i | 0 <= i < |s| :: s[i] != TILDE
    ensures Spell(s) == s
  {
    if s != [] {
      PlainSpell(s[1..]);
      assert s == [s[0]] + s[1..];
    }
  }

  lemma EscapeDecimal(n: nat)
    ensures Escape(Decimal(n)) == Decimal(n)
  {
    EscapeSpells(Decimal(n));
    assert forall i | 0 <= i < |Decimal(n)| :: IsDigit(Decimal(n)[i]);
    PlainSpell(Decimal(n));
  }
}
