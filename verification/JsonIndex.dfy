/** The tokens that name an element of an array: which ones a patch accepts, and which the standard allows. */
module JsonIndex {
  import opened Bytes
  import opened JsonValue
  import opened JsonPointer
  import opened JsonPatch
  import opened JsonPatchLaws

  const PLUS: byte := 0x2b

  /** Blank, tabulators, line feed, form feed and carriage return. */
  const BLANKS: set<byte> := {0x20, 0x09, 0x0a, 0x0b, 0x0c, 0x0d}

  /** Blanks, perhaps a sign, digits, and a rest that does not go on with a digit. */
  predicate Reads(token: Str, blanks: Str, sign: Str, digits: Str, rest: Str) {
    && token == blanks + sign + digits + rest
    && (forall i | 0 <= i < |blanks| :: blanks[i] in BLANKS)
    && (sign == [] || sign == [PLUS] || sign == [MINUS])
    && digits != [] && AllDigits(digits) && (rest == [] || !IsDigit(rest[0]))
  }

  function Meaning(sign: Str, digits: Str): int
    requires AllDigits(digits)
  {
    if sign == [MINUS] then -(Value(digits) as int) else Value(digits)
  }

  predicate FitsInt(n: int) { -INT_MAX - 1 <= n <= INT_MAX }

  lemma {:induction false} RunOf(digits: Str, rest: Str)
    requires AllDigits(digits) && (rest == [] || !IsDigit(rest[0]))
    ensures DigitRun(digits + rest) == |digits|
  {
    if digits == [] {
      assert digits + rest == rest;
    } else {
      assert (digits + rest)[1..] == digits[1..] + rest;
      RunOf(digits[1..], rest);
    }
  }

  lemma NumberOf(digits: Str, rest: Str)
    requires digits != [] && AllDigits(digits) && (rest == [] || !IsDigit(rest[0]))
    ensures LeadingNumber(digits + rest) == Ok(Value(digits) as int)
  {
    RunOf(digits, rest);
    assert (digits + rest)[..|digits|] == digits;
  }

  /** The reading of a token of that form, without its blanks. */
  lemma SignedOf(sign: Str, digits: Str, rest: Str)
    requires Reads(sign + digits + rest, [], sign, digits, rest)
    ensures StoI(sign + digits + rest) == if FitsInt(Meaning(sign, digits)) then Ok(Meaning(sign, digits)) else Err(OutOfRange)
  {
    hide LeadingNumber, Value;
    var t := sign + digits + rest;
    NumberOf(digits, rest);
    if sign == [] {
      assert t == digits + rest && t[0] == digits[0];
    } else {
      assert t[1..] == digits + rest && t[0] == sign[0];
    }
  }

  lemma {:induction false} PartsRead(token: Str, blanks: Str, sign: Str, digits: Str, rest: Str)
    requires Reads(token, blanks, sign, digits, rest)
    ensures StoI(token) == if FitsInt(Meaning(sign, digits)) then Ok(Meaning(sign, digits)) else Err(OutOfRange)
    decreases |blanks|
  {
    hide Meaning;
    if blanks == [] {
      assert token == sign + digits + rest;
      SignedOf(sign, digits, rest);
    } else {
      assert token[0] == blanks[0] && token[1..] == blanks[1..] + sign + digits + rest;
      PartsRead(token[1..], blanks[1..], sign, digits, rest);
    }
  }

  /** A stretch of digits and what follows it. */
  lemma {:induction false} RunEnds(s: Str)
    ensures DigitRun(s) < |s| ==> !IsDigit(s[DigitRun(s)])
  {
    if s != [] && IsDigit(s[0]) {
      RunEnds(s[1..]);
    }
  }

  lemma DigitParts(s: Str) returns (digits: Str, rest: Str)
    requires LeadingNumber(s).Ok?
    ensures s == digits + rest && digits != [] && AllDigits(digits) && (rest == [] || !IsDigit(rest[0]))
  {
    DigitRunDigits(s);
    RunEnds(s);
    digits, rest := s[..DigitRun(s)], s[DigitRun(s)..];
  }

  lemma {:induction false} ReadParts(token: Str) returns (blanks: Str, sign: Str, digits: Str, rest: Str)
    requires StoI(token).Ok?
    ensures Reads(token, blanks, sign, digits, rest)
  {
    hide LeadingNumber;
    if IsSpace(token[0]) {
      blanks, sign, digits, rest := ReadParts(token[1..]);
      assert token == [token[0]] + token[1..];
      assert token == ([token[0]] + blanks) + sign + digits + rest;
      blanks := [token[0]] + blanks;
    } else if token[0] == MINUS || token[0] == PLUS {
      digits, rest := DigitParts(token[1..]);
      blanks, sign := [], [token[0]];
      assert token == [token[0]] + token[1..];
    } else {
      digits, rest := DigitParts(token);
      blanks, sign := [], [];
    }
  }

  /** `stoi` answers n exactly for the tokens that begin, behind blanks, with a number n that fits an `int`. */
  lemma StoIExactly(token: Str, n: int)
    ensures StoI(token) == Ok(n) <==>
            FitsInt(n) && exists blanks, sign, digits, rest ::
                            Reads(token, blanks, sign, digits, rest) && Meaning(sign, digits) == n
  {
    hide StoI, Meaning, Reads;
    if StoI(token).Ok? {
      var blanks, sign, digits, rest := ReadParts(token);
      ReadsDigits(token, blanks, sign, digits, rest);
      PartsRead(token, blanks, sign, digits, rest);
    }
    forall blanks, sign, digits, rest | Reads(token, blanks, sign, digits, rest)
      ensures AllDigits(digits)
      ensures StoI(token) == if FitsInt(Meaning(sign, digits)) then Ok(Meaning(sign, digits)) else Err(OutOfRange)
    {
      ReadsDigits(token, blanks, sign, digits, rest);
      PartsRead(token, blanks, sign, digits, rest);
    }
  }

  lemma ReadsDigits(token: Str, blanks: Str, sign: Str, digits: Str, rest: Str)
    requires Reads(token, blanks, sign, digits, rest)
    ensures AllDigits(digits)
  {}

  // ---------------------------------------------------------------- the standard's spelling

  /** `array-index` of section 4 of RFC 6901: digits, the first of which is no zero unless it stands alone. */
  predicate RfcIndex(token: Str) {
    token != [] && AllDigits(token) && !LeadingZero(token)
  }

  lemma {:induction false} DecimalValue(token: Str)
    requires RfcIndex(token)
    ensures Decimal(Value(token)) == token
  {
    if |token| == 1 {
      assert token[..0] == [];
    } else {
      var init := token[..|token| - 1];
      assert init[0] == token[0] && IsDigit(token[0]) && IsDigit(token[|token| - 1]);
      assert AllDigits(init);
      DecimalValue(init);
      ValuePositive(init);
      assert token == init + [token[|token| - 1]];
    }
  }

  lemma {:induction false} ValuePositive(token: Str)
    requires token != [] && AllDigits(token) && token[0] != ZERO
    ensures Value(token) > 0
  {
    assert IsDigit(token[0]);
    if |token| > 1 {
      ValuePositive(token[..|token| - 1]);
    }
  }

  /** Of the tokens that read as n, the standard's one is the decimal number. */
  lemma RfcExactly(token: Str, n: nat)
    requires StoI(token) == Ok(n)
    ensures RfcIndex(token) <==> token == Decimal(n)
  {
    if RfcIndex(token) {
      assert Reads(token, [], [], token, []);
      PartsRead(token, [], [], token, []);
      DecimalValue(token);
    }
  }

  // ---------------------------------------------------------------- removing by such a token

  lemma RemoveIndex(doc: Json, ts: seq<Str>, a: seq<Json>, k: Str)
    requires GetChecked(doc, ts) == Ok(Array(a))
    ensures var r, i := ApplyOp(doc, Remove(ts + [k])), StoI(k);
      (r.Ok? <==> i.Ok? && 0 <= i.value < |a|) &&
      (r.Ok? ==> r.value == Put(doc, ts, Array(a[..i.value] + a[i.value + 1..])))
  {
    hide ApplyOp, GetChecked, Put, StoI;
    RemoveIs(doc, ts, k);
  }

  lemma AtIndexToken(doc: Json, ts: seq<Str>, a: seq<Json>, k: Str)
    requires GetChecked(doc, ts) == Ok(Array(a))
    ensures GetChecked(doc, ts + [k]).Ok? <==> CheckedIndex(k, |a|).Ok?
  {
    hide StoI, LeadingZero, Put;
    Below(doc, ts, k, Null);
    var one: seq<Str> := [k];
    assert one[1..] == [] && one[0] == k;
    assert GetChecked(Array(a), one).Ok? <==> CheckedIndex(k, |a|).Ok?;
  }

  /**
   * A `remove` takes every token that begins, behind blanks, with a number inside the array; the standard's token for that
   * element is one of them, and `test`, `replace` and every longer path take all of them but those with a leading zero.
   */
  lemma RemoveTokens(doc: Json, ts: seq<Str>, a: seq<Json>, k: Str)
    requires GetChecked(doc, ts) == Ok(Array(a))
    ensures ApplyOp(doc, Remove(ts + [k])).Ok? <==>
            exists blanks, sign, digits, rest :: Reads(k, blanks, sign, digits, rest) && 0 <= Meaning(sign, digits) < |a|
                                                && Meaning(sign, digits) <= INT_MAX
    ensures GetChecked(doc, ts + [k]).Ok? <==> ApplyOp(doc, Remove(ts + [k])).Ok? && !LeadingZero(k)
    ensures ApplyOp(doc, Remove(ts + [k])).Ok? ==>
              StoI(k).Ok? && 0 <= StoI(k).value < |a| && (RfcIndex(k) <==> k == Decimal(StoI(k).value)) &&
              ApplyOp(doc, Remove(ts + [k])) == Ok(Put(doc, ts, Array(a[..StoI(k).value] + a[StoI(k).value + 1..])))
  {
    hide ApplyOp, GetChecked, Put, StoI, Reads, Meaning, RfcIndex, LeadingZero;
    RemoveIndex(doc, ts, a, k);
    AtIndexToken(doc, ts, a, k);
    DashNoNumber();
    if StoI(k).Ok? {
      StoIExactly(k, StoI(k).value);
      if StoI(k).value >= 0 { RfcExactly(k, StoI(k).value); }
    }
    forall blanks, sign, digits, rest | Reads(k, blanks, sign, digits, rest)
      ensures AllDigits(digits) && (FitsInt(Meaning(sign, digits)) ==> StoI(k) == Ok(Meaning(sign, digits)))
    {
      ReadsDigits(k, blanks, sign, digits, rest);
      PartsRead(k, blanks, sign, digits, rest);
    }
  }

  lemma AddIndex(doc: Json, ts: seq<Str>, a: seq<Json>, k: Str, v: Json)
    requires GetChecked(doc, ts) == Ok(Array(a))
    ensures var r, i := ApplyOp(doc, Add(ts + [k], v)), if k == DASH then Ok(|a|) else StoI(k);
      (r.Ok? <==> i.Ok? && 0 <= i.value <= |a|) &&
      (r.Ok? ==> r.value == Put(doc, ts, Array(a[..i.value] + [v] + a[i.value..])))
  {
    hide ApplyOp, GetChecked, Put, StoI;
    AddIs(doc, ts, k, v);
    assert a[..|a|] + [v] + a[|a|..] == a + [v];
  }

  /**
   * An `add`, and the target of a `move`, take "-" and every token that begins, behind blanks, with a number up to the
   * array's length, leading zeros or not; the standard's token for that place is one of them.
   */
  lemma AddTokens(doc: Json, ts: seq<Str>, a: seq<Json>, k: Str, v: Json)
    requires GetChecked(doc, ts) == Ok(Array(a))
    ensures ApplyOp(doc, Add(ts + [k], v)).Ok? <==>
            k == DASH || exists blanks, sign, digits, rest :: Reads(k, blanks, sign, digits, rest) &&
                           0 <= Meaning(sign, digits) <= |a| && Meaning(sign, digits) <= INT_MAX
    ensures ApplyOp(doc, Add(ts + [k], v)).Ok? && k != DASH ==>
              StoI(k).Ok? && 0 <= StoI(k).value <= |a| && (RfcIndex(k) <==> k == Decimal(StoI(k).value)) &&
              ApplyOp(doc, Add(ts + [k], v)) == Ok(Put(doc, ts, Array(a[..StoI(k).value] + [v] + a[StoI(k).value..])))
  {
    hide ApplyOp, GetChecked, Put, StoI, Reads, Meaning, RfcIndex;
    AddIndex(doc, ts, a, k, v);
    if StoI(k).Ok? {
      StoIExactly(k, StoI(k).value);
      if StoI(k).value >= 0 { RfcExactly(k, StoI(k).value); }
    }
    forall blanks, sign, digits, rest | Reads(k, blanks, sign, digits, rest)
      ensures AllDigits(digits) && (FitsInt(Meaning(sign, digits)) ==> StoI(k) == Ok(Meaning(sign, digits)))
    {
      ReadsDigits(k, blanks, sign, digits, rest);
      PartsRead(k, blanks, sign, digits, rest);
    }
  }

  const ZERO_ONE: Str := [ZERO, ZERO + 1]

  lemma ZeroOneIsOne()
    ensures StoI(ZERO_ONE) == Ok(1)
  {
    var digits, zero: Str := ZERO_ONE, [ZERO];
    assert zero[..|zero| - 1] == [] && Value([]) == 0;
    assert Value(zero) == 0;
    assert digits[..|digits| - 1] == zero;
    assert Value(digits) == 10 * Value(zero) + 1;
    assert Reads(ZERO_ONE, [], [], digits, []);
    PartsRead(ZERO_ONE, [], [], digits, []);
  }

  /** "01" removes element 1 and adds before it; `test` and `replace` do not find it by that. */
  lemma ZeroOneRemoves(a: seq<Json>, v: Json)
    requires |a| > 1
    ensures ApplyOp(Array(a), Remove([ZERO_ONE])) == Ok(Array(a[..1] + a[2..]))
    ensures ApplyOp(Array(a), Add([ZERO_ONE], v)) == Ok(Array(a[..1] + [v] + a[1..]))
    ensures GetChecked(Array(a), [ZERO_ONE]) == Err(DomainError) && !RfcIndex(ZERO_ONE)
  {
    hide StoI;
    ZeroOneIsOne();
    var one: seq<Str> := [ZERO_ONE];
    assert one[..0] == [] && one[0] == ZERO_ONE;
  }
}
