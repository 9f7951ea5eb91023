/** What each operation of a patch comes to, and when it fails: the places that pointers lead to, and those they create. */
module JsonPlaces {
  import opened Bytes
  import opened JsonIndex
  import opened JsonPatch
  import opened JsonPatchLaws
  import opened JsonPointer
  import opened JsonValue

  // ---------------------------------------------------------------- places that exist

  /** A token that reads as the number n and does not begin with a zero of several digits. */
  predicate Names(token: Str, n: int) {
    !LeadingZero(token) && StoI(token) == Ok(n)
  }

  /** A token leads from a value to one of its children. */
  ghost predicate Child(j: Json, token: Str, c: Json) {
    (j.Object? && token in j.m && c == j.m[token]) ||
    (j.Array? && exists n :: Names(token, n) && 0 <= n < |j.a| && c == j.a[n])
  }

  /** A pointer leads to a value. */
  ghost predicate Leads(j: Json, ts: seq<Str>, v: Json)
    decreases |ts|
  {
    if ts == [] then v == j else exists c :: Child(j, ts[0], c) && Leads(c, ts[1..], v)
  }

  lemma ChildExactly(j: Json, token: Str, c: Json)
    ensures Child(j, token, c) <==>
      (j.Object? && token in j.m && c == j.m[token]) ||
      (j.Array? && CheckedIndex(token, |j.a|).Ok? && c == j.a[CheckedIndex(token, |j.a|).value])
  {
    hide StoI, LeadingZero;
    DashNoNumber();
    if j.Array? && CheckedIndex(token, |j.a|).Ok? {
      assert Names(token, CheckedIndex(token, |j.a|).value);
    }
  }

  /** `get_checked` answers a value exactly if the pointer leads to it. */
  lemma {:induction false} GetExactly(j: Json, ts: seq<Str>, v: Json)
    ensures GetChecked(j, ts) == Ok(v) <==> Leads(j, ts, v)
    decreases |ts|
  {
    hide CheckedIndex, Child;
    if ts != [] {
      forall c ensures Child(j, ts[0], c) <==>
        (j.Object? && ts[0] in j.m && c == j.m[ts[0]]) ||
        (j.Array? && CheckedIndex(ts[0], |j.a|).Ok? && c == j.a[CheckedIndex(ts[0], |j.a|).value])
      {
        ChildExactly(j, ts[0], c);
      }
      if j.Object? && ts[0] in j.m {
        GetExactly(j.m[ts[0]], ts[1..], v);
        assert Child(j, ts[0], j.m[ts[0]]);
      } else if j.Array? && CheckedIndex(ts[0], |j.a|).Ok? {
        var c := j.a[CheckedIndex(ts[0], |j.a|).value];
        GetExactly(c, ts[1..], v);
        assert Child(j, ts[0], c);
      }
    }
  }

  /** The token begins, behind blanks, with a number of any size. */
  ghost predicate IsNumber(token: Str) {
    exists blanks, sign, digits, rest :: Reads(token, blanks, sign, digits, rest)
  }

  /** How a pointer fails at the first token that leads nowhere: a number is wanted in an array, in the standard's length. */
  ghost predicate FailsAt(j: Json, token: Str, e: Error) {
    && (forall c :: !Child(j, token, c))
    && e == if !j.Array? || token == DASH then OutOfRange
            else if LeadingZero(token) then DomainError
            else if IsNumber(token) then OutOfRange else InvalidArgument
  }

  ghost predicate Fails(j: Json, ts: seq<Str>, e: Error)
    decreases |ts|
  {
    ts != [] && (FailsAt(j, ts[0], e) || exists c :: Child(j, ts[0], c) && Fails(c, ts[1..], e))
  }

  lemma NumberExactly(token: Str)
    ensures IsNumber(token) <==> StoI(token) != Err(InvalidArgument)
    ensures StoI(token).Err? ==> StoI(token).error == InvalidArgument || StoI(token).error == OutOfRange
  {
    StoIErrors(token);
    hide StoI, Reads;
    forall blanks, sign, digits, rest | Reads(token, blanks, sign, digits, rest)
      ensures StoI(token) != Err(InvalidArgument)
    {
      ReadsDigits(token, blanks, sign, digits, rest);
      PartsRead(token, blanks, sign, digits, rest);
    }
    if StoI(token) != Err(InvalidArgument) {
      var blanks, sign, digits, rest := AnyParts(token);
    }
  }

  lemma {:induction false} StoIErrors(token: Str)
    ensures StoI(token).Err? ==> StoI(token).error == InvalidArgument || StoI(token).error == OutOfRange
  {
    hide LeadingNumber;
    if token != [] && IsSpace(token[0]) {
      StoIErrors(token[1..]);
    }
    LeadingErrors(token);
    if token != [] { LeadingErrors(token[1..]); }
  }

  lemma LeadingErrors(s: Str)
    ensures LeadingNumber(s).Err? ==> LeadingNumber(s) == Err(InvalidArgument)
  {}

  /** The parts of a token that is no invalid argument, also when its number is too large. */
  lemma {:induction false} AnyParts(token: Str) returns (blanks: Str, sign: Str, digits: Str, rest: Str)
    requires StoI(token) != Err(InvalidArgument)
    ensures Reads(token, blanks, sign, digits, rest)
  {
    hide LeadingNumber;
    LeadingErrors(token);
    if token != [] { LeadingErrors(token[1..]); }
    if IsSpace(token[0]) {
      blanks, sign, digits, rest := AnyParts(token[1..]);
      assert token == [token[0]] + token[1..];
      assert token == ([token[0]] + blanks) + sign + digits + rest;
      blanks := [token[0]] + blanks;
    } else if token[0] == MINUS || token[0] == PLUS {
      digits, rest := DigitParts(token[1..]);
      blanks, sign := [], [token[0]];
      assert token == [token[0]] + token[1..];
    } else {
      digits, rest := DigitParts(token);
      blanks, sign := [], [];
    }
  }

  lemma FailsExactly(j: Json, token: Str, e: Error)
    ensures FailsAt(j, token, e) <==> GetChecked(j, [token]) == Err(e)
  {
    hide StoI, IsNumber, LeadingZero, Child;
    NumberExactly(token);
    OneToken(j, token);
    forall c ensures Child(j, token, c) <==> GetChecked(j, [token]) == Ok(c) {
      ChildExactly(j, token, c);
    }
    if GetChecked(j, [token]).Ok? { assert Child(j, token, GetChecked(j, [token]).value); }
  }

  lemma OneToken(j: Json, token: Str)
    ensures GetChecked(j, [token]) ==
      match j
      case Object(m) => (if token in m then Ok(m[token]) else Err(OutOfRange))
      case Array(a) => (var i := CheckedIndex(token, |a|); if i.Ok? then Ok(a[i.value]) else Err(i.error))
      case _ => Err(OutOfRange)
  {
    hide CheckedIndex;
    var one: seq<Str> := [token];
    assert one[0] == token && one[1..] == [];
  }

  lemma Step(j: Json, ts: seq<Str>)
    requires ts != []
    ensures GetChecked(j, ts) == var c := GetChecked(j, [ts[0]]); if c.Ok? then GetChecked(c.value, ts[1..]) else c
  {
    hide CheckedIndex;
    OneToken(j, ts[0]);
  }

  /** `get_checked` fails with an error exactly if the pointer fails that way at its first token that leads nowhere. */
  lemma {:induction false} GetFails(j: Json, ts: seq<Str>, e: Error)
    ensures GetChecked(j, ts) == Err(e) <==> Fails(j, ts, e)
    decreases |ts|
  {
    hide CheckedIndex, Child, FailsAt, GetChecked;
    if ts == [] {
      GetRoot(j);
    } else {
      Step(j, ts);
      FailsExactly(j, ts[0], e);
      forall c ensures Child(j, ts[0], c) <==> GetChecked(j, [ts[0]]) == Ok(c) {
        ChildExactly(j, ts[0], c);
        OneToken(j, ts[0]);
      }
      if GetChecked(j, [ts[0]]).Ok? {
        var c := GetChecked(j, [ts[0]]).value;
        GetFails(c, ts[1..], e);
        assert Child(j, ts[0], c);
      }
    }
  }

  lemma GetRoot(j: Json)
    ensures GetChecked(j, []) == Ok(j)
  {}

  // ---------------------------------------------------------------- test and replace

  /**
   * `test` leaves the document as it is, exactly if the pointer leads to a value that compares equal; missing is as bad
   * as different.
   */
  lemma TestExactly(doc: Json, path: seq<Str>, v: Json)
    ensures ApplyOp(doc, Test(path, v)) == Ok(doc) <==> exists found :: Leads(doc, path, found) && JsonEq(found, v)
    ensures ApplyOp(doc, Test(path, v)).Ok? ==> ApplyOp(doc, Test(path, v)) == Ok(doc)
    ensures forall e :: ApplyOp(doc, Test(path, v)) == Err(e) <==>
              (exists found :: Leads(doc, path, found) && !JsonEq(found, v) && e == DomainError) ||
              (exists f :: Fails(doc, path, f) && e == if f == OutOfRange then DomainError else f)
  {
    hide GetChecked, JsonEq, Leads, Fails;
    forall found ensures Leads(doc, path, found) <==> GetChecked(doc, path) == Ok(found) { GetExactly(doc, path, found); }
    forall f ensures Fails(doc, path, f) <==> GetChecked(doc, path) == Err(f) { GetFails(doc, path, f); }
    if GetChecked(doc, path).Ok? {
      assert Leads(doc, path, GetChecked(doc, path).value);
    } else {
      assert Fails(doc, path, GetChecked(doc, path).error);
    }
  }

  /** An edit at `at(ptr)` fails where the pointer does. */
  lemma {:induction false} CheckedFails(j: Json, ts: seq<Str>, e: Edit)
    requires GetChecked(j, ts).Err?
    ensures Checked(j, ts, e) == Err(GetChecked(j, ts).error)
    decreases |ts|
  {
    hide CheckedIndex, Apply;
    if ts != [] {
      match j
      case Object(m) => if ts[0] in m { CheckedFails(m[ts[0]], ts[1..], e); }
      case Array(a) => if CheckedIndex(ts[0], |a|).Ok? { CheckedFails(a[CheckedIndex(ts[0], |a|).value], ts[1..], e); }
      case _ =>
    }
  }

  /** `replace` puts the value at the place if the pointer leads to one, and fails as the pointer does otherwise. */
  lemma ReplaceExactly(doc: Json, path: seq<Str>, v: Json)
    ensures ApplyOp(doc, Replace(path, v)).Ok? <==> exists found :: Leads(doc, path, found)
    ensures GetChecked(doc, path).Ok? ==> ApplyOp(doc, Replace(path, v)) == Ok(Put(doc, path, v))
    ensures forall e :: ApplyOp(doc, Replace(path, v)) == Err(e) <==> Fails(doc, path, e)
  {
    hide GetChecked, Put, Checked, Leads, Fails;
    forall found ensures Leads(doc, path, found) <==> GetChecked(doc, path) == Ok(found) { GetExactly(doc, path, found); }
    forall f ensures Fails(doc, path, f) <==> GetChecked(doc, path) == Err(f) { GetFails(doc, path, f); }
    if GetChecked(doc, path).Ok? {
      assert Leads(doc, path, GetChecked(doc, path).value);
      EditPlace(doc, path, Set(v));
    } else {
      CheckedFails(doc, path, Set(v));
    }
  }

  /** `remove` looks for the parent as `test` does; the root has none. A parent without children is left as it is. */
  lemma RemoveExactly(doc: Json, ts: seq<Str>, k: Str)
    ensures ApplyOp(doc, Remove([])) == Err(DomainError)
    ensures forall e | Fails(doc, ts, e) :: ApplyOp(doc, Remove(ts + [k])) == Err(e)
    ensures GetChecked(doc, ts).Ok? ==>
      var r, p := ApplyOp(doc, Remove(ts + [k])), GetChecked(doc, ts).value;
      if p.Object? then r == if k in p.m then Ok(Put(doc, ts, Object(p.m - {k}))) else Err(OutOfRange)
      else if p.Array? then r.Ok? || r == Err(if IsNumber(k) then OutOfRange else InvalidArgument)
      else r == Ok(doc)
  {
    hide GetChecked, Put, Checked, Fails, StoI, IsNumber;
    assert (ts + [k])[..|ts|] == ts;
    forall e ensures Fails(doc, ts, e) <==> GetChecked(doc, ts) == Err(e) { GetFails(doc, ts, e); }
    NumberExactly(k);
    if GetChecked(doc, ts).Ok? {
      EditPlace(doc, ts, RemoveChild(k));
      PutGet(doc, ts);
    } else {
      CheckedFails(doc, ts, RemoveChild(k));
    }
  }

  // ---------------------------------------------------------------- places that are created

  /** A null grows a child by this token: a new member, or an element of a new array if the token is all digits or "-". */
  predicate Creatable(token: Str) {
    token == DASH || !AllDigits(token) || (RfcIndex(token) && Value(token) <= INT_MAX)
  }

  predicate AllCreatable(ts: seq<Str>) { forall i | 0 <= i < |ts| :: Creatable(ts[i]) }

  /** A value grows a child that it does not have. */
  ghost predicate Grows(j: Json, token: Str) {
    j.Object? || (j.Array? && (token == DASH || exists n :: Names(token, n) && n >= |j.a|)) || (j.Null? && Creatable(token))
  }

  /** How many tokens lead on. */
  function Reach(j: Json, ts: seq<Str>): (n: nat)
    ensures n <= |ts|
    decreases |ts|
  {
    if ts == [] || GetChecked(j, [ts[0]]).Err? then 0 else 1 + Reach(GetChecked(j, [ts[0]]).value, ts[1..])
  }

  lemma {:induction false} Reached(j: Json, ts: seq<Str>)
    ensures var n := Reach(j, ts);
      GetChecked(j, ts[..n]).Ok? && (n < |ts| ==> GetChecked(GetChecked(j, ts[..n]).value, [ts[n]]).Err?)
    ensures Reach(j, ts) == |ts| <==> GetChecked(j, ts).Ok?
    decreases |ts|
  {
    hide GetChecked;
    if ts == [] {
      GetRoot(j);
    } else {
      Step(j, ts);
      var n := Reach(j, ts);
      if n == 0 {
        GetRoot(j);
        assert ts[..0] == [];
      } else {
        var c := GetChecked(j, [ts[0]]).value;
        Reached(c, ts[1..]);
        Step(j, ts[..n]);
        assert ts[..n][0] == ts[0] && ts[..n][1..] == ts[1..][..n - 1];
      }
    }
  }

  lemma DigitsRead(token: Str)
    requires AllDigits(token)
    ensures StoI(token) == if token == [] then Err(InvalidArgument)
                           else if Value(token) <= INT_MAX then Ok(Value(token)) else Err(OutOfRange)
  {
    if token != [] {
      assert Reads(token, [], [], token, []);
      PartsRead(token, [], [], token, []);
    }
  }

  lemma NewIndex(token: Str)
    requires AllDigits(token) || token == DASH
    ensures UncheckedIndex(token, 0).Ok? <==> Creatable(token)
  {
    hide StoI;
    if AllDigits(token) { DigitsRead(token); }
    assert !LeadingZero(DASH);
    DashDigits();
  }

  lemma DashDigits()
    ensures !AllDigits(DASH)
  {
    assert !IsDigit(DASH[0]);
  }

  /** Below a null everything is created, as far as the tokens allow it. */
  lemma {:induction false} NullGrows(ts: seq<Str>, e: Edit)
    ensures Unchecked(Null, ts, e).Ok? <==> AllCreatable(ts) && Apply(Null, e).Ok?
    decreases |ts|
  {
    hide Creatable, UncheckedIndex, Apply, AllDigits;
    if ts != [] {
      NullGrows(ts[1..], e);
      assert AllCreatable(ts) <==> Creatable(ts[0]) && AllCreatable(ts[1..]) by {
        assert forall i | 0 <= i < |ts| - 1 :: ts[1..][i] == ts[i + 1];
      }
      if AllDigits(ts[0]) || ts[0] == DASH {
        NewIndex(ts[0]);
        var i := UncheckedIndex(ts[0], 0);
        if i.Ok? { assert Padded([], i.value)[i.value] == Null; }
      } else {
        assert Creatable(ts[0]) by { NoDigits(ts[0]); }
      }
    }
  }

  lemma NoDigits(token: Str)
    requires !AllDigits(token)
    ensures Creatable(token)
  {}

  /**
   * Below an existing place, an edit that creates what is missing comes to the same edit of that place's value, put back
   * there.
   */
  lemma {:induction false} CreateBelow(j: Json, us: seq<Str>, ts: seq<Str>, e: Edit)
    requires GetChecked(j, us).Ok?
    ensures var r := Unchecked(GetChecked(j, us).value, ts, e);
      Unchecked(j, us + ts, e) == if r.Ok? then Ok(Put(j, us, r.value)) else r
    decreases |us|
  {
    hide Apply, StoI, LeadingZero;
    if us == [] {
      assert us + ts == ts;
    } else {
      assert (us + ts)[0] == us[0] && (us + ts)[1..] == us[1..] + ts;
      if j.Object? {
        CreateBelow(j.m[us[0]], us[1..], ts, e);
      } else {
        CreateBelow(j.a[CheckedIndex(us[0], |j.a|).value], us[1..], ts, e);
      }
    }
  }

  function Nulls(n: nat): seq<Json> { seq(n, _ => Null) }

  /** An array that gets element n, with nulls before it as far as it is too short. */
  function Extended(a: seq<Json>, n: nat, c: Json): seq<Json>
    requires n >= |a|
  {
    a + Nulls(n - |a|) + [c]
  }

  /** The element number that a token stands for in an array that does not have it. */
  function NewPlace(a: seq<Json>, token: Str): Result<int> {
    if token == DASH then Ok(|a|)
    else if LeadingZero(token) then Err(DomainError)
    else if StoI(token).Ok? && StoI(token).value < 0 then Err(LengthError) else StoI(token)
  }

  /** A child that is not there is created from a null: a member, or an element with nulls before it. */
  lemma NewChild(j: Json, t: Str, ts: seq<Str>, e: Edit)
    requires GetChecked(j, [t]).Err?
    ensures var c, r := Unchecked(Null, ts, e), Unchecked(j, [t] + ts, e);
      if j.Object? || (j.Null? && !AllDigits(t) && t != DASH) then
        r == if c.Ok? then Ok(Object((if j.Object? then j.m else map[])[t := c.value])) else c
      else if j.Array? || j.Null? then
        var a := if j.Array? then j.a else [];
        var n := NewPlace(a, t);
        if n.Err? then r == Err(n.error)
        else n.value >= |a| && r == if c.Ok? then Ok(Array(Extended(a, n.value, c.value))) else c
      else r == Err(OutOfRange)
  {
    hide StoI, LeadingZero, Apply, AllDigits;
    OneToken(j, t);
    assert ([t] + ts)[1..] == ts;
    var g := Grown(j, t);
    if g.Array? {
      ArrayChild(g.a, t, ts, e);
    }
  }

  lemma ArrayChild(a: seq<Json>, t: Str, ts: seq<Str>, e: Edit)
    requires CheckedIndex(t, |a|).Err?
    ensures var c, r, n := Unchecked(Null, ts, e), Unchecked(Array(a), [t] + ts, e), NewPlace(a, t);
      if n.Err? then r == Err(n.error)
      else n.value >= |a| && r == if c.Ok? then Ok(Array(Extended(a, n.value, c.value))) else c
  {
    hide StoI, LeadingZero, Apply, AllDigits;
    assert ([t] + ts)[1..] == ts;
    assert !LeadingZero(DASH) by { DashPlain(); }
    var n := NewPlace(a, t);
    if n.Ok? {
      var p := Padded(a, n.value);
      assert p == a + Nulls(n.value + 1 - |a|);
      if Unchecked(Null, ts, e).Ok? {
        var c := Unchecked(Null, ts, e).value;
        assert p[n.value := c] == Extended(a, n.value, c);
      }
    }
  }

  lemma DashPlain()
    ensures !LeadingZero(DASH)
  {}

  /** What is created is found again, by the same pointer unless "-" is in it: the edit of what stood there, or of a null. */
  lemma {:induction false} ReadsBack(j: Json, ts: seq<Str>, e: Edit)
    requires DASH !in ts && Unchecked(j, ts, e).Ok?
    ensures GetChecked(Unchecked(j, ts, e).value, ts) ==
            Apply(if GetChecked(j, ts).Ok? then GetChecked(j, ts).value else Null, e)
    decreases |ts|
  {
    hide StoI, LeadingZero, Apply, AllDigits;
    if ts != [] {
      assert ts[0] != DASH && DASH !in ts[1..];
      var g := Grown(j, ts[0]);
      if g.Object? {
        ReadsBack(if ts[0] in g.m then g.m[ts[0]] else Null, ts[1..], e);
      } else {
        var i := UncheckedIndex(ts[0], |g.a|).value;
        ReadsBack(Padded(g.a, i)[i], ts[1..], e);
      }
    }
  }

  lemma UncheckedStep(j: Json, ts: seq<Str>, e: Edit)
    requires ts != []
    ensures var c := GetChecked(j, [ts[0]]);
      Unchecked(j, ts, e).Ok? <==>
        if c.Ok? then Unchecked(c.value, ts[1..], e).Ok? else Grows(j, ts[0]) && Unchecked(Null, ts[1..], e).Ok?
  {
    hide StoI, LeadingZero, Apply, AllDigits, Creatable, UncheckedIndex;
    var t := ts[0];
    assert ts == [t] + ts[1..];
    if GetChecked(j, [t]).Ok? {
      CreateBelow(j, [t], ts[1..], e);
    } else {
      NewChild(j, t, ts[1..], e);
      DashNoNumber();
      if j.Null? {
        if AllDigits(t) || t == DASH { NewIndex(t); PlaceIndex([], t); } else { NoDigits(t); }
      } else if j.Array? && NewPlace(j.a, t).Ok? && t != DASH {
        assert Names(t, NewPlace(j.a, t).value);
      }
    }
  }

  lemma PlaceIndex(a: seq<Json>, t: Str)
    ensures NewPlace(a, t) == UncheckedIndex(t, |a|)
  {
    hide StoI;
    DashPlain();
  }

  /**
   * When an edit that creates what is missing is possible: where the pointer leads to a value, if that can be edited; else if
   * the last value it leads to can grow the next child, all tokens behind it can be created, and a null can be edited.
   */
  lemma {:induction false} WritesExactly(j: Json, ts: seq<Str>, e: Edit)
    ensures var n := Reach(j, ts);
      GetChecked(j, ts[..n]).Ok? &&
      (Unchecked(j, ts, e).Ok? <==>
         if n == |ts| then Apply(GetChecked(j, ts[..n]).value, e).Ok?
         else Grows(GetChecked(j, ts[..n]).value, ts[n]) && AllCreatable(ts[n + 1..]) && Apply(Null, e).Ok?)
    decreases |ts|
  {
    hide GetChecked, Unchecked, Apply, Grows, AllCreatable;
    Reached(j, ts);
    var n := Reach(j, ts);
    if ts == [] {
      Edited0(j, e);
      assert ts[..n] == [];
      GetRoot(j);
    } else {
      UncheckedStep(j, ts, e);
      if n == 0 {
        GetRoot(j);
        assert ts[..0] == [];
        NullGrows(ts[1..], e);
      } else {
        var c := GetChecked(j, [ts[0]]).value;
        WritesExactly(c, ts[1..], e);
        Step(j, ts[..n]);
        assert ts[..n][0] == ts[0] && ts[..n][1..] == ts[1..][..n - 1];
        assert n < |ts| ==> ts[n] == ts[1..][n - 1] && ts[n + 1..] == ts[1..][n..];
      }
    }
  }

  lemma Edited0(j: Json, e: Edit)
    ensures Unchecked(j, [], e) == Apply(j, e)
  {}

  // ---------------------------------------------------------------- copy and add

  /** `copy` fails as the source pointer does, and else sets the target to the source's value, creating what is missing. */
  lemma CopyExactly(doc: Json, from: seq<Str>, path: seq<Str>)
    ensures forall e | Fails(doc, from, e) :: ApplyOp(doc, Copy(from, path)) == Err(e)
    ensures forall v | Leads(doc, from, v) :: ApplyOp(doc, Copy(from, path)) == Unchecked(doc, path, Set(v))
    ensures forall v | Leads(doc, from, v) && ApplyOp(doc, Copy(from, path)).Ok? && DASH !in path ::
              Leads(ApplyOp(doc, Copy(from, path)).value, path, v)
  {
    hide GetChecked, Unchecked, Leads, Fails;
    forall e ensures Fails(doc, from, e) <==> GetChecked(doc, from) == Err(e) { GetFails(doc, from, e); }
    forall v ensures Leads(doc, from, v) <==> GetChecked(doc, from) == Ok(v) { GetExactly(doc, from, v); }
    forall v | Leads(doc, from, v) && ApplyOp(doc, Copy(from, path)).Ok? && DASH !in path
      ensures Leads(ApplyOp(doc, Copy(from, path)).value, path, v)
    {
      ReadsBack(doc, path, Set(v));
      GetExactly(ApplyOp(doc, Copy(from, path)).value, path, v);
    }
  }

  /** `add` at the root replaces the document; elsewhere it wants the first token to lead somewhere, or be the only one. */
  lemma AddExactly(doc: Json, ts: seq<Str>, k: Str, v: Json)
    ensures ApplyOp(doc, Add([], v)) == Ok(v)
    ensures ts == [] ==> ApplyOp(doc, Add(ts + [k], v)) == Insert(doc, k, v)
    ensures ts != [] ==> forall e | Fails(doc, [ts[0]], e) :: ApplyOp(doc, Add(ts + [k], v)) == Err(e)
    ensures ts != [] && GetChecked(doc, [ts[0]]).Ok? ==>
              ApplyOp(doc, Add(ts + [k], v)) == Unchecked(doc, ts, AddChild(k, v)) &&
              (ApplyOp(doc, Add(ts + [k], v)).Ok? && DASH !in ts ==>
                 GetChecked(ApplyOp(doc, Add(ts + [k], v)).value, ts) ==
                   Insert(if GetChecked(doc, ts).Ok? then GetChecked(doc, ts).value else Null, k, v))
  {
    hide GetChecked, Insert, Fails, Unchecked;
    assert (ts + [k])[..|ts|] == ts && (ts + [k])[|ts|] == k;
    Edited0(doc, AddChild(k, v));
    if ts != [] {
      assert (ts + [k])[0] == ts[0];
      forall e ensures Fails(doc, [ts[0]], e) <==> GetChecked(doc, [ts[0]]) == Err(e) { GetFails(doc, [ts[0]], e); }
      if GetChecked(doc, [ts[0]]).Ok? && Unchecked(doc, ts, AddChild(k, v)).Ok? && DASH !in ts {
        ReadsBack(doc, ts, AddChild(k, v));
      }
    }
  }

  /** `move` is `remove` and then `add` of what was found; it fails as the source pointer does. */
  lemma MoveExactly(doc: Json, from: seq<Str>, path: seq<Str>)
    ensures forall e | Fails(doc, from, e) :: ApplyOp(doc, Move(from, path)) == Err(e)
    ensures forall v | Leads(doc, from, v) :: ApplyOp(doc, Move(from, path)) == Both(doc, Remove(from), Add(path, v))
  {
    hide GetChecked, Leads, Fails, OperationAdd, OperationRemove;
    forall e ensures Fails(doc, from, e) <==> GetChecked(doc, from) == Err(e) { GetFails(doc, from, e); }
    forall v ensures Leads(doc, from, v) <==> GetChecked(doc, from) == Ok(v) { GetExactly(doc, from, v); }
  }

  /**
   * What `add` makes of a parent: a member set, an element inserted before the one named or at the end, a null made an
   * object.
   */
  lemma InsertExactly(j: Json, k: Str, v: Json)
    ensures j.Object? ==> Insert(j, k, v) == Ok(Object(j.m[k := v]))
    ensures j.Null? ==> Insert(j, k, v) == Ok(Object(map[k := v]))
    ensures j.Array? && Insert(j, k, v).Ok? ==>
      var b := Insert(j, k, v).value;
      b.Array? && |b.a| == |j.a| + 1 &&
      exists i :: 0 <= i <= |j.a| && b.a[i] == v && b.a[..i] + b.a[i + 1..] == j.a &&
                  if k == DASH then i == |j.a| else StoI(k) == Ok(i)
    ensures j.Array? && Insert(j, k, v).Err? ==>
              k != DASH && Insert(j, k, v).error == if IsNumber(k) then OutOfRange else InvalidArgument
    ensures !j.Object? && !j.Null? && !j.Array? ==> Insert(j, k, v) == Err(AssertionFailed)
  {
    hide StoI, IsNumber;
    NumberExactly(k);
    if j.Array? && Insert(j, k, v).Ok? {
      var i := if k == DASH then |j.a| else StoI(k).value;
      var b := Insert(j, k, v).value.a;
      assert b == j.a[..i] + [v] + j.a[i..];
      assert b[..i] + b[i + 1..] == j.a;
    }
  }

  // ---------------------------------------------------------------- operations as JSON

  function Latin(s: string): Str
    requires forall i | 0 <= i < |s| :: s[i] < 128 as char
  {
    seq(|s|, i requires 0 <= i < |s| => s[i] as int)
  }

  function NameOf(op: Op): Str {
    match op
    case Add(_, _) => Latin("add")
    case Remove(_) => Latin("remove")
    case Replace(_, _) => Latin("replace")
    case Move(_, _) => Latin("move")
    case Copy(_, _) => Latin("copy")
    case Test(_, _) => Latin("test")
  }

  predicate TextMember(m: map<Str, Json>, name: Str, s: Str) { name in m && m[name] == String(s) }

  /** A member is a string that is a pointer with these tokens. */
  predicate PathMember(m: map<Str, Json>, name: Str, ts: seq<Str>) {
    name in m && m[name].String? && Split(m[name].s) == Ok(ts)
  }

  /** An object that says this operation, whatever else is in it. */
  predicate Says(m: map<Str, Json>, op: Op) {
    && TextMember(m, Latin("op"), NameOf(op)) && PathMember(m, Latin("path"), op.path)
    && (op.Add? || op.Replace? || op.Test? ==> Latin("value") in m && m[Latin("value")] == op.value)
    && (op.Move? || op.Copy? ==> PathMember(m, Latin("from"), op.from))
  }

  lemma Spellings()
    ensures Latin("op") == OP && Latin("path") == PATH && Latin("value") == VALUE && Latin("from") == FROM
    ensures Latin("add") == ADD && Latin("remove") == REMOVE && Latin("replace") == REPLACE
    ensures Latin("move") == MOVE && Latin("copy") == COPY && Latin("test") == TEST
  {}

  lemma NamesDiffer()
    ensures ADD != REMOVE && ADD != REPLACE && ADD != MOVE && ADD != COPY && ADD != TEST && REMOVE != REPLACE && REMOVE != MOVE
    ensures REMOVE != COPY && REMOVE != TEST && REPLACE != MOVE && REPLACE != COPY && REPLACE != TEST && MOVE != COPY
    ensures MOVE != TEST && COPY != TEST
  {
    assert |ADD| == 3 && |REMOVE| == 6 && |REPLACE| == 7 && MOVE[0] == 0x6d && COPY[0] == 0x63 && TEST[0] == 0x74;
  }

  /** An operation is understood exactly if the object says it. */
  lemma ParseExactly(j: Json, op: Op)
    ensures ParseOp(j) == Ok(op) <==> j.Object? && Says(j.m, op)
  {
    Spellings();
    NamesDiffer();
    hide Latin, Split;
  }

  predicate Malformed(m: map<Str, Json>, name: Str) {
    name in m && m[name].String? && Split(m[name].s).Err?
  }

  /**
   * Otherwise it is refused: for a string that is no pointer as `split` refuses that, and as an invalid argument for all
   * else.
   */
  lemma ParseFails(j: Json)
    ensures ParseOp(j).Err? ==>
      ParseOp(j).error ==
        if j.Object? && OP in j.m && j.m[OP].String? &&
           (Malformed(j.m, PATH) ||
            (PATH in j.m && j.m[PATH].String? && (j.m[OP].s == MOVE || j.m[OP].s == COPY) && Malformed(j.m, FROM)))
        then DomainError else InvalidArgument
  {
    NamesDiffer();
    forall s | Split(s).Err? ensures Split(s) == Err(DomainError) { SplitErrors(s); }
    hide Split;
  }

  lemma SplitErrors(s: Str)
    requires Split(s).Err?
    ensures Split(s) == Err(DomainError)
  {
    if s != [] { TokensErrors(s[1..]); }
  }

  lemma {:induction false} TokensErrors(s: Str)
    ensures Tokens(s).Err? ==> Tokens(s) == Err(DomainError)
    decreases |s|
  {
    hide FirstSlash, WellEscaped, Unescape;
    if FirstSlash(s) < |s| { TokensErrors(s[FirstSlash(s) + 1..]); }
  }
}
