/** Patching a value with its difference to another: when it succeeds, and what comes out. */
module JsonDiffPatch {
  import opened Bytes
  import opened JsonValue
  import opened JsonPointer
  import opened JsonPatch
  import opened JsonDiff

  // ---------------------------------------------------------------- what to expect

  /** The outcome: everything that differs is the target's. */
  function Patched(s: Json, t: Json): Json
    decreases s
  {
    if JsonEq(s, t) then s
    else if !SameType(s, t) then t
    else
      match s
      case Array(a) => Array(seq(|t.a|, i requires 0 <= i < |t.a| => if i < |a| then Patched(a[i], t.a[i]) else t.a[i]))
      case Object(m) => Object(map k | k in t.m :: if k in m then Patched(m[k], t.m[k]) else t.m[k])
      case _ => t
  }

  /** No index in the difference of the two values exceeds what std::stoi reads. */
  predicate Fits(s: Json, t: Json)
    decreases s
  {
    JsonEq(s, t) || !SameType(s, t) ||
    match s
    case Array(a) => LengthsFit(|a|, |t.a|) && forall i | 0 <= i < |a| && i < |t.a| :: ElementFits(s, t, i)
    case Object(m) => forall k | k in m && k in t.m :: Fits(m[k], t.m[k])
    case _ => true
  }

  predicate LengthsFit(m: nat, n: nat) {
    m != n ==> m <= INT_MAX + 1 && n <= INT_MAX + 1
  }

  predicate ElementFits(s: Json, t: Json, i: nat)
    requires s.Array? && t.Array? && i < |s.a| && i < |t.a|
    decreases s, 0
  {
    Fits(s.a[i], t.a[i]) && (i <= INT_MAX || JsonEq(s.a[i], t.a[i]))
  }

  /** The outcome equals the target exactly when the target holds no NaN. */
  lemma {:induction false} PatchedEqual(s: Json, t: Json)
    ensures JsonEq(Patched(s, t), t) <==> NaNFree(t)
    decreases s
  {
    EqualToItself(t);
    if JsonEq(s, t) {
      EqualNaNFree(s, t);
    } else if SameType(s, t) {
      match s {
        case Array(a) =>
          forall i | 0 <= i < |t.a|
            ensures JsonEq(Patched(s, t).a[i], t.a[i]) <==> NaNFree(t.a[i])
          {
            EqualToItself(t.a[i]);
            if i < |a| { PatchedEqual(a[i], t.a[i]); }
          }
        case Object(m) =>
          forall k | k in t.m
            ensures JsonEq(Patched(s, t).m[k], t.m[k]) <==> NaNFree(t.m[k])
          {
            EqualToItself(t.m[k]);
            if k in m { PatchedEqual(m[k], t.m[k]); }
          }
        case _ =>
      }
    }
  }

  // ---------------------------------------------------------------- single operations

  lemma PathAtKey(ts: seq<Str>, k: Str)
    ensures AtKey(ToString(ts), k) == ToString(ts + [k])
  {
    hide Escape;
    assert (ts + [k])[..|ts|] == ts;
  }

  lemma PathAtIndex(ts: seq<Str>, i: nat)
    ensures AtIndex(ToString(ts), i) == ToString(ts + [Decimal(i)])
  {
    hide Escape, Decimal;
    PathAtKey(ts, Decimal(i));
    EscapeDecimal(i);
  }

  lemma ParseEmitted(ts: seq<Str>, v: Json)
    ensures ParseOp(ReplaceDoc(ToString(ts), v)) == Ok(Replace(ts, v))
    ensures ParseOp(AddDoc(ToString(ts), v)) == Ok(Add(ts, v))
    ensures ParseOp(RemoveDoc(ToString(ts))) == Ok(Remove(ts))
  {
    hide Split, ToString;
    SplitToString(ts);
  }

  /** What an edit of an existing place comes to. */
  function Edited(doc: Json, ts: seq<Str>, e: Edit): Result<Json>
    requires GetChecked(doc, ts).Ok?
  {
    var r := Apply(GetChecked(doc, ts).value, e);
    if r.Ok? then Ok(Put(doc, ts, r.value)) else r
  }

  lemma ReplaceStep(doc: Json, ts: seq<Str>, v: Json)
    requires GetChecked(doc, ts).Ok?
    ensures PatchAll(doc, [ReplaceDoc(ToString(ts), v)]) == Ok(Put(doc, ts, v))
  {
    hide ParseOp, ReplaceDoc, ToString;
    ParseEmitted(ts, v);
    assert PatchStep(doc, ReplaceDoc(ToString(ts), v)) == Ok(Put(doc, ts, v));
    Single(doc, ReplaceDoc(ToString(ts), v));
  }

  lemma Single(doc: Json, j: Json)
    ensures PatchAll(doc, [j]) == PatchStep(doc, j)
  {
    hide PatchStep;
    assert [j][1..] == [];
  }

  lemma RemoveStep(doc: Json, ts: seq<Str>, k: Str)
    requires GetChecked(doc, ts).Ok?
    ensures PatchStep(doc, RemoveDoc(ToString(ts + [k]))) == Edited(doc, ts, RemoveChild(k))
  {
    hide ParseOp, RemoveDoc, ToString, Apply, GetChecked, Checked, Unchecked;
    ParseEmitted(ts + [k], Null);
    EditPlace(doc, ts, RemoveChild(k));
    assert (ts + [k])[..|ts|] == ts;
  }

  lemma AddStep(doc: Json, ts: seq<Str>, k: Str, v: Json)
    requires GetChecked(doc, ts).Ok?
    ensures PatchStep(doc, AddDoc(ToString(ts + [k]), v)) == Edited(doc, ts, AddChild(k, v))
  {
    hide ParseOp, AddDoc, ToString, Apply, Checked, Unchecked, CheckedIndex;
    ParseEmitted(ts + [k], v);
    EditPlace(doc, ts, AddChild(k, v));
    assert (ts + [k])[..|ts|] == ts;
    if ts != [] {
      assert (ts + [k])[0] == ts[0];
      assert GetChecked(doc, [ts[0]]).Ok? by {
        var top: seq<Str> := [ts[0]];
        assert |top[1..]| == 0;
      }
    }
  }

  /** An index as `diff` writes it. */
  lemma IndexBack(i: nat, n: nat)
    ensures CheckedIndex(Decimal(i), n) == if i <= INT_MAX && i < n then Ok(i) else Err(OutOfRange)
    ensures UncheckedIndex(Decimal(i), n) == if i <= INT_MAX then Ok(i) else Err(OutOfRange)
    ensures Decimal(i) != DASH
  {
    hide StoI, Decimal;
    StoIDecimal(i);
    assert IsDigit(Decimal(i)[0]);
  }

  // ---------------------------------------------------------------- indices too large to read

  /** Every path through an index that std::stoi refuses is out of range. */
  lemma {:induction false} Blocked(doc: Json, ts: seq<Str>, i: nat, us: seq<Str>, e: Edit)
    requires GetChecked(doc, ts).Ok? && GetChecked(doc, ts).value.Array? && i > INT_MAX
    ensures Checked(doc, ts + [Decimal(i)] + us, e) == Err(OutOfRange)
    ensures Unchecked(doc, ts + [Decimal(i)] + us, e) == Err(OutOfRange)
    ensures ts == [] ==> GetChecked(doc, [Decimal(i)]) == Err(OutOfRange)
    ensures ts != [] ==> GetChecked(doc, [ts[0]]).Ok?
    decreases |ts|
  {
    hide Apply, Decimal, StoI, LeadingZero;
    var q := ts + [Decimal(i)] + us;
    if ts == [] {
      assert q[0] == Decimal(i);
      IndexBack(i, |doc.a|);
    } else {
      assert q[0] == ts[0] && q[1..] == ts[1..] + [Decimal(i)] + us;
      var top: seq<Str> := [ts[0]];
        assert |top[1..]| == 0;
      if doc.Object? {
        Blocked(doc.m[ts[0]], ts[1..], i, us, e);
      } else {
        Blocked(doc.a[CheckedIndex(ts[0], |doc.a|).value], ts[1..], i, us, e);
      }
    }
  }
}
