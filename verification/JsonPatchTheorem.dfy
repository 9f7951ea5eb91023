/** The law of `diff` and `patch`. */
module JsonPatchTheorem {
  import opened Bytes
  import opened JsonValue
  import opened JsonPointer
  import opened JsonPatch
  import opened JsonDiff
  import opened JsonDiffPatch

  // ---------------------------------------------------------------- differences that are not there

  /** Only equal values have an empty difference. */
  lemma {:induction false} DiffNonempty(s: Json, t: Json, path: Str)
    ensures Diff(s, t, path) == [] <==> JsonEq(s, t)
    decreases s
  {
    hide AtIndex, AtKey, RemoveDoc, AddDoc, ReplaceDoc, NumberEq;
    if !JsonEq(s, t) && SameType(s, t) && Diff(s, t, path) == [] {
      if s.Array? {
        ElementsNonempty(s, t, path, 0);
      } else if s.Object? {
        KeysNonempty(s, t, path, SortedKeys(s.m.Keys));
        AddsNonempty(s.m, t.m, path, SortedKeys(t.m.Keys));
      }
    }
  }

  lemma {:induction false} ElementsNonempty(s: Json, t: Json, path: Str, i: nat)
    requires s.Array? && t.Array? && DiffElements(s, t, path, i) == []
    ensures forall j | i <= j < |s.a| && j < |t.a| :: JsonEq(s.a[j], t.a[j])
    decreases s, |s.a| - i
  {
    hide Diff, AtIndex, JsonEq;
    if i < |s.a| && i < |t.a| {
      DiffNonempty(s.a[i], t.a[i], AtIndex(path, i));
      ElementsNonempty(s, t, path, i + 1);
    }
  }

  lemma {:induction false} KeysNonempty(s: Json, t: Json, path: Str, ks: seq<Str>)
    requires s.Object? && t.Object? && (forall k | k in ks :: k in s.m) && DiffKeys(s, t, path, ks) == []
    ensures forall k | k in ks :: k in t.m && JsonEq(s.m[k], t.m[k])
    decreases s, |ks|
  {
    hide Diff, AtKey, JsonEq;
    if ks != [] {
      KeysNonempty(s, t, path, ks[1..]);
      if ks[0] in t.m {
        DiffNonempty(s.m[ks[0]], t.m[ks[0]], AtKey(path, ks[0]));
      }
    }
  }

  lemma {:induction false} AddsNonempty(m: map<Str, Json>, n: map<Str, Json>, path: Str, ks: seq<Str>)
    requires (forall k | k in ks :: k in n) && AddKeys(m, n, path, ks) == []
    ensures forall k | k in ks :: k in m
  {
    if ks != [] {
      AddsNonempty(m, n, path, ks[1..]);
    }
  }

  // ---------------------------------------------------------------- differences that cannot be applied

  predicate Refused(doc: Json, x: Json) {
    PatchStep(doc, x) == Err(OutOfRange)
  }

  predicate AllRefused(doc: Json, patch: seq<Json>) {
    forall x | x in patch :: Refused(doc, x)
  }

  /** ts leads to an array, and i is an index std::stoi refuses. */
  predicate Block(doc: Json, ts: seq<Str>, i: nat) {
    GetChecked(doc, ts).Ok? && GetChecked(doc, ts).value.Array? && i > INT_MAX
  }

  lemma RefusedHere(doc: Json, ts: seq<Str>, i: nat, us: seq<Str>, v: Json)
    requires Block(doc, ts, i)
    ensures Refused(doc, ReplaceDoc(ToString(ts + [Decimal(i)] + us), v))
  {
    hide ToString, Decimal, ReplaceDoc, ParseOp, Checked, GetChecked;
    ParseEmitted(ts + [Decimal(i)] + us, v);
    Blocked(doc, ts, i, us, Set(v));
  }

  lemma RefusedChild(doc: Json, ts: seq<Str>, i: nat, us: seq<Str>, k: Str, v: Json)
    requires Block(doc, ts, i)
    ensures Refused(doc, RemoveDoc(ToString(ts + [Decimal(i)] + us + [k])))
    ensures Refused(doc, AddDoc(ToString(ts + [Decimal(i)] + us + [k]), v))
  {
    hide ToString, Decimal, AddDoc, RemoveDoc, ParseOp, Checked, Unchecked, GetChecked;
    var q := ts + [Decimal(i)] + us;
    ParseEmitted(q + [k], v);
    Blocked(doc, ts, i, us, RemoveChild(k));
    Blocked(doc, ts, i, us, AddChild(k, v));
    assert (q + [k])[..|q|] == q;
    assert (q + [k])[0] == if ts == [] then Decimal(i) else ts[0];
  }

  lemma {:induction false} DiffRefused(doc: Json, ts: seq<Str>, i: nat, us: seq<Str>, s: Json, t: Json)
    requires Block(doc, ts, i)
    ensures AllRefused(doc, Diff(s, t, ToString(ts + [Decimal(i)] + us)))
    decreases s
  {
    hide Block, Refused, ToString, Decimal, AddDoc, RemoveDoc, ReplaceDoc, JsonEq, DiffElements, DiffKeys, AddKeys, Removals, Additions;
    RefusedHere(doc, ts, i, us, t);
    if s.Array? && t.Array? {
      ElementsRefused(doc, ts, i, us, s, t, 0);
      RemovalsRefused(doc, ts, i, us, |t.a|, |s.a|);
      AdditionsRefused(doc, ts, i, us, t.a, |s.a|);
    } else if s.Object? && t.Object? {
      KeysRefused(doc, ts, i, us, s, t, SortedKeys(s.m.Keys));
      AddsRefused(doc, ts, i, us, s.m, t.m, SortedKeys(t.m.Keys));
    }
  }

  lemma {:induction false} ElementsRefused(doc: Json, ts: seq<Str>, i: nat, us: seq<Str>, s: Json, t: Json, j: nat)
    requires Block(doc, ts, i) && s.Array? && t.Array?
    ensures AllRefused(doc, DiffElements(s, t, ToString(ts + [Decimal(i)] + us), j))
    decreases s, |s.a| - j
  {
    hide Block, Refused, ToString, Decimal, Diff, AtIndex;
    if j < |s.a| && j < |t.a| {
      var q := ts + [Decimal(i)] + us;
      PathAtIndex(q, j);
      assert q + [Decimal(j)] == ts + [Decimal(i)] + (us + [Decimal(j)]);
      DiffRefused(doc, ts, i, us + [Decimal(j)], s.a[j], t.a[j]);
      ElementsRefused(doc, ts, i, us, s, t, j + 1);
    }
  }

  lemma {:induction false} RemovalsRefused(doc: Json, ts: seq<Str>, i: nat, us: seq<Str>, from: nat, end: nat)
    requires Block(doc, ts, i)
    ensures AllRefused(doc, Removals(ToString(ts + [Decimal(i)] + us), from, end))
    decreases end - from
  {
    hide Block, Refused, ToString, Decimal, RemoveDoc, AtIndex;
    if from < end {
      RemovalsRefused(doc, ts, i, us, from + 1, end);
      PathAtIndex(ts + [Decimal(i)] + us, from);
      RefusedChild(doc, ts, i, us, Decimal(from), Null);
    }
  }

  lemma {:induction false} AdditionsRefused(doc: Json, ts: seq<Str>, i: nat, us: seq<Str>, b: seq<Json>, j: nat)
    requires Block(doc, ts, i)
    ensures AllRefused(doc, Additions(b, ToString(ts + [Decimal(i)] + us), j))
    decreases |b| - j
  {
    hide Block, Refused, ToString, Decimal, AddDoc, AtIndex;
    if j < |b| {
      AdditionsRefused(doc, ts, i, us, b, j + 1);
      PathAtIndex(ts + [Decimal(i)] + us, j);
      RefusedChild(doc, ts, i, us, Decimal(j), b[j]);
    }
  }

  lemma {:induction false} KeysRefused(doc: Json, ts: seq<Str>, i: nat, us: seq<Str>, s: Json, t: Json, ks: seq<Str>)
    requires Block(doc, ts, i) && s.Object? && t.Object? && forall k | k in ks :: k in s.m
    ensures AllRefused(doc, DiffKeys(s, t, ToString(ts + [Decimal(i)] + us), ks))
    decreases s, |ks|
  {
    hide Block, Refused, ToString, Decimal, Diff, RemoveDoc, AtKey;
    if ks != [] {
      var q, k := ts + [Decimal(i)] + us, ks[0];
      PathAtKey(q, k);
      RefusedChild(doc, ts, i, us, k, Null);
      if k in t.m {
        assert q + [k] == ts + [Decimal(i)] + (us + [k]);
        DiffRefused(doc, ts, i, us + [k], s.m[k], t.m[k]);
      }
      KeysRefused(doc, ts, i, us, s, t, ks[1..]);
    }
  }

  lemma {:induction false} AddsRefused(doc: Json, ts: seq<Str>, i: nat, us: seq<Str>,
                                       m: map<Str, Json>, n: map<Str, Json>, ks: seq<Str>)
    requires Block(doc, ts, i) && forall k | k in ks :: k in n
    ensures AllRefused(doc, AddKeys(m, n, ToString(ts + [Decimal(i)] + us), ks))
    decreases |ks|
  {
    hide Block, Refused, ToString, Decimal, AddDoc, AtKey;
    if ks != [] {
      PathAtKey(ts + [Decimal(i)] + us, ks[0]);
      RefusedChild(doc, ts, i, us, ks[0], n[ks[0]]);
      AddsRefused(doc, ts, i, us, m, n, ks[1..]);
    }
  }

  /** A difference below an index that std::stoi refuses: nothing is to do, or the patch fails at once. */
  lemma DiffAcrossBlock(doc: Json, ts: seq<Str>, i: nat, s: Json, t: Json)
    requires Block(doc, ts, i)
    ensures PatchAll(doc, Diff(s, t, AtIndex(ToString(ts), i))) ==
            if JsonEq(s, t) then Ok(doc) else Err(OutOfRange)
  {
    hide Block, ToString, Decimal, Diff, AtIndex, PatchStep, JsonEq;
    PathAtIndex(ts, i);
    assert ts + [Decimal(i)] + [] == ts + [Decimal(i)];
    DiffRefused(doc, ts, i, [], s, t);
    var d := Diff(s, t, AtIndex(ToString(ts), i));
    DiffNonempty(s, t, AtIndex(ToString(ts), i));
    if d != [] {
      assert Refused(doc, d[0]);
    }
  }

  // ---------------------------------------------------------------- arrays

  /** The source's array when the elements before i have been dealt with. */
  function Mixed(s: Json, t: Json, i: nat): (r: seq<Json>)
    requires s.Array? && t.Array? && i <= |s.a| && i <= |t.a|
    ensures |r| == |s.a|
  {
    seq(|s.a|, j requires 0 <= j < |s.a| => if j < i then Patched(s.a[j], t.a[j]) else s.a[j])
  }

  function Landed(doc: Json, ts: seq<Str>, fits: bool, v: Json): Result<Json>
    requires GetChecked(doc, ts).Ok?
  {
    if fits then Ok(Put(doc, ts, v)) else Err(OutOfRange)
  }

  predicate ElementsFit(s: Json, t: Json, i: nat)
    requires s.Array? && t.Array?
  {
    forall j | i <= j < |s.a| && j < |t.a| :: ElementFits(s, t, j)
  }

  function Common(s: Json, t: Json): nat
    requires s.Array? && t.Array?
  {
    if |s.a| < |t.a| then |s.a| else |t.a|
  }

  /** The element of an array at an index as `diff` writes it. */
  lemma ElementAt(doc: Json, ts: seq<Str>, i: nat, v: Json)
    requires GetChecked(doc, ts).Ok? && GetChecked(doc, ts).value.Array?
    requires i < |GetChecked(doc, ts).value.a| && i <= INT_MAX
    ensures var a := GetChecked(doc, ts).value.a;
      GetChecked(doc, ts + [Decimal(i)]) == Ok(a[i]) &&
      Put(doc, ts + [Decimal(i)], v) == Put(doc, ts, Array(a[i := v]))
  {
    hide CheckedIndex, UncheckedIndex, Decimal;
    var j := GetChecked(doc, ts).value;
    Below(doc, ts, Decimal(i), v);
    IndexBack(i, |j.a|);
    var one: seq<Str> := [Decimal(i)];
    assert one[1..] == [];
    assert GetChecked(j, one) == Ok(j.a[i]);
  }

  lemma EqualStays(s: Json, t: Json)
    requires JsonEq(s, t)
    ensures Patched(s, t) == s && Fits(s, t)
  {
    hide JsonEq;
  }

  lemma {:induction false} ElementsWork(doc: Json, ts: seq<Str>, s: Json, t: Json, i: nat)
    requires s.Array? && t.Array? && i <= Common(s, t)
    requires GetChecked(doc, ts) == Ok(Array(Mixed(s, t, i)))
    ensures PatchAll(doc, DiffElements(s, t, ToString(ts), i)) ==
            Landed(doc, ts, ElementsFit(s, t, i), Array(Mixed(s, t, Common(s, t))))
    decreases s, |s.a| - i
  {
    hide ToString, Decimal, Diff, AtIndex, PatchStep, JsonEq, Put, Fits, GetChecked, Patched;
    if i == Common(s, t) {
      PutGet(doc, ts);
    } else {
      var path := ToString(ts);
      PatchAppend(doc, Diff(s.a[i], t.a[i], AtIndex(path, i)), DiffElements(s, t, path, i + 1));
      ElementWorks(doc, ts, s, t, i);
      if ElementFits(s, t, i) {
        var next := Put(doc, ts, Array(Mixed(s, t, i + 1)));
        GetPut(doc, ts, Array(Mixed(s, t, i + 1)), Array(Mixed(s, t, Common(s, t))));
        ElementsWork(next, ts, s, t, i + 1);
      }
    }
  }

  lemma {:induction false} ElementWorks(doc: Json, ts: seq<Str>, s: Json, t: Json, i: nat)
    requires s.Array? && t.Array? && i < Common(s, t)
    requires GetChecked(doc, ts) == Ok(Array(Mixed(s, t, i)))
    ensures PatchAll(doc, Diff(s.a[i], t.a[i], AtIndex(ToString(ts), i))) ==
            Landed(doc, ts, ElementFits(s, t, i), Array(Mixed(s, t, i + 1)))
    decreases s, 0
  {
    hide ToString, Decimal, Diff, AtIndex, PatchStep, JsonEq, Put, Fits, GetChecked, Patched;
    var v := Patched(s.a[i], t.a[i]);
    assert Mixed(s, t, i)[i := v] == Mixed(s, t, i + 1);
    if i <= INT_MAX {
      ElementAt(doc, ts, i, v);
      PathAtIndex(ts, i);
      DiffWorks(doc, ts + [Decimal(i)], s.a[i], t.a[i]);
    } else {
      DiffAcrossBlock(doc, ts, i, s.a[i], t.a[i]);
      if JsonEq(s.a[i], t.a[i]) {
        EqualStays(s.a[i], t.a[i]);
        assert Mixed(s, t, i + 1) == Mixed(s, t, i);
        PutGet(doc, ts);
      }
    }
  }

  /** The longer source array loses its last elements, the very last one first. */
  lemma {:induction false} RemovalsWork(doc: Json, ts: seq<Str>, a: seq<Json>, from: nat)
    requires GetChecked(doc, ts) == Ok(Array(a)) && from <= |a|
    ensures PatchAll(doc, Removals(ToString(ts), from, |a|)) ==
            Landed(doc, ts, from == |a| || |a| <= INT_MAX + 1, Array(a[..from]))
    decreases |a| - from
  {
    hide ToString, Decimal, AtIndex, RemoveDoc, PatchStep, Put, GetChecked, Apply;
    if from == |a| {
      assert a[..from] == a;
      PutGet(doc, ts);
    } else {
      var x := RemoveDoc(AtIndex(ToString(ts), from));
      RemovalsWork(doc, ts, a, from + 1);
      PatchAppend(doc, Removals(ToString(ts), from + 1, |a|), [x]);
      PathAtIndex(ts, from);
      if from + 1 == |a| || |a| <= INT_MAX + 1 {
        var next := Put(doc, ts, Array(a[..from + 1]));
        GetPut(doc, ts, Array(a[..from + 1]), Array(a[..from]));
        Single(next, x);
        RemoveStep(next, ts, Decimal(from));
        EraseLast(a, from);
      }
    }
  }

  lemma EraseLast(a: seq<Json>, i: nat)
    requires i < |a|
    ensures Apply(Array(a[..i + 1]), RemoveChild(Decimal(i))) ==
            if i <= INT_MAX then Ok(Array(a[..i])) else Err(OutOfRange)
  {
    hide Decimal, StoI;
    StoIDecimal(i);
    assert a[..i + 1][..i] + a[..i + 1][i + 1..] == a[..i];
  }

  /** The shorter source array grows at its end. */
  lemma {:induction false} AdditionsWork(doc: Json, ts: seq<Str>, a: seq<Json>, b: seq<Json>)
    requires GetChecked(doc, ts) == Ok(Array(a))
    ensures PatchAll(doc, Additions(b, ToString(ts), |a|)) ==
            Landed(doc, ts, |a| >= |b| || |b| <= INT_MAX + 1, Array(if |a| < |b| then a + b[|a|..] else a))
    decreases |b| - |a|
  {
    hide ToString, Decimal, AtIndex, AddDoc, PatchStep, Put, GetChecked, Apply, PatchAll, Additions;
    if |a| >= |b| {
      NoMoreAdditions(b, ToString(ts), |a|);
      PatchNothing(doc);
      PutGet(doc, ts);
    } else {
      var i := |a|;
      var x := AddDoc(AtIndex(ToString(ts), i), b[i]);
      PathAtIndex(ts, i);
      AddStep(doc, ts, Decimal(i), b[i]);
      InsertLast(a, b[i]);
      AdditionNext(b, ToString(ts), i);
      PatchFirst(doc, x, Additions(b, ToString(ts), i + 1));
      if i <= INT_MAX {
        var a' := a + [b[i]];
        assert a' + b[i + 1..] == a + b[i..];
        var end := Array(a + b[i..]);
        GetPut(doc, ts, Array(a'), end);
        AdditionsWork(Put(doc, ts, Array(a')), ts, a', b);
        assert |a'| >= |b| ==> a' == a + b[i..];
      }
    }
  }

  /** An insertion whose index could be read, or not. */
  lemma InsertAt(a: seq<Json>, k: Str, v: Json, i: nat)
    requires k != DASH && i <= |a| && (StoI(k) == Ok(i) || StoI(k) == Err(OutOfRange))
    ensures Apply(Array(a), AddChild(k, v)) ==
            if StoI(k).Ok? then Ok(Array(a[..i] + [v] + a[i..])) else Err(OutOfRange)
  {
    hide StoI;
  }

  lemma InsertLast(a: seq<Json>, v: Json)
    ensures Apply(Array(a), AddChild(Decimal(|a|), v)) ==
            if |a| <= INT_MAX then Ok(Array(a + [v])) else Err(OutOfRange)
  {
    hide Decimal, StoI, CheckedIndex, UncheckedIndex;
    StoIDecimal(|a|);
    IndexBack(|a|, |a|);
    InsertAt(a, Decimal(|a|), v, |a|);
    assert a[..|a|] == a && a[|a|..] == [];
    assert a + [v] + [] == a + [v];
  }

  // ---------------------------------------------------------------- objects

  /** The object when the keys ks of the source have been dealt with. */
  function AfterKeys(n: map<Str, Json>, s: Json, t: Json, ks: seq<Str>): map<Str, Json>
    requires s.Object? && t.Object? && forall k | k in ks :: k in s.m
    decreases |ks|
  {
    if ks == [] then n
    else
      var k := ks[0];
      AfterKeys(if k in t.m then n[k := Patched(s.m[k], t.m[k])] else n - {k}, s, t, ks[1..])
  }

  predicate KeysFit(s: Json, t: Json, ks: seq<Str>)
    requires s.Object? && t.Object? && forall k | k in ks :: k in s.m
  {
    forall k | k in ks && k in t.m :: Fits(s.m[k], t.m[k])
  }

  predicate Distinct(ks: seq<Str>) {
    forall i, j | 0 <= i < j < |ks| :: ks[i] != ks[j]
  }

  lemma {:induction false} KeysWork(doc: Json, ts: seq<Str>, n: map<Str, Json>, s: Json, t: Json, ks: seq<Str>)
    requires s.Object? && t.Object? && Distinct(ks)
    requires forall k | k in ks :: k in s.m && k in n && n[k] == s.m[k]
    requires GetChecked(doc, ts) == Ok(Object(n))
    ensures PatchAll(doc, DiffKeys(s, t, ToString(ts), ks)) ==
            Landed(doc, ts, KeysFit(s, t, ks), Object(AfterKeys(n, s, t, ks)))
    decreases s, |ks|
  {
    hide ToString, Diff, AtKey, RemoveDoc, PatchStep, Put, Fits, GetChecked, Patched;
    if ks == [] {
      PutGet(doc, ts);
    } else {
      var path, k := ToString(ts), ks[0];
      var first := if k in t.m then Diff(s.m[k], t.m[k], AtKey(path, k)) else [RemoveDoc(AtKey(path, k))];
      PatchAppend(doc, first, DiffKeys(s, t, path, ks[1..]));
      var n' := if k in t.m then n[k := Patched(s.m[k], t.m[k])] else n - {k};
      if k in t.m {
        KeyPatched(doc, ts, n, k, s, t);
      } else {
        KeyRemoved(doc, ts, n, k);
      }
      if k in t.m ==> Fits(s.m[k], t.m[k]) {
        GetPut(doc, ts, Object(n'), Object(AfterKeys(n', s, t, ks[1..])));
        KeysWork(Put(doc, ts, Object(n')), ts, n', s, t, ks[1..]);
      }
    }
  }

  lemma {:induction false} KeyPatched(doc: Json, ts: seq<Str>, n: map<Str, Json>, k: Str, s: Json, t: Json)
    requires s.Object? && t.Object? && k in s.m && k in t.m
    requires GetChecked(doc, ts) == Ok(Object(n)) && k in n && n[k] == s.m[k]
    ensures PatchAll(doc, Diff(s.m[k], t.m[k], AtKey(ToString(ts), k))) ==
            Landed(doc, ts, Fits(s.m[k], t.m[k]), Object(n[k := Patched(s.m[k], t.m[k])]))
    decreases s, 0
  {
    hide ToString, Diff, AtKey, PatchStep, Fits, Patched;
    var j, v := Object(n), Patched(s.m[k], t.m[k]);
    Below(doc, ts, k, v);
    PathAtKey(ts, k);
    var one: seq<Str> := [k];
    assert one[1..] == [];
    assert GetChecked(j, one) == Ok(s.m[k]);
    assert Put(j, one, v) == Object(n[k := v]);
    DiffWorks(doc, ts + [k], s.m[k], t.m[k]);
  }

  lemma KeyRemoved(doc: Json, ts: seq<Str>, n: map<Str, Json>, k: Str)
    requires GetChecked(doc, ts) == Ok(Object(n)) && k in n
    ensures PatchAll(doc, [RemoveDoc(AtKey(ToString(ts), k))]) == Ok(Put(doc, ts, Object(n - {k})))
  {
    hide ToString, AtKey, RemoveDoc, PatchStep, Put, GetChecked;
    PathAtKey(ts, k);
    RemoveStep(doc, ts, k);
    Single(doc, RemoveDoc(AtKey(ToString(ts), k)));
  }

  function AfterAdds(n: map<Str, Json>, m: map<Str, Json>, tm: map<Str, Json>, ks: seq<Str>): map<Str, Json>
    requires forall k | k in ks :: k in tm
    decreases |ks|
  {
    if ks == [] then n
    else AfterAdds(if ks[0] in m then n else n[ks[0] := tm[ks[0]]], m, tm, ks[1..])
  }

  lemma {:induction false} AddsWork(doc: Json, ts: seq<Str>, n: map<Str, Json>, m: map<Str, Json>,
                                    tm: map<Str, Json>, ks: seq<Str>)
    requires forall k | k in ks :: k in tm
    requires GetChecked(doc, ts) == Ok(Object(n))
    ensures PatchAll(doc, AddKeys(m, tm, ToString(ts), ks)) == Ok(Put(doc, ts, Object(AfterAdds(n, m, tm, ks))))
    decreases |ks|
  {
    hide ToString, AtKey, AddDoc, PatchStep, Put, GetChecked;
    if ks == [] {
      PutGet(doc, ts);
    } else {
      var path, k := ToString(ts), ks[0];
      var rest := AddKeys(m, tm, path, ks[1..]);
      if k in m {
        assert [] + rest == rest;
        AddsWork(doc, ts, n, m, tm, ks[1..]);
      } else {
        var n' := n[k := tm[k]];
        PathAtKey(ts, k);
        AddStep(doc, ts, k, tm[k]);
        Single(doc, AddDoc(AtKey(path, k), tm[k]));
        PatchAppend(doc, [AddDoc(AtKey(path, k), tm[k])], rest);
        GetPut(doc, ts, Object(n'), Object(AfterAdds(n', m, tm, ks[1..])));
        AddsWork(Put(doc, ts, Object(n')), ts, n', m, tm, ks[1..]);
      }
    }
  }

  lemma {:induction false} AfterKeysAt(n: map<Str, Json>, s: Json, t: Json, ks: seq<Str>)
    requires s.Object? && t.Object? && Distinct(ks) && forall k | k in ks :: k in s.m && k in n
    ensures forall k :: k in AfterKeys(n, s, t, ks) <==> k in n && (k in ks ==> k in t.m)
    ensures forall k | k in AfterKeys(n, s, t, ks) ::
              AfterKeys(n, s, t, ks)[k] == if k in ks then Patched(s.m[k], t.m[k]) else n[k]
    decreases |ks|
  {
    hide Patched;
    if ks != [] {
      var k := ks[0];
      var n' := if k in t.m then n[k := Patched(s.m[k], t.m[k])] else n - {k};
      assert k !in ks[1..];
      AfterKeysAt(n', s, t, ks[1..]);
    }
  }

  lemma {:induction false} AfterAddsAt(n: map<Str, Json>, m: map<Str, Json>, tm: map<Str, Json>, ks: seq<Str>)
    requires forall k | k in ks :: k in tm
    ensures forall k :: k in AfterAdds(n, m, tm, ks) <==> k in n || (k in ks && k !in m)
    ensures forall k | k in AfterAdds(n, m, tm, ks) ::
              AfterAdds(n, m, tm, ks)[k] == if k in ks && k !in m then tm[k] else n[k]
    decreases |ks|
  {
    if ks != [] {
      AfterAddsAt(if ks[0] in m then n else n[ks[0] := tm[ks[0]]], m, tm, ks[1..]);
    }
  }

  lemma PatchedKeys(s: Json, t: Json)
    requires s.Object? && t.Object? && !JsonEq(s, t)
    ensures Patched(s, t).Object? && Patched(s, t).m.Keys == t.m.Keys
    ensures forall k | k in t.m :: Patched(s, t).m[k] == if k in s.m then Patched(s.m[k], t.m[k]) else t.m[k]
  {
    hide JsonEq;
  }

  /** Both passes over the keys leave exactly the target's keys. */
  lemma ObjectDone(s: Json, t: Json)
    requires s.Object? && t.Object? && !JsonEq(s, t)
    ensures var ks, ls := SortedKeys(s.m.Keys), SortedKeys(t.m.Keys);
      Patched(s, t) == Object(AfterAdds(AfterKeys(s.m, s, t, ks), s.m, t.m, ls))
  {
    hide JsonEq, Patched, AfterKeys, AfterAdds, SortedKeys;
    var ks, ls := SortedKeys(s.m.Keys), SortedKeys(t.m.Keys);
    KeysSorted(s.m.Keys);
    var n := AfterKeys(s.m, s, t, ks);
    AfterKeysAt(s.m, s, t, ks);
    var r := AfterAdds(n, s.m, t.m, ls);
    AfterAddsAt(n, s.m, t.m, ls);
    PatchedKeys(s, t);
    assert r.Keys == t.m.Keys;
    assert Patched(s, t).m == r;
  }

  // ---------------------------------------------------------------- the law

  lemma {:induction false} ArrayWorks(doc: Json, ts: seq<Str>, s: Json, t: Json)
    requires s.Array? && t.Array? && !JsonEq(s, t) && GetChecked(doc, ts) == Ok(s)
    ensures PatchAll(doc, Diff(s, t, ToString(ts))) == Landed(doc, ts, Fits(s, t), Patched(s, t))
    decreases s, |s.a| + 1
  {
    hide ToString, PatchStep, Put, JsonEq, DiffElements, Removals, Additions, GetChecked, ElementFits;
    var path, k := ToString(ts), Common(s, t);
    var d, r, a := DiffElements(s, t, path, 0), Removals(path, |t.a|, |s.a|), Additions(t.a, path, |s.a|);
    assert Diff(s, t, path) == d + r + a;
    assert Mixed(s, t, 0) == s.a;
    PatchAppend(doc, d + r, a);
    PatchAppend(doc, d, r);
    ElementsWork(doc, ts, s, t, 0);
    if ElementsFit(s, t, 0) {
      ArrayEnds(doc, ts, s, t);
    }
  }

  /** The two passes behind the common elements. */
  lemma ArrayEnds(doc0: Json, ts: seq<Str>, s: Json, t: Json)
    requires s.Array? && t.Array? && !JsonEq(s, t) && GetChecked(doc0, ts) == Ok(s)
    ensures var doc := Put(doc0, ts, Array(Mixed(s, t, Common(s, t))));
      var r := PatchAll(doc, Removals(ToString(ts), |t.a|, |s.a|));
      (if r.Ok? then PatchAll(r.value, Additions(t.a, ToString(ts), |s.a|)) else r)
      == Landed(doc0, ts, LengthsFit(|s.a|, |t.a|), Patched(s, t))
  {
    hide ToString, PatchStep, Put, JsonEq, GetChecked, Fits;
    var k := Common(s, t);
    var mixed := Mixed(s, t, k);
    var doc := Put(doc0, ts, Array(mixed));
    GetPut(doc0, ts, Array(mixed), Patched(s, t));
    if |t.a| < |s.a| {
      assert Patched(s, t).a == mixed[..|t.a|];
      RemovalsWork(doc, ts, mixed, |t.a|);
    } else {
      assert Patched(s, t).a == if |s.a| < |t.a| then mixed + t.a[|s.a|..] else mixed;
      AdditionsWork(doc, ts, mixed, t.a);
    }
  }

  /** The difference of two objects, and when its indices fit, key by key. */
  lemma DiffOfObjects(s: Json, t: Json, path: Str)
    requires s.Object? && t.Object? && !JsonEq(s, t)
    ensures Diff(s, t, path) == DiffKeys(s, t, path, SortedKeys(s.m.Keys)) + AddKeys(s.m, t.m, path, SortedKeys(t.m.Keys))
    ensures Fits(s, t) <==> KeysFit(s, t, SortedKeys(s.m.Keys))
  {
    hide JsonEq, DiffKeys, AddKeys;
    KeysSorted(s.m.Keys);
  }

  lemma {:induction false} ObjectWorks(doc: Json, ts: seq<Str>, s: Json, t: Json)
    requires s.Object? && t.Object? && !JsonEq(s, t) && GetChecked(doc, ts) == Ok(s)
    ensures PatchAll(doc, Diff(s, t, ToString(ts))) == Landed(doc, ts, Fits(s, t), Patched(s, t))
    decreases s, |s.m| + 1
  {
    hide ToString, PatchAll, Put, JsonEq, Diff, DiffKeys, AddKeys, AfterKeys, AfterAdds, GetChecked, Patched, Fits, KeysFit;
    DiffOfObjects(s, t, ToString(ts));
    var path, ks, ls := ToString(ts), SortedKeys(s.m.Keys), SortedKeys(t.m.Keys);
    KeysSorted(s.m.Keys);
    PatchAppend(doc, DiffKeys(s, t, path, ks), AddKeys(s.m, t.m, path, ls));
    KeysWork(doc, ts, s.m, s, t, ks);
    ObjectDone(s, t);
    if KeysFit(s, t, ks) {
      var n := AfterKeys(s.m, s, t, ks);
      GetPut(doc, ts, Object(n), Patched(s, t));
      AddsWork(Put(doc, ts, Object(n)), ts, n, s.m, t.m, ls);
    }
  }

  /** Below any place of any document, a difference applies there and nowhere else. */
  lemma {:induction false} DiffWorks(doc: Json, ts: seq<Str>, s: Json, t: Json)
    requires GetChecked(doc, ts) == Ok(s)
    ensures PatchAll(doc, Diff(s, t, ToString(ts))) == Landed(doc, ts, Fits(s, t), Patched(s, t))
    decreases s
  {
    hide ToString, PatchStep, Put, JsonEq, GetChecked, DiffElements, DiffKeys, ReplaceDoc;
    if JsonEq(s, t) {
      PutGet(doc, ts);
    } else if s.Array? && t.Array? {
      ArrayWorks(doc, ts, s, t);
    } else if s.Object? && t.Object? {
      ObjectWorks(doc, ts, s, t);
    } else {
      ReplaceStep(doc, ts, t);
    }
  }

  /** What applying a difference to its source gives, for any two values. */
  lemma PatchOfDiff(s: Json, t: Json)
    ensures PatchJson(s, Array(Diff(s, t, []))) == if Fits(s, t) then Ok(Patched(s, t)) else Err(OutOfRange)
  {
    hide PatchAll, Diff, Fits, Patched;
    DiffWorks(s, [], s, t);
  }

  /** source.patch(diff(source, target)) == target, exactly when the indices fit an int and the target has no NaN. */
  lemma DiffThenPatch(s: Json, t: Json)
    ensures var r := PatchJson(s, Array(Diff(s, t, [])));
      (r.Ok? && JsonEq(r.value, t)) <==> (Fits(s, t) && NaNFree(t))
  {
    hide *;
    PatchOfDiff(s, t);
    PatchedEqual(s, t);
  }

  /** No array in the value has more elements than an int can count off. */
  predicate SmallArrays(j: Json)
    decreases j
  {
    match j
    case Array(a) => |a| <= INT_MAX + 1 && forall i | 0 <= i < |a| :: SmallArrays(a[i])
    case Object(m) => forall k | k in m :: SmallArrays(m[k])
    case _ => true
  }

  lemma {:induction false} SmallArraysFit(s: Json, t: Json)
    requires SmallArrays(s) && SmallArrays(t)
    ensures Fits(s, t)
    decreases s
  {
    hide JsonEq;
    match s {
      case Array(a) =>
        if t.Array? {
          forall i | 0 <= i < |a| && i < |t.a| ensures ElementFits(s, t, i) { SmallArraysFit(a[i], t.a[i]); }
        }
      case Object(m) =>
        if t.Object? {
          forall k | k in m && k in t.m ensures Fits(m[k], t.m[k]) { SmallArraysFit(m[k], t.m[k]); }
        }
      case _ =>
    }
  }

  /** The shortest array that an empty one cannot be patched into: its last index is more than an `int` holds. */
  lemma TooLongRefused()
    ensures var s, t := Array([]), Array(seq(INT_MAX + 2, _ => Null));
      NaNFree(t) && !Fits(s, t) && PatchJson(s, Array(Diff(s, t, []))) == Err(OutOfRange)
  {
    hide PatchJson, Diff;
    PatchOfDiff(Array([]), Array(seq(INT_MAX + 2, _ => Null)));
  }

  /** A NaN in the target is where the law fails: null, patched to become NaN, is not equal to it. */
  lemma NaNNotRestored()
    ensures var nan := Float(0x7ff8_0000_0000_0000);
      PatchJson(Null, Array(Diff(Null, nan, []))) == Ok(nan) && !JsonEq(nan, nan)
  {
    var nan := Float(0x7ff8_0000_0000_0000);
    assert FloatValue(nan.bits) == NaN;
    PatchOfDiff(Null, nan);
  }
}
