/** `diff`: a patch that turns one JSON value into another. */
module JsonDiff {
  import opened Bytes
  import opened JsonValue
  import opened JsonPointer
  import opened JsonPatch

  // ---------------------------------------------------------------- the patch

  /** The kind of a value: the three ways to store a number are three kinds. */
  predicate SameType(s: Json, t: Json) {
    match s
    case Null => t.Null?
    case Bool(_) => t.Bool?
    case Int(_) => t.Int?
    case UInt(_) => t.UInt?
    case Float(_) => t.Float?
    case String(_) => t.String?
    case Array(_) => t.Array?
    case Object(_) => t.Object?
  }

  function RemoveDoc(path: Str): Json {
    Object(map[OP := String(REMOVE), PATH := String(path)])
  }

  function AddDoc(path: Str, v: Json): Json {
    Object(map[OP := String(ADD), PATH := String(path), VALUE := v])
  }

  function ReplaceDoc(path: Str, v: Json): Json {
    Object(map[OP := String(REPLACE), PATH := String(path), VALUE := v])
  }

  function AtIndex(path: Str, i: nat): Str { path + [SLASH] + Decimal(i) }

  function AtKey(path: Str, k: Str): Str { path + [SLASH] + Escape(k) }

  /** What `diff` returns. */
  function Diff(s: Json, t: Json, path: Str): seq<Json>
    decreases s
  {
    if JsonEq(s, t) then []
    else if !SameType(s, t) then [ReplaceDoc(path, t)]
    else if s.Array? then
      DiffElements(s, t, path, 0) + Removals(path, |t.a|, |s.a|) + Additions(t.a, path, |s.a|)
    else if s.Object? then
      DiffKeys(s, t, path, SortedKeys(s.m.Keys)) + AddKeys(s.m, t.m, path, SortedKeys(t.m.Keys))
    else [ReplaceDoc(path, t)]
  }

  /** The common elements from index i on. */
  function DiffElements(s: Json, t: Json, path: Str, i: nat): seq<Json>
    requires s.Array? && t.Array?
    decreases s, |s.a| - i
  {
    if i < |s.a| && i < |t.a| then
      Diff(s.a[i], t.a[i], AtIndex(path, i)) + DiffElements(s, t, path, i + 1)
    else []
  }

  /** Removals of the elements from index `from` up to `end`, the last one first. */
  function Removals(path: Str, from: nat, end: nat): seq<Json>
    decreases end - from
  {
    if from < end then Removals(path, from + 1, end) + [RemoveDoc(AtIndex(path, from))] else []
  }

  function Additions(b: seq<Json>, path: Str, i: nat): seq<Json>
    decreases |b| - i
  {
    if i < |b| then [AddDoc(AtIndex(path, i), b[i])] + Additions(b, path, i + 1) else []
  }

  /** The source's keys, in order: differences where the target has the key, removals elsewhere. */
  function DiffKeys(s: Json, t: Json, path: Str, ks: seq<Str>): seq<Json>
    requires s.Object? && t.Object? && forall k | k in ks :: k in s.m
    decreases s, |ks|
  {
    if ks == [] then []
    else
      var k := ks[0];
      (if k in t.m then Diff(s.m[k], t.m[k], AtKey(path, k)) else [RemoveDoc(AtKey(path, k))])
      + DiffKeys(s, t, path, ks[1..])
  }

  /** The target's keys, in order: additions where the source has no such key. */
  function AddKeys(m: map<Str, Json>, n: map<Str, Json>, path: Str, ks: seq<Str>): seq<Json>
    requires forall k | k in ks :: k in n
    decreases |ks|
  {
    if ks == [] then []
    else
      (if ks[0] in m then [] else [AddDoc(AtKey(path, ks[0]), n[ks[0]])]) + AddKeys(m, n, path, ks[1..])
  }

  /** One key of the source: what the first loop over keys appends. */
  function KeyDiff(s: Json, t: Json, path: Str, k: Str): seq<Json>
    requires s.Object? && t.Object? && k in s.m
  {
    if k in t.m then Diff(s.m[k], t.m[k], AtKey(path, k)) else [RemoveDoc(AtKey(path, k))]
  }

  lemma KeyNext(s: Json, t: Json, path: Str, ks: seq<Str>, i: nat)
    requires s.Object? && t.Object? && i < |ks| && forall k | k in ks :: k in s.m
    ensures DiffKeys(s, t, path, ks[i..]) == KeyDiff(s, t, path, ks[i]) + DiffKeys(s, t, path, ks[i + 1..])
  {
    hide Diff, RemoveDoc, AtKey;
    assert ks[i..][0] == ks[i] && ks[i..][1..] == ks[i + 1..];
  }

  lemma NoMoreKeys(s: Json, t: Json, path: Str, ks: seq<Str>)
    requires s.Object? && t.Object?
    ensures DiffKeys(s, t, path, ks[|ks|..]) == []
  {}

  lemma ElementNext(s: Json, t: Json, path: Str, i: nat)
    requires s.Array? && t.Array? && i < |s.a| && i < |t.a|
    ensures DiffElements(s, t, path, i) == Diff(s.a[i], t.a[i], AtIndex(path, i)) + DiffElements(s, t, path, i + 1)
  {}

  lemma NoMoreElements(s: Json, t: Json, path: Str, i: nat)
    requires s.Array? && t.Array? && (i == |s.a| || i == |t.a|)
    ensures DiffElements(s, t, path, i) == []
  {}

  lemma RemovalsNone(path: Str, k: nat, end: nat)
    requires k >= end
    ensures Removals(path, k, end) == []
  {}

  lemma AdditionNext(b: seq<Json>, path: Str, i: nat)
    requires i < |b|
    ensures Additions(b, path, i) == [AddDoc(AtIndex(path, i), b[i])] + Additions(b, path, i + 1)
  {}

  lemma NoMoreAdditions(b: seq<Json>, path: Str, i: nat)
    requires i >= |b|
    ensures Additions(b, path, i) == []
  {}

  lemma SplitInTwo<T>(a: seq<T>, b: seq<T>, c: seq<T>)
    ensures a + (b + c) == (a + b) + c
  {}

  // ---------------------------------------------------------------- the loops of `diff`

  /** `diff`, which appends to one result array. */
  method DiffInto(s: Json, t: Json, path: Str) returns (r: seq<Json>)
    ensures r == Diff(s, t, path)
    decreases s
  {
    if JsonEq(s, t) {
      return [];
    }
    if !SameType(s, t) {
      return [ReplaceDoc(path, t)];
    }
    match s
    case Array(a) => r := DiffArrays(s, t, path);
    case Object(m) => r := DiffObjects(s, t, path);
    case _ => r := [ReplaceDoc(path, t)];
  }

  method DiffArrays(s: Json, t: Json, path: Str) returns (r: seq<Json>)
    requires s.Array? && t.Array?
    ensures r == DiffElements(s, t, path, 0) + Removals(path, |t.a|, |s.a|) + Additions(t.a, path, |s.a|)
    decreases s, 0
  {
    hide Diff, DiffElements, Removals, Additions, RemoveDoc, AddDoc, AtIndex;
    r := [];
    var i := 0;
    while i < |s.a| && i < |t.a|
      invariant 0 <= i <= |s.a| && i <= |t.a|
      invariant DiffElements(s, t, path, 0) == r + DiffElements(s, t, path, i)
    {
      var sub := DiffInto(s.a[i], t.a[i], AtIndex(path, i));
      ElementNext(s, t, path, i);
      SplitInTwo(r, sub, DiffElements(s, t, path, i + 1));
      r := r + sub;
      i := i + 1;
    }
    NoMoreElements(s, t, path, i);
    ghost var common, k := r, i;
    assert common == DiffElements(s, t, path, 0);
    var end := |r|;
    RemovalsNone(path, k, k);
    while i < |s.a|
      invariant k <= i <= |s.a| && r == common + Removals(path, k, i)
    {
      RemovalsLast(path, k, i);
      ghost var gone := Removals(path, k, i);
      assert r[..end] == common && r[end..] == gone;
      r := r[..end] + [RemoveDoc(AtIndex(path, i))] + r[end..];
      i := i + 1;
    }
    ghost var two := r;
    assert two == common + Removals(path, |t.a|, |s.a|) by {
      if |s.a| <= |t.a| {
        RemovalsNone(path, |t.a|, |s.a|);
      }
    }
    ghost var from := i;
    while i < |t.a|
      invariant from <= i && (i <= |t.a| || i == from)
      invariant two + Additions(t.a, path, from) == r + Additions(t.a, path, i)
    {
      AdditionNext(t.a, path, i);
      SplitInTwo(r, [AddDoc(AtIndex(path, i), t.a[i])], Additions(t.a, path, i + 1));
      r := r + [AddDoc(AtIndex(path, i), t.a[i])];
      i := i + 1;
    }
    NoMoreAdditions(t.a, path, i);
  }

  lemma {:induction false} RemovalsLast(path: Str, from: nat, end: nat)
    requires from <= end
    ensures Removals(path, from, end + 1) == [RemoveDoc(AtIndex(path, end))] + Removals(path, from, end)
    decreases end - from
  {
    hide RemoveDoc, AtIndex;
    if from < end {
      RemovalsLast(path, from + 1, end);
    } else {
      assert Removals(path, from + 1, end + 1) == [];
    }
  }

  method DiffObjects(s: Json, t: Json, path: Str) returns (r: seq<Json>)
    requires s.Object? && t.Object?
    ensures r == DiffKeys(s, t, path, SortedKeys(s.m.Keys)) + AddKeys(s.m, t.m, path, SortedKeys(t.m.Keys))
    decreases s, 0
  {
    hide Diff, DiffKeys, AddKeys, RemoveDoc, AddDoc, AtKey, SortedKeys;
    r := [];
    var ks := SortedKeys(s.m.Keys);
    var i := 0;
    while i < |ks|
      invariant 0 <= i <= |ks|
      invariant DiffKeys(s, t, path, ks) == r + DiffKeys(s, t, path, ks[i..])
    {
      var sub;
      if ks[i] in t.m {
        sub := DiffInto(s.m[ks[i]], t.m[ks[i]], AtKey(path, ks[i]));
      } else {
        sub := [RemoveDoc(AtKey(path, ks[i]))];
      }
      KeyNext(s, t, path, ks, i);
      SplitInTwo(r, sub, DiffKeys(s, t, path, ks[i + 1..]));
      r := r + sub;
      i := i + 1;
    }
    NoMoreKeys(s, t, path, ks);
    r := AppendMissing(s.m, t.m, path, r);
  }

  /** The second loop over keys. */
  method AppendMissing(m: map<Str, Json>, n: map<Str, Json>, path: Str, r0: seq<Json>) returns (r: seq<Json>)
    ensures r == r0 + AddKeys(m, n, path, SortedKeys(n.Keys))
  {
    hide AddDoc, AtKey, SortedKeys;
    r := r0;
    var ks := SortedKeys(n.Keys);
    var i := 0;
    while i < |ks|
      invariant 0 <= i <= |ks|
      invariant r0 + AddKeys(m, n, path, ks) == r + AddKeys(m, n, path, ks[i..])
    {
      var k := ks[i];
      assert k in ks && ks[i..][0] == k && ks[i..][1..] == ks[i + 1..];
      ghost var before, rest := r, AddKeys(m, n, path, ks[i + 1..]);
      if k !in m {
        r := r + [AddDoc(AtKey(path, k), n[k])];
        assert before + ([AddDoc(AtKey(path, k), n[k])] + rest) == r + rest;
      } else {
        assert [] + rest == rest;
      }
      i := i + 1;
    }
  }
}
