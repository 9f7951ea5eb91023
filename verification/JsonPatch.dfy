/** JSON Patch (RFC 6902): the six operations, their spelling as JSON, and whole patches. */
module JsonPatch {
  import opened Bytes
  import opened JsonValue
  import opened JsonPointer

  // ---------------------------------------------------------------- looking up and changing one place

  /** What an operation does at the place its pointer leads to. */
  datatype Edit = Set(v: Json) | AddChild(key: Str, v: Json) | RemoveChild(key: Str)

  predicate AllDigits(s: Str) {
    forall i | 0 <= i < |s| :: IsDigit(s[i])
  }

  predicate LeadingZero(s: Str) {
    |s| > 1 && s[0] == ZERO
  }

  const DASH: Str := [MINUS]

  /** An element index of an array of n elements, as `at` accepts it. */
  function CheckedIndex(token: Str, n: nat): (r: Result<int>)
    ensures r.Ok? ==> 0 <= r.value < n
  {
    if token == DASH then Err(OutOfRange)
    else if LeadingZero(token) then Err(DomainError)
    else
      var i :- StoI(token);
      if 0 <= i < n then Ok(i) else Err(OutOfRange)
  }

  /** An index into an array of n elements that may lie beyond its end. */
  function UncheckedIndex(token: Str, n: nat): (r: Result<int>)
    ensures r.Ok? ==> 0 <= r.value
  {
    if LeadingZero(token) then Err(DomainError)
    else if token == DASH then Ok(n)
    else
      var i :- StoI(token);
      if i < 0 then Err(LengthError) else Ok(i)
  }

  /** `get_checked`: the value a pointer leads to. */
  function GetChecked(j: Json, ts: seq<Str>): Result<Json>
    decreases |ts|
  {
    if ts == [] then Ok(j)
    else
      match j
      case Object(m) => if ts[0] in m then GetChecked(m[ts[0]], ts[1..]) else Err(OutOfRange)
      case Array(a) => var i :- CheckedIndex(ts[0], |a|); GetChecked(a[i], ts[1..])
      case _ => Err(OutOfRange)
  }

  /** The document after an edit at `at(ptr)`. */
  function Checked(j: Json, ts: seq<Str>, e: Edit): Result<Json>
    decreases |ts|
  {
    if ts == [] then Apply(j, e)
    else
      match j
      case Object(m) =>
        if ts[0] !in m then Err(OutOfRange)
        else
          var child :- Checked(m[ts[0]], ts[1..], e);
          Ok(Object(m[ts[0] := child]))
      case Array(a) =>
        var i :- CheckedIndex(ts[0], |a|);
        var child :- Checked(a[i], ts[1..], e);
        Ok(Array(a[i := child]))
      case _ => Err(OutOfRange)
  }

  /** A null turns into an array under an index, and into an object under any other token. */
  function Grown(j: Json, token: Str): Json {
    if j != Null then j else if AllDigits(token) || token == DASH then Array([]) else Object(map[])
  }

  /** An array with nulls filled in up to index i. */
  function Padded(a: seq<Json>, i: nat): (r: seq<Json>)
    ensures |r| > i && a <= r && forall k | |a| <= k < |r| :: r[k] == Null
    ensures i < |a| ==> r == a
    ensures i >= |a| ==> |r| == i + 1
  {
    if i < |a| then a else a + seq(i + 1 - |a|, _ => Null)
  }

  /** The document after an edit at `operator[](ptr)`, which creates what is missing on its way. */
  function Unchecked(j0: Json, ts: seq<Str>, e: Edit): Result<Json>
    decreases |ts|
  {
    if ts == [] then Apply(j0, e)
    else
      match Grown(j0, ts[0])
      case Object(m) =>
        var child :- Unchecked(if ts[0] in m then m[ts[0]] else Null, ts[1..], e);
        Ok(Object(m[ts[0] := child]))
      case Array(a) =>
        var i :- UncheckedIndex(ts[0], |a|);
        var child :- Unchecked(Padded(a, i)[i], ts[1..], e);
        Ok(Array(Padded(a, i)[i := child]))
      case _ => Err(OutOfRange)
  }

  function Apply(j: Json, e: Edit): Result<Json> {
    match e
    case Set(v) => Ok(v)
    case AddChild(key, v) => Insert(j, key, v)
    case RemoveChild(key) => Erase(j, key)
  }

  /** The end of `operation_add`: a new child of j. */
  function Insert(j: Json, key: Str, v: Json): Result<Json> {
    match j
    case Null => Ok(Object(map[key := v]))
    case Object(m) => Ok(Object(m[key := v]))
    case Array(a) =>
      if key == DASH then Ok(Array(a + [v]))
      else
        var i :- StoI(key);
        if 0 <= i <= |a| then Ok(Array(a[..i] + [v] + a[i..])) else Err(OutOfRange)
    case _ => Err(AssertionFailed)
  }

  /** The end of `operation_remove`: a value that has no children is left alone. */
  function Erase(j: Json, key: Str): Result<Json> {
    match j
    case Object(m) => if key in m then Ok(Object(m - {key})) else Err(OutOfRange)
    case Array(a) =>
      var i :- StoI(key);
      if 0 <= i < |a| then Ok(Array(a[..i] + a[i + 1..])) else Err(OutOfRange)
    case _ => Ok(j)
  }

  // ---------------------------------------------------------------- operations

  datatype Op =
    | Add(path: seq<Str>, value: Json)
    | Remove(path: seq<Str>)
    | Replace(path: seq<Str>, value: Json)
    | Move(from: seq<Str>, path: seq<Str>)
    | Copy(from: seq<Str>, path: seq<Str>)
    | Test(path: seq<Str>, value: Json)

  function OperationAdd(doc: Json, path: seq<Str>, v: Json): Result<Json> {
    if path == [] then Ok(v)
    else
      var _ :- if |path| > 1 then GetChecked(doc, [path[0]]) else Ok(doc);
      Unchecked(doc, path[..|path| - 1], AddChild(path[|path| - 1], v))
  }

  function OperationRemove(doc: Json, path: seq<Str>): Result<Json> {
    if path == [] then Err(DomainError)
    else Checked(doc, path[..|path| - 1], RemoveChild(path[|path| - 1]))
  }

  function ApplyOp(doc: Json, op: Op): Result<Json> {
    match op
    case Add(path, v) => OperationAdd(doc, path, v)
    case Remove(path) => OperationRemove(doc, path)
    case Replace(path, v) => Checked(doc, path, Set(v))
    case Move(from, path) =>
      var v :- GetChecked(doc, from);
      var without :- OperationRemove(doc, from);
      OperationAdd(without, path, v)
    case Copy(from, path) =>
      var v :- GetChecked(doc, from);
      Unchecked(doc, path, Set(v))
    case Test(path, v) =>
      match GetChecked(doc, path)
      case Ok(found) => if JsonEq(found, v) then Ok(doc) else Err(DomainError)
      case Err(OutOfRange) => Err(DomainError)
      case Err(error) => Err(error)
  }

  // ---------------------------------------------------------------- operations as JSON

  const OP: Str := [0x6f, 0x70]
  const PATH: Str := [0x70, 0x61, 0x74, 0x68]
  const VALUE: Str := [0x76, 0x61, 0x6c, 0x75, 0x65]
  const FROM: Str := [0x66, 0x72, 0x6f, 0x6d]
  const ADD: Str := [0x61, 0x64, 0x64]
  const REMOVE: Str := [0x72, 0x65, 0x6d, 0x6f, 0x76, 0x65]
  const REPLACE: Str := [0x72, 0x65, 0x70, 0x6c, 0x61, 0x63, 0x65]
  const MOVE: Str := [0x6d, 0x6f, 0x76, 0x65]
  const COPY: Str := [0x63, 0x6f, 0x70, 0x79]
  const TEST: Str := [0x74, 0x65, 0x73, 0x74]

  /** `get_value`. */
  function Member(m: map<Str, Json>, name: Str): Result<Json> {
    if name in m then Ok(m[name]) else Err(InvalidArgument)
  }

  function StringMember(m: map<Str, Json>, name: Str): Result<Str> {
    var v :- Member(m, name);
    if v.String? then Ok(v.s) else Err(InvalidArgument)
  }

  function PointerMember(m: map<Str, Json>, name: Str): Result<seq<Str>> {
    var s :- StringMember(m, name);
    Split(s)
  }

  function ParseOp(j: Json): Result<Op> {
    if !j.Object? then Err(InvalidArgument)
    else
      var op :- StringMember(j.m, OP);
      var path :- PointerMember(j.m, PATH);
      if op == ADD then var v :- Member(j.m, VALUE); Ok(Add(path, v))
      else if op == REMOVE then Ok(Remove(path))
      else if op == REPLACE then var v :- Member(j.m, VALUE); Ok(Replace(path, v))
      else if op == MOVE then var from :- PointerMember(j.m, FROM); Ok(Move(from, path))
      else if op == COPY then var from :- PointerMember(j.m, FROM); Ok(Copy(from, path))
      else if op == TEST then var v :- Member(j.m, VALUE); Ok(Test(path, v))
      else Err(InvalidArgument)
  }

  function PatchStep(doc: Json, j: Json): Result<Json> {
    var op :- ParseOp(j);
    ApplyOp(doc, op)
  }

  /** A patch applied from its first operation to its last; the first failure is the outcome. */
  function PatchAll(doc: Json, patch: seq<Json>): Result<Json>
    decreases |patch|
  {
    if patch == [] then Ok(doc)
    else
      var next :- PatchStep(doc, patch[0]);
      PatchAll(next, patch[1..])
  }

  lemma PatchNothing(doc: Json)
    ensures PatchAll(doc, []) == Ok(doc)
  {}

  lemma PatchFirst(doc: Json, x: Json, rest: seq<Json>)
    ensures PatchAll(doc, [x] + rest) == var r := PatchStep(doc, x); if r.Ok? then PatchAll(r.value, rest) else r
  {
    hide PatchStep;
    assert ([x] + rest)[1..] == rest;
  }

  function PatchJson(doc: Json, patch: Json): Result<Json> {
    if patch.Array? then PatchAll(doc, patch.a) else Err(InvalidArgument)
  }

  /** `patch`, which works on a copy of the document. */
  method Patch(doc: Json, patch: Json) returns (r: Result<Json>)
    ensures r == PatchJson(doc, patch)
  {
    hide PatchStep;
    if !patch.Array? {
      return Err(InvalidArgument);
    }
    var result := doc;
    var i := 0;
    while i < |patch.a|
      invariant 0 <= i <= |patch.a|
      invariant PatchAll(doc, patch.a) == PatchAll(result, patch.a[i..])
    {
      assert patch.a[i..][1..] == patch.a[i + 1..];
      result :- PatchStep(result, patch.a[i]);
      i := i + 1;
    }
    return Ok(result);
  }

  /** Two patches in a row. */
  lemma {:induction false} PatchAppend(doc: Json, a: seq<Json>, b: seq<Json>)
    ensures PatchAll(doc, a + b) == var r := PatchAll(doc, a); if r.Ok? then PatchAll(r.value, b) else r
    decreases |a|
  {
    hide PatchStep;
    if a == [] {
      assert a + b == b;
    } else {
      assert (a + b)[1..] == a[1..] + b;
      var next := PatchStep(doc, a[0]);
      if next.Ok? {
        PatchAppend(next.value, a[1..], b);
      }
    }
  }

  // ---------------------------------------------------------------- laws of places

  /** The value at an existing place, replaced. */
  function Put(j: Json, ts: seq<Str>, v: Json): (r: Json)
    requires GetChecked(j, ts).Ok?
    ensures Checked(j, ts, Set(v)) == Ok(r)
    decreases |ts|
  {
    if ts == [] then v
    else if j.Object? then Object(j.m[ts[0] := Put(j.m[ts[0]], ts[1..], v)])
    else var i := CheckedIndex(ts[0], |j.a|).value; Array(j.a[i := Put(j.a[i], ts[1..], v)])
  }

  /** What is put at a place is found there, and a second put overwrites the first. */
  lemma {:induction false} GetPut(j: Json, ts: seq<Str>, v: Json, w: Json)
    requires GetChecked(j, ts).Ok?
    ensures GetChecked(Put(j, ts, v), ts) == Ok(v)
    ensures Put(Put(j, ts, v), ts, w) == Put(j, ts, w)
    decreases |ts|
  {
    hide CheckedIndex, Checked;
    if ts == [] {
    } else if j.Object? {
      GetPut(j.m[ts[0]], ts[1..], v, w);
      var r := Put(j.m[ts[0]], ts[1..], v);
      assert j.m[ts[0] := r][ts[0] := Put(r, ts[1..], w)] == j.m[ts[0] := Put(r, ts[1..], w)];
    } else {
      var i := CheckedIndex(ts[0], |j.a|).value;
      GetPut(j.a[i], ts[1..], v, w);
      var r := Put(j.a[i], ts[1..], v);
      assert j.a[i := r][i := Put(r, ts[1..], w)] == j.a[i := Put(r, ts[1..], w)];
    }
  }

  /** Putting back what is there changes nothing. */
  lemma {:induction false} PutGet(j: Json, ts: seq<Str>)
    requires GetChecked(j, ts).Ok?
    ensures Put(j, ts, GetChecked(j, ts).value) == j
    decreases |ts|
  {
    hide CheckedIndex, Checked;
    if ts == [] {
    } else if j.Object? {
      PutGet(j.m[ts[0]], ts[1..]);
    } else {
      PutGet(j.a[CheckedIndex(ts[0], |j.a|).value], ts[1..]);
    }
  }

  /** A place below a place. */
  lemma {:induction false} Below(j: Json, ts: seq<Str>, k: Str, v: Json)
    requires GetChecked(j, ts).Ok?
    ensures GetChecked(j, ts + [k]) == GetChecked(GetChecked(j, ts).value, [k])
    ensures GetChecked(j, ts + [k]).Ok? ==>
              Put(j, ts + [k], v) == Put(j, ts, Put(GetChecked(j, ts).value, [k], v))
    decreases |ts|
  {
    hide CheckedIndex, Checked;
    if ts == [] {
      assert ts + [k] == [k];
    } else {
      assert (ts + [k])[0] == ts[0] && (ts + [k])[1..] == ts[1..] + [k];
      if j.Object? {
        Below(j.m[ts[0]], ts[1..], k, v);
      } else {
        Below(j.a[CheckedIndex(ts[0], |j.a|).value], ts[1..], k, v);
      }
    }
  }

  /** An edit at an existing place changes that place only, and comes to the same with `at` and `operator[]`. */
  lemma {:induction false} EditPlace(j: Json, ts: seq<Str>, e: Edit)
    requires GetChecked(j, ts).Ok?
    ensures var r := Apply(GetChecked(j, ts).value, e);
      var out := if r.Ok? then Ok(Put(j, ts, r.value)) else r;
      Checked(j, ts, e) == out && Unchecked(j, ts, e) == out
    decreases |ts|
  {
    hide Apply, StoI, LeadingZero;
    if ts == [] {
    } else if j.Object? {
      EditPlace(j.m[ts[0]], ts[1..], e);
    } else {
      EditPlace(j.a[CheckedIndex(ts[0], |j.a|).value], ts[1..], e);
    }
  }
}
