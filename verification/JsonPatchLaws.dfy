/** What the six operations of a patch do to each other: undoing, moving, copying and testing. */
module JsonPatchLaws {
  import opened JsonValue
  import opened JsonPointer
  import opened JsonPatch
  import opened JsonDiff
  import opened JsonDiffPatch

  /** One operation after the other. */
  function Both(doc: Json, a: Op, b: Op): Result<Json> {
    var next :- ApplyOp(doc, a);
    ApplyOp(next, b)
  }

  lemma AddIs(doc: Json, ts: seq<Str>, k: Str, v: Json)
    requires GetChecked(doc, ts).Ok?
    ensures ApplyOp(doc, Add(ts + [k], v)) == Edited(doc, ts, AddChild(k, v))
  {
    hide ToString, AddDoc, ApplyOp, Edited, Split;
    AddStep(doc, ts, k, v);
    ParseEmitted(ts + [k], v);
  }

  lemma RemoveIs(doc: Json, ts: seq<Str>, k: Str)
    requires GetChecked(doc, ts).Ok?
    ensures ApplyOp(doc, Remove(ts + [k])) == Edited(doc, ts, RemoveChild(k))
  {
    hide ToString, RemoveDoc, ApplyOp, Edited, Split;
    RemoveStep(doc, ts, k);
    ParseEmitted(ts + [k], Null);
  }

  /** Two edits of the same place, one after the other. */
  lemma EditTwice(doc: Json, ts: seq<Str>, x: Json)
    requires GetChecked(doc, ts).Ok?
    ensures GetChecked(Put(doc, ts, x), ts) == Ok(x)
    ensures forall y :: Put(Put(doc, ts, x), ts, y) == Put(doc, ts, y)
    ensures Put(doc, ts, x) == doc <==> x == GetChecked(doc, ts).value
  {
    hide GetChecked, Put;
    GetPut(doc, ts, x, x);
    forall y ensures Put(Put(doc, ts, x), ts, y) == Put(doc, ts, y) {
      GetPut(doc, ts, x, y);
    }
    PutGet(doc, ts);
  }

  /** Where an added child can be taken out again by the same token: a new member, or a place in an array named by number. */
  predicate Undoable(parent: Json, k: Str) {
    match parent
    case Object(m) => k !in m
    case Array(_) => k != DASH
    case _ => false
  }

  lemma InsertErase(parent: Json, k: Str, v: Json)
    requires Insert(parent, k, v).Ok?
    ensures Erase(Insert(parent, k, v).value, k) == Ok(parent) <==> Undoable(parent, k)
  {
    hide StoI;
    match parent
    case Object(m) =>
      assert k !in m ==> m[k := v] - {k} == m;
    case Array(a) =>
      if k != DASH {
        var i := StoI(k).value;
        var b := a[..i] + [v] + a[i..];
        assert b[..i] + b[i + 1..] == a;
      } else {
        DashNoNumber();
      }
    case _ =>
  }

  lemma DashNoNumber()
    ensures StoI(DASH).Err?
  {}

  /**
   * Below an existing parent: removing what was added gives the document back exactly if the addition named a fresh
   * place.
   */
  lemma AddThenRemoveBelow(doc: Json, ts: seq<Str>, k: Str, v: Json)
    requires GetChecked(doc, ts).Ok? && ApplyOp(doc, Add(ts + [k], v)).Ok?
    ensures Both(doc, Add(ts + [k], v), Remove(ts + [k])) == Ok(doc) <==> Undoable(GetChecked(doc, ts).value, k)
  {
    hide ApplyOp, GetChecked, Put, Insert, Erase;
    var parent := GetChecked(doc, ts).value;
    AddIs(doc, ts, k, v);
    var x := Insert(parent, k, v).value;
    EditTwice(doc, ts, x);
    RemoveIs(Put(doc, ts, x), ts, k);
    InsertErase(parent, k, v);
    if Erase(x, k).Ok? { EditTwice(doc, ts, Erase(x, k).value); }
  }

  /** A removal leaves the parent in its place, where `at` finds it. */
  lemma {:induction false} ParentStays(j: Json, ts: seq<Str>, k: Str)
    requires Checked(j, ts, RemoveChild(k)).Ok?
    ensures GetChecked(Checked(j, ts, RemoveChild(k)).value, ts).Ok?
    decreases |ts|
  {
    hide StoI, LeadingZero, Erase;
    if ts != [] {
      match j
      case Object(m) => ParentStays(m[ts[0]], ts[1..], k);
      case Array(a) => ParentStays(a[CheckedIndex(ts[0], |a|).value], ts[1..], k);
      case _ =>
    }
  }

  /** The pointer to the parent of what p names. */
  function Parent(p: seq<Str>): seq<Str>
    requires p != []
  {
    p[..|p| - 1]
  }

  /**
   * Adding at any pointer and removing there again gives the document back if and only if the addition is accepted, is not
   * at the root, finds its parent in the document, and names a fresh place of it.
   */
  lemma AddThenRemove(doc: Json, p: seq<Str>, v: Json)
    ensures Both(doc, Add(p, v), Remove(p)) == Ok(doc) <==>
            ApplyOp(doc, Add(p, v)).Ok? && p != [] && GetChecked(doc, Parent(p)).Ok? &&
            Undoable(GetChecked(doc, Parent(p)).value, p[|p| - 1])
  {
    hide OperationAdd, GetChecked, Undoable, Checked;
    if p != [] && ApplyOp(doc, Add(p, v)).Ok? {
      var ts, k := Parent(p), p[|p| - 1];
      assert p == ts + [k];
      if GetChecked(doc, ts).Ok? {
        AddThenRemoveBelow(doc, ts, k, v);
      } else if Both(doc, Add(p, v), Remove(p)) == Ok(doc) {
        ParentStays(ApplyOp(doc, Add(p, v)).value, ts, k);
      }
    }
  }

  /**
   * The parent may be missing, for only the top of the pointer is checked: `add` creates it, and `remove` leaves it
   * behind.
   */
  lemma ParentCreated(v: Json)
    ensures var a, b, c: Str := [0x61], [0x62], [0x63]; var empty := Object(map[]); var doc := Object(map[a := empty]);
      ApplyOp(doc, Add([a, b, c], v)) == Ok(Object(map[a := Object(map[b := Object(map[c := v])])]))
      && Both(doc, Add([a, b, c], v), Remove([a, b, c])) == Ok(Object(map[a := Object(map[b := empty])]))
      && GetChecked(doc, [a, b]).Err?
  {
    var a, b, c: Str := [0x61], [0x62], [0x63];
    var p, empty := [a, b, c], Object(map[]);
    var doc := Object(map[a := empty]);
    var one, two: seq<Str> := [b], [a, b];
    assert p[..2] == two && two[1..] == one && one[1..] == [];
    CreatedBelow(v);
    var inner := Object(map[b := Object(map[c := v])]);
    assert Unchecked(doc, [a, b], AddChild(c, v)) == Ok(Object(map[a := inner])) by {
      assert map[a := empty][a := inner] == map[a := inner];
    }
    RemovedBelow(v);
    var left := Object(map[b := empty]);
    assert Checked(Object(map[a := inner]), [a, b], RemoveChild(c)) == Ok(Object(map[a := left])) by {
      assert map[a := inner][a := left] == map[a := left];
    }
    var top: seq<Str> := [a];
    assert top[1..] == [] && GetChecked(doc, top) == GetChecked(empty, []);
    assert GetChecked(doc, two) == GetChecked(empty, one) && GetChecked(empty, one).Err?;
    assert ApplyOp(doc, Add(p, v)) == Ok(Object(map[a := inner]));
    assert ApplyOp(Object(map[a := inner]), Remove(p)) == Ok(Object(map[a := left]));
  }

  lemma CreatedBelow(v: Json)
    ensures var b, c: Str := [0x62], [0x63];
      Unchecked(Object(map[]), [b], AddChild(c, v)) == Ok(Object(map[b := Object(map[c := v])]))
  {
    var b, c: Str := [0x62], [0x63];
    var one: seq<Str> := [b];
    assert one[1..] == [];
    assert Unchecked(Null, [], AddChild(c, v)) == Ok(Object(map[c := v]));
  }

  lemma RemovedBelow(v: Json)
    ensures var b, c: Str := [0x62], [0x63];
      Checked(Object(map[b := Object(map[c := v])]), [b], RemoveChild(c)) == Ok(Object(map[b := Object(map[])]))
  {
    var b, c: Str := [0x62], [0x63];
    var one: seq<Str> := [b];
    assert one[1..] == [];
    assert map[c := v] - {c} == map[];
    assert Checked(Object(map[c := v]), [], RemoveChild(c)) == Ok(Object(map[]));
    assert map[b := Object(map[c := v])][b := Object(map[])] == map[b := Object(map[])];
  }

  /** An existing child, taken out and put back by the same token. */
  lemma EraseInsert(parent: Json, k: Str)
    requires GetChecked(parent, [k]).Ok?
    ensures Erase(parent, k).Ok? && Insert(Erase(parent, k).value, k, GetChecked(parent, [k]).value) == Ok(parent)
  {
    hide StoI;
    var one: seq<Str> := [k];
    assert one[1..] == [] && one[0] == k;
    match parent
    case Object(m) =>
      assert GetChecked(parent, one) == Ok(m[k]);
      assert (m - {k})[k := m[k]] == m;
    case Array(a) =>
      var i := CheckedIndex(k, |a|).value;
      assert GetChecked(parent, one) == Ok(a[i]);
      var b := a[..i] + a[i + 1..];
      assert b[..i] + [a[i]] + b[i..] == a;
  }

  /** Putting back what was removed gives the document back. */
  lemma RemoveThenAdd(doc: Json, ts: seq<Str>, k: Str)
    requires GetChecked(doc, ts).Ok? && GetChecked(doc, ts + [k]).Ok?
    ensures ApplyOp(doc, Remove(ts + [k])).Ok?
    ensures Both(doc, Remove(ts + [k]), Add(ts + [k], GetChecked(doc, ts + [k]).value)) == Ok(doc)
  {
    hide ApplyOp, GetChecked, Put, Insert, Erase;
    var parent := GetChecked(doc, ts).value;
    Below(doc, ts, k, Null);
    EraseInsert(parent, k);
    RemoveIs(doc, ts, k);
    var x := Erase(parent, k).value;
    EditTwice(doc, ts, x);
    EditTwice(doc, ts, parent);
    AddIs(Put(doc, ts, x), ts, k, GetChecked(doc, ts + [k]).value);
  }

  /** Moving a value onto itself changes nothing; the whole document cannot be moved. */
  lemma MoveOntoItself(doc: Json, p: seq<Str>)
    requires GetChecked(doc, p).Ok?
    ensures ApplyOp(doc, Move(p, p)) == if p == [] then Err(DomainError) else Ok(doc)
  {
    hide GetChecked, OperationAdd;
    if p != [] {
      var ts, k := p[..|p| - 1], p[|p| - 1];
      assert p == ts + [k];
      Prefix(doc, ts, k);
      RemoveThenAdd(doc, ts, k);
    }
  }

  /** Where a child exists, so does its parent. */
  lemma {:induction false} Prefix(doc: Json, ts: seq<Str>, k: Str)
    requires GetChecked(doc, ts + [k]).Ok?
    ensures GetChecked(doc, ts).Ok?
    decreases |ts|
  {
    hide CheckedIndex;
    if ts != [] {
      assert (ts + [k])[0] == ts[0] && (ts + [k])[1..] == ts[1..] + [k];
      match doc
      case Object(m) => Prefix(m[ts[0]], ts[1..], k);
      case Array(a) => Prefix(a[CheckedIndex(ts[0], |a|).value], ts[1..], k);
      case _ =>
    }
  }

  /** A member moved to another name and back: the object is as before, exactly if nothing was overwritten. */
  lemma MoveBack(doc: Json, ts: seq<Str>, m: map<Str, Json>, k: Str, l: Str)
    requires GetChecked(doc, ts) == Ok(Object(m)) && k in m && k != l
    ensures Both(doc, Move(ts + [k], ts + [l]), Move(ts + [l], ts + [k])) == Ok(doc) <==> l !in m
  {
    hide GetChecked, Put;
    MemberMoved(doc, ts, m, k, l);
    var n := (m - {k})[l := m[k]];
    EditTwice(doc, ts, Object(n));
    MemberMoved(Put(doc, ts, Object(n)), ts, n, l, k);
    var back := (n - {l})[k := n[l]];
    EditTwice(doc, ts, Object(back));
    assert l !in m ==> back == m;
    assert l in m ==> l !in back;
  }

  lemma MemberMoved(doc: Json, ts: seq<Str>, m: map<Str, Json>, k: Str, l: Str)
    requires GetChecked(doc, ts) == Ok(Object(m)) && k in m
    ensures ApplyOp(doc, Move(ts + [k], ts + [l])) == Ok(Put(doc, ts, Object((m - {k})[l := m[k]])))
  {
    hide Put, GetChecked, OperationAdd, OperationRemove;
    Below(doc, ts, k, Null);
    MemberAt(m, k);
    RemoveIs(doc, ts, k);
    EditTwice(doc, ts, Object(m - {k}));
    AddIs(Put(doc, ts, Object(m - {k})), ts, l, m[k]);
  }

  lemma MemberAt(m: map<Str, Json>, k: Str)
    requires k in m
    ensures GetChecked(Object(m), [k]) == Ok(m[k])
  {
    var one: seq<Str> := [k];
    assert one[1..] == [];
  }

  /**
   * A copy over an existing place puts the source's value there and nothing else; testing it succeeds unless it holds a
   * NaN.
   */
  lemma CopyThenTest(doc: Json, src: seq<Str>, p: seq<Str>)
    requires GetChecked(doc, src).Ok? && GetChecked(doc, p).Ok?
    ensures var v := GetChecked(doc, src).value;
      ApplyOp(doc, Copy(src, p)) == Ok(Put(doc, p, v)) &&
      Both(doc, Copy(src, p), Test(p, v)) == (if NaNFree(v) then Ok(Put(doc, p, v)) else Err(DomainError))
  {
    hide GetChecked, Put;
    var v := GetChecked(doc, src).value;
    EditPlace(doc, p, Set(v));
    EditTwice(doc, p, v);
    EqualToItself(v);
  }

  /** The token "-" names the place behind the last element, as the array's length does while an `int` can hold it. */
  lemma DashAppends(doc: Json, ts: seq<Str>, a: seq<Json>, v: Json)
    requires GetChecked(doc, ts) == Ok(Array(a))
    ensures ApplyOp(doc, Add(ts + [DASH], v)) == Ok(Put(doc, ts, Array(a + [v])))
    ensures ApplyOp(doc, Add(ts + [Decimal(|a|)], v)) == ApplyOp(doc, Add(ts + [DASH], v)) <==> |a| <= INT_MAX
  {
    hide ApplyOp, GetChecked, Put, StoI, Decimal;
    AddIs(doc, ts, DASH, v);
    AddIs(doc, ts, Decimal(|a|), v);
    IndexBack(|a|, |a|);
    StoIDecimal(|a|);
    assert a[..|a|] + [v] + a[|a|..] == a + [v];
  }
}
