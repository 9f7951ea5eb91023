/** What a difference consists of: one operation for each place at which the two values differ, and no other. */
module JsonDiffExact {
  import opened Bytes
  import opened JsonDiff
  import opened JsonEquality
  import opened JsonPatch
  import opened JsonPointer
  import opened JsonValue
  import opened Options

  /** What has to be done at a place. */
  datatype Change = Rep(v: Json) | Rem | Ins(v: Json)

  /** Values whose children are compared one by one. */
  predicate Comparable(x: Json, y: Json) { (x.Object? && y.Object?) || (x.Array? && y.Array?) }

  /** The child behind one turn. */
  function Behind(j: Json, turn: Turn): Option<Json> { JsonEquality.Below(j, [turn]) }

  /**
   * The change at a place: if both have a value there, the other one's, unless they are equal or compared child by child; if
   * only one has, and it is a child of values that are compared, a removal or an addition.
   */
  function ChangeAt(s: Json, t: Json, path: seq<Turn>): Option<Change>
    decreases |path|
  {
    if path == [] then
      if JsonEq(s, t) || Comparable(s, t) then None else Some(Rep(t))
    else if !Comparable(s, t) then None
    else
      match (Behind(s, path[0]), Behind(t, path[0]))
      case (Some(x), Some(y)) => ChangeAt(x, y, path[1..])
      case (Some(x), None) => if |path| == 1 then Some(Rem) else None
      case (None, Some(y)) => if |path| == 1 then Some(Ins(y)) else None
      case (None, None) => None
  }

  /** How a place is written behind a pointer. */
  function Spelled(path: seq<Turn>): Str {
    if path == [] then []
    else
      var rest := Spelled(path[1..]);
      match path[0]
      case Key(k) => [SLASH] + Escape(k) + rest
      case Index(i) => [SLASH] + Decimal(i) + rest
  }

  function ChangeDoc(path: Str, c: Change): Json {
    match c
    case Rep(v) => ReplaceDoc(path, v)
    case Rem => RemoveDoc(path)
    case Ins(v) => AddDoc(path, v)
  }

  /** The operation for a change at a place behind a pointer. */
  ghost predicate ChangeOf(op: Json, s: Json, t: Json, path: Str, p: seq<Turn>) {
    ChangeAt(s, t, p).Some? && op == ChangeDoc(path + Spelled(p), ChangeAt(s, t, p).value)
  }

  ghost predicate IsChange(op: Json, s: Json, t: Json, path: Str) {
    exists p :: ChangeOf(op, s, t, path, p)
  }

  // ---------------------------------------------------------------- equal values have no changes

  lemma {:induction false} NoChangeEqual(s: Json, t: Json, p: seq<Turn>)
    requires JsonEq(s, t)
    ensures ChangeAt(s, t, p).None?
    decreases |p|
  {
    hide NumberEq;
    if p != [] && Comparable(s, t) {
      BehindIs(s, p[0]);
      BehindIs(t, p[0]);
      if Behind(s, p[0]).Some? { NoChangeEqual(Behind(s, p[0]).value, Behind(t, p[0]).value, p[1..]); }
    }
  }

  lemma BehindIs(j: Json, turn: Turn)
    ensures Behind(j, turn) ==
      match turn
      case Key(k) => (if j.Object? && k in j.m then Some(j.m[k]) else None)
      case Index(i) => (if j.Array? && i < |j.a| then Some(j.a[i]) else None)
  {
    BelowNothing(j);
    match turn
    case Key(k) => BelowKey(j, k, []); assert [turn] + [] == [turn]; if j.Object? && k in j.m { BelowNothing(j.m[k]); }
    case Index(i) => BelowIndex(j, i, []); assert [turn] + [] == [turn]; if j.Array? && i < |j.a| { BelowNothing(j.a[i]); }
  }

  function TurnPath(path: Str, turn: Turn): Str {
    match turn case Key(k) => AtKey(path, k) case Index(i) => AtIndex(path, i)
  }

  lemma SpelledFirst(turn: Turn, p: seq<Turn>, path: Str)
    ensures path + Spelled([turn] + p) == TurnPath(path, turn) + Spelled(p)
  {
    hide Escape, Decimal;
    assert ([turn] + p)[1..] == p && ([turn] + p)[0] == turn;
  }

  /** A change at a child is a change of the whole, at the place that begins with that turn. */
  lemma ChangeBelow(s: Json, t: Json, turn: Turn, p: seq<Turn>)
    requires Comparable(s, t) && Behind(s, turn).Some? && Behind(t, turn).Some?
    ensures ChangeAt(s, t, [turn] + p) == ChangeAt(Behind(s, turn).value, Behind(t, turn).value, p)
  {
    hide JsonEq, Behind;
    assert ([turn] + p)[1..] == p && ([turn] + p)[0] == turn;
  }

  lemma ChangeStep(op: Json, s: Json, t: Json, path: Str, turn: Turn, q: seq<Turn>)
    requires Comparable(s, t) && Behind(s, turn).Some? && Behind(t, turn).Some?
    ensures ChangeOf(op, s, t, path, [turn] + q) <==>
            ChangeOf(op, Behind(s, turn).value, Behind(t, turn).value, TurnPath(path, turn), q)
  {
    hide ChangeAt, Spelled, Behind, ChangeDoc, Comparable, TurnPath;
    ChangeBelow(s, t, turn, q);
    SpelledFirst(turn, q, path);
  }

  /** The place begins with this turn. */
  predicate Begins(p: seq<Turn>, turn: Turn) { p != [] && p[0] == turn }

  ghost predicate ChangesVia(op: Json, s: Json, t: Json, path: Str, turn: Turn) {
    exists p :: Begins(p, turn) && ChangeOf(op, s, t, path, p)
  }

  lemma ViaStep(op: Json, s: Json, t: Json, path: Str, turn: Turn, x: Json, y: Json, q: seq<Turn>)
    requires Comparable(s, t) && Behind(s, turn) == Some(x) && Behind(t, turn) == Some(y)
    requires ChangeOf(op, x, y, TurnPath(path, turn), q)
    ensures ChangesVia(op, s, t, path, turn)
  {
    ChangeStep(op, s, t, path, turn, q);
    hide *;
    var p := [turn] + q;
    assert p[0] == turn;
    ViaMade(op, s, t, path, turn, p);
  }

  lemma ViaMade(op: Json, s: Json, t: Json, path: Str, turn: Turn, p: seq<Turn>)
    requires p != [] && p[0] == turn && ChangeOf(op, s, t, path, p)
    ensures ChangesVia(op, s, t, path, turn)
  {
    hide ChangeOf;
    assert Begins(p, turn);
  }

  lemma ViaUsed(op: Json, s: Json, t: Json, path: Str, turn: Turn) returns (q: seq<Turn>)
    requires ChangesVia(op, s, t, path, turn)
    ensures ChangeOf(op, s, t, path, [turn] + q)
  {
    hide ChangeOf;
    var p :| Begins(p, turn) && ChangeOf(op, s, t, path, p);
    q := p[1..];
    assert p == [turn] + q;
  }

  /** The operations of the whole that begin with a turn that both values have are those of the children. */
  lemma ChangesBelow(op: Json, s: Json, t: Json, path: Str, turn: Turn)
    requires Comparable(s, t) && Behind(s, turn).Some? && Behind(t, turn).Some?
    ensures IsChange(op, Behind(s, turn).value, Behind(t, turn).value, TurnPath(path, turn)) <==> ChangesVia(op, s, t, path, turn)
  {
    hide ChangeOf, Behind, Comparable, TurnPath, ChangesVia;
    var x, y := Behind(s, turn).value, Behind(t, turn).value;
    if IsChange(op, x, y, TurnPath(path, turn)) {
      var q :| ChangeOf(op, x, y, TurnPath(path, turn), q);
      ViaStep(op, s, t, path, turn, x, y, q);
    }
    if ChangesVia(op, s, t, path, turn) {
      var q := ViaUsed(op, s, t, path, turn);
      ChangeStep(op, s, t, path, turn, q);
    }
  }

  /** The one turn itself. */
  lemma ChangeLone(s: Json, t: Json, turn: Turn, p: seq<Turn>)
    requires Comparable(s, t) && (Behind(s, turn).None? || Behind(t, turn).None?) && Begins(p, turn)
    ensures ChangeAt(s, t, p) ==
      if p != [turn] then None
      else if Behind(s, turn).Some? then Some(Rem) else if Behind(t, turn).Some? then Some(Ins(Behind(t, turn).value)) else None
  {
    hide Behind, JsonEq;
    if |p| == 1 { assert p == [turn]; }
  }

  lemma SpelledOne(turn: Turn, path: Str)
    ensures path + Spelled([turn]) == TurnPath(path, turn)
  {
    assert [turn] + [] == [turn];
    SpelledFirst(turn, [], path);
    hide TurnPath;
    assert Spelled([]) == [];
    assert TurnPath(path, turn) + [] == TurnPath(path, turn);
  }

  lemma LoneOf(op: Json, s: Json, t: Json, path: Str, turn: Turn, q: seq<Turn>)
    requires Comparable(s, t) && (Behind(s, turn).None? || Behind(t, turn).None?)
    ensures ChangeOf(op, s, t, path, [turn] + q) <==>
            ((Behind(s, turn).Some? && op == RemoveDoc(TurnPath(path, turn))) ||
             (Behind(t, turn).Some? && op == AddDoc(TurnPath(path, turn), Behind(t, turn).value))) && q == []
  {
    hide Behind, Comparable, TurnPath, ChangeAt, Spelled, RemoveDoc, AddDoc, ReplaceDoc;
    ChangeLone(s, t, turn, [turn] + q);
    SpelledOne(turn, path);
    assert [turn] + q == [turn] <==> q == [];
  }

  /** Where only the first value has a child, or only the second, the one change is to take it out or to put it in. */
  lemma ChangesLone(op: Json, s: Json, t: Json, path: Str, turn: Turn)
    requires Comparable(s, t) && (Behind(s, turn).None? || Behind(t, turn).None?)
    ensures ChangesVia(op, s, t, path, turn) <==>
              (Behind(s, turn).Some? && op == RemoveDoc(TurnPath(path, turn))) ||
              (Behind(t, turn).Some? && op == AddDoc(TurnPath(path, turn), Behind(t, turn).value))
  {
    hide *;
    LoneOf(op, s, t, path, turn, []);
    if ChangesVia(op, s, t, path, turn) {
      var q := ViaUsed(op, s, t, path, turn);
      LoneOf(op, s, t, path, turn, q);
    }
    if ChangeOf(op, s, t, path, [turn] + []) {
      ViaMade(op, s, t, path, turn, [turn] + []);
    }
  }

  /** At the root. */
  lemma ChangesRoot(op: Json, s: Json, t: Json, path: Str)
    ensures ChangeOf(op, s, t, path, []) <==> !JsonEq(s, t) && !Comparable(s, t) && op == ReplaceDoc(path, t)
  {
    hide JsonEq, Comparable, ReplaceDoc, AddDoc, RemoveDoc;
    assert Spelled([]) == [];
    assert path + [] == path;
  }

  /** All operations of values that are not compared child by child are those at the root. */
  lemma ChangesApart(op: Json, s: Json, t: Json, path: Str)
    requires !Comparable(s, t)
    ensures IsChange(op, s, t, path) <==> !JsonEq(s, t) && op == ReplaceDoc(path, t)
  {
    hide Comparable, Behind;
    ChangesRoot(op, s, t, path);
    forall p | ChangeOf(op, s, t, path, p) ensures p == [] {}
  }

  /** And those of values that are, begin with some turn. */
  lemma ChangesVias(op: Json, s: Json, t: Json, path: Str)
    requires Comparable(s, t)
    ensures IsChange(op, s, t, path) <==> exists turn :: ChangesVia(op, s, t, path, turn)
  {
    hide ChangeOf, Comparable;
    ChangesRoot(op, s, t, path);
    if IsChange(op, s, t, path) {
      var p :| ChangeOf(op, s, t, path, p);
      assert Begins(p, p[0]);
      assert ChangesVia(op, s, t, path, p[0]);
    }
  }

  // ---------------------------------------------------------------- the difference

  lemma {:induction false} RemovalsIn(op: Json, path: Str, from: nat, end: nat)
    ensures op in Removals(path, from, end) <==> exists i :: from <= i < end && op == RemoveDoc(AtIndex(path, i))
    decreases end - from
  {
    hide RemoveDoc, AtIndex;
    if from < end { RemovalsIn(op, path, from + 1, end); }
  }

  lemma {:induction false} AdditionsIn(op: Json, b: seq<Json>, path: Str, from: nat)
    ensures op in Additions(b, path, from) <==> exists i :: from <= i < |b| && op == AddDoc(AtIndex(path, i), b[i])
    decreases |b| - from
  {
    hide AddDoc, AtIndex;
    if from < |b| { AdditionsIn(op, b, path, from + 1); }
  }

  lemma {:induction false} AddKeysIn(op: Json, m: map<Str, Json>, n: map<Str, Json>, path: Str, ks: seq<Str>)
    requires forall k | k in ks :: k in n
    ensures op in AddKeys(m, n, path, ks) <==> exists k :: k in ks && k !in m && op == AddDoc(AtKey(path, k), n[k])
    decreases |ks|
  {
    hide AddDoc, AtKey;
    if ks != [] {
      assert forall k :: k in ks <==> k == ks[0] || k in ks[1..];
      AddKeysIn(op, m, n, path, ks[1..]);
    }
  }

  /** The operations that begin with an index. */
  lemma {:induction false} ElementsIn(op: Json, s: Json, t: Json, path: Str, from: nat)
    requires s.Array? && t.Array?
    ensures op in DiffElements(s, t, path, from) <==>
            exists i :: from <= i < |s.a| && i < |t.a| && IsChange(op, s.a[i], t.a[i], AtIndex(path, i))
    decreases s, |s.a| - from
  {
    hide Diff, IsChange, AtIndex;
    if from < |s.a| && from < |t.a| {
      DiffExactly(op, s.a[from], t.a[from], AtIndex(path, from));
      ElementsIn(op, s, t, path, from + 1);
    }
  }

  lemma {:induction false} KeysIn(op: Json, s: Json, t: Json, path: Str, ks: seq<Str>)
    requires s.Object? && t.Object? && forall k | k in ks :: k in s.m
    ensures op in DiffKeys(s, t, path, ks) <==>
            exists k :: k in ks &&
              if k in t.m then IsChange(op, s.m[k], t.m[k], AtKey(path, k)) else op == RemoveDoc(AtKey(path, k))
    decreases s, |ks|
  {
    hide Diff, IsChange, AtKey, RemoveDoc;
    if ks != [] {
      assert forall k :: k in ks <==> k == ks[0] || k in ks[1..];
      if ks[0] in t.m { DiffExactly(op, s.m[ks[0]], t.m[ks[0]], AtKey(path, ks[0])); }
      KeysIn(op, s, t, path, ks[1..]);
    }
  }

  /** What begins with an index of one of two arrays. */
  lemma ViaIndex(op: Json, s: Json, t: Json, path: Str, i: nat)
    requires s.Array? && t.Array?
    ensures ChangesVia(op, s, t, path, Index(i)) <==>
      if i < |s.a| && i < |t.a| then IsChange(op, s.a[i], t.a[i], AtIndex(path, i))
      else (i < |s.a| && op == RemoveDoc(AtIndex(path, i))) || (i < |t.a| && op == AddDoc(AtIndex(path, i), t.a[i]))
  {
    hide ChangesVia, IsChange, AtIndex, RemoveDoc, AddDoc, Behind;
    BehindIs(s, Index(i));
    BehindIs(t, Index(i));
    if i < |s.a| && i < |t.a| { ChangesBelow(op, s, t, path, Index(i)); } else { ChangesLone(op, s, t, path, Index(i)); }
  }

  lemma ViaKey(op: Json, s: Json, t: Json, path: Str, k: Str)
    requires Comparable(s, t)
    ensures ChangesVia(op, s, t, path, Key(k)) <==>
      if !s.Object? then false
      else if k in s.m && k in t.m then IsChange(op, s.m[k], t.m[k], AtKey(path, k))
      else (k in s.m && op == RemoveDoc(AtKey(path, k))) || (k in t.m && op == AddDoc(AtKey(path, k), t.m[k]))
  {
    hide ChangesVia, IsChange, AtKey, RemoveDoc, AddDoc, Behind;
    BehindIs(s, Key(k));
    BehindIs(t, Key(k));
    if s.Object? && k in s.m && k in t.m { ChangesBelow(op, s, t, path, Key(k)); } else { ChangesLone(op, s, t, path, Key(k)); }
  }

  lemma ViaIndexOfObject(op: Json, s: Json, t: Json, path: Str, i: nat)
    requires s.Object? && t.Object?
    ensures !ChangesVia(op, s, t, path, Index(i))
  {
    hide ChangesVia, Behind;
    BehindIs(s, Index(i));
    BehindIs(t, Index(i));
    ChangesLone(op, s, t, path, Index(i));
  }

  lemma {:induction false} ArraysExactly(op: Json, s: Json, t: Json, path: Str)
    requires s.Array? && t.Array?
    ensures op in DiffElements(s, t, path, 0) + Removals(path, |t.a|, |s.a|) + Additions(t.a, path, |s.a|) <==>
            IsChange(op, s, t, path)
    decreases s, |s.a| + 1
  {
    hide ChangesVia, IsChange, AtIndex, RemoveDoc, AddDoc, DiffElements, Removals, Additions;
    ElementsIn(op, s, t, path, 0);
    RemovalsIn(op, path, |t.a|, |s.a|);
    AdditionsIn(op, t.a, path, |s.a|);
    ChangesVias(op, s, t, path);
    forall k ensures !ChangesVia(op, s, t, path, Key(k)) { ViaKey(op, s, t, path, k); }
    forall i: nat
      ensures ChangesVia(op, s, t, path, Index(i)) <==>
        if i < |s.a| && i < |t.a| then IsChange(op, s.a[i], t.a[i], AtIndex(path, i))
        else (i < |s.a| && op == RemoveDoc(AtIndex(path, i))) || (i < |t.a| && op == AddDoc(AtIndex(path, i), t.a[i]))
    {
      ViaIndex(op, s, t, path, i);
    }
    if turn :| ChangesVia(op, s, t, path, turn) {
      assert turn.Index?;
    }
  }

  lemma {:induction false} ObjectsExactly(op: Json, s: Json, t: Json, path: Str)
    requires s.Object? && t.Object?
    ensures op in DiffKeys(s, t, path, SortedKeys(s.m.Keys)) + AddKeys(s.m, t.m, path, SortedKeys(t.m.Keys)) <==>
            IsChange(op, s, t, path)
    decreases s, |s.m| + 1
  {
    hide ChangesVia, IsChange, AtKey, RemoveDoc, AddDoc, DiffKeys, AddKeys, SortedKeys;
    KeysSorted(s.m.Keys);
    KeysIn(op, s, t, path, SortedKeys(s.m.Keys));
    AddKeysIn(op, s.m, t.m, path, SortedKeys(t.m.Keys));
    ChangesVias(op, s, t, path);
    forall i: nat ensures !ChangesVia(op, s, t, path, Index(i)) { ViaIndexOfObject(op, s, t, path, i); }
    forall k
      ensures ChangesVia(op, s, t, path, Key(k)) <==>
        if k in s.m && k in t.m then IsChange(op, s.m[k], t.m[k], AtKey(path, k))
        else (k in s.m && op == RemoveDoc(AtKey(path, k))) || (k in t.m && op == AddDoc(AtKey(path, k), t.m[k]))
    {
      ViaKey(op, s, t, path, k);
    }
    if turn :| ChangesVia(op, s, t, path, turn) {
      assert turn.Key?;
    }
  }

  /**
   * A difference is made of exactly one kind of operation for each place: the change of that place, and nothing where
   * there is none.
   */
  lemma {:induction false} DiffExactly(op: Json, s: Json, t: Json, path: Str)
    ensures op in Diff(s, t, path) <==> IsChange(op, s, t, path)
    decreases s
  {
    hide IsChange, DiffElements, Removals, Additions, DiffKeys, AddKeys, SortedKeys, ReplaceDoc, JsonEq;
    if JsonEq(s, t) {
      NoChanges(op, s, t, path);
    } else if !Comparable(s, t) {
      ChangesApart(op, s, t, path);
    } else if s.Array? {
      ArraysExactly(op, s, t, path);
    } else {
      ObjectsExactly(op, s, t, path);
    }
  }

  lemma NoChanges(op: Json, s: Json, t: Json, path: Str)
    requires JsonEq(s, t)
    ensures !IsChange(op, s, t, path)
  {
    hide JsonEq, ChangeAt;
    forall p ensures !ChangeOf(op, s, t, path, p) { NoChangeEqual(s, t, p); }
  }
}
