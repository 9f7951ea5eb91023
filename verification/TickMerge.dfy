/** Replaying recorded ticks: the files of one trading day are merged by arrival time, day after day. */
module TickMerge {
  import opened Options

  const LONG_MAX := 0x7fff_ffff_ffff_ffff

  datatype Tick = Tick(localTime: int, data: seq<int>)

  /** A file being read: its place in the list of files, its trading day, the tick at hand, and those behind it. */
  datatype Cursor = Cursor(id: int, day: int, head: Option<Tick>, rest: seq<Tick>)

  datatype State = State(files: seq<Cursor>, day: int)

  /** A tick with the file and the day it comes from. */
  datatype Item = Item(id: int, day: int, tick: Tick)

  /** The ticks of a file that were not handed out. */
  function Left(f: Cursor): seq<Tick> {
    (if f.head.Some? then [f.head.value] else []) + f.rest
  }

  /** `next`: the next tick becomes the one at hand; None when there is none, or only part of one. */
  function Next(f: Cursor): Option<Cursor> {
    if f.rest == [] then None else Some(f.(head := Some(f.rest[0]), rest := f.rest[1..]))
  }

  function HeadTime(f: Cursor): int {
    if f.head.Some? then f.head.value.localTime else LONG_MAX
  }

  // ---------------------------------------------------------------- a new day

  /** The earliest trading day of the first n files. */
  function FirstDay(files: seq<Cursor>, n: nat): int
    requires 1 <= n <= |files|
  {
    if n == 1 then files[0].day
    else if FirstDay(files, n - 1) > files[n - 1].day then files[n - 1].day else FirstDay(files, n - 1)
  }

  /** The files of one day are started; those without a tick are dropped. */
  function Started(files: seq<Cursor>, day: int): seq<Cursor> {
    if files == [] then []
    else
      var f := files[0];
      (if f.day != day then [f] else if Next(f).Some? then [Next(f).value] else []) + Started(files[1..], day)
  }

  function SwitchDay(s: State): State {
    if s.files == [] then s
    else var day := FirstDay(s.files, |s.files|); State(Started(s.files, day), day)
  }

  // ---------------------------------------------------------------- the next tick

  /** Among the first n files, the first of those of this day whose tick at hand is the earliest; -1 when there is none. */
  function Earliest(files: seq<Cursor>, day: int, n: nat): (r: int)
    requires n <= |files|
    ensures -1 <= r < n
  {
    if n == 0 then -1
    else
      var k := Earliest(files, day, n - 1);
      var best := if k == -1 then LONG_MAX else HeadTime(files[k]);
      if files[n - 1].day == day && best > HeadTime(files[n - 1]) then n - 1 else k
  }

  /** The file at index k goes on to its next tick, or is dropped. */
  function Advanced(files: seq<Cursor>, k: nat): seq<Cursor>
    requires k < |files|
  {
    if Next(files[k]).Some? then files[k := Next(files[k]).value] else files[..k] + files[k + 1..]
  }

  /** `merge`: the tick handed out, if there was one; otherwise a new day has begun. */
  function Merge(s: State): (r: (Option<Item>, State)) {
    var k := Earliest(s.files, s.day, |s.files|);
    if k >= 0 then
      var f := s.files[k];
      (Some(Item(f.id, f.day, if f.head.Some? then f.head.value else Tick(LONG_MAX, []))), s.(files := Advanced(s.files, k)))
    else (None, SwitchDay(s))
  }

  /** Ticks left, counting every file once. */
  function Size(files: seq<Cursor>): nat {
    if files == [] then 0 else |files[0].rest| + 1 + Size(files[1..])
  }

  lemma {:induction false} SizePlus(a: seq<Cursor>, b: seq<Cursor>)
    ensures Size(a + b) == Size(a) + Size(b)
  {
    if a == [] {
      assert a + b == b;
    } else {
      assert (a + b)[1..] == a[1..] + b;
      SizePlus(a[1..], b);
    }
  }

  lemma {:induction false} SizeAt(files: seq<Cursor>, k: nat)
    requires k < |files|
    ensures Size(files) == Size(files[..k]) + |files[k].rest| + 1 + Size(files[k + 1..])
  {
    if k > 0 {
      SizeAt(files[1..], k - 1);
      assert files[1..][k - 1 + 1..] == files[k + 1..];
      assert files[..k][1..] == files[1..][..k - 1];
    }
  }

  lemma AdvancedSmaller(files: seq<Cursor>, k: nat)
    requires k < |files|
    ensures Size(Advanced(files, k)) < Size(files)
  {
    hide Size;
    SizeAt(files, k);
    if Next(files[k]).Some? {
      var fs := files[k := Next(files[k]).value];
      SizeAt(fs, k);
      assert fs[..k] == files[..k] && fs[k + 1..] == files[k + 1..];
    } else {
      SizePlus(files[..k], files[k + 1..]);
    }
  }

  lemma {:induction false} StartedSmaller(files: seq<Cursor>, day: int)
    ensures Size(Started(files, day)) <= Size(files)
    ensures (exists i :: 0 <= i < |files| && files[i].day == day) ==> Size(Started(files, day)) < Size(files)
  {
    if files != [] {
      StartedSmaller(files[1..], day);
      var f := files[0];
      var g := if f.day != day then [f] else if Next(f).Some? then [Next(f).value] else [];
      SizePlus(g, Started(files[1..], day));
      if i :| 0 <= i < |files| && files[i].day == day {
        if i > 0 { assert files[1..][i - 1].day == day; }
      }
    }
  }

  lemma {:induction false} FirstDayIs(files: seq<Cursor>, n: nat)
    requires 1 <= n <= |files|
    ensures exists i :: 0 <= i < n && files[i].day == FirstDay(files, n)
    ensures forall i | 0 <= i < n :: FirstDay(files, n) <= files[i].day
  {
    if n > 1 {
      FirstDayIs(files, n - 1);
      if FirstDay(files, n - 1) <= files[n - 1].day {
        var i :| 0 <= i < n - 1 && files[i].day == FirstDay(files, n - 1);
        assert files[i].day == FirstDay(files, n);
      } else {
        assert files[n - 1].day == FirstDay(files, n);
      }
    } else {
      assert files[0].day == FirstDay(files, 1);
    }
  }

  lemma MergeSmaller(s: State)
    requires s.files != []
    ensures Size(Merge(s).1.files) < Size(s.files)
  {
    hide FirstDay, Started, Advanced, Size;
    var k := Earliest(s.files, s.day, |s.files|);
    if k >= 0 {
      AdvancedSmaller(s.files, k);
    } else {
      FirstDayIs(s.files, |s.files|);
      StartedSmaller(s.files, FirstDay(s.files, |s.files|));
    }
  }

  /** `readTick`. */
  function ReadTick(s: State): (r: (Option<Item>, State))
    ensures r.0.Some? ==> Size(r.1.files) < Size(s.files)
    decreases Size(s.files)
  {
    if s.files == [] then (None, s)
    else
      MergeSmaller(s);
      var m := Merge(s);
      if m.0.Some? then m else ReadTick(m.1)
  }

  /** All ticks that readTick hands out until there are none. */
  function Drain(s: State): seq<Item>
    decreases Size(s.files)
  {
    var r := ReadTick(s);
    if r.0.None? then [] else [r.0.value] + Drain(r.1)
  }

  lemma StartedStep(done: seq<Cursor>, todo: seq<Cursor>, day: int)
    requires todo != []
    ensures done + Started(todo, day) ==
      (if todo[0].day != day then done + [todo[0]]
       else if Next(todo[0]).Some? then done + [Next(todo[0]).value] else done) + Started(todo[1..], day)
  {}

  lemma StartedNone(day: int)
    ensures Started([], day) == []
  {}

  // ---------------------------------------------------------------- the loops

  class CWareHouseReader {
    var files: seq<Cursor>
    var day: int

    ghost function Value(): State
      reads this
    {
      State(files, day)
    }

    constructor (fs: seq<Cursor>)
      ensures Value() == SwitchDay(State(fs, 0))
    {
      files, day := fs, 0;
      new;
      SwitchToNextDay();
    }

    /** `switchDay`. */
    method SwitchToNextDay()
      modifies this
      ensures Value() == SwitchDay(old(Value()))
    {
      hide Started;
      if files == [] {
        return;
      }
      day := files[0].day;
      for i := 1 to |files|
        invariant files == old(files) && day == FirstDay(files, i)
      {
        if day > files[i].day {
          day := files[i].day;
        }
      }
      StartFiles();
    }

    /** The loop of `switchDay` that erases files from the list while it goes through it. */
    method StartFiles()
      modifies this`files
      ensures files == Started(old(files), day)
    {
      hide Started;
      ghost var fs := files;
      var i := 0;
      assert files[..0] == [] && files[0..] == fs;
      assert [] + Started(fs, day) == Started(fs, day);
      while i < |files|
        invariant 0 <= i <= |files|
        invariant Started(fs, day) == files[..i] + Started(files[i..], day)
        decreases |files| - i
      {
        ghost var done, todo := files[..i], files[i..];
        StartedStep(done, todo, day);
        assert todo[0] == files[i] && todo[1..] == files[i + 1..];
        if files[i].day == day {
          var next := Next(files[i]);
          if next.Some? {
            files := files[i := next.value];
            assert files[..i + 1] == done + [next.value] && files[i + 1..] == todo[1..];
            i := i + 1;
          } else {
            files := files[..i] + files[i + 1..];
            assert files[..i] == done && files[i..] == todo[1..];
          }
        } else {
          assert files[..i + 1] == done + [files[i]];
          i := i + 1;
        }
      }
      assert files[i..] == [] && files[..i] == files;
      StartedNone(day);
    }

    method MergeTick() returns (r: Option<Item>)
      modifies this
      ensures (r, Value()) == Merge(old(Value()))
    {
      hide Started, FirstDay;
      var localTime, idx := LONG_MAX, -1;
      for i := 0 to |files|
        invariant idx == Earliest(files, day, i)
        invariant localTime == if idx == -1 then LONG_MAX else HeadTime(files[idx])
      {
        if day == files[i].day {
          if localTime > HeadTime(files[i]) {
            localTime, idx := HeadTime(files[i]), i;
          }
        }
      }
      r := None;
      if idx >= 0 {
        var f := files[idx];
        r := Some(Item(f.id, f.day, if f.head.Some? then f.head.value else Tick(LONG_MAX, [])));
        var next := Next(f);
        files := if next.Some? then files[idx := next.value] else files[..idx] + files[idx + 1..];
      } else {
        SwitchToNextDay();
      }
    }

    method Read() returns (r: Option<Item>)
      modifies this
      ensures (r, Value()) == ReadTick(old(Value()))
    {
      hide Merge;
      ghost var s := Value();
      while files != []
        invariant ReadTick(s) == ReadTick(Value())
        decreases Size(files)
      {
        MergeSmaller(Value());
        r := MergeTick();
        if r.Some? {
          return;
        }
      }
      return None;
    }
  }

  // ---------------------------------------------------------------- what is handed out

  /** The order of replay: by day, by arrival, and by the order of the files. */
  predicate Leq(x: Item, y: Item) {
    x.day < y.day || (x.day == y.day && (x.tick.localTime < y.tick.localTime ||
                                         (x.tick.localTime == y.tick.localTime && x.id <= y.id)))
  }

  predicate Sorted(items: seq<Item>) {
    forall i, j | 0 <= i < j < |items| :: Leq(items[i], items[j])
  }

  /** The ticks of one file among those handed out. */
  function Of(items: seq<Item>, id: int): seq<Tick> {
    if items == [] then [] else (if items[0].id == id then [items[0].tick] else []) + Of(items[1..], id)
  }

  /** What file id still has. */
  function LeftOf(files: seq<Cursor>, id: int): seq<Tick> {
    if files == [] then [] else (if files[0].id == id then Left(files[0]) else []) + LeftOf(files[1..], id)
  }

  /** Days in ascending order. */
  predicate ByDay(items: seq<Item>) {
    forall i, j | 0 <= i < j < |items| :: items[i].day <= items[j].day
  }

  /** Arrival times that can be told from the time of a file without a tick. */
  predicate Timed(ts: seq<Tick>) {
    forall i | 0 <= i < |ts| :: ts[i].localTime < LONG_MAX
  }

  predicate InOrder(ts: seq<Tick>) {
    forall i, j | 0 <= i < j < |ts| :: ts[i].localTime <= ts[j].localTime
  }

  /** Every file's ticks are in order of arrival. */
  predicate AllInOrder(files: seq<Cursor>) {
    forall i | 0 <= i < |files| :: InOrder(Left(files[i]))
  }

  predicate FileOk(f: Cursor, day: int) {
    Timed(Left(f)) && f.day >= day && (f.head.Some? <==> f.day == day)
  }

  /** Files of the current day are started, and the others belong to later days. */
  predicate Ok(s: State) {
    && (forall i | 0 <= i < |s.files| :: FileOk(s.files[i], s.day))
    && (forall i, j | 0 <= i < j < |s.files| :: s.files[i].id < s.files[j].id)
  }

  /** An item that some file still has. */
  predicate Has(files: seq<Cursor>, x: Item) {
    exists i, j :: 0 <= i < |files| && 0 <= j < |Left(files[i])| &&
                   x == Item(files[i].id, files[i].day, Left(files[i])[j])
  }

  // ---------------------------------------------------------------- the earliest tick

  lemma {:induction false} EarliestIs(files: seq<Cursor>, day: int, n: nat)
    requires n <= |files|
    ensures var k := Earliest(files, day, n);
      (k >= 0 ==> files[k].day == day && HeadTime(files[k]) < LONG_MAX) &&
      (forall i | 0 <= i < n && files[i].day == day :: k >= 0 ==> HeadTime(files[k]) <= HeadTime(files[i])) &&
      (forall i | 0 <= i < n && files[i].day == day && i < k :: HeadTime(files[k]) < HeadTime(files[i])) &&
      (k == -1 ==> forall i | 0 <= i < n && files[i].day == day :: HeadTime(files[i]) >= LONG_MAX)
  {
    if n > 0 { EarliestIs(files, day, n - 1); }
  }

  /** The tick handed out comes before everything the files still have. */
  lemma PickLeast(s: State, x: Item)
    requires Ok(s) && Earliest(s.files, s.day, |s.files|) >= 0 && Has(s.files, x)
    ensures Merge(s).0.value.day <= x.day && (AllInOrder(s.files) ==> Leq(Merge(s).0.value, x))
  {
    var k := Earliest(s.files, s.day, |s.files|);
    EarliestIs(s.files, s.day, |s.files|);
    var i, j :| 0 <= i < |s.files| && 0 <= j < |Left(s.files[i])| &&
                x == Item(s.files[i].id, s.files[i].day, Left(s.files[i])[j]);
    assert FileOk(s.files[k], s.day) && FileOk(s.files[i], s.day);
    var l := Left(s.files[i]);
    if s.files[i].day == s.day && AllInOrder(s.files) {
      assert InOrder(l);
      assert HeadTime(s.files[i]) == l[0].localTime <= l[j].localTime;
    }
  }

  // ---------------------------------------------------------------- each step keeps the files as they should be

  lemma NextOk(f: Cursor, day: int)
    requires FileOk(f, day) && f.day == day && f.rest != []
    ensures FileOk(Next(f).value, day) && Left(Next(f).value) == f.rest
    ensures InOrder(Left(f)) ==> InOrder(f.rest)
  {
    assert Left(Next(f).value) == f.rest;
    assert f.rest == Left(f)[1..];
  }

  lemma AdvancedOk(s: State, k: nat)
    requires Ok(s) && k < |s.files| && s.files[k].day == s.day
    ensures Ok(s.(files := Advanced(s.files, k)))
    ensures AllInOrder(s.files) ==> AllInOrder(Advanced(s.files, k))
  {
    hide Left, InOrder, Timed;
    assert FileOk(s.files[k], s.day);
    if s.files[k].rest != [] { NextOk(s.files[k], s.day); }
  }

  /** A file list as it is before a day is begun: nothing of that day or later is started. */
  predicate Unstarted(files: seq<Cursor>) {
    && (forall i | 0 <= i < |files| :: files[i].head == None && Timed(files[i].rest))
    && (forall i, j | 0 <= i < j < |files| :: files[i].id < files[j].id)
  }

  lemma StartedFile(f: Cursor, day: int)
    requires f.head == None && Timed(f.rest) && f.day >= day
    ensures f.day != day ==> FileOk(f, day)
    ensures f.day == day && Next(f).Some? ==> FileOk(Next(f).value, day)
    ensures Left(f) == f.rest && (Next(f).Some? ==> Left(Next(f).value) == f.rest)
  {
    hide Timed;
    assert Left(f) == f.rest;
    if Next(f).Some? {
      assert Left(Next(f).value) == f.rest;
    }
  }

  lemma {:induction false} StartedFiles(files: seq<Cursor>, day: int)
    requires forall i | 0 <= i < |files| :: files[i].head == None && Timed(files[i].rest) && files[i].day >= day
    ensures forall i | 0 <= i < |Started(files, day)| :: FileOk(Started(files, day)[i], day)
    ensures AllInOrder(files) ==> AllInOrder(Started(files, day))
  {
    hide InOrder, Timed, FileOk, Next, Left;
    if files != [] {
      assert AllInOrder(files) ==> AllInOrder(files[1..]);
      StartedFiles(files[1..], day);
      StartedFile(files[0], day);
    }
  }

  /** Ids in ascending order, all above lo. */
  predicate Ascending(files: seq<Cursor>, lo: int) {
    (forall i | 0 <= i < |files| :: files[i].id > lo) &&
    (forall i, j | 0 <= i < j < |files| :: files[i].id < files[j].id)
  }

  lemma {:induction false} StartedIds(files: seq<Cursor>, day: int, lo: int)
    requires Ascending(files, lo)
    ensures Ascending(Started(files, day), lo)
  {
    hide Next;
    if files != [] {
      assert Ascending(files[1..], files[0].id);
      StartedIds(files[1..], day, files[0].id);
      NextId(files[0]);
    }
  }

  lemma StartedOk(files: seq<Cursor>, day: int)
    requires Unstarted(files) && forall i | 0 <= i < |files| :: files[i].day >= day
    ensures Ok(State(Started(files, day), day)) && (AllInOrder(files) ==> AllInOrder(Started(files, day)))
  {
    hide AllInOrder, Timed, FileOk, Started;
    StartedFiles(files, day);
    if files != [] {
      StartedIds(files, day, files[0].id - 1);
    } else {
      StartedNone(day);
    }
  }

  lemma NextId(f: Cursor)
    ensures Next(f).Some? ==> Next(f).value.id == f.id
  {}

  lemma HeadEarly(f: Cursor, day: int)
    requires FileOk(f, day)
    ensures f.head.Some? ==> HeadTime(f) < LONG_MAX
  {
    if f.head.Some? {
      assert Left(f)[0] == f.head.value;
    }
  }

  /** When no tick is at hand, no file of the day is left. */
  lemma NoneAtHand(s: State)
    requires Ok(s) && Earliest(s.files, s.day, |s.files|) == -1
    ensures Unstarted(s.files) && forall i | 0 <= i < |s.files| :: s.files[i].day > s.day
  {
    EarliestIs(s.files, s.day, |s.files|);
    forall i | 0 <= i < |s.files|
      ensures s.files[i].day > s.day && s.files[i].head == None && Timed(s.files[i].rest)
    {
      assert FileOk(s.files[i], s.day);
      HeadEarly(s.files[i], s.day);
      assert s.files[i].head == None ==> Left(s.files[i]) == s.files[i].rest;
    }
  }

  lemma SwitchOk(s: State)
    requires Unstarted(s.files)
    ensures Ok(SwitchDay(s)) && (AllInOrder(s.files) ==> AllInOrder(SwitchDay(s).files))
  {
    hide Started, FirstDay, AllInOrder;
    if s.files != [] {
      FirstDayIs(s.files, |s.files|);
      StartedOk(s.files, FirstDay(s.files, |s.files|));
    }
  }

  lemma MergeOk(s: State)
    requires Ok(s)
    ensures Ok(Merge(s).1) && (AllInOrder(s.files) ==> AllInOrder(Merge(s).1.files))
  {
    hide Ok, Unstarted, Advanced, SwitchDay, AllInOrder;
    var k := Earliest(s.files, s.day, |s.files|);
    if k >= 0 {
      EarliestIs(s.files, s.day, |s.files|);
      AdvancedOk(s, k);
    } else {
      NoneAtHand(s);
      SwitchOk(s);
    }
  }

  // ---------------------------------------------------------------- nothing is lost

  lemma {:induction false} LeftPlus(a: seq<Cursor>, b: seq<Cursor>, id: int)
    ensures LeftOf(a + b, id) == LeftOf(a, id) + LeftOf(b, id)
  {
    if a == [] {
      assert a + b == b;
    } else {
      assert (a + b)[1..] == a[1..] + b;
      LeftPlus(a[1..], b, id);
    }
  }

  lemma {:induction false} LeftNone(files: seq<Cursor>, id: int)
    requires forall i | 0 <= i < |files| :: files[i].id != id
    ensures LeftOf(files, id) == []
  {
    if files != [] { LeftNone(files[1..], id); }
  }

  lemma LeftAt(files: seq<Cursor>, k: nat, id: int)
    requires k < |files| && forall i, j | 0 <= i < j < |files| :: files[i].id < files[j].id
    ensures LeftOf(files, files[k].id) == Left(files[k])
  {
    hide LeftOf, Left;
    var f := files[k];
    assert files == files[..k] + ([f] + files[k + 1..]);
    LeftPlus(files[..k], [f] + files[k + 1..], f.id);
    LeftPlus([f], files[k + 1..], f.id);
    LeftNone(files[..k], f.id);
    LeftNone(files[k + 1..], f.id);
    LeftOne(f);
    assert [] + (Left(f) + []) == Left(f);
  }

  lemma LeftOne(f: Cursor)
    ensures forall id :: LeftOf([f], id) == if f.id == id then Left(f) else []
  {
    hide Left;
    assert [f][1..] == [];
  }

  lemma LeftAround(a: seq<Cursor>, b: seq<Cursor>, c: seq<Cursor>, id: int)
    ensures LeftOf(a + (b + c), id) == LeftOf(a, id) + (LeftOf(b, id) + LeftOf(c, id))
  {
    hide LeftOf;
    LeftPlus(a, b + c, id);
    LeftPlus(b, c, id);
  }

  /** What a file has left, with the tick at hand first. */
  lemma LeftNext(f: Cursor, day: int, id: int)
    requires FileOk(f, day) && f.day == day
    ensures f.head.Some?
    ensures var g := if Next(f).Some? then [Next(f).value] else [];
      LeftOf([f], id) == (if f.id == id then [f.head.value] else []) + LeftOf(g, id)
  {
    hide Left, Timed, LeftOf;
    LeftOne(f);
    HeadFirst(f, day, id);
    if Next(f).Some? { LeftOne(Next(f).value); }
  }

  lemma AdvancedLeft(s: State, k: nat, id: int)
    requires Ok(s) && k < |s.files| && s.files[k].day == s.day
    ensures var f := s.files[k];
      LeftOf(s.files, id) == (if f.id == id then [f.head.value] else []) + LeftOf(Advanced(s.files, k), id)
  {
    hide Left, Timed, LeftOf, Next;
    var f := s.files[k];
    assert FileOk(f, s.day);
    var a, b := s.files[..k], s.files[k + 1..];
    var g := if Next(f).Some? then [Next(f).value] else [];
    assert s.files == a + ([f] + b) && Advanced(s.files, k) == a + (g + b);
    LeftAround(a, [f], b, id);
    LeftAround(a, g, b, id);
    LeftNext(f, s.day, id);
    if f.id == id { LeftNone(a, id); }
  }

  lemma HeadFirst(f: Cursor, day: int, id: int)
    requires FileOk(f, day) && f.day == day
    ensures f.head.Some? && Left(f) == [f.head.value] + f.rest && LeftOf([], id) == []
    ensures Next(f).Some? ==> Left(Next(f).value) == f.rest
    ensures Next(f).None? ==> f.rest == []
  {
    if Next(f).Some? {
      assert Left(Next(f).value) == f.rest;
    }
  }

  lemma {:induction false} StartedLeft(files: seq<Cursor>, day: int, id: int)
    requires forall i | 0 <= i < |files| :: files[i].head == None
    ensures LeftOf(Started(files, day), id) == LeftOf(files, id)
  {
    if files != [] {
      StartedLeft(files[1..], day, id);
      var f := files[0];
      var g := if f.day != day then [f] else if Next(f).Some? then [Next(f).value] else [];
      LeftPlus(g, Started(files[1..], day), id);
      LeftOne(f);
      if Next(f).Some? {
        LeftOne(Next(f).value);
        assert Left(Next(f).value) == f.rest == Left(f);
      }
    }
  }

  lemma MergeLeft(s: State, id: int)
    requires Ok(s)
    ensures var m := Merge(s);
      LeftOf(s.files, id) == (if m.0.Some? && m.0.value.id == id then [m.0.value.tick] else []) + LeftOf(m.1.files, id)
  {
    hide Unstarted, Advanced, LeftOf, Timed;
    var k := Earliest(s.files, s.day, |s.files|);
    if k >= 0 {
      EarliestIs(s.files, s.day, |s.files|);
      assert FileOk(s.files[k], s.day);
      AdvancedLeft(s, k, id);
    } else {
      NoneAtHand(s);
      SwitchLeft(s, id);
    }
  }

  lemma SwitchLeft(s: State, id: int)
    requires Unstarted(s.files)
    ensures LeftOf(SwitchDay(s).files, id) == LeftOf(s.files, id)
  {
    if s.files != [] { StartedLeft(s.files, FirstDay(s.files, |s.files|), id); }
  }

  // ---------------------------------------------------------------- nothing is added

  /** What the files have after a step, they had before it. */
  lemma MergeHas(s: State, x: Item)
    requires Ok(s) && Has(Merge(s).1.files, x)
    ensures Has(s.files, x)
  {
    hide Timed, Left, Advanced, SwitchDay;
    var k := Earliest(s.files, s.day, |s.files|);
    if k >= 0 {
      EarliestIs(s.files, s.day, |s.files|);
      AdvancedHas(s, k, x);
    } else {
      NoneAtHand(s);
      if s.files != [] {
        SwitchHas(s, x);
      } else {
        NoFiles(s);
      }
    }
  }

  lemma NoFiles(s: State)
    requires s.files == []
    ensures SwitchDay(s) == s
  {}

  lemma SwitchHas(s: State, x: Item)
    requires s.files != [] && Unstarted(s.files) && Has(SwitchDay(s).files, x)
    ensures Has(s.files, x)
  {
    hide Has, Left;
    StartedHas(s.files, FirstDay(s.files, |s.files|), x);
  }

  lemma HasAt(files: seq<Cursor>, i: nat, j: nat)
    requires i < |files| && j < |Left(files[i])|
    ensures Has(files, Item(files[i].id, files[i].day, Left(files[i])[j]))
  {}

  lemma AdvancedHas(s: State, k: nat, x: Item)
    requires Ok(s) && k < |s.files| && s.files[k].day == s.day && Has(Advanced(s.files, k), x)
    ensures Has(s.files, x)
  {
    hide Timed;
    var f, fs := s.files[k], Advanced(s.files, k);
    assert FileOk(f, s.day);
    HeadFirst(f, s.day, f.id);
    var i, j :| 0 <= i < |fs| && 0 <= j < |Left(fs[i])| && x == Item(fs[i].id, fs[i].day, Left(fs[i])[j]);
    if Next(f).Some? {
      if i == k { HasAt(s.files, k, j + 1); } else { HasAt(s.files, i, j); }
    } else {
      HasAt(s.files, if i < k then i else i + 1, j);
    }
  }

  lemma HasEither(a: seq<Cursor>, b: seq<Cursor>, x: Item)
    requires Has(a + b, x)
    ensures Has(a, x) || Has(b, x)
  {
    var fs := a + b;
    var i, j :| 0 <= i < |fs| && 0 <= j < |Left(fs[i])| && x == Item(fs[i].id, fs[i].day, Left(fs[i])[j]);
    if i < |a| { HasAt(a, i, j); } else { HasAt(b, i - |a|, j); }
  }

  lemma HasTail(files: seq<Cursor>, x: Item)
    requires files != [] && Has(files[1..], x)
    ensures Has(files, x)
  {
    var fs := files[1..];
    var i, j :| 0 <= i < |fs| && 0 <= j < |Left(fs[i])| && x == Item(fs[i].id, fs[i].day, Left(fs[i])[j]);
    HasAt(files, i + 1, j);
  }

  /** Starting a file adds nothing to it. */
  lemma HasFirst(files: seq<Cursor>, f: Cursor, x: Item)
    requires files != [] && Has([f], x) && Left(f) == Left(files[0]) && f.id == files[0].id && f.day == files[0].day
    ensures Has(files, x)
  {
    var i, j :| 0 <= i < |[f]| && 0 <= j < |Left([f][i])| && x == Item([f][i].id, [f][i].day, Left([f][i])[j]);
    HasAt(files, 0, j);
  }

  lemma {:induction false} StartedHas(files: seq<Cursor>, day: int, x: Item)
    requires (forall i | 0 <= i < |files| :: files[i].head == None) && Has(Started(files, day), x)
    ensures Has(files, x)
  {
    hide Has, Left;
    if files == [] {
      StartedNone(day);
    } else {
      var f := files[0];
      var g := if f.day != day then [f] else if Next(f).Some? then [Next(f).value] else [];
      HasEither(g, Started(files[1..], day), x);
      if Has(g, x) {
        if g == [] { HasNone(x); } else {
          if f.day == day { StartedSame(f); }
          HasFirst(files, g[0], x);
        }
      } else {
        StartedHas(files[1..], day, x);
        HasTail(files, x);
      }
    }
  }

  lemma HasNone(x: Item)
    ensures !Has([], x)
  {}

  lemma StartedSame(f: Cursor)
    requires f.head == None && Next(f).Some?
    ensures Left(Next(f).value) == Left(f) && Next(f).value.id == f.id && Next(f).value.day == f.day
  {
    assert Left(Next(f).value) == f.rest == Left(f);
  }

  /** The tick handed out is one the files had. */
  lemma PickHas(s: State)
    requires Ok(s) && Merge(s).0.Some?
    ensures Has(s.files, Merge(s).0.value)
  {
    var k := Earliest(s.files, s.day, |s.files|);
    EarliestIs(s.files, s.day, |s.files|);
    assert FileOk(s.files[k], s.day);
    HasAt(s.files, k, 0);
  }

  // ---------------------------------------------------------------- one call of readTick

  /** What one call hands out, and what the files have afterwards. */
  lemma {:induction false} ReadOk(s: State)
    requires Ok(s)
    ensures var r := ReadTick(s);
      Ok(r.1) && (AllInOrder(s.files) ==> AllInOrder(r.1.files)) && (r.0.None? ==> r.1.files == []) &&
      (forall id :: LeftOf(s.files, id) ==
        (if r.0.Some? && r.0.value.id == id then [r.0.value.tick] else []) + LeftOf(r.1.files, id)) &&
      (r.0.Some? ==> Has(s.files, r.0.value)) &&
      (forall x | Has(r.1.files, x) :: Has(s.files, x) && (r.0.Some? ==> Before(s, r.0.value, x)))
    decreases Size(s.files)
  {
    hide Ok, Merge, Has, LeftOf, Before, AllInOrder;
    if s.files != [] {
      MergeSmaller(s);
      MergeOk(s);
      var m := Merge(s);
      forall id
        ensures LeftOf(s.files, id) ==
          (if m.0.Some? && m.0.value.id == id then [m.0.value.tick] else []) + LeftOf(m.1.files, id)
      {
        MergeLeft(s, id);
      }
      forall x | Has(m.1.files, x) ensures Has(s.files, x) && (m.0.Some? ==> Before(s, m.0.value, x)) {
        MergeHas(s, x);
        if m.0.Some? { PickFirst(s, x); }
      }
      if m.0.Some? {
        PickHas(s);
      } else {
        ReadOk(m.1);
        var r := ReadTick(m.1);
        forall x | Has(r.1.files, x) && r.0.Some? ensures Before(s, r.0.value, x) {
          BeforeKept(s, m.1, r.0.value, x);
        }
      }
    } else {
      assert forall id :: [] + LeftOf(s.files, id) == LeftOf(s.files, id);
    }
  }

  /** What may be handed out before what: a day's ticks before the next day's, and by arrival if the files are. */
  predicate Before(s: State, x: Item, y: Item) {
    x.day <= y.day && (AllInOrder(s.files) ==> Leq(x, y))
  }

  lemma BeforeKept(s: State, t: State, x: Item, y: Item)
    requires Before(t, x, y) && (AllInOrder(s.files) ==> AllInOrder(t.files))
    ensures Before(s, x, y)
  {
    hide AllInOrder;
  }

  lemma PickFirst(s: State, x: Item)
    requires Ok(s) && Merge(s).0.Some? && Has(s.files, x)
    ensures Before(s, Merge(s).0.value, x)
  {
    hide Ok, Has, Leq, AllInOrder;
    PickLeast(s, x);
  }

  // ---------------------------------------------------------------- the whole replay

  lemma {:induction false} DrainHas(s: State)
    requires Ok(s)
    ensures forall x | x in Drain(s) :: Has(s.files, x)
    decreases Size(s.files)
  {
    hide Ok, Has, ReadTick, Before, LeftOf;
    ReadOk(s);
    var r := ReadTick(s);
    if r.0.Some? { DrainHas(r.1); }
  }

  /** The replay is in order of day, and of arrival and file within a day if every file is. */
  lemma {:induction false} DrainSorted(s: State)
    requires Ok(s)
    ensures ByDay(Drain(s)) && (AllInOrder(s.files) ==> Sorted(Drain(s)))
    decreases Size(s.files)
  {
    hide Ok, Has, ReadTick, Leq, LeftOf, AllInOrder;
    ReadOk(s);
    var r := ReadTick(s);
    if r.0.Some? {
      DrainSorted(r.1);
      DrainHas(r.1);
      var rest := Drain(r.1);
      assert forall j | 0 <= j < |rest| :: rest[j] in rest;
    }
  }

  /** The replay holds the ticks of every file, all of them, in the file's order. */
  lemma {:induction false} DrainComplete(s: State, id: int)
    requires Ok(s)
    ensures Of(Drain(s), id) == LeftOf(s.files, id)
    decreases Size(s.files)
  {
    hide Ok, Has, ReadTick, Before, LeftOf;
    ReadOk(s);
    var r := ReadTick(s);
    if r.0.Some? {
      DrainComplete(r.1, id);
      assert Drain(s)[1..] == Drain(r.1);
    } else {
      NothingLeft(r.1.files, id);
    }
  }

  lemma NothingLeft(files: seq<Cursor>, id: int)
    requires files == []
    ensures LeftOf(files, id) == []
  {}

  /**
   * Files read to exhaustion: every tick of every file once, in the order of its file, and no other; days ascending;
   * and, if every file is in order of arrival, within a day in that order, and of the files where ticks arrived together.
   */
  lemma ReplayMerges(files: seq<Cursor>)
    requires Unstarted(files)
    ensures var items := Drain(SwitchDay(State(files, 0)));
      (forall k | 0 <= k < |files| :: Of(items, files[k].id) == files[k].rest) &&
      (forall x | x in items :: exists k :: 0 <= k < |files| && x.id == files[k].id && x.day == files[k].day) &&
      ByDay(items) && (AllInOrder(files) ==> Sorted(items))
  {
    hide Ok, Drain, SwitchDay, Timed, LeftOf, AllInOrder, Has;
    var s := State(files, 0);
    SwitchOk(s);
    DrainSorted(SwitchDay(s));
    forall k | 0 <= k < |files| ensures Of(Drain(SwitchDay(s)), files[k].id) == files[k].rest {
      DrainComplete(SwitchDay(s), files[k].id);
      SwitchLeft(s, files[k].id);
      LeftAt(files, k, files[k].id);
      assert Left(files[k]) == files[k].rest;
    }
    DrainHas(SwitchDay(s));
    forall x | x in Drain(SwitchDay(s))
      ensures exists k :: 0 <= k < |files| && x.id == files[k].id && x.day == files[k].day
    {
      FromFile(s, x);
    }
  }

  lemma FromFile(s: State, x: Item)
    requires Unstarted(s.files) && Has(SwitchDay(s).files, x)
    ensures exists k :: 0 <= k < |s.files| && x.id == s.files[k].id && x.day == s.files[k].day
  {
    hide SwitchDay;
    if s.files == [] {
      NoFiles(s);
    } else {
      SwitchHas(s, x);
    }
  }
}
