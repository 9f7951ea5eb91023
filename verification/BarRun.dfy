/** Filling and settling the bars of a day, tick by tick. */
module BarRun {
  import opened Options

  const NANO := 1_000_000_000

  /** The start of the accounting day, in seconds after midnight. */
  const INTRA_DAY_BASE_SEC := 64800

  /** What a tick brings; times in nanoseconds. */
  datatype Umd = Umd(exchTime: int, px: real, cumVol: int, cumTurnover: real, openInt: real)

  datatype Bar2 = Bar2(bob: int, eob: int, auction: bool, adjBob: int, adjEob: int, settleSec: int,
                       baseSec: int, preBaseSec: int,
                       open: real, high: real, low: real, close: real, cumVol: int, cumTurnover: real, openInt: real,
                       preClose: real, preCumVol: int, preCumTurnover: real, preOpenInt: real,
                       vol: int, turnover: real, deltaClose: real, deltaOpenInt: real)

  // ---------------------------------------------------------------- times

  /** The division of the source, which rounds towards zero. */
  function TruncDiv(a: int, b: int): int
    requires b > 0
  {
    if a >= 0 then a / b else -((-a) / b)
  }

  function BaseSec(nano: int): int {
    TruncDiv(TruncDiv(nano, NANO) + 8 * 3600 - INTRA_DAY_BASE_SEC, 86400) * 86400 - 8 * 3600 + INTRA_DAY_BASE_SEC
  }

  /** Seconds since the accounting day began. */
  function Interval(nano: int): int {
    TruncDiv(nano, NANO) - BaseSec(nano)
  }

  /** `isInCurBar`: 0 inside, 1 behind, -1 before. */
  function Position(b: Bar2, sec: int): int {
    if b.adjBob <= sec < b.adjEob then 0 else if b.adjEob <= sec then 1 else -1
  }

  predicate Within(b: Bar2, sec: int) { b.bob <= sec < b.eob }

  predicate AtSettle(b: Bar2, sec: int) { b.settleSec != 0 && sec == b.settleSec }

  predicate NeedOpen(b: Bar2, u: Umd) {
    if b.auction then Within(b, Interval(u.exchTime)) else b.open == 0.0
  }

  predicate NeedOhlc(b: Bar2, u: Umd) { Within(b, Interval(u.exchTime)) || AtSettle(b, Interval(u.exchTime)) }

  predicate NeedSettle(b: Bar2, u: Umd) {
    if b.auction then Within(b, Interval(u.exchTime)) else AtSettle(b, Interval(u.exchTime))
  }

  // ---------------------------------------------------------------- one bar

  function UpdateBar(b: Bar2, u: Umd): Bar2 {
    b.(high := if u.px > b.high then u.px else b.high,
       low := if u.px < b.low || b.low == 0.0 then u.px else b.low,
       close := u.px, cumVol := u.cumVol, cumTurnover := u.cumTurnover, openInt := u.openInt,
       baseSec := if b.baseSec == 0 then BaseSec(u.exchTime) else b.baseSec)
  }

  function UpdatePre(b: Bar2, u: Umd): Bar2 {
    b.(preBaseSec := BaseSec(u.exchTime), preClose := u.px, preCumVol := u.cumVol,
       preCumTurnover := u.cumTurnover, preOpenInt := u.openInt)
  }

  /** A bar without a price of its own takes over what came before it; its bounds become times. */
  function Settle(b0: Bar2, u: Umd): Bar2 {
    var b := if b0.open == 0.0
      then b0.(open := b0.preClose, high := b0.preClose, low := b0.preClose, close := b0.preClose,
               cumVol := b0.preCumVol, cumTurnover := b0.preCumTurnover, openInt := b0.preOpenInt,
               baseSec := BaseSec(u.exchTime))
      else b0;
    b.(deltaClose := b.close - b.preClose, vol := b.cumVol - b.preCumVol, turnover := b.cumTurnover - b.preCumTurnover,
       deltaOpenInt := b.openInt - b.preOpenInt,
       bob := (b.bob + b.baseSec) * NANO, eob := (b.eob + b.baseSec) * NANO)
  }

  /** What a tick inside its bar does to it, before it may be settled. */
  function Fill(b: Bar2, u: Umd): Bar2 {
    var b1 := if NeedOpen(b, u) then b.(open := u.px) else b;
    var b2 := if b1.preClose == 0.0 then UpdatePre(b1, u) else b1;
    if NeedOhlc(b2, u) then UpdateBar(b2, u) else b2
  }

  lemma SettleKeeps(b: Bar2, u: Umd)
    ensures Settle(b, u).adjBob == b.adjBob && Settle(b, u).adjEob == b.adjEob
  {
    hide BaseSec;
  }

  lemma PositionKept(a: Bar2, b: Bar2, sec: int)
    requires a.adjBob == b.adjBob && a.adjEob == b.adjEob
    ensures Position(a, sec) == Position(b, sec)
  {}

  // ---------------------------------------------------------------- the maker

  /** `settled` and `returned` record which bars were settled and handed out, in order. */
  datatype State = State(bars: seq<Bar2>, idx: int, rtn: int, last: Option<Umd>, settled: seq<int>, returned: seq<int>)

  predicate InRange(s: State) { -1 <= s.idx <= |s.bars| && -1 <= s.rtn <= s.idx }

  /** The current bar becomes b. */
  function Put(s: State, b: Bar2): State
    requires 0 <= s.idx < |s.bars|
  {
    s.(bars := s.bars[s.idx := b])
  }

  function SettleHere(s: State, u: Umd): State
    requires 0 <= s.idx < |s.bars|
  {
    Put(s, Settle(s.bars[s.idx], u)).(settled := s.settled + [s.idx])
  }

  /** The next bar is the current one, and starts from the tick u. */
  function Move(s: State, u: Option<Umd>): State
    requires 0 <= s.idx < |s.bars|
  {
    var t := s.(idx := s.idx + 1);
    if t.idx < |t.bars| && u.Some? then Put(t, UpdatePre(t.bars[t.idx], u.value)) else t
  }

  /** The bars that lie behind the tick are settled; the last bar is never left this way. */
  function Skip(s: State, u: Umd): (r: State)
    requires 0 <= s.idx < |s.bars|
    ensures s.idx <= r.idx < |r.bars| == |s.bars| && r.rtn == s.rtn && r.last == s.last && r.returned == s.returned
    decreases |s.bars| - s.idx
  {
    if Position(s.bars[s.idx], Interval(u.exchTime)) != 1 then s
    else
      var t := SettleHere(s, u);
      if t.idx < |t.bars| - 1 then Skip(Move(t, t.last), u) else t
  }

  /** What the tick does to the bar it has found. */
  function Look(s: State, u: Umd): State
    requires 0 <= s.idx < |s.bars|
  {
    var b := s.bars[s.idx];
    var pos := Position(b, Interval(u.exchTime));
    if pos == 0 then
      var t := Put(s, Fill(b, u));
      if NeedSettle(t.bars[t.idx], u) then Move(SettleHere(t, u), Some(u)) else t
    else if pos == -1 then Put(s, UpdatePre(b, u))
    else s
  }

  /** `OnTick`, for a tick of the maker's instrument. */
  function OnTick(s0: State, u: Umd): State
    requires InRange(s0)
  {
    var s := if s0.idx == -1 then s0.(idx := 0) else s0;
    if s.idx >= |s.bars| then s else Look(Skip(s, u), u).(last := Some(u))
  }

  /** Whether the tick's price and volume are recorded in a bar. */
  predicate Recorded(s0: State, u: Umd)
    requires InRange(s0)
  {
    var s := if s0.idx == -1 then s0.(idx := 0) else s0;
    s.idx < |s.bars| &&
    var t := Skip(s, u);
    Position(t.bars[t.idx], Interval(u.exchTime)) == 0 && NeedOhlc(t.bars[t.idx], u)
  }

  /** `GetBar`: the bar passed last, if it has a price and was not handed out before. */
  function GetBar(s: State): State
    requires InRange(s)
  {
    if s.rtn < s.idx && s.idx >= 1 && s.bars[s.idx - 1].open != 0.0 then
      s.(rtn := s.idx, returned := s.returned + [s.idx - 1])
    else s.(rtn := s.idx)
  }

  const NO_TICK := Umd(0, 0.0, 0, 0.0, 0.0)

  function SettleRest(s: State): State
    requires 0 <= s.idx <= |s.bars|
    decreases |s.bars| - s.idx
  {
    if s.idx == |s.bars| then s
    else
      var t := SettleHere(s, if s.last.Some? then s.last.value else NO_TICK);
      SettleRest(t.(idx := t.idx + 1))
  }

  /** `OnFinish`. */
  function OnFinish(s: State): State
    requires InRange(s)
  {
    SettleRest(if s.idx == -1 then s.(idx := 0) else s)
  }

  datatype Event = Tick(u: Umd) | Get | Finish

  function Step(s: State, e: Event): State
    requires InRange(s)
  {
    match e
    case Tick(u) => OnTick(s, u)
    case Get => GetBar(s)
    case Finish => OnFinish(s)
  }

  // ---------------------------------------------------------------- in order, once, and for good

  /** The first n indices. */
  function Upto(n: nat): (r: seq<int>)
    ensures |r| == n && forall i | 0 <= i < n :: r[i] == i
  {
    seq(n, i => i)
  }

  /** The bars passed were settled in order, once each; only the last bar may be settled again. */
  predicate SettledOk(s: State) {
    var n := if s.idx <= 0 then 0 else s.idx;
    && |s.settled| >= n && s.settled[..n] == Upto(n)
    && (forall i | n <= i < |s.settled| :: s.settled[i] == |s.bars| - 1)
    && (|s.settled| > n ==> n >= |s.bars| - 1)
  }

  /** Bars are handed out in order, each once, and only when they were passed. */
  predicate ReturnedOk(s: State) {
    && (forall i, j | 0 <= i < j < |s.returned| :: s.returned[i] < s.returned[j])
    && (forall i | 0 <= i < |s.returned| :: 0 <= s.returned[i] < s.rtn && s.returned[i] < |s.bars|)
  }

  predicate Ok(s: State) { InRange(s) && SettledOk(s) && ReturnedOk(s) }

  /** From s on: bars passed do not change, and neither does what was handed out. */
  predicate Frozen(s: State, t: State) {
    && |t.bars| == |s.bars| && s.idx <= t.idx && s.rtn <= t.rtn && s.returned <= t.returned
    && (forall i | |s.returned| <= i < |t.returned| :: t.returned[i] >= s.rtn)
    && forall i | 0 <= i < s.idx && i < |s.bars| :: t.bars[i] == s.bars[i]
  }

  lemma SettledMore(s: State, t: State)
    requires SettledOk(s) && 0 <= s.idx < |s.bars| == |t.bars| && t.settled == s.settled + [s.idx]
    requires (t.idx == s.idx && s.idx == |s.bars| - 1) || t.idx == s.idx + 1
    ensures SettledOk(t)
  {
    var n := s.idx;
    if t.idx == n + 1 {
      if |s.settled| > n {
        assert s.settled[n] == n;
      }
      assert t.settled[..n + 1] == Upto(n + 1) by {
        forall i | 0 <= i < n ensures t.settled[i] == i {
          assert s.settled[..n][i] == Upto(n)[i];
        }
      }
    } else {
      assert t.settled[..n] == s.settled[..n];
    }
  }

  lemma {:induction false} SkipOk(s: State, u: Umd)
    requires SettledOk(s) && 0 <= s.idx < |s.bars|
    ensures SettledOk(Skip(s, u)) && Frozen(s, Skip(s, u))
    decreases |s.bars| - s.idx
  {
    hide Settle, UpdatePre, SettledOk;
    if Position(s.bars[s.idx], Interval(u.exchTime)) == 1 {
      var t := SettleHere(s, u);
      if t.idx < |t.bars| - 1 {
        var m := Move(t, t.last);
        SettledMore(s, m);
        SkipOk(m, u);
      } else {
        SettledMore(s, t);
      }
    }
  }

  lemma LookOk(s: State, u: Umd)
    requires SettledOk(s) && 0 <= s.idx < |s.bars|
    ensures SettledOk(Look(s, u)) && Frozen(s, Look(s, u)) && Look(s, u).idx <= |s.bars|
    ensures Look(s, u).rtn == s.rtn && Look(s, u).returned == s.returned
  {
    hide Settle, UpdatePre, Fill, SettledOk, NeedSettle, Position, Interval;
    var b := s.bars[s.idx];
    if Position(b, Interval(u.exchTime)) == 0 {
      var t := Put(s, Fill(b, u));
      if NeedSettle(t.bars[t.idx], u) {
        SettledMore(s, Move(SettleHere(t, u), Some(u)));
      } else {
        SameSettled(s, t);
      }
    } else if Position(b, Interval(u.exchTime)) == -1 {
      SameSettled(s, Put(s, UpdatePre(b, u)));
    }
  }

  lemma SameSettled(s: State, t: State)
    requires SettledOk(s) && t.settled == s.settled && |t.bars| == |s.bars|
    requires t.idx == s.idx || (t.idx <= 0 && s.idx <= 0)
    ensures SettledOk(t)
  {}

  lemma TickOk(s0: State, u: Umd)
    requires Ok(s0)
    ensures Ok(OnTick(s0, u)) && Frozen(s0, OnTick(s0, u))
  {
    hide Skip, Look, SettledOk;
    var s := if s0.idx == -1 then s0.(idx := 0) else s0;
    SameSettled(s0, s);
    if s.idx < |s.bars| {
      SkipOk(s, u);
      LookOk(Skip(s, u), u);
      SameSettled(Look(Skip(s, u), u), OnTick(s0, u));
    }
  }

  lemma {:induction false} RestOk(s: State)
    requires SettledOk(s) && 0 <= s.idx <= |s.bars|
    ensures SettledOk(SettleRest(s)) && Frozen(s, SettleRest(s)) && SettleRest(s).idx == |s.bars|
    ensures SettleRest(s).rtn == s.rtn && SettleRest(s).returned == s.returned && SettleRest(s).last == s.last
    decreases |s.bars| - s.idx
  {
    hide Settle, SettledOk;
    if s.idx < |s.bars| {
      var t := SettleHere(s, if s.last.Some? then s.last.value else NO_TICK);
      var m := t.(idx := t.idx + 1);
      SettledMore(s, m);
      RestOk(m);
    }
  }

  /** Every step keeps the order of settling and handing out, and leaves bars that were passed alone. */
  lemma StepOk(s: State, e: Event)
    requires Ok(s)
    ensures Ok(Step(s, e)) && Frozen(s, Step(s, e))
  {
    hide OnTick, SettleRest, SettledOk;
    match e
    case Tick(u) => TickOk(s, u);
    case Get => SameSettled(s, GetBar(s));
    case Finish =>
      var s1 := if s.idx == -1 then s.(idx := 0) else s;
      SameSettled(s, s1);
      RestOk(s1);
  }

  function Run(s: State, es: seq<Event>): State
    requires Ok(s)
    decreases |es|
  {
    if es == [] then s
    else
      StepOk(s, es[0]);
      Run(Step(s, es[0]), es[1..])
  }

  /**
   * Over any run: the bars before the last are settled exactly once, in order, when they are passed, and never change
   * again; bars are handed out at most once, in order, and only after they were passed.
   */
  lemma {:induction false} SettledOnce(s: State, es: seq<Event>)
    requires Ok(s)
    ensures Ok(Run(s, es)) && Frozen(s, Run(s, es))
    decreases |es|
  {
    hide SettledOk, ReturnedOk, Step;
    if es != [] {
      StepOk(s, es[0]);
      SettledOnce(Step(s, es[0]), es[1..]);
    }
  }

  /** A bar that GetBar has gone past without handing it out is never handed out. */
  lemma LostForGood(s: State, es: seq<Event>, j: int)
    requires Ok(s) && 0 <= j < s.rtn && j !in s.returned
    ensures j !in Run(s, es).returned
  {
    hide Run, Ok;
    SettledOnce(s, es);
  }

  /** Of all the bars passed since the last call, GetBar can hand out the last one; the others never come out. */
  lemma OnlyTheLast(s: State, es: seq<Event>, j: int)
    requires Ok(s) && s.rtn <= j < s.idx - 1 && j >= 0
    ensures Ok(GetBar(s)) && j !in Run(GetBar(s), es).returned
  {
    StepOk(s, Get);
    LostForGood(GetBar(s), es, j);
  }

  /** `GetBar` is called while bar j, which has a price, is the last one passed. */
  predicate Offered(s: State, e: Event, j: nat) {
    e.Get? && s.idx == j + 1 && j < |s.bars| && s.bars[j].open != 0.0
  }

  predicate OfferedIn(s: State, es: seq<Event>, j: nat)
    requires Ok(s)
    decreases |es|
  {
    es != [] && (Offered(s, es[0], j) || (StepOk(s, es[0]); OfferedIn(Step(s, es[0]), es[1..], j)))
  }

  /** Once `GetBar` has been called for the bar passed last, that bar is out, unless it has no price. */
  predicate Shown(s: State)
    requires Ok(s)
  {
    s.rtn == s.idx && s.idx >= 1 && s.bars[s.idx - 1].open != 0.0 ==> s.idx - 1 in s.returned
  }

  lemma KeepsReturned(s: State, e: Event)
    requires Ok(s) && !e.Get?
    ensures Step(s, e).returned == s.returned && Step(s, e).rtn == s.rtn
  {
    hide Skip, Interval, Position, NeedSettle, Fill, Settle, UpdatePre, SettledOk, ReturnedOk;
    match e
    case Tick(u) =>
    case Finish =>
      var s1 := if s.idx == -1 then s.(idx := 0) else s;
      SameSettled(s, s1) by { SettledOf(s); }
      RestOk(s1) by { SettledOf(s); SameSettled(s, s1); }
  }

  lemma SettledOf(s: State)
    requires Ok(s)
    ensures SettledOk(s)
  {}

  lemma StepShown(s: State, e: Event, j: nat)
    requires Ok(s) && Shown(s)
    ensures Ok(Step(s, e)) && Shown(Step(s, e))
    ensures j in Step(s, e).returned <==> j in s.returned || Offered(s, e, j)
  {
    hide OnTick, OnFinish, SettledOk, ReturnedOk;
    StepOk(s, e);
    if !e.Get? { KeepsReturned(s, e); }
  }

  lemma {:induction false} RunShown(s: State, es: seq<Event>, j: nat)
    requires Ok(s) && Shown(s)
    ensures j in Run(s, es).returned <==> j in s.returned || OfferedIn(s, es, j)
    decreases |es|
  {
    hide SettledOk, ReturnedOk, Shown, Step, Offered;
    if es != [] {
      StepShown(s, es[0], j);
      RunShown(Step(s, es[0]), es[1..], j);
    }
  }

  /**
   * From the beginning on, whatever happens, a bar is handed out if and only if `GetBar` is called while it is the last one
   * passed, and it has a price.
   */
  lemma HandedOutExactly(s: State, es: seq<Event>, j: nat)
    requires Initial(s)
    ensures Ok(s) && (j in Run(s, es).returned <==> OfferedIn(s, es, j))
  {
    RunShown(s, es, j);
  }

  /** How often a bar was settled. */
  function Times(settled: seq<int>, i: int): nat {
    if settled == [] then 0
    else Times(settled[..|settled| - 1], i) + if settled[|settled| - 1] == i then 1 else 0
  }

  lemma {:induction false} TimesInOrder(settled: seq<int>, n: nat, m: int, i: nat)
    requires i != m && forall k | 0 <= k < |settled| :: settled[k] == if k < n then k else m
    ensures Times(settled, i) == if i < n && i < |settled| then 1 else 0
  {
    if settled != [] {
      TimesInOrder(settled[..|settled| - 1], n, m, i);
    }
  }

  /** Every bar before the last was settled once if it was passed, and not at all otherwise. */
  lemma OnceEach(s: State, i: nat)
    requires SettledOk(s) && i < |s.bars| - 1
    ensures Times(s.settled, i) == if i < s.idx then 1 else 0
  {
    var n := if s.idx <= 0 then 0 else s.idx;
    forall k | 0 <= k < |s.settled| ensures s.settled[k] == if k < n then k else |s.bars| - 1 {
      if k < n {
        assert s.settled[..n][k] == Upto(n)[k];
      }
    }
    TimesInOrder(s.settled, n, |s.bars| - 1, i);
  }

  // ---------------------------------------------------------------- volumes add up

  /** A bar as the cutting leaves it: nothing recorded, and its bounds as the adjustment sets them. */
  predicate Fresh(b: Bar2) {
    && b.open == 0.0 && b.preClose == 0.0 && b.cumVol == 0 && b.preCumVol == 0 && b.vol == 0 && Bounds(b)
  }

  /** A trading bar's ticks are those up to its end, which belongs to it when a session ends there. */
  predicate Bounds(b: Bar2) {
    if b.auction then b.adjEob == b.eob == b.settleSec
    else b.adjBob == b.bob && b.eob > 0 && if b.settleSec == 0 then b.adjEob == b.eob else b.adjEob == b.eob + 1 && b.settleSec == b.eob
  }

  /** The volume of the first n bars. */
  function Volume(bars: seq<Bar2>, n: nat): int
    requires n <= |bars|
  {
    if n == 0 then 0 else Volume(bars, n - 1) + bars[n - 1].vol
  }

  lemma {:induction false} VolumeSame(a: seq<Bar2>, b: seq<Bar2>, n: nat)
    requires n <= |a| && n <= |b| && forall i | 0 <= i < n :: a[i].vol == b[i].vol
    ensures Volume(a, n) == Volume(b, n)
  {
    if n > 0 { VolumeSame(a, b, n - 1); }
  }

  /** The bar has started from a tick, with the cumulative volume cum at hand. */
  predicate Open(b: Bar2, cum: int, sec: int) {
    && b.preClose > 0.0 && b.open >= 0.0 && Bounds(b)
    && (if b.open == 0.0 then b.preCumVol == cum else b.cumVol == cum && sec >= b.adjBob)
  }

  predicate FreshFrom(bars: seq<Bar2>, n: nat) {
    forall i | n <= i < |bars| :: Fresh(bars[i])
  }

  /** A settled bar that keeps its volume when it is settled again. */
  predicate Rested(b: Bar2) {
    b.vol == b.cumVol - b.preCumVol && (b.open == 0.0 ==> b.cumVol == b.preCumVol)
  }

  /** The books of volume, once a first tick with cumulative volume first has been seen. */
  predicate Balanced(s: State, first: int) {
    && 0 <= s.idx <= |s.bars| && s.last.Some? && s.last.value.px > 0.0
    && var cum, sec := s.last.value.cumVol, Interval(s.last.value.exchTime);
       if s.idx == |s.bars| then Volume(s.bars, s.idx) == cum - first
       else if |s.settled| > s.idx then
         s.idx == |s.bars| - 1 && sec >= s.bars[s.idx].adjEob && Volume(s.bars, |s.bars|) == cum - first && Rested(s.bars[s.idx])
       else
         |s.settled| == s.idx && Open(s.bars[s.idx], cum, sec) && FreshFrom(s.bars, s.idx + 1) &&
         Volume(s.bars, s.idx) == s.bars[s.idx].preCumVol - first
  }

  /** What settling adds: everything since the bar started. */
  lemma SettleOpen(b: Bar2, cum: int, sec: int, u: Umd)
    requires Open(b, cum, sec)
    ensures var t := Settle(b, u);
      t.vol == cum - b.preCumVol && t.open > 0.0 && t.vol == t.cumVol - t.preCumVol && t.adjEob == b.adjEob && t.adjBob == b.adjBob
  {
    hide BaseSec;
  }

  lemma SettleAgain(b: Bar2, u: Umd)
    requires Rested(b)
    ensures var t := Settle(b, u); t.vol == b.vol && Rested(t) && t.adjEob == b.adjEob
  {
    hide BaseSec;
  }

  lemma StartOpen(b: Bar2, u: Umd, sec: int)
    requires Fresh(b) && u.px > 0.0
    ensures Open(UpdatePre(b, u), u.cumVol, sec) && UpdatePre(b, u).preCumVol == u.cumVol
    ensures UpdatePre(b, u).adjBob == b.adjBob && UpdatePre(b, u).adjEob == b.adjEob
  {
    hide BaseSec;
  }

  /** Passing a bar hands its volume over to the next one. */
  lemma PassBalanced(s: State, first: int, u: Umd)
    requires 0 <= s.idx < |s.bars| - 1 && s.last.Some? && s.last.value.px > 0.0 && FreshFrom(s.bars, s.idx + 1)
    requires Open(s.bars[s.idx], s.last.value.cumVol, Interval(s.last.value.exchTime))
    requires Volume(s.bars, s.idx) == s.bars[s.idx].preCumVol - first
    ensures var t := Move(SettleHere(s, u), s.last);
      t.idx == s.idx + 1 && |t.settled| == |s.settled| + 1 && t.last == s.last && |t.bars| == |s.bars| && FreshFrom(t.bars, t.idx + 1) &&
      Open(t.bars[t.idx], s.last.value.cumVol, Interval(s.last.value.exchTime)) &&
      Volume(t.bars, t.idx) == t.bars[t.idx].preCumVol - first
  {
    hide Settle, UpdatePre, Interval, Fresh, Open;
    var l := s.last.value;
    var t := Move(SettleHere(s, u), s.last);
    SettleOpen(s.bars[s.idx], l.cumVol, Interval(l.exchTime), u);
    assert Fresh(s.bars[s.idx + 1]);
    StartOpen(s.bars[s.idx + 1], l, Interval(l.exchTime));
    VolumeSame(s.bars, t.bars, s.idx);
  }

  /** Behind the bars passed: at a bar that the tick does not lie behind, or at the end of the last. */
  lemma {:induction false} SkipBalanced(s: State, first: int, u: Umd)
    requires |s.settled| == s.idx
    requires 0 <= s.idx < |s.bars| && s.last.Some? && s.last.value.px > 0.0 && FreshFrom(s.bars, s.idx + 1)
    requires Open(s.bars[s.idx], s.last.value.cumVol, Interval(s.last.value.exchTime))
    requires Volume(s.bars, s.idx) == s.bars[s.idx].preCumVol - first
    ensures var t := Skip(s, u);
      if Position(t.bars[t.idx], Interval(u.exchTime)) == 1 then
        t.idx == |t.bars| - 1 && |t.settled| > t.idx &&
        Volume(t.bars, |t.bars|) == s.last.value.cumVol - first && Rested(t.bars[t.idx])
      else
        |t.settled| == t.idx && FreshFrom(t.bars, t.idx + 1) &&
        Volume(t.bars, t.idx) == t.bars[t.idx].preCumVol - first &&
        Open(t.bars[t.idx], s.last.value.cumVol, Interval(s.last.value.exchTime))
    decreases |s.bars| - s.idx
  {
    hide Settle, UpdatePre, Interval, Fresh, Open, FreshFrom;
    if Position(s.bars[s.idx], Interval(u.exchTime)) == 1 {
      var t := SettleHere(s, u);
      if t.idx < |t.bars| - 1 {
        PassBalanced(s, first, u);
        SkipBalanced(Move(t, t.last), first, u);
      } else {
        SettleOpen(s.bars[s.idx], s.last.value.cumVol, Interval(s.last.value.exchTime), u);
        VolumeSame(s.bars, t.bars, s.idx);
      }
    }
  }

  /** A tick inside its bar, which is not the bar's first price unless it is recorded. */
  lemma FillOpen(b: Bar2, u: Umd, cum: int, sec: int)
    requires u.px > 0.0 && Bounds(b) && Position(b, Interval(u.exchTime)) == 0
    requires Open(b, cum, sec) || (b.preClose == 0.0 && b.open == 0.0)
    requires !NeedOhlc(b, u) && b.preClose > 0.0 ==> u.cumVol == cum
    requires b.preClose > 0.0 ==> sec <= Interval(u.exchTime)
    ensures var t := Fill(b, u);
      Open(t, u.cumVol, Interval(u.exchTime)) &&
      t.preCumVol == (if b.preClose == 0.0 then u.cumVol else b.preCumVol) &&
      (NeedSettle(t, u) <==> NeedSettle(b, u))
  {
    hide Interval, BaseSec;
  }

  lemma LookBalanced(s: State, first: int, u: Umd, cum: int, sec: int)
    requires 0 <= s.idx < |s.bars| && |s.settled| == s.idx && u.px > 0.0 && FreshFrom(s.bars, s.idx + 1)
    requires Bounds(s.bars[s.idx]) && Position(s.bars[s.idx], Interval(u.exchTime)) != 1
    requires
      if s.bars[s.idx].preClose == 0.0 then
        s.bars[s.idx].open == 0.0 && first == u.cumVol && Volume(s.bars, s.idx) == 0
      else
        Open(s.bars[s.idx], cum, sec) && sec <= Interval(u.exchTime) && Volume(s.bars, s.idx) == s.bars[s.idx].preCumVol - first
    requires s.bars[s.idx].preClose > 0.0 && !(Position(s.bars[s.idx], Interval(u.exchTime)) == 0 && NeedOhlc(s.bars[s.idx], u))
             ==> u.cumVol == cum
    ensures Balanced(Look(s, u).(last := Some(u)), first)
  {
    hide Settle, UpdatePre, Interval, Fresh, NeedOhlc, NeedSettle, Fill, BaseSec;
    var b := s.bars[s.idx];
    var r := Look(s, u);
    if Position(b, Interval(u.exchTime)) == 0 {
      FillOpen(b, u, cum, sec);
      var t := Put(s, Fill(b, u));
      VolumeSame(s.bars, t.bars, s.idx);
      FillBounds(b, u);
      if NeedSettle(t.bars[t.idx], u) {
        AfterSettle(t, first, u);
      } else {
        assert r == t;
      }
    } else {
      WaitBalanced(s, first, u, cum, sec);
    }
  }

  lemma FillBounds(b: Bar2, u: Umd)
    ensures Fill(b, u).adjBob == b.adjBob && Fill(b, u).adjEob == b.adjEob
  {
    hide Interval, BaseSec;
  }

  lemma AfterSettle(t: State, first: int, u: Umd)
    requires 0 <= t.idx < |t.bars| && |t.settled| == t.idx && u.px > 0.0 && FreshFrom(t.bars, t.idx + 1)
    requires Open(t.bars[t.idx], u.cumVol, Interval(u.exchTime))
    requires Volume(t.bars, t.idx) == t.bars[t.idx].preCumVol - first
    ensures Balanced(Move(SettleHere(t, u), Some(u)).(last := Some(u)), first)
  {
    hide Settle, UpdatePre, Interval, Open, Bounds;
    var m := Move(SettleHere(t, u), Some(u));
    SettleOpen(t.bars[t.idx], u.cumVol, Interval(u.exchTime), u);
    VolumeSame(t.bars, m.bars, t.idx);
    if t.idx + 1 < |t.bars| {
      assert Fresh(t.bars[t.idx + 1]);
      StartOpen(t.bars[t.idx + 1], u, Interval(u.exchTime));
    }
  }

  lemma WaitBalanced(s: State, first: int, u: Umd, cum: int, sec: int)
    requires 0 <= s.idx < |s.bars| && |s.settled| == s.idx && u.px > 0.0 && FreshFrom(s.bars, s.idx + 1)
    requires Bounds(s.bars[s.idx]) && Interval(u.exchTime) < s.bars[s.idx].adjBob
    requires Position(s.bars[s.idx], Interval(u.exchTime)) == -1
    requires
      if s.bars[s.idx].preClose == 0.0 then
        s.bars[s.idx].open == 0.0 && first == u.cumVol && Volume(s.bars, s.idx) == 0
      else
        Open(s.bars[s.idx], cum, sec) && sec <= Interval(u.exchTime) && u.cumVol == cum &&
        Volume(s.bars, s.idx) == s.bars[s.idx].preCumVol - first
    ensures Balanced(Put(s, UpdatePre(s.bars[s.idx], u)).(last := Some(u)), first)
  {
    hide Interval, BaseSec, Fresh;
    var t := Put(s, UpdatePre(s.bars[s.idx], u));
    VolumeSame(s.bars, t.bars, s.idx);
  }

  // ---------------------------------------------------------------- a day of ticks

  function Ticks(s: State, us: seq<Umd>): (r: State)
    requires InRange(s)
    ensures InRange(r)
  {
    if us == [] then s
    else
      var t := Ticks(s, us[..|us| - 1]);
      TickRange(t, us[|us| - 1]);
      OnTick(t, us[|us| - 1])
  }

  lemma TickRange(s: State, u: Umd)
    requires InRange(s)
    ensures InRange(OnTick(s, u))
  {
    hide Fill, UpdatePre, Settle, NeedSettle, Position, Interval;
  }

  /** Positive prices, times in order, and a cumulative volume that only changes on ticks that are recorded. */
  predicate Feed(s: State, us: seq<Umd>)
    requires InRange(s)
  {
    && (forall i | 0 <= i < |us| :: us[i].px > 0.0)
    && (forall i | 0 < i < |us| :: Interval(us[i - 1].exchTime) <= Interval(us[i].exchTime))
    && (forall i | 0 < i < |us| :: Recorded(Ticks(s, us[..i]), us[i]) || us[i].cumVol == us[i - 1].cumVol)
  }

  /** A maker before its first tick. */
  predicate Initial(s: State) {
    s.idx == -1 && s.rtn == -1 && s.last == None && s.settled == [] && s.returned == [] && FreshFrom(s.bars, 0)
  }

  /** Bars that end before the first tick are settled empty, and so is the last bar. */
  lemma {:induction false} FirstSkip(s: State, u: Umd)
    requires 0 <= s.idx < |s.bars| && s.last == None && FreshFrom(s.bars, s.idx) && |s.settled| == s.idx
    requires Volume(s.bars, s.idx) == 0
    ensures var t := Skip(s, u);
      Volume(t.bars, t.idx) == 0 &&
      if Position(t.bars[t.idx], Interval(u.exchTime)) != 1 then |t.settled| == t.idx && FreshFrom(t.bars, t.idx)
      else |t.settled| > t.idx == |t.bars| - 1 && t.bars[t.idx].vol == 0 && Rested(t.bars[t.idx])
    decreases |s.bars| - s.idx
  {
    hide Settle, Interval, Fresh;
    assert Fresh(s.bars[s.idx]);
    if Position(s.bars[s.idx], Interval(u.exchTime)) == 1 {
      var t := SettleHere(s, u);
      SettleEmpty(s.bars[s.idx], u);
      SettleKeeps(s.bars[s.idx], u);
      VolumeSame(s.bars, t.bars, s.idx);
      if t.idx < |t.bars| - 1 { FirstSkip(Move(t, t.last), u); }
    }
  }

  lemma SettleEmpty(b: Bar2, u: Umd)
    requires Fresh(b)
    ensures Settle(b, u).vol == 0 && Rested(Settle(b, u))
  {
    hide BaseSec;
  }

  lemma FirstTick(s: State, u: Umd)
    requires Initial(s) && |s.bars| > 0 && u.px > 0.0
    ensures InRange(s) && Balanced(OnTick(s, u), u.cumVol)
  {
    hide Skip, Look, Interval, Bounds, NeedOhlc, Volume, Open;
    var s1 := s.(idx := 0);
    assert Volume(s1.bars, 0) == 0 by { NoVolume(s1.bars); }
    FirstSkip(s1, u);
    var t := Skip(s1, u);
    if Position(t.bars[t.idx], Interval(u.exchTime)) == 1 {
      LookPassed(t, u);
      AddLast(t.bars);
    } else {
      assert Fresh(t.bars[t.idx]);
      LookBalanced(t, u.cumVol, u, 0, 0);
    }
    LookLast(t, u);
  }

  lemma NoVolume(bars: seq<Bar2>)
    ensures Volume(bars, 0) == 0
  {}

  lemma AddLast(bars: seq<Bar2>)
    requires bars != []
    ensures Volume(bars, |bars|) == Volume(bars, |bars| - 1) + bars[|bars| - 1].vol
  {}

  lemma LookPassed(s: State, u: Umd)
    requires 0 <= s.idx < |s.bars| && Position(s.bars[s.idx], Interval(u.exchTime)) == 1
    ensures Look(s, u) == s && s.bars[s.idx].adjEob <= Interval(u.exchTime)
  {}

  /** The last tick is not read while the bar found is looked at. */
  lemma LookLast(s: State, u: Umd)
    requires 0 <= s.idx < |s.bars|
    ensures Look(s, u).last == s.last
  {
    hide Fill, Settle, UpdatePre, NeedSettle, Position, Interval;
  }

  lemma NextTick(s: State, first: int, u: Umd)
    requires Balanced(s, first) && InRange(s) && u.px > 0.0
    requires s.idx < |s.bars| ==> Interval(s.last.value.exchTime) <= Interval(u.exchTime)
    requires Recorded(s, u) || u.cumVol == s.last.value.cumVol
    ensures Balanced(OnTick(s, u), first) && (s.idx < |s.bars| ==> OnTick(s, u).last == Some(u))
    ensures s.idx == |s.bars| ==> OnTick(s, u) == s
  {
    hide Interval, NeedOhlc, Volume, Fresh, FreshFrom, Settle, UpdatePre, Fill, NeedSettle;
    if s.idx < |s.bars| {
      var l := s.last.value;
      if |s.settled| > s.idx {
        AgainBalanced(s, first, u);
      } else {
        SkipBalanced(s, first, u);
        var t := Skip(s, u);
        if Position(t.bars[t.idx], Interval(u.exchTime)) == 1 {
          assert Look(t, u) == t;
        } else {
          LookBalanced(t, first, u, l.cumVol, Interval(l.exchTime));
        }
      }
    }
  }

  lemma AgainBalanced(s: State, first: int, u: Umd)
    requires Balanced(s, first) && InRange(s) && u.px > 0.0 && s.idx < |s.bars| && |s.settled| > s.idx
    requires Interval(s.last.value.exchTime) <= Interval(u.exchTime)
    requires Recorded(s, u) || u.cumVol == s.last.value.cumVol
    ensures Balanced(OnTick(s, u), first)
  {
    hide Interval, NeedOhlc, Fresh, FreshFrom, Settle;
    SettleAgain(s.bars[s.idx], u);
    var t := SettleHere(s, u);
    VolumeSame(s.bars, t.bars, |s.bars|);
    assert Skip(s, u) == t && Look(t, u) == t;
  }

  lemma {:induction false} DayBalanced(s: State, us: seq<Umd>)
    requires Initial(s) && |s.bars| > 0 && us != [] && Feed(s, us)
    ensures Balanced(Ticks(s, us), us[0].cumVol)
    ensures Ticks(s, us).last.value.cumVol == us[|us| - 1].cumVol
    ensures Ticks(s, us).idx < |s.bars| ==> Ticks(s, us).last == Some(us[|us| - 1])
    ensures |Ticks(s, us).bars| == |s.bars|
  {
    hide Interval, Balanced, OnTick, FreshFrom, Recorded;
    var n := |us| - 1;
    var before, u := us[..n], us[n];
    if n == 0 {
      assert before == [] && Ticks(s, before) == s;
      assert Ticks(s, us) == OnTick(s, u);
      FirstTick(s, u);
      FirstLast(s, u);
    } else {
      assert forall i | 0 <= i < n :: before[i] == us[i] && before[..i] == us[..i];
      DayBalanced(s, before);
      var t := Ticks(s, before);
      assert us[..n] == before;
      LastTick(s, before, us);
      NextTick(t, us[0].cumVol, u);
      TickCount(t, u);
    }
  }

  lemma FirstLast(s: State, u: Umd)
    requires Initial(s) && |s.bars| > 0
    ensures InRange(s) && OnTick(s, u).last == Some(u) && |OnTick(s, u).bars| == |s.bars|
  {
    hide Skip, Interval, Fill, Settle, UpdatePre;
  }

  lemma TickCount(s: State, u: Umd)
    requires InRange(s)
    ensures |OnTick(s, u).bars| == |s.bars| && s.idx <= OnTick(s, u).idx
  {
    hide Interval, Fill, Settle, UpdatePre, NeedSettle, Position;
  }

  /** The last tick kept is the last one that was taken, or of its time and volume. */
  lemma LastTick(s: State, before: seq<Umd>, us: seq<Umd>)
    requires InRange(s) && |us| == |before| + 1 > 1 && before == us[..|before|] && Feed(s, us)
    requires Balanced(Ticks(s, before), us[0].cumVol)
    requires Ticks(s, before).last.value.cumVol == before[|before| - 1].cumVol
    requires Ticks(s, before).idx < |s.bars| ==> Ticks(s, before).last == Some(before[|before| - 1])
    requires |Ticks(s, before).bars| == |s.bars|
    ensures var t := Ticks(s, before); var u := us[|before|];
      u.px > 0.0 && (Recorded(t, u) || u.cumVol == t.last.value.cumVol) &&
      (t.idx < |t.bars| ==> Interval(t.last.value.exchTime) <= Interval(u.exchTime)) &&
      (t.idx == |t.bars| ==> u.cumVol == t.last.value.cumVol)
  {
    hide Interval, Balanced, Ticks;
    var n := |before|;
    assert us[n - 1] == before[n - 1];
    assert Recorded(Ticks(s, us[..n]), us[n]) || us[n].cumVol == us[n - 1].cumVol;
  }

  /** Settling what is left adds the current bar's volume and, for the bars behind it, nothing. */
  lemma {:induction false} RestEmpty(s: State)
    requires 0 <= s.idx <= |s.bars| && FreshFrom(s.bars, s.idx)
    ensures var t := SettleRest(s); |t.bars| == |s.bars| && Volume(t.bars, |t.bars|) == Volume(s.bars, s.idx)
    decreases |s.bars| - s.idx
  {
    hide Settle, Fresh;
    if s.idx < |s.bars| {
      var u := if s.last.Some? then s.last.value else NO_TICK;
      var t := SettleHere(s, u);
      assert Fresh(s.bars[s.idx]);
      SettleEmpty(s.bars[s.idx], u);
      VolumeSame(s.bars, t.bars, s.idx);
      RestEmpty(t.(idx := t.idx + 1));
    }
  }

  /** The bar being settled last holds all that was traded since the bars before it. */
  lemma LastSettled(s: State, first: int)
    requires Balanced(s, first) && s.idx < |s.bars|
    ensures var l := s.last.value; var bars := s.bars[s.idx := Settle(s.bars[s.idx], l)];
      Volume(bars, s.idx + 1) == l.cumVol - first
  {
    hide Settle, Interval, FreshFrom;
    var l := s.last.value;
    var bars := s.bars[s.idx := Settle(s.bars[s.idx], l)];
    VolumeSame(s.bars, bars, s.idx);
    if |s.settled| > s.idx {
      SettleAgain(s.bars[s.idx], l);
    } else {
      SettleOpen(s.bars[s.idx], l.cumVol, Interval(l.exchTime), l);
    }
  }

  lemma FreshBehind(s: State, first: int)
    requires Balanced(s, first) && s.idx < |s.bars|
    ensures FreshFrom(s.bars[s.idx := Settle(s.bars[s.idx], s.last.value)], s.idx + 1)
  {
    hide Settle, Interval, Fresh, Volume;
  }

  lemma FinishBalanced(s: State, first: int)
    requires Balanced(s, first)
    ensures s.last.Some? && |SettleRest(s).bars| == |s.bars|
    ensures Volume(SettleRest(s).bars, |s.bars|) == s.last.value.cumVol - first
  {
    hide Settle, Interval, FreshFrom, Volume, Open;
    if s.idx < |s.bars| {
      var t := SettleHere(s, s.last.value);
      LastSettled(s, first);
      FreshBehind(s, first);
      RestEmpty(t.(idx := t.idx + 1));
    }
  }

  /**
   * Over a whole day the settled volumes add up to what was traded between the first tick and the last, as long as
   * the cumulative volume only changes on ticks that are recorded.
   */
  lemma VolumesAddUp(s: State, us: seq<Umd>)
    requires Initial(s) && us != [] && Feed(s, us)
    ensures var t := OnFinish(Ticks(s, us));
      |t.bars| == |s.bars| && Volume(t.bars, |s.bars|) == us[|us| - 1].cumVol - us[0].cumVol
  {
    hide Interval, FreshFrom, Volume, Ticks, SettleRest, Feed;
    var t := Ticks(s, us);
    if s.bars == [] {
      NoBars(s, us);
      var s1 := if t.idx == -1 then t.(idx := 0) else t;
      RestEmpty(s1);
      NoVolume(s1.bars);
    } else {
      DayBalanced(s, us);
      assert t.idx >= 0 by { BalancedIdx(t, us[0].cumVol); }
      FinishBalanced(t, us[0].cumVol);
    }
  }

  /** Without bars nothing is recorded, so that the feed has no volume either. */
  lemma {:induction false} NoBars(s: State, us: seq<Umd>)
    requires Initial(s) && s.bars == [] && us != [] && Feed(s, us)
    ensures Ticks(s, us).bars == [] && us[|us| - 1].cumVol == us[0].cumVol
  {
    var before := us[..|us| - 1];
    if before != [] {
      FeedBefore(s, us);
      NoBars(s, before);
      assert us[..|us| - 1] == before;
      assert !Recorded(Ticks(s, before), us[|us| - 1]);
    } else {
      assert Ticks(s, []) == s;
    }
  }

  lemma FeedBefore(s: State, us: seq<Umd>)
    requires InRange(s) && us != [] && Feed(s, us)
    ensures Feed(s, us[..|us| - 1])
  {
    hide Interval, Recorded, Ticks;
    var before := us[..|us| - 1];
    forall i | 0 < i < |before| ensures Recorded(Ticks(s, before[..i]), before[i]) || before[i].cumVol == before[i - 1].cumVol {
      assert before[..i] == us[..i];
    }
  }

  lemma BalancedIdx(s: State, first: int)
    requires Balanced(s, first)
    ensures s.idx >= 0 && s.last.Some?
  {}
}
