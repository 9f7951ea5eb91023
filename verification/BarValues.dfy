/** What a settled bar holds besides its prices: what changed since the tick it starts from, and its times. */
module BarValues {
  import opened Options
  import opened BarRun
  import opened BarPrices

  // ---------------------------------------------------------------- the ticks a bar is made of

  /**
   * The ticks that a bar records: those inside a trading bar, where a session ends with the first one of the closing second;
   * of those inside an auction only the first.
   */
  function TicksIn(us: seq<Umd>, b: Bar2): seq<Umd> {
    if us == [] then []
    else
      var before, u := us[..|us| - 1], us[|us| - 1];
      TicksIn(before, b) + if TakenNext(before, b, Interval(u.exchTime)) then [u] else []
  }

  /** A tick at this second, after the ticks before it. */
  predicate TakenNext(before: seq<Umd>, b: Bar2, sec: int)
    decreases |before|, 0
  {
    if b.auction then Within(b, sec) && !InAny(before, b)
    else Taken(b, sec, before == [] || Interval(before[|before| - 1].exchTime) < b.eob)
  }

  /** Some tick lies inside the bar. */
  predicate InAny(us: seq<Umd>, b: Bar2) {
    exists i :: 0 <= i < |us| && Within(b, Interval(us[i].exchTime))
  }

  /** The last tick before this second. */
  function LastBefore(us: seq<Umd>, sec: int): Option<Umd> {
    if us == [] then None
    else if Interval(us[|us| - 1].exchTime) < sec then Some(us[|us| - 1])
    else LastBefore(us[..|us| - 1], sec)
  }

  /** The tick a bar starts from: the last one before its time, or the day's first one if that is not behind it. */
  function Origin(us: seq<Umd>, b: Bar2): Option<Umd> {
    if LastBefore(us, b.adjBob).Some? then LastBefore(us, b.adjBob)
    else if us != [] && Interval(us[0].exchTime) < b.adjEob then Some(us[0]) else None
  }

  predicate StartsFrom(b: Bar2, p: Option<Umd>) {
    match p
    case None => b.preClose == 0.0
    case Some(u) =>
      b.preClose == u.px > 0.0 && b.preCumVol == u.cumVol && b.preCumTurnover == u.cumTurnover && b.preOpenInt == u.openInt &&
      b.preBaseSec == BaseSec(u.exchTime)
  }

  /** A bar that has recorded these ticks: its open price and day are those of the first, all else is that of the last. */
  predicate Holds(b: Bar2, ts: seq<Umd>)
    requires ts != []
  {
    && b.open == ts[0].px > 0.0 && b.baseSec == BaseSec(ts[0].exchTime) && (|ts| == 1 ==> b.high == b.low == b.open)
    && var l := ts[|ts| - 1]; b.close == l.px && b.cumVol == l.cumVol && b.cumTurnover == l.cumTurnover && b.openInt == l.openInt
  }

  /** What changed from the tick it starts from to its last one. */
  predicate Changes(b: Bar2, p: Umd, l: Umd) {
    && b.deltaClose == l.px - p.px && b.vol == l.cumVol - p.cumVol && b.turnover == l.cumTurnover - p.cumTurnover
    && b.deltaOpenInt == l.openInt - p.openInt
  }

  predicate NoChange(b: Bar2) {
    b.deltaClose == 0.0 && b.vol == 0 && b.turnover == 0.0 && b.deltaOpenInt == 0.0
  }

  /** All of a day's ticks lie in the accounting day that begins at this second. */
  predicate SameDay(us: seq<Umd>, base: int) {
    forall i | 0 <= i < |us| :: BaseSec(us[i].exchTime) == base
  }

  /** A second of the day that began at `base` as a time, once and again for every settlement. */
  function Converted(sec: int, base: int, n: nat): int {
    if n == 0 then sec else (Converted(sec, base, n - 1) + base) * NANO
  }

  predicate TimesAre(b: Bar2, c: Bar2, base: int, n: nat) {
    b.bob == Converted(c.bob, base, n) && b.eob == Converted(c.eob, base, n)
  }

  // ---------------------------------------------------------------- one bar

  predicate Empty(b: Bar2) { b.open == b.high == b.low == 0.0 && b.baseSec == 0 }

  /** Bar b, cut as c, before it is settled: started and filled by the ticks us. */
  predicate Current(b: Bar2, us: seq<Umd>, c: Bar2) {
    && SameCut(b, c) && StartsFrom(b, Origin(us, c))
    && if TicksIn(us, c) == [] then Empty(b) else Holds(b, TicksIn(us, c))
  }

  /** Bar b, cut as c, settled n times. */
  ghost predicate Final(b: Bar2, us: seq<Umd>, c: Bar2, n: nat) {
    && n >= 1
    && if TicksIn(us, c) == [] then
         NoChange(b) && b.close == b.preClose && b.cumVol == b.preCumVol && b.cumTurnover == b.preCumTurnover &&
         b.openInt == b.preOpenInt && b.open == b.preClose &&
         forall base | SameDay(us, base) :: TimesAre(b, c, base, n) && b.baseSec == base
       else
         Origin(us, c).Some? && Holds(b, TicksIn(us, c)) &&
         Changes(b, Origin(us, c).value, TicksIn(us, c)[|TicksIn(us, c)| - 1]) &&
         StartsFrom(b, Origin(us, c)) && TimesAre(b, c, BaseSec(TicksIn(us, c)[0].exchTime), n)
  }

  /** No day begins at second 0 of the epoch. */
  lemma BaseNotZero(nano: int)
    ensures BaseSec(nano) != 0
  {
    var n := TruncDiv(TruncDiv(nano, NANO) + 8 * 3600 - INTRA_DAY_BASE_SEC, 86400);
    assert BaseSec(nano) == n * 86400 + 36000;
  }

  lemma OnceConverted(c: Bar2, base: int)
    ensures Converted(c.bob, base, 1) == (c.bob + base) * NANO && Converted(c.eob, base, 1) == (c.eob + base) * NANO
  {
    assert Converted(c.bob, base, 0) == c.bob && Converted(c.eob, base, 0) == c.eob;
  }

  lemma SettleFinal(b: Bar2, us: seq<Umd>, c: Bar2, u: Umd)
    requires Current(b, us, c) && u in us && Origin(us, c).Some?
    ensures Final(Settle(b, u), us, c, 1)
    ensures TicksIn(us, c) == [] ==> StartsFrom(Settle(b, u), Origin(us, c))
  {
    hide TicksIn, BaseSec, Origin, Converted;
    BaseNotZero(u.exchTime);
    OnceConverted(c, b.baseSec);
    OnceConverted(c, BaseSec(u.exchTime));
  }

  /** A bar no tick has come to. */
  predicate Untouched(b: Bar2) {
    Blank(b) && b.baseSec == 0
  }

  lemma SettleUntouched(us: seq<Umd>, c: Bar2, u: Umd)
    requires Untouched(c) && u in us && TicksIn(us, c) == []
    ensures Final(Settle(c, u), us, c, 1) && Settle(c, u).preClose == 0.0
  {
    hide TicksIn, BaseSec, Origin, Converted;
    OnceConverted(c, BaseSec(u.exchTime));
  }

  lemma SettleOnceMore(b: Bar2, us: seq<Umd>, c: Bar2, n: nat, u: Umd)
    requires Final(b, us, c, n) && u in us
    ensures Final(Settle(b, u), us, c, n + 1) && Settle(b, u).preClose == b.preClose
    ensures StartsFrom(b, Origin(us, c)) ==> StartsFrom(Settle(b, u), Origin(us, c))
  {
    hide TicksIn, BaseSec, Origin;
  }

  // ---------------------------------------------------------------- one more tick

  lemma TicksInMore(us: seq<Umd>, u: Umd, c: Bar2)
    ensures TicksIn(us + [u], c) == TicksIn(us, c) + if TakenNext(us, c, Interval(u.exchTime)) then [u] else []
    ensures LastBefore(us + [u], c.adjBob) == if Interval(u.exchTime) < c.adjBob then Some(u) else LastBefore(us, c.adjBob)
    ensures us != [] ==> (us + [u])[0] == us[0]
  {
    hide Interval, TakenNext;
    assert (us + [u])[..|us|] == us;
  }

  lemma {:induction false} AnyTaken(us: seq<Umd>, c: Bar2)
    requires c.auction
    ensures TicksIn(us, c) != [] <==> InAny(us, c)
    ensures |TicksIn(us, c)| <= 1
  {
    hide Interval, Within;
    if us != [] {
      var before, u := us[..|us| - 1], us[|us| - 1];
      AnyTaken(before, c);
      if InAny(before, c) {
        var i :| 0 <= i < |before| && Within(c, Interval(before[i].exchTime));
        assert us[i] == before[i];
      }
      if InAny(us, c) {
        var i :| 0 <= i < |us| && Within(c, Interval(us[i].exchTime));
        assert i < |before| ==> before[i] == us[i];
      }
      if Within(c, Interval(u.exchTime)) { assert us[|us| - 1] == u; }
    }
  }

  /** Those of a trading bar have the prices that it records. */
  lemma {:induction false} TicksInPrices(us: seq<Umd>, c: Bar2)
    requires !c.auction
    ensures InBar(us, c) == seq(|TicksIn(us, c)|, i requires 0 <= i < |TicksIn(us, c)| => TicksIn(us, c)[i].px)
  {
    hide Interval, Taken;
    if us != [] {
      TicksInPrices(us[..|us| - 1], c);
    }
  }

  /** As long as the bar's time has not come. */
  lemma {:induction false} NoneYet(us: seq<Umd>, c: Bar2)
    requires InOrder(us) && us != [] && Interval(us[|us| - 1].exchTime) < c.adjBob <= c.bob <= c.eob
    ensures TicksIn(us, c) == [] && Origin(us, c) == Some(us[|us| - 1]) && us[|us| - 1].px > 0.0
  {
    hide Interval;
    var before := us[..|us| - 1];
    if before != [] {
      NoneYet(before, c);
    }
  }

  /** The ticks that matter have a price. */
  lemma {:induction false} Priced(us: seq<Umd>, c: Bar2)
    requires InOrder(us)
    ensures Origin(us, c).Some? ==> Origin(us, c).value.px > 0.0
    ensures LastBefore(us, c.adjBob).Some? ==> LastBefore(us, c.adjBob).value.px > 0.0
    ensures forall i | 0 <= i < |TicksIn(us, c)| :: TicksIn(us, c)[i].px > 0.0
  {
    hide Interval, TakenNext;
    if us != [] {
      InOrderFront(us[..|us| - 1], us[|us| - 1]) by { assert us[..|us| - 1] + [us[|us| - 1]] == us; }
      Priced(us[..|us| - 1], c);
    }
  }

  /** The bar is settled by this tick. */
  predicate Closes(c: Bar2, sec: int) {
    if c.auction then Within(c, sec) else AtSettle(c, sec)
  }

  predicate Cut(c: Bar2) { Bounds(c) && c.adjBob <= c.bob < c.eob <= c.adjEob && c.eob > 0 }

  lemma FillStart(b: Bar2, u: Umd, p: Option<Umd>)
    requires StartsFrom(b, p) && u.px > 0.0
    ensures StartsFrom(Fill(b, u), if p.Some? then p else Some(u))
  {
    hide Interval, BaseSec;
  }

  /** A tick that is recorded. */
  lemma FillTakes(b: Bar2, u: Umd, ts: seq<Umd>)
    requires NeedOhlc(b, u) && u.px > 0.0 && (b.auction ==> ts == [] && Within(b, Interval(u.exchTime)))
    requires if ts == [] then Empty(b) else Holds(b, ts)
    ensures Holds(Fill(b, u), ts + [u])
  {
    hide Interval, BaseSec;
    BaseNotZero(u.exchTime);
    if ts != [] { BaseNotZero(ts[0].exchTime); }
  }

  /** One that comes within an auction's time, but before the auction. */
  lemma FillLeaves(b: Bar2, u: Umd)
    requires b.auction && !NeedOhlc(b, u) && Empty(b)
    ensures Empty(Fill(b, u))
  {
    hide Interval, BaseSec;
  }

  /** What a tick within the bar's time is to it. */
  lemma FillKind(b: Bar2, us: seq<Umd>, u: Umd, c: Bar2)
    requires SameCut(b, c) && Cut(c) && c.adjBob <= Interval(u.exchTime) < c.adjEob
    requires us != [] ==> Interval(us[|us| - 1].exchTime) < c.eob
    requires c.auction ==> !InAny(us, c)
    ensures Position(b, Interval(u.exchTime)) == 0 && (NeedOhlc(b, u) <==> TakenNext(us, c, Interval(u.exchTime)))
    ensures c.auction ==> (NeedOhlc(b, u) <==> Within(b, Interval(u.exchTime)))
    ensures !c.auction ==> NeedOhlc(b, u)
    ensures NeedSettle(Fill(b, u), u) <==> Closes(c, Interval(u.exchTime))
    ensures c.auction ==> (Closes(c, Interval(u.exchTime)) <==> NeedOhlc(b, u))
  {
    hide Interval, BaseSec, InAny;
    CutKept(b, u);
  }

  lemma LastPriced(us: seq<Umd>, u: Umd)
    requires InOrder(us + [u])
    ensures u.px > 0.0
  {
    hide Interval;
    assert (us + [u])[|us|] == u;
  }

  lemma OriginMore(us: seq<Umd>, u: Umd, c: Bar2)
    requires c.adjBob <= Interval(u.exchTime) < c.adjEob && (us != [] ==> Origin(us, c).Some?)
    ensures Origin(us + [u], c) == if Origin(us, c).Some? then Origin(us, c) else Some(u)
  {
    hide Interval, TicksIn;
    TicksInMore(us, u, c);
    if us == [] { NoTicks(c); }
  }

  /** A tick within the bar's time. */
  lemma FillCurrent(b: Bar2, us: seq<Umd>, u: Umd, c: Bar2)
    requires Current(b, us, c) && InOrder(us + [u]) && Cut(c) && c.adjBob <= Interval(u.exchTime) < c.adjEob
    requires us != [] ==> Interval(us[|us| - 1].exchTime) < c.eob && Origin(us, c).Some?
    requires c.auction ==> TicksIn(us, c) == []
    ensures Position(b, Interval(u.exchTime)) == 0 && Current(Fill(b, u), us + [u], c) && Origin(us + [u], c).Some?
    ensures NeedSettle(Fill(b, u), u) <==> Closes(c, Interval(u.exchTime))
    ensures c.auction ==> (TicksIn(us + [u], c) != [] <==> Closes(c, Interval(u.exchTime)))
  {
    hide Interval, TicksIn, LastBefore, InAny, Fill, NeedOhlc, NeedSettle, TakenNext, Holds, Empty, StartsFrom, Position, Closes, InOrder,
         Origin, Cut, Within;
    CutKept(b, u);
    assert SameCut(Fill(b, u), c) && b.auction == c.auction;
    hide SameCut;
    if c.auction { AnyTaken(us, c); }
    LastPriced(us, u);
    FillKind(b, us, u, c);
    TicksInMore(us, u, c);
    OriginMore(us, u, c);
    FillStart(b, u, Origin(us, c));
    if NeedOhlc(b, u) {
      FillTakes(b, u, TicksIn(us, c));
    } else {
      FillLeaves(b, u);
    }
  }

  lemma NoTicks(c: Bar2)
    ensures Origin([], c).None?
  {}

  /** A tick before the bar. */
  lemma WaitCurrent(b: Bar2, us: seq<Umd>, u: Umd, c: Bar2)
    requires SameCut(b, c) && Empty(b)
    requires InOrder(us + [u]) && Interval(u.exchTime) < c.adjBob <= c.bob <= c.eob
    ensures Current(UpdatePre(b, u), us + [u], c) && Origin(us + [u], c).Some? && TicksIn(us + [u], c) == []
  {
    hide Interval, BaseSec, TicksIn, LastBefore, InOrder;
    NoneYet(us + [u], c);
    CutKept(b, u);
  }

  /** A tick behind the bar changes nothing of what it is made of. */
  lemma PassedMore(us: seq<Umd>, u: Umd, c: Bar2)
    requires c.adjBob <= Interval(u.exchTime) && !TakenNext(us, c, Interval(u.exchTime))
    requires us == [] ==> c.adjEob <= Interval(u.exchTime)
    ensures TicksIn(us + [u], c) == TicksIn(us, c) && Origin(us + [u], c) == Origin(us, c)
    ensures forall base | SameDay(us + [u], base) :: SameDay(us, base)
    ensures forall b | Current(b, us, c) :: Current(b, us + [u], c)
    ensures forall b, n | Final(b, us, c, n) :: Final(b, us + [u], c, n)
  {
    hide Interval, BaseSec, Holds, StartsFrom, TimesAre, Changes, TakenNext;
    TicksInMore(us, u, c);
    assert forall i | 0 <= i < |us| :: (us + [u])[i] == us[i];
  }

  // ---------------------------------------------------------------- what one step does to bar k

  function Arrived(b: Bar2, last: Option<Umd>): Bar2 {
    if last.Some? then UpdatePre(b, last.value) else b
  }

  lemma TimesMore(settled: seq<int>, i: int, k: int)
    ensures Times(settled + [i], k) == Times(settled, k) + if i == k then 1 else 0
  {
    assert (settled + [i])[..|settled|] == settled;
  }

  /** Passing the current bar. */
  lemma PassBar(s: State, u: Umd, k: nat)
    requires 0 <= s.idx < |s.bars| && k < |s.bars|
    ensures var t := SettleHere(s, u); var m := Move(t, t.last);
      t.idx == s.idx && m.idx == s.idx + 1 && |t.bars| == |m.bars| == |s.bars| && m.last == s.last && m.settled == t.settled &&
      Times(t.settled, k) == Times(s.settled, k) + (if s.idx == k then 1 else 0) &&
      t.bars[k] == (if s.idx == k then Settle(s.bars[k], u) else s.bars[k]) &&
      m.bars[k] == if s.idx + 1 == k then Arrived(s.bars[k], s.last) else t.bars[k]
  {
    hide Settle, UpdatePre, Times;
    TimesMore(s.settled, s.idx, k);
  }

  /** Whether the bars passed include bar k, whether it is the one found, and what that leaves in it. */
  predicate Skipped(s: State, t: State, u: Umd, k: nat)
    requires k < |s.bars| == |t.bars|
  {
    var a := if s.idx < k then Arrived(s.bars[k], s.last) else s.bars[k];
    if k < s.idx || t.idx < k then t.bars[k] == s.bars[k] && Times(t.settled, k) == Times(s.settled, k)
    else if t.idx == k && Position(t.bars[k], Interval(u.exchTime)) != 1 then
      t.bars[k] == a && Times(t.settled, k) == Times(s.settled, k)
    else t.bars[k] == Settle(a, u) && Times(t.settled, k) == Times(s.settled, k) + 1
  }

  lemma {:induction false} SkipBar(s: State, u: Umd, k: nat)
    requires 0 <= s.idx < |s.bars| && k < |s.bars|
    ensures Skipped(s, Skip(s, u), u, k)
    decreases |s.bars| - s.idx
  {
    hide Settle, UpdatePre, Interval, Position, SettleHere, Move, Times, Arrived;
    if Position(s.bars[s.idx], Interval(u.exchTime)) == 1 {
      SettleKeeps(s.bars[s.idx], u);
      var t := SettleHere(s, u);
      PassBar(s, u, k);
      PassBar(s, u, s.idx);
      PositionKept(t.bars[s.idx], s.bars[s.idx], Interval(u.exchTime));
      if t.idx < |t.bars| - 1 {
        SkipBar(Move(t, t.last), u, k);
      }
    }
  }

  /** A bar that the bars before it do not reach into. */
  predicate Clear(bars: seq<Bar2>, k: nat) {
    k < |bars| && Cut(bars[k]) && forall j | 0 <= j < k :: bars[j].adjEob <= bars[k].adjBob
  }

  lemma ApartClear(bars: seq<Bar2>, k: nat)
    requires Apart(bars, k)
    ensures Clear(bars, k)
  {}

  /** Where a tick finds the maker that has not settled bar k. */
  lemma SkipFinds(s: State, u: Umd, bars: seq<Bar2>, k: nat)
    requires Clear(bars, k) && SameEnds(s.bars, bars) && 0 <= s.idx <= k && |s.settled| == s.idx && SameCut(s.bars[k], bars[k])
    ensures var t, sec := Skip(s, u), Interval(u.exchTime);
      if bars[k].adjEob <= sec then t.idx >= k && (t.idx > k || Position(t.bars[k], sec) == 1)
      else t.idx <= k && |t.settled| == t.idx && Position(t.bars[t.idx], sec) != 1 && SameCut(t.bars[k], bars[k]) &&
           (bars[k].adjBob <= sec ==> t.idx == k)
  {
    hide Interval, Skip;
    SkipTo(s, u, k);
    SkipCount(s, u);
    if bars[k].adjEob > Interval(u.exchTime) {
      SkipStops(s, u, k);
    }
  }

  /** The bar looked at, and the one behind it if that is settled. */
  lemma LookBar(s: State, u: Umd, k: nat)
    requires 0 <= s.idx < |s.bars| && k < |s.bars|
    ensures var r, sec := Look(s, u), Interval(u.exchTime);
      var settles := Position(s.bars[s.idx], sec) == 0 && NeedSettle(Fill(s.bars[s.idx], u), u);
      r.idx == s.idx + (if settles then 1 else 0) && |r.bars| == |s.bars| &&
      r.settled == (if settles then s.settled + [s.idx] else s.settled) &&
      if s.idx == k then
        r.bars[k] == match Position(s.bars[k], sec)
                     case 0 => (if settles then Settle(Fill(s.bars[k], u), u) else Fill(s.bars[k], u))
                     case 1 => s.bars[k]
                     case _ => UpdatePre(s.bars[k], u)
      else r.bars[k] == if settles && s.idx + 1 == k then UpdatePre(s.bars[k], u) else s.bars[k]
  {
    hide Interval, Settle, UpdatePre, Fill, NeedSettle;
  }

  // ---------------------------------------------------------------- bar k through the day

  function LastOf(us: seq<Umd>): Option<Umd> {
    if us == [] then None else Some(us[|us| - 1])
  }

  /** Bar k, cut as c: not reached, being filled, or settled. */
  ghost predicate BarIs(s: State, us: seq<Umd>, c: Bar2, k: nat)
    requires k < |s.bars|
  {
    var b, n := s.bars[k], Times(s.settled, k);
    && (s.idx < |s.bars| ==> s.last == LastOf(us))
    && if s.idx < k then b == c && n == 0 && (us != [] ==> Interval(us[|us| - 1].exchTime) < c.adjBob)
       else if s.idx == k && |s.settled| <= s.idx then
         n == 0 && if us == [] then b == c
                   else Current(b, us, c) && Origin(us, c).Some? && Interval(us[|us| - 1].exchTime) < c.eob &&
                        (c.auction ==> TicksIn(us, c) == [])
       else Final(b, us, c, n) && StartsFrom(b, Origin(us, c)) && Over(us, c)
  }

  /** The bar's time is over: by the clock, or, for an auction, because it has its tick. */
  predicate Over(us: seq<Umd>, c: Bar2) {
    && us != [] && Interval(us[|us| - 1].exchTime) >= c.bob
    && (Interval(us[|us| - 1].exchTime) >= c.eob || (c.auction && TicksIn(us, c) != []))
  }

  /** Then no later tick belongs to it. */
  lemma OverMore(us: seq<Umd>, u: Umd, c: Bar2)
    requires Over(us, c) && InOrder(us + [u]) && Cut(c)
    ensures !TakenNext(us, c, Interval(u.exchTime)) && Over(us + [u], c)
  {
    if c.auction { AnyTaken(us, c); AnyTaken(us + [u], c); }
    hide Interval, TicksIn;
    TicksInMore(us, u, c);
    assert (us + [u])[|us| - 1] == us[|us| - 1];
    assert Interval((us + [u])[|us| - 1].exchTime) <= Interval((us + [u])[|us|].exchTime);
  }

  /** Settled already: only the last bar can be settled again. */
  lemma TickSettled(s: State, us: seq<Umd>, u: Umd, c: Bar2, k: nat)
    requires k < |s.bars| && BarIs(s, us, c, k) && InRange(s) && s.idx >= k && (s.idx > k || |s.settled| > s.idx)
    requires InOrder(us + [u]) && Cut(c)
    requires s.idx == k ==> s.bars[k].adjEob <= Interval(u.exchTime) && k == |s.bars| - 1
    ensures |OnTick(s, u).bars| == |s.bars| && BarIs(OnTick(s, u), us + [u], c, k)
  {
    hide Interval, Settle, UpdatePre, Fill, NeedSettle, Skip, Final, StartsFrom, Look, Times, Current, Origin, TicksIn, TakenNext,
         Over, InOrder;
    OverMore(us, u, c);
    OverAfter(us, u, c);
    PassedMore(us, u, c);
    if s.idx < |s.bars| {
      var t := Skip(s, u);
      SkipBar(s, u, k);
      SkipCount(s, u);
      LookBar(t, u, k);
      if s.idx == k {
        SettleOnceMore(s.bars[k], us + [u], c, Times(s.settled, k), u);
        SkipLast(s, u);
        LookBehind(t, u);
      } else if t.idx < |t.bars| {
        TimesMore(t.settled, t.idx, k);
      }
    }
  }

  lemma OverAfter(us: seq<Umd>, u: Umd, c: Bar2)
    requires Over(us, c) && InOrder(us + [u]) && Cut(c)
    ensures us != [] && c.adjBob <= Interval(u.exchTime)
  {
    hide Interval, TicksIn;
    assert (us + [u])[|us| - 1] == us[|us| - 1];
    assert Interval((us + [u])[|us| - 1].exchTime) <= Interval((us + [u])[|us|].exchTime);
  }

  lemma SkipLast(s: State, u: Umd)
    requires 0 <= s.idx == |s.bars| - 1 && s.bars[s.idx].adjEob <= Interval(u.exchTime)
    ensures Skip(s, u) == SettleHere(s, u) && Position(Skip(s, u).bars[s.idx], Interval(u.exchTime)) == 1
  {
    hide Interval, Settle;
    SettleKeeps(s.bars[s.idx], u);
  }

  /** The bar as a tick finds it, if the maker comes to it. */
  lemma ArrivedCurrent(s: State, us: seq<Umd>, c: Bar2, k: nat)
    requires k < |s.bars| && BarIs(s, us, c, k) && InOrder(us) && Untouched(c) && Cut(c)
    requires s.idx < k || (s.idx == k && |s.settled| <= s.idx)
    ensures Current(if s.idx < k then Arrived(c, s.last) else s.bars[k], us, c)
    ensures us != [] ==> Origin(us, c).Some? && Interval(us[|us| - 1].exchTime) < c.eob
    ensures c.auction ==> TicksIn(us, c) == []
  {
    hide Interval, BaseSec;
    if s.idx < k && us != [] {
      NoneYet(us, c);
      CutKept(c, us[|us| - 1]);
    }
  }

  /** The maker has not settled bar k, which is cut as the vector says. */
  ghost predicate Coming(s: State, us: seq<Umd>, bars: seq<Bar2>, k: nat) {
    && Clear(bars, k) && Untouched(bars[k]) && SameEnds(s.bars, bars) && 0 <= s.idx <= k && |s.settled| == s.idx
    && BarIs(s, us, bars[k], k) && InOrder(us)
  }

  lemma ComingCut(s: State, us: seq<Umd>, bars: seq<Bar2>, k: nat)
    requires Coming(s, us, bars, k)
    ensures SameCut(s.bars[k], bars[k]) && Cut(bars[k])
  {
    hide Interval;
  }

  lemma WaitBar(s: State, us: seq<Umd>, u: Umd, bars: seq<Bar2>, k: nat)
    requires Coming(s, us, bars, k) && InOrder(us + [u]) && Interval(u.exchTime) < bars[k].adjBob
    ensures var r := Look(Skip(s, u), u).(last := Some(u)); |r.bars| == |bars| && BarIs(r, us + [u], bars[k], k)
  {
    hide Interval, Settle, UpdatePre, Fill, NeedSettle, Skip, Final, StartsFrom, Look, Times, Current, InOrder, Origin, TicksIn, Over;
    ComingCut(s, us, bars, k);
    var c, t := bars[k], Skip(s, u);
    SkipFinds(s, u, bars, k);
    SkipBar(s, u, k);
    LookBar(t, u, k);
    TimesMore(t.settled, t.idx, k);
    ArrivedCurrent(s, us, c, k);
    var a := if s.idx < k then Arrived(c, s.last) else s.bars[k];
    if t.idx == k {
      WaitCurrent(a, us, u, c) by { NothingYet(a, us, u, c); }
    } else if t.idx + 1 == k {
      WaitCurrent(c, us, u, c) by { assert SameCut(c, c); }
    }
  }

  lemma NothingYet(a: Bar2, us: seq<Umd>, u: Umd, c: Bar2)
    requires Current(a, us, c) && InOrder(us + [u]) && Interval(u.exchTime) < c.adjBob && Cut(c)
    ensures SameCut(a, c) && Empty(a)
  {
    hide Interval, BaseSec;
    if us != [] {
      InOrderFront(us, u);
      assert (us + [u])[|us| - 1] == us[|us| - 1];
      assert Interval((us + [u])[|us| - 1].exchTime) <= Interval((us + [u])[|us|].exchTime);
      NoneYet(us, c);
    }
  }

  lemma RecordBar(s: State, us: seq<Umd>, u: Umd, bars: seq<Bar2>, k: nat)
    requires Coming(s, us, bars, k) && InOrder(us + [u]) && bars[k].adjBob <= Interval(u.exchTime) < bars[k].adjEob
    ensures var r := Look(Skip(s, u), u).(last := Some(u)); |r.bars| == |bars| && BarIs(r, us + [u], bars[k], k)
  {
    hide Interval, Settle, UpdatePre, Fill, NeedSettle, Skip, Final, StartsFrom, Look, Times, Current, InOrder, Arrived, Origin, TicksIn;
    ComingCut(s, us, bars, k);
    var c, t := bars[k], Skip(s, u);
    SkipFinds(s, u, bars, k);
    SkipBar(s, u, k);
    LookBar(t, u, k);
    TimesMore(t.settled, t.idx, k);
    ArrivedCurrent(s, us, c, k);
    var a := if s.idx < k then Arrived(c, s.last) else s.bars[k];
    assert t.bars[k] == a;
    FillCurrent(a, us, u, c);
    FillStarts(Fill(a, u), us + [u], c);
    ClosedOver(us, u, c);
    if NeedSettle(Fill(a, u), u) {
      SettleFinal(Fill(a, u), us + [u], c, u);
      SettleStarts(Fill(a, u), us + [u], c, u);
    }
  }

  /** Within the bar's time, the tick that settles it is the one with which its time is over. */
  lemma ClosedOver(us: seq<Umd>, u: Umd, c: Bar2)
    requires Cut(c) && c.adjBob <= Interval(u.exchTime) < c.adjEob
    requires c.auction ==> (TicksIn(us + [u], c) != [] <==> Closes(c, Interval(u.exchTime)))
    ensures if Closes(c, Interval(u.exchTime)) then Over(us + [u], c) else Interval(u.exchTime) < c.eob
  {
    hide Interval, TicksIn;
  }

  lemma FillStarts(b: Bar2, us: seq<Umd>, c: Bar2)
    requires Current(b, us, c)
    ensures StartsFrom(b, Origin(us, c))
  {}

  lemma SettleStarts(b: Bar2, us: seq<Umd>, c: Bar2, u: Umd)
    requires StartsFrom(b, Origin(us, c))
    ensures StartsFrom(Settle(b, u), Origin(us, c))
  {
    hide BaseSec, Origin;
  }

  lemma LeaveBar(s: State, us: seq<Umd>, u: Umd, bars: seq<Bar2>, k: nat)
    requires Coming(s, us, bars, k) && InOrder(us + [u]) && bars[k].adjEob <= Interval(u.exchTime)
    ensures var r := Look(Skip(s, u), u).(last := Some(u)); |r.bars| == |bars| && BarIs(r, us + [u], bars[k], k)
  {
    hide Interval, Settle, UpdatePre, Fill, NeedSettle, Skip, Final, StartsFrom, Look, Times, Current, InOrder, Arrived, Origin, TicksIn;
    ComingCut(s, us, bars, k);
    var c, t := bars[k], Skip(s, u);
    SkipFinds(s, u, bars, k);
    SkipBar(s, u, k);
    SkipCount(s, u);
    LookBar(t, u, k);
    TimesMore(t.settled, t.idx, k);
    ArrivedCurrent(s, us, c, k);
    var a := if s.idx < k then Arrived(c, s.last) else s.bars[k];
    BehindBar(us, u, c);
    PassedMore(us, u, c);
    FillStarts(a, us + [u], c);
    if us != [] {
      SettleFinal(a, us + [u], c, u);
    } else {
      NeverReached(s, us, c, k);
      SettleUntouched(us + [u], c, u);
    }
    SettleStarts(a, us + [u], c, u);
  }

  lemma NeverReached(s: State, us: seq<Umd>, c: Bar2, k: nat)
    requires k < |s.bars| && BarIs(s, us, c, k) && us == [] && (s.idx < k || (s.idx == k && |s.settled| <= s.idx))
    ensures (if s.idx < k then Arrived(c, s.last) else s.bars[k]) == c && TicksIn(us, c) == []
  {}

  lemma BehindBar(us: seq<Umd>, u: Umd, c: Bar2)
    requires Cut(c) && c.adjEob <= Interval(u.exchTime)
    ensures !TakenNext(us, c, Interval(u.exchTime)) && Over(us + [u], c)
  {
    hide Interval, TicksIn, InAny;
  }

  /** One tick of the day, wherever the maker is. */
  lemma TickBar(p: State, h: seq<seq<real>>, us: seq<Umd>, u: Umd, bars: seq<Bar2>, k: nat, prev: int)
    requires InRange(p) && InOrder(us + [u]) && Clear(bars, k) && Untouched(bars[k]) && SameEnds(p.bars, bars)
    requires BarIs(p, us, bars[k], k) && prev <= Interval(u.exchTime)
    requires PricesOk(if p.idx == -1 then p.(idx := 0) else p, h, prev)
    requires us == [] ==> p.idx == -1 && p.settled == []
    requires p.idx == -1 ==> us == []
    ensures |OnTick(p, u).bars| == |bars| && BarIs(OnTick(p, u), us + [u], bars[k], k) && SameEnds(OnTick(p, u).bars, bars)
  {
    InOrderFront(us, u);
    var s, c := if p.idx == -1 then p.(idx := 0) else p, bars[k];
    assert BarIs(s, us, c, k);
    EndsKept(p, u);
    hide Interval, Skip, Look, Final, StartsFrom, Times, Current, InOrder, Done, Filling, Ahead, Behind, BarIs, Clear, Cut;
    if s.idx > k || |s.settled| > s.idx {
      ClearCut(bars, k);
      TickSettled(s, us, u, c, k) by { LastOne(s, h, bars, k, prev); }
    } else {
      assert Coming(s, us, bars, k);
      var sec := Interval(u.exchTime);
      if sec < c.adjBob { WaitBar(s, us, u, bars, k); }
      else if sec < c.adjEob { RecordBar(s, us, u, bars, k); }
      else { LeaveBar(s, us, u, bars, k); }
    }
  }

  lemma ClearCut(bars: seq<Bar2>, k: nat)
    requires Clear(bars, k)
    ensures Cut(bars[k])
  {}

  lemma EndsKept(p: State, u: Umd)
    requires InRange(p)
    ensures SameEnds(OnTick(p, u).bars, p.bars)
  {
    hide Interval, Skip, Look;
    var s := if p.idx == -1 then p.(idx := 0) else p;
    if s.idx < |s.bars| {
      SkipTo(s, u, 0);
      LookBeyond(Skip(s, u), u);
    }
  }

  /** A settled bar that is still the current one is the last one, and the tick lies behind it. */
  lemma LastOne(s: State, h: seq<seq<real>>, bars: seq<Bar2>, k: nat, prev: int)
    requires PricesOk(s, h, prev) && k < |s.bars| && s.idx >= k && (s.idx > k || |s.settled| > s.idx)
    ensures s.idx == k ==> s.bars[k].adjEob <= prev && k == |s.bars| - 1
  {
    hide Done, Filling, Blank;
  }

  lemma BeforeTicks(s: State, k: nat)
    requires Initial(s) && Clear(s.bars, k) && Untouched(s.bars[k])
    ensures Ticks(s, []) == s && BarIs(s, [], s.bars[k], k) && SameEnds(s.bars, s.bars)
  {
    hide Interval, Clear, Untouched;
  }

  lemma {:induction false} TicksBar(s: State, us: seq<Umd>, k: nat)
    requires Initial(s) && InOrder(us) && Clear(s.bars, k) && Untouched(s.bars[k])
    requires forall i | 0 <= i < |s.bars| :: Blank(s.bars[i])
    ensures |Ticks(s, us).bars| == |s.bars| && BarIs(Ticks(s, us), us, s.bars[k], k) && SameEnds(Ticks(s, us).bars, s.bars)
  {
    hide Interval, OnTick, PricesOk, Clear, Blank, Recording, Recorded, BarIs, SameEnds, Untouched, InOrder, FreshFrom;
    if us == [] {
      BeforeTicks(s, k);
    } else {
      var before, u := us[..|us| - 1], us[|us| - 1];
      assert before + [u] == us;
      InOrderFront(before, u);
      TicksBar(s, before, k);
      if before == [] {
        StartPrices(s, Prices(s, []), Interval(u.exchTime));
        TickBar(s, Prices(s, []), [], u, s.bars, k, Interval(u.exchTime));
      } else {
        TicksPrices(s, before);
        LaterTick(before, u);
        TickBar(Ticks(s, before), Prices(s, before), before, u, s.bars, k, Interval(before[|before| - 1].exchTime));
      }
    }
  }

  lemma LaterTick(us: seq<Umd>, u: Umd)
    requires us != [] && InOrder(us + [u])
    ensures Interval(us[|us| - 1].exchTime) <= Interval(u.exchTime)
  {
    hide Interval;
    assert (us + [u])[|us|] == u && (us + [u])[|us| - 1] == us[|us| - 1];
  }

  /** What is left is settled at the end, each bar once more, without a look at the ticks. */
  lemma {:induction false} RestBar(s: State, k: nat)
    requires 0 <= s.idx <= |s.bars| && k < |s.bars|
    ensures var t, u := SettleRest(s), if s.last.Some? then s.last.value else NO_TICK;
      |t.bars| == |s.bars| &&
      t.bars[k] == (if k < s.idx then s.bars[k] else Settle(s.bars[k], u)) &&
      Times(t.settled, k) == Times(s.settled, k) + if k < s.idx then 0 else 1
    decreases |s.bars| - s.idx
  {
    hide Settle, Times;
    if s.idx < |s.bars| {
      var t := SettleHere(s, if s.last.Some? then s.last.value else NO_TICK);
      TimesMore(s.settled, s.idx, k);
      RestBar(t.(idx := t.idx + 1), k);
    }
  }

  /**
   * What a bar holds after a day of ticks, whatever they were. If it has recorded any, its close, cumulative volume, turnover
   * and open interest are the last one's, the changes are those since the tick it starts from, and its times are on the day
   * of the first one. If it has recorded none, nothing has changed, and it holds what it starts from. It starts from the last
   * tick before its time, or from the day's first one within it, unless the ticks ended before the maker came to it.
   */
  lemma SettledValues(s: State, us: seq<Umd>, k: nat)
    requires Initial(s) && us != [] && InOrder(us) && k < |s.bars| && Clear(s.bars, k) && Untouched(s.bars[k])
    requires forall i | 0 <= i < |s.bars| :: Blank(s.bars[i])
    ensures |OnFinish(Ticks(s, us)).bars| == |s.bars| == |Ticks(s, us).bars|
    ensures var t := OnFinish(Ticks(s, us));
      Final(t.bars[k], us, s.bars[k], Times(t.settled, k)) &&
      if Ticks(s, us).idx < k then t.bars[k].preClose == 0.0 else StartsFrom(t.bars[k], Origin(us, s.bars[k]))
  {
    hide Interval, OnTick, Final, Current, StartsFrom, PricesOk, Blank, SettleRest, Settle, Ticks, Times, Origin, Over, Cut, TicksIn;
    var p, c := Ticks(s, us), s.bars[k];
    TicksBar(s, us, k);
    TicksPrices(s, us);
    RestBar(p, k);
    if p.idx < k {
      NoneYet(us, c) by { CutTimes(c); }
      SettleUntouched(us, c, us[|us| - 1]);
    } else if p.idx == k {
      var u := us[|us| - 1];
      if |p.settled| <= p.idx {
        SettleFinal(p.bars[k], us, c, u);
        FillStarts(p.bars[k], us, c);
        SettleStarts(p.bars[k], us, c, u);
      } else {
        SettleOnceMore(p.bars[k], us, c, Times(p.settled, k), u);
      }
    }
  }

  lemma CutTimes(c: Bar2)
    requires Cut(c)
    ensures c.adjBob <= c.bob < c.eob <= c.adjEob
  {}

  // ---------------------------------------------------------------- the times of the last bar

  /** A tick came that closes the bar: in the second that ends a session with it, or inside an auction. */
  predicate ClosedIn(us: seq<Umd>, c: Bar2) {
    exists i :: 0 <= i < |us| && Closes(c, Interval(us[i].exchTime))
  }

  predicate AllBefore(us: seq<Umd>, sec: int) {
    forall i | 0 <= i < |us| :: Interval(us[i].exchTime) < sec
  }

  /** How often the last bar was settled: not yet, once and left, or by every tick behind it. */
  predicate LastIs(s: State, us: seq<Umd>, c: Bar2, k: nat) {
    var n := Times(s.settled, k);
    && s.idx <= k + 1 && (s.idx == k + 1 <==> ClosedIn(us, c)) && (s.idx == k + 1 ==> n == 1)
    && (s.idx <= k ==> (n == 0 <==> AllBefore(us, c.adjEob)) && (n == 0 <==> |s.settled| <= if s.idx < 0 then 0 else s.idx))
  }

  lemma OneMoreTick(us: seq<Umd>, u: Umd, c: Bar2, sec: int)
    ensures ClosedIn(us + [u], c) <==> ClosedIn(us, c) || Closes(c, Interval(u.exchTime))
    ensures AllBefore(us + [u], sec) <==> AllBefore(us, sec) && Interval(u.exchTime) < sec
  {
    hide Interval, Closes;
    assert forall i | 0 <= i < |us| :: (us + [u])[i] == us[i];
    assert (us + [u])[|us|] == u;
  }

  lemma OutsideCloses(c: Bar2, sec: int)
    requires Cut(c) && (sec < c.adjBob || c.adjEob <= sec)
    ensures !Closes(c, sec)
  {}

  /** The last bar is not settled yet. */
  lemma LastComing(s: State, us: seq<Umd>, u: Umd, bars: seq<Bar2>, k: nat)
    requires Coming(s, us, bars, k) && InOrder(us + [u]) && LastIs(s, us, bars[k], k) && k == |bars| - 1
    ensures LastIs(Look(Skip(s, u), u).(last := Some(u)), us + [u], bars[k], k)
  {
    hide Interval, Settle, UpdatePre, Fill, NeedSettle, Skip, Final, StartsFrom, Look, Times, Current, InOrder, Arrived, ClosedIn, AllBefore,
         Closes, TicksIn, Origin;
    ComingCut(s, us, bars, k);
    var c, t := bars[k], Skip(s, u);
    SkipFinds(s, u, bars, k);
    SkipBar(s, u, k);
    SkipCount(s, u);
    LookBar(t, u, k);
    TimesMore(t.settled, t.idx, k);
    OneMoreTick(us, u, c, c.adjEob);
    ArrivedCurrent(s, us, c, k);
    var sec := Interval(u.exchTime);
    if c.adjBob <= sec < c.adjEob {
      FillCurrent(if s.idx < k then Arrived(c, s.last) else s.bars[k], us, u, c);
    } else {
      OutsideCloses(c, sec);
    }
  }

  lemma LastSettled(s: State, us: seq<Umd>, u: Umd, c: Bar2, k: nat)
    requires LastIs(s, us, c, k) && InRange(s) && k == |s.bars| - 1 && s.idx >= k && (s.idx > k || |s.settled| > s.idx)
    requires s.idx == k ==> s.bars[k].adjEob == c.adjEob <= Interval(u.exchTime)
    requires Cut(c)
    ensures LastIs(OnTick(s, u), us + [u], c, k)
  {
    hide Interval, Settle, Skip, Look, Times, ClosedIn, AllBefore, Closes;
    OneMoreTick(us, u, c, c.adjEob);
    if s.idx == k {
      OutsideCloses(c, Interval(u.exchTime));
      SkipLast(s, u);
      LookBehind(Skip(s, u), u);
      TimesMore(s.settled, k, k);
    }
  }

  lemma TickLast(p: State, h: seq<seq<real>>, us: seq<Umd>, u: Umd, bars: seq<Bar2>, k: nat, prev: int)
    requires InRange(p) && InOrder(us + [u]) && Clear(bars, k) && Untouched(bars[k]) && SameEnds(p.bars, bars) && k == |bars| - 1
    requires BarIs(p, us, bars[k], k) && LastIs(p, us, bars[k], k) && prev <= Interval(u.exchTime)
    requires PricesOk(if p.idx == -1 then p.(idx := 0) else p, h, prev)
    requires us == [] ==> p.idx == -1 && p.settled == []
    requires p.idx == -1 ==> us == []
    ensures LastIs(OnTick(p, u), us + [u], bars[k], k)
  {
    InOrderFront(us, u);
    var s, c := if p.idx == -1 then p.(idx := 0) else p, bars[k];
    assert BarIs(s, us, c, k) && LastIs(s, us, c, k);
    hide Interval, Skip, Look, Final, StartsFrom, Times, Current, InOrder, Done, Filling, Ahead, Behind, BarIs, LastIs, Clear, Cut;
    ClearCut(bars, k);
    if s.idx > k || |s.settled| > s.idx {
      LastOne(s, h, bars, k, prev);
      LastSettled(s, us, u, c, k);
    } else {
      assert Coming(s, us, bars, k);
      LastComing(s, us, u, bars, k);
    }
  }

  lemma {:induction false} TicksLastBar(s: State, us: seq<Umd>, k: nat)
    requires Initial(s) && InOrder(us) && Clear(s.bars, k) && Untouched(s.bars[k]) && k == |s.bars| - 1
    requires forall i | 0 <= i < |s.bars| :: Blank(s.bars[i])
    ensures LastIs(Ticks(s, us), us, s.bars[k], k)
  {
    hide Interval, OnTick, Final, Current, StartsFrom, PricesOk, Clear, Blank, Recording, Recorded, Closes, BarIs;
    var bars := s.bars;
    if us != [] {
      var before, u := us[..|us| - 1], us[|us| - 1];
      var h := Prices(s, before);
      assert before + [u] == us;
      InOrderFront(before, u);
      TicksLastBar(s, before, k);
      TicksBar(s, before, k);
      if before == [] {
        StartPrices(s, h, Interval(u.exchTime));
        TickLast(s, h, before, u, bars, k, Interval(u.exchTime));
      } else {
        TicksPrices(s, before);
        TickLast(Ticks(s, before), h, before, u, bars, k, Interval(before[|before| - 1].exchTime));
      }
    }
  }

  /** Converting a time more than once loses it. */
  lemma {:induction false} ConvertedOnce(sec: int, base: int, n: nat)
    requires sec >= 0 && base > 0 && n >= 1
    ensures Converted(sec, base, n) >= (sec + base) * NANO && (Converted(sec, base, n) == (sec + base) * NANO <==> n == 1)
  {
    assert Converted(sec, base, 0) == sec;
    if n > 1 {
      ConvertedOnce(sec, base, n - 1);
    }
  }

  /** How often each bar has been settled when the day is over. */
  lemma SettledTimes(s: State, us: seq<Umd>, k: nat)
    requires Initial(s) && us != [] && InOrder(us) && k < |s.bars| && Clear(s.bars, k) && Untouched(s.bars[k])
    requires forall i | 0 <= i < |s.bars| :: Blank(s.bars[i])
    ensures Times(OnFinish(Ticks(s, us)).settled, k) == 1 <==>
              k < |s.bars| - 1 || ClosedIn(us, s.bars[k]) || AllBefore(us, s.bars[k].adjEob)
  {
    hide Interval, OnTick, Clear, Blank, SettleRest, Ticks, Times, ClosedIn, AllBefore, PricesOk, SettledOk;
    var p := Ticks(s, us);
    TicksPrices(s, us);
    TicksSettled(s, us);
    if k < |s.bars| - 1 {
      RestOk(p);
      OnceEach(SettleRest(p), k);
    } else {
      TicksLastBar(s, us, k);
      RestBar(p, k);
    }
  }

  lemma {:induction false} TicksSettled(s: State, us: seq<Umd>)
    requires Initial(s)
    ensures Ok(Ticks(s, us)) && |Ticks(s, us).bars| == |s.bars|
  {
    hide OnTick;
    if us != [] {
      var before := Ticks(s, us[..|us| - 1]);
      TicksSettled(s, us[..|us| - 1]);
      StepOk(before, Tick(us[|us| - 1]));
      TickCount(before, us[|us| - 1]);
    }
  }

  /**
   * A settled bar bears its own times, those of its seconds on its day, if and only if it is not the day's last one, or a
   * tick came that closes it, or none came behind it: the last bar stays the current one when a tick behind it has settled
   * it, and is settled again at the end, when its times are taken for seconds.
   */
  lemma TimesExact(s: State, us: seq<Umd>, k: nat, base: int)
    requires Initial(s) && us != [] && InOrder(us) && k < |s.bars| && Clear(s.bars, k) && Untouched(s.bars[k])
    requires forall i | 0 <= i < |s.bars| :: Blank(s.bars[i])
    requires s.bars[k].bob >= 0 && base > 0
    requires if TicksIn(us, s.bars[k]) != [] then base == BaseSec(TicksIn(us, s.bars[k])[0].exchTime) else SameDay(us, base)
    ensures |OnFinish(Ticks(s, us)).bars| == |s.bars|
    ensures var b, c := OnFinish(Ticks(s, us)).bars[k], s.bars[k];
      b.bob == (c.bob + base) * NANO && b.eob == (c.eob + base) * NANO <==>
      k < |s.bars| - 1 || ClosedIn(us, c) || AllBefore(us, c.adjEob)
  {
    hide Interval, OnTick, Blank, SettleRest, Ticks, Times, ClosedIn, AllBefore, InOrder, Origin, StartsFrom, BaseSec, TicksIn, Clear;
    SettledValues(s, us, k);
    SettledTimes(s, us, k);
    ClearCut(s.bars, k);
    var t, c := OnFinish(Ticks(s, us)), s.bars[k];
    var n := Times(t.settled, k);
    ConvertedOnce(c.bob, base, n);
    ConvertedOnce(c.eob, base, n);
  }
}
