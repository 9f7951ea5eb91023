/** What the prices of a bar mean: the ticks it recorded, or the price before it when there were none. */
module BarPrices {
  import opened Options
  import opened BarRun

  /** A bar as the cutting leaves it. */
  predicate Blank(b: Bar2) { Fresh(b) && b.high == 0.0 && b.low == 0.0 && b.close == 0.0 }

  /** First, highest, lowest and last of the prices recorded. */
  predicate OfPrices(b: Bar2, ps: seq<real>) {
    && ps != [] && b.open == ps[0] && b.close == ps[|ps| - 1] && b.high in ps && b.low in ps
    && b.low > 0.0 && forall p | p in ps :: b.low <= p <= b.high
  }

  /** A settled bar: its prices, or the price it started from. */
  predicate Done(b: Bar2, ps: seq<real>) {
    if ps == [] then b.open == b.high == b.low == b.close == b.preClose else OfPrices(b, ps)
  }

  /** A bar being filled; an auction's bar is settled by the first tick it records. */
  predicate Filling(b: Bar2, ps: seq<real>) {
    && Bounds(b) && (b.auction ==> ps == [])
    && if ps == [] then b.open == b.high == b.low == b.close == 0.0 else OfPrices(b, ps)
  }

  // ---------------------------------------------------------------- which prices a bar records

  function Recording(s0: State, u: Umd, h: seq<seq<real>>): (r: seq<seq<real>>)
    requires InRange(s0) && |h| == |s0.bars|
    ensures |r| == |h|
  {
    if Recorded(s0, u) then
      var k := Skip(if s0.idx == -1 then s0.(idx := 0) else s0, u).idx;
      h[k := h[k] + [u.px]]
    else h
  }

  /** The prices each bar records over the ticks us. */
  function Prices(s: State, us: seq<Umd>): (h: seq<seq<real>>)
    requires InRange(s)
    ensures |h| == |s.bars| == |Ticks(s, us).bars|
  {
    if us == [] then seq(|s.bars|, i => [])
    else
      var before, u := us[..|us| - 1], us[|us| - 1];
      var h := Prices(s, before);
      TickCount(Ticks(s, before), u);
      Recording(Ticks(s, before), u, h)
  }

  // ---------------------------------------------------------------- one bar

  lemma SettleDone(b: Bar2, ps: seq<real>, u: Umd)
    requires Filling(b, ps) || Done(b, ps)
    ensures Done(Settle(b, u), ps)
  {
    hide BaseSec, Bounds;
    if ps != [] {
      assert ps[0] in ps;
    }
  }

  lemma FillPrices(b: Bar2, ps: seq<real>, u: Umd)
    requires Filling(b, ps) && u.px > 0.0 && Position(b, Interval(u.exchTime)) == 0
    ensures Fill(b, u).auction == b.auction
    ensures var t := Fill(b, u);
      if NeedOhlc(b, u) then
        OfPrices(t, ps + [u.px]) && Bounds(t) && (b.auction ==> NeedSettle(t, u))
      else t.auction && ps == [] && Filling(t, ps) && !NeedSettle(t, u)
  {
    hide BaseSec, Interval;
    if ps != [] {
      assert ps[0] in ps;
    }
    var t, qs := Fill(b, u), ps + [u.px];
    if NeedOhlc(b, u) {
      assert u.px in qs && forall p | p in ps :: p in qs;
      assert t.open == qs[0] && t.close == qs[|qs| - 1];
    }
  }

  lemma PreFilling(b: Bar2, ps: seq<real>, u: Umd)
    requires Filling(b, ps)
    ensures Filling(UpdatePre(b, u), ps)
  {
    hide BaseSec;
  }

  // ---------------------------------------------------------------- a day

  /** Positive prices, and times in order. */
  predicate InOrder(us: seq<Umd>) {
    && (forall i | 0 <= i < |us| :: us[i].px > 0.0)
    && forall i | 0 < i < |us| :: Interval(us[i - 1].exchTime) <= Interval(us[i].exchTime)
  }

  predicate Behind(bars: seq<Bar2>, h: seq<seq<real>>, n: int) {
    |h| == |bars| && forall i | 0 <= i < n && i < |bars| :: Done(bars[i], h[i])
  }

  predicate Ahead(bars: seq<Bar2>, h: seq<seq<real>>, n: int) {
    |h| == |bars| && forall i | 0 <= i < |bars| && n <= i :: h[i] == [] && Blank(bars[i])
  }

  /** Bars behind are done, the current one is being filled, and those ahead are untouched. */
  predicate AtBar(s: State, h: seq<seq<real>>) {
    && 0 <= s.idx < |s.bars| == |h| && |s.settled| == s.idx
    && Behind(s.bars, h, s.idx) && Filling(s.bars[s.idx], h[s.idx]) && Ahead(s.bars, h, s.idx + 1)
  }

  /** The day's bars are all behind; the last one may still be the current one. */
  predicate AtEnd(s: State, h: seq<seq<real>>, sec: int) {
    && |h| == |s.bars| && Behind(s.bars, h, |s.bars|) && |s.settled| >= |s.bars| && |s.bars| - 1 <= s.idx <= |s.bars| && s.idx >= 0
    && (s.idx < |s.bars| ==> s.bars[s.idx].adjEob <= sec)
  }

  predicate PricesOk(s: State, h: seq<seq<real>>, sec: int) { AtBar(s, h) || AtEnd(s, h, sec) }

  /** Settling the current bar and moving on. */
  lemma PassPrices(s: State, h: seq<seq<real>>, u: Umd, v: Option<Umd>)
    requires 0 <= s.idx < |s.bars| == |h| && |s.settled| == s.idx
    requires Behind(s.bars, h, s.idx) && (Filling(s.bars[s.idx], h[s.idx]) || Done(s.bars[s.idx], h[s.idx])) && Ahead(s.bars, h, s.idx + 1)
    ensures var t := SettleHere(s, u);
      Behind(t.bars, h, s.idx + 1) && Ahead(t.bars, h, s.idx + 1) && |t.settled| == s.idx + 1 && t.bars[s.idx].adjEob == s.bars[s.idx].adjEob
    ensures var t := Move(SettleHere(s, u), v); s.idx < |s.bars| - 1 ==> AtBar(t, h)
    ensures var t := Move(SettleHere(s, u), v); s.idx == |s.bars| - 1 ==> forall sec :: AtEnd(t, h, sec)
  {
    hide Settle, UpdatePre, Filling, Done, Blank;
    SettleDone(s.bars[s.idx], h[s.idx], u);
    SettleKeeps(s.bars[s.idx], u);
    if s.idx < |s.bars| - 1 {
      BlankFills(s.bars[s.idx + 1]);
      if v.Some? { PreFilling(s.bars[s.idx + 1], [], v.value); }
    }
  }

  lemma BlankFills(b: Bar2)
    requires Blank(b)
    ensures Filling(b, []) && Done(b, [])
  {}

  lemma {:induction false} SkipPrices(s: State, h: seq<seq<real>>, u: Umd)
    requires AtBar(s, h)
    ensures var t := Skip(s, u);
      if Position(t.bars[t.idx], Interval(u.exchTime)) == 1 then AtEnd(t, h, Interval(u.exchTime)) else AtBar(t, h)
    decreases |s.bars| - s.idx
  {
    hide Settle, UpdatePre, Filling, Done, Ahead, Interval;
    var b := s.bars[s.idx];
    if Position(b, Interval(u.exchTime)) == 1 {
      PassPrices(s, h, u, s.last);
      var t := SettleHere(s, u);
      if t.idx < |t.bars| - 1 {
        SkipPrices(Move(t, t.last), h, u);
      }
    }
  }

  lemma LookPrices(s: State, h: seq<seq<real>>, u: Umd)
    requires AtBar(s, h) && u.px > 0.0 && Position(s.bars[s.idx], Interval(u.exchTime)) != 1
    ensures var recorded := Position(s.bars[s.idx], Interval(u.exchTime)) == 0 && NeedOhlc(s.bars[s.idx], u);
      var t := Look(s, u).(last := Some(u));
      PricesOk(t, if recorded then h[s.idx := h[s.idx] + [u.px]] else h, Interval(u.exchTime))
  {
    hide Settle, UpdatePre, Done, Blank, Interval, NeedOhlc, NeedSettle, Fill, Filling;
    var b, ps := s.bars[s.idx], h[s.idx];
    if Position(b, Interval(u.exchTime)) == 0 {
      FillPrices(b, ps, u);
      var t := Put(s, Fill(b, u));
      var g := if NeedOhlc(b, u) then h[s.idx := ps + [u.px]] else h;
      if NeedOhlc(b, u) { FilledBar(Fill(b, u), g[s.idx]); }
      assert Behind(t.bars, g, s.idx) && Ahead(t.bars, g, s.idx + 1);
      if NeedSettle(Fill(b, u), u) {
        PassPrices(t, g, u, Some(u));
        assert Look(s, u) == Move(SettleHere(t, u), Some(u));
      }
    } else {
      PreFilling(b, ps, u);
    }
  }

  lemma FilledBar(b: Bar2, ps: seq<real>)
    requires OfPrices(b, ps)
    ensures Done(b, ps) && (Bounds(b) && !b.auction ==> Filling(b, ps))
  {}

  /** The last bar, settled already, is settled again by a tick behind it. */
  lemma AgainPrices(s: State, h: seq<seq<real>>, u: Umd)
    requires AtEnd(s, h, Interval(u.exchTime)) && s.idx < |s.bars|
    ensures Skip(s, u) == SettleHere(s, u) && Look(Skip(s, u), u) == Skip(s, u)
    ensures AtEnd(Skip(s, u), h, Interval(u.exchTime))
  {
    hide Settle, Done, Interval;
    SettleDone(s.bars[s.idx], h[s.idx], u);
    SettleKeeps(s.bars[s.idx], u);
  }

  lemma TickPrices(s0: State, h: seq<seq<real>>, u: Umd, sec: int)
    requires InRange(s0) && u.px > 0.0 && sec <= Interval(u.exchTime) && |h| == |s0.bars|
    requires PricesOk(if s0.idx == -1 then s0.(idx := 0) else s0, h, sec)
    ensures PricesOk(OnTick(s0, u), Recording(s0, u, h), Interval(u.exchTime)) && OnTick(s0, u).idx >= 0
  {
    hide Settle, UpdatePre, Filling, Done, Behind, Ahead, Interval, NeedOhlc, Look;
    var s := if s0.idx == -1 then s0.(idx := 0) else s0;
    if AtBar(s, h) {
      SkipPrices(s, h, u);
      var t := Skip(s, u);
      if Position(t.bars[t.idx], Interval(u.exchTime)) == 1 {
        LookBehind(t, u);
      } else {
        LookPrices(t, h, u);
      }
    } else if s.idx < |s.bars| {
      AgainPrices(s, h, u);
    }
  }

  lemma LookBehind(s: State, u: Umd)
    requires 0 <= s.idx < |s.bars| && Position(s.bars[s.idx], Interval(u.exchTime)) == 1
    ensures Look(s, u) == s
  {}

  lemma {:induction false} TicksPrices(s: State, us: seq<Umd>)
    requires Initial(s) && us != [] && forall i | 0 <= i < |s.bars| :: Blank(s.bars[i])
    requires InOrder(us)
    ensures PricesOk(Ticks(s, us), Prices(s, us), Interval(us[|us| - 1].exchTime)) && Ticks(s, us).idx >= 0
  {
    hide Interval, OnTick, Recorded, Recording, Blank, AtBar, AtEnd;
    var before, u := us[..|us| - 1], us[|us| - 1];
    var h := Prices(s, before);
    if before == [] {
      StartPrices(s, h, Interval(u.exchTime));
      TickPrices(s, h, u, Interval(u.exchTime));
    } else {
      TicksPrices(s, before);
      TickPrices(Ticks(s, before), h, u, Interval(before[|before| - 1].exchTime));
    }
  }

  lemma StartPrices(s: State, h: seq<seq<real>>, sec: int)
    requires Initial(s) && |h| == |s.bars| && forall i | 0 <= i < |s.bars| :: Blank(s.bars[i]) && h[i] == []
    ensures PricesOk(s.(idx := 0), h, sec)
  {
    hide Filling, Done, Blank;
    if s.bars != [] { BlankFills(s.bars[0]); }
  }

  lemma {:induction false} RestPrices(s: State, h: seq<seq<real>>)
    requires 0 <= s.idx <= |s.bars| == |h| && Behind(s.bars, h, s.idx)
    requires s.idx < |s.bars| ==> Filling(s.bars[s.idx], h[s.idx]) || Done(s.bars[s.idx], h[s.idx])
    requires Ahead(s.bars, h, s.idx + 1)
    ensures Behind(SettleRest(s).bars, h, |s.bars|)
    decreases |s.bars| - s.idx
  {
    hide Settle, Filling, Done, Blank;
    if s.idx < |s.bars| {
      var u := if s.last.Some? then s.last.value else NO_TICK;
      SettleDone(s.bars[s.idx], h[s.idx], u);
      if s.idx + 1 < |s.bars| { BlankFills(s.bars[s.idx + 1]); }
      var t := SettleHere(s, u);
      RestPrices(t.(idx := t.idx + 1), h);
    }
  }

  /**
   * After a day of ticks, and whatever the ticks were, each bar's prices are the first, highest, lowest and last it
   * recorded, or, when it recorded none, all four are the price it started from.
   */
  lemma DayPrices(s: State, us: seq<Umd>)
    requires Initial(s) && forall i | 0 <= i < |s.bars| :: Blank(s.bars[i])
    requires InOrder(us)
    ensures var t := OnFinish(Ticks(s, us));
      |t.bars| == |s.bars| && forall i | 0 <= i < |s.bars| :: Done(t.bars[i], Prices(s, us)[i])
  {
    hide Interval, OnTick, Recorded, Recording, Filling, Done, SettleRest, Blank;
    var h := Prices(s, us);
    if us == [] {
      StartPrices(s, h, 0);
      RestPrices(s.(idx := 0), h);
    } else {
      TicksPrices(s, us);
      RestPrices(Ticks(s, us), h);
    }
  }

  // ---------------------------------------------------------------- which ticks those are

  /** The prices of the ticks inside a trading bar; where a session ends, the first tick of the closing second is the last. */
  function InBar(us: seq<Umd>, b: Bar2): seq<real> {
    if us == [] then []
    else
      var before, u := us[..|us| - 1], us[|us| - 1];
      var first := before == [] || Interval(before[|before| - 1].exchTime) < b.eob;
      InBar(before, b) + if Taken(b, Interval(u.exchTime), first) then [u.px] else []
  }

  predicate Taken(b: Bar2, sec: int, first: bool) {
    b.bob <= sec < b.eob || (b.settleSec != 0 && sec == b.eob && first)
  }

  predicate SameCut(a: Bar2, b: Bar2) {
    && a.bob == b.bob && a.eob == b.eob && a.settleSec == b.settleSec && a.auction == b.auction
    && a.adjBob == b.adjBob && a.adjEob == b.adjEob
  }

  predicate SameEnds(a: seq<Bar2>, b: seq<Bar2>) {
    |a| == |b| && forall i | 0 <= i < |a| :: a[i].adjEob == b[i].adjEob
  }

  /** How far the maker is with bar k, cut as c, once a tick at this second was processed. */
  predicate Place(s: State, k: nat, c: Bar2, sec: int)
    requires k < |s.bars|
  {
    if s.idx > k then sec >= c.eob
    else if |s.settled| > s.idx then s.idx == k && sec >= c.adjEob
    else sec < (if s.idx < k then c.bob else c.eob) && SameCut(s.bars[k], c)
  }

  /** A trading bar that the bars before it do not reach into. */
  predicate Apart(bars: seq<Bar2>, k: nat) {
    && k < |bars| && !bars[k].auction && bars[k].bob < bars[k].eob && Bounds(bars[k])
    && forall j | 0 <= j < k :: bars[j].adjEob <= bars[k].bob
  }

  lemma CutKept(b: Bar2, u: Umd)
    ensures SameCut(UpdatePre(b, u), b) && SameCut(Fill(b, u), b)
  {
    hide BaseSec, Interval;
  }

  /** How many bars a tick passes, and where that leaves the maker. */
  lemma {:induction false} SkipCount(s: State, u: Umd)
    requires 0 <= s.idx < |s.bars|
    ensures var t, sec := Skip(s, u), Interval(u.exchTime);
      if Position(t.bars[t.idx], sec) == 1 then t.idx == |s.bars| - 1 && |t.settled| == |s.settled| + t.idx - s.idx + 1
      else |t.settled| == |s.settled| + t.idx - s.idx
    decreases |s.bars| - s.idx
  {
    hide Settle, UpdatePre, Interval, Position;
    if Position(s.bars[s.idx], Interval(u.exchTime)) == 1 {
      SettleKeeps(s.bars[s.idx], u);
      var t := SettleHere(s, u);
      PositionKept(t.bars[s.idx], s.bars[s.idx], Interval(u.exchTime));
      if t.idx < |t.bars| - 1 { SkipCount(Move(t, t.last), u); }
    }
  }

  /** Passing the current bar. */
  lemma PassKeeps(s: State, u: Umd, k: nat)
    requires 0 <= s.idx < |s.bars| - 1 && k < |s.bars| && Position(s.bars[s.idx], Interval(u.exchTime)) == 1
    ensures var t := SettleHere(s, u); var m := Move(t, t.last);
      SameEnds(m.bars, s.bars) && s.bars[s.idx].adjEob <= Interval(u.exchTime) && m.idx == s.idx + 1 && |m.bars| == |s.bars| &&
      (s.idx < k ==> SameCut(m.bars[k], s.bars[k]))
  {
    hide Settle, UpdatePre, Interval;
    SettleKeeps(s.bars[s.idx], u);
    if s.last.Some? { CutKept(s.bars[s.idx + 1], s.last.value); }
  }

  lemma {:induction false} SkipTo(s: State, u: Umd, k: nat)
    requires 0 <= s.idx < |s.bars| && k < |s.bars|
    ensures var t, sec := Skip(s, u), Interval(u.exchTime);
      SameEnds(t.bars, s.bars) && (forall i | s.idx <= i < t.idx :: s.bars[i].adjEob <= sec) &&
      (t.idx < k || (t.idx == k && Position(t.bars[k], sec) != 1) ==> SameCut(t.bars[k], s.bars[k]))
    decreases |s.bars| - s.idx
  {
    hide Settle, Move, Interval, Position;
    if Position(s.bars[s.idx], Interval(u.exchTime)) == 1 {
      var t := SettleHere(s, u);
      if t.idx < |t.bars| - 1 {
        PassKeeps(s, u, k);
        SkipTo(Move(t, t.last), u, k);
      } else {
        SettleKeeps(s.bars[s.idx], u);
        PositionKept(t.bars[s.idx], s.bars[s.idx], Interval(u.exchTime));
      }
    }
  }

  /** What a tick at bar k or before it does there. */
  lemma LookPlace(s: State, u: Umd, k: nat, c: Bar2)
    requires 0 <= s.idx <= k < |s.bars| && |s.settled| == s.idx && Position(s.bars[s.idx], Interval(u.exchTime)) != 1
    requires SameCut(s.bars[k], c) && Bounds(c) && !c.auction && c.bob < c.eob
    requires s.idx < k ==> s.bars[s.idx].adjEob <= c.bob
    ensures var t, sec := Look(s, u), Interval(u.exchTime);
      SameEnds(t.bars, s.bars) && Place(t.(last := Some(u)), k, c, sec) &&
      (if s.idx == k then Position(s.bars[k], sec) == 0 && NeedOhlc(s.bars[k], u) <==> Taken(c, sec, true)
       else sec < c.bob)
  {
    hide Settle, UpdatePre, Fill, Interval;
    var b := s.bars[s.idx];
    CutKept(b, u);
    SettleKeeps(Fill(b, u), u);
    if s.idx + 1 < |s.bars| { CutKept(s.bars[s.idx + 1], u); }
  }

  /** One tick: bar k records it exactly when it lies inside. */
  lemma TickPlace(s: State, h: seq<seq<real>>, u: Umd, bars: seq<Bar2>, k: nat, prev: int)
    requires InRange(s) && s.idx >= 0 && PricesOk(s, h, prev) && SameEnds(s.bars, bars) && Apart(bars, k)
    requires Place(s, k, bars[k], prev) && prev <= Interval(u.exchTime)
    ensures var t, sec := OnTick(s, u), Interval(u.exchTime);
      SameEnds(t.bars, bars) && Place(t, k, bars[k], sec) &&
      Recording(s, u, h)[k] == h[k] + if Taken(bars[k], sec, prev < bars[k].eob) then [u.px] else []
  {
    hide Settle, UpdatePre, Fill, Interval, Filling, Done, Blank, NeedOhlc, Look;
    var c, sec := bars[k], Interval(u.exchTime);
    if s.idx < |s.bars| {
      SkipTo(s, u, k);
      SkipCount(s, u);
      var t := Skip(s, u);
      if Position(t.bars[t.idx], sec) == 1 {
        LookBehind(t, u);
      } else if t.idx <= k {
        LookPlace(t, u, k, c);
      } else {
        LookBeyond(t, u);
      }
    }
  }

  lemma LookBeyond(s: State, u: Umd)
    requires 0 <= s.idx < |s.bars|
    ensures SameEnds(Look(s, u).bars, s.bars) && Look(s, u).idx >= s.idx
  {
    hide Settle, UpdatePre, Fill, Interval;
    CutKept(s.bars[s.idx], u);
    SettleKeeps(Fill(s.bars[s.idx], u), u);
    if s.idx + 1 < |s.bars| { CutKept(s.bars[s.idx + 1], u); }
  }

  lemma FromStart(s: State, h: seq<seq<real>>, u: Umd)
    requires Initial(s) && |h| == |s.bars|
    ensures OnTick(s, u) == OnTick(s.(idx := 0), u) && Recording(s, u, h) == Recording(s.(idx := 0), u, h)
  {
    hide Skip, Look, Interval, Position, NeedOhlc;
  }

  lemma {:induction false} TicksPlace(s: State, us: seq<Umd>, k: nat)
    requires Initial(s) && us != [] && InOrder(us) && Apart(s.bars, k)
    requires forall i | 0 <= i < |s.bars| :: Blank(s.bars[i])
    ensures var t, sec := Ticks(s, us), Interval(us[|us| - 1].exchTime);
      SameEnds(t.bars, s.bars) && Place(t, k, s.bars[k], sec) && Prices(s, us)[k] == InBar(us, s.bars[k])
  {
    hide Interval, OnTick, Recorded, Recording, Blank, AtBar, AtEnd, Place, Taken;
    var before, u := us[..|us| - 1], us[|us| - 1];
    var h, bars := Prices(s, before), s.bars;
    assert Apart(bars, k);
    if before == [] {
      var prev := PlaceStart(s, k, Interval(u.exchTime));
      StartPrices(s, h, prev);
      FromStart(s, h, u);
      TickPlace(s.(idx := 0), h, u, bars, k, prev);
      assert InBar(before, bars[k]) == [];
    } else {
      TicksPlace(s, before, k);
      TicksPrices(s, before);
      TickPlace(Ticks(s, before), h, u, bars, k, Interval(before[|before| - 1].exchTime));
    }
  }

  /** Before the first tick, time stands before bar k. */
  lemma PlaceStart(s: State, k: nat, sec: int) returns (prev: int)
    requires Initial(s) && Apart(s.bars, k)
    ensures prev <= sec && prev < s.bars[k].eob && Place(s.(idx := 0), k, s.bars[k], prev)
  {
    prev := if sec < s.bars[k].bob then sec else s.bars[k].bob - 1;
  }

  /**
   * What a trading bar records are the ticks inside it, in order, none of another bar's and none missing. Of the ticks
   * in the second at which a session ends only the first is recorded, because it settles the bar.
   */
  lemma TradingPrices(s: State, us: seq<Umd>, k: nat)
    requires Initial(s) && InOrder(us) && Apart(s.bars, k) && forall i | 0 <= i < |s.bars| :: Blank(s.bars[i])
    ensures Prices(s, us)[k] == InBar(us, s.bars[k])
  {
    if us != [] { TicksPlace(s, us, k); }
  }

  // ---------------------------------------------------------------- and when it does not

  /** A time of day at which a tick can come. */
  function TickAt(sec: int): int { (INTRA_DAY_BASE_SEC - 8 * 3600 + sec) * NANO }

  lemma TickTime(sec: int)
    requires 0 <= sec < 86400
    ensures Interval(TickAt(sec)) == sec
  {
    ClockOfDay(0, sec, 0);
  }

  /**
   * The clock of the bars, on every day: a tick that comes at second `sec` of accounting day d, at any nanosecond within it,
   * is at second `sec`, and that day began at its own 18:00 in Beijing.
   */
  lemma ClockOfDay(d: nat, sec: int, ns: int)
    requires 0 <= sec < 86400 && 0 <= ns < NANO
    ensures var nano := TickAt(sec) + d * 86400 * NANO + ns;
      Interval(nano) == sec && BaseSec(nano) * NANO == TickAt(0) + d * 86400 * NANO
  {
    var nano := TickAt(sec) + d * 86400 * NANO + ns;
    assert TruncDiv(nano, NANO) == INTRA_DAY_BASE_SEC - 8 * 3600 + sec + d * 86400;
  }

  /** Every time from the first accounting day on is a second of the day; before it the clock stands below zero. */
  lemma ClockInDay(nano: int)
    requires nano >= 0
    ensures if nano >= TickAt(0) then 0 <= Interval(nano) < 86400 else Interval(nano) < 0
  {
    if nano >= TickAt(0) {
      var n := nano / NANO - (INTRA_DAY_BASE_SEC - 8 * 3600);
      ClockOfDay(n / 86400, n % 86400, nano % NANO);
    }
  }

  /** A tick does not get past a bar that is not over. */
  lemma {:induction false} SkipStops(s: State, u: Umd, j: nat)
    requires 0 <= s.idx <= j < |s.bars| && s.bars[j].adjEob > Interval(u.exchTime)
    ensures Skip(s, u).idx <= j
    decreases |s.bars| - s.idx
  {
    hide Settle, Move, Interval, SameCut;
    if Position(s.bars[s.idx], Interval(u.exchTime)) == 1 {
      var t := SettleHere(s, u);
      if t.idx < |t.bars| - 1 {
        PassKeeps(s, u, 0);
        SkipStops(Move(t, t.last), u, j);
      }
    }
  }

  /** A first tick inside bar k that finds bar j before it not over is not recorded in bar k. */
  lemma TickLost(s: State, u: Umd, j: nat, k: nat)
    requires Initial(s) && j < k < |s.bars| && s.bars[j].adjEob > Interval(u.exchTime) && Taken(s.bars[k], Interval(u.exchTime), true)
    ensures Prices(s, [u])[k] == [] && InBar([u], s.bars[k]) == [u.px]
  {
    hide Interval, Skip, NeedOhlc, Taken, Position;
    var us := [u];
    assert us[..0] == [];
    SkipStops(s.(idx := 0), u, j);
    assert Prices(s, us[..0])[k] == [] && InBar(us[..0], s.bars[k]) == [];
  }

  /** The maker has not passed bar j, whose times are still those of the cut. */
  predicate Short(s: State, bars: seq<Bar2>, j: nat)
    requires j < |bars|
  {
    InRange(s) && s.idx <= j && SameEnds(s.bars, bars) && SameCut(s.bars[j], bars[j])
  }

  lemma LookStays(s: State, u: Umd, bars: seq<Bar2>, j: nat)
    requires j < |bars| && s.idx >= 0 && Short(s, bars, j)
    requires Position(s.bars[s.idx], Interval(u.exchTime)) != 1 && Interval(u.exchTime) < bars[j].adjBob
    ensures Short(Look(s, u).(last := Some(u)), bars, j)
  {
    hide Settle, UpdatePre, Fill, Interval;
    CutKept(s.bars[s.idx], u);
    SettleKeeps(Fill(s.bars[s.idx], u), u);
    if s.idx + 1 < |s.bars| { CutKept(s.bars[s.idx + 1], u); }
  }

  /** Where a tick before bar j's time finds the maker. */
  lemma SkipShort(s: State, u: Umd, bars: seq<Bar2>, j: nat)
    requires j < |bars| && s.idx >= 0 && Short(s, bars, j)
    requires Interval(u.exchTime) < bars[j].adjBob <= bars[j].adjEob
    ensures var t, sec := Skip(s, u), Interval(u.exchTime);
      Short(t, bars, j) && Position(t.bars[t.idx], sec) != 1 && (t.idx < j ==> sec < bars[t.idx].adjEob)
  {
    hide Interval, Skip;
    SkipStops(s, u, j);
    SkipTo(s, u, j);
    SkipCount(s, u);
  }

  lemma TickStays(s0: State, u: Umd, bars: seq<Bar2>, j: nat)
    requires j < |bars| && Short(s0, bars, j) && Interval(u.exchTime) < bars[j].adjBob <= bars[j].adjEob
    ensures Short(OnTick(s0, u), bars, j)
    ensures (forall i | 0 <= i < j :: bars[i].adjEob <= Interval(u.exchTime)) ==> !Recorded(s0, u)
  {
    hide Interval, Skip, Look, NeedOhlc;
    var s := if s0.idx == -1 then s0.(idx := 0) else s0;
    SkipShort(s, u, bars, j);
    LookStays(Skip(s, u), u, bars, j);
  }

  lemma {:induction false} TicksStay(s: State, us: seq<Umd>, j: nat)
    requires Initial(s) && j < |s.bars| && s.bars[j].adjBob <= s.bars[j].adjEob
    requires forall i | 0 <= i < |us| :: Interval(us[i].exchTime) < s.bars[j].adjBob
    ensures Short(Ticks(s, us), s.bars, j)
  {
    hide Interval, OnTick;
    if us != [] {
      TicksStay(s, us[..|us| - 1], j);
      TickStays(Ticks(s, us[..|us| - 1]), us[|us| - 1], s.bars, j);
    }
  }

  /** After any ticks before bar j's time, one that comes when the bars before j are over is recorded in no bar. */
  lemma TickNowhere(s: State, us: seq<Umd>, u: Umd, j: nat)
    requires Initial(s) && j < |s.bars| && InOrder(us + [u])
    requires Interval(u.exchTime) < s.bars[j].adjBob <= s.bars[j].adjEob
    requires forall i | 0 <= i < j :: s.bars[i].adjEob <= Interval(u.exchTime)
    ensures Prices(s, us + [u]) == Prices(s, us)
  {
    hide Interval, OnTick, Recorded;
    assert (us + [u])[..|us|] == us;
    forall i | 0 <= i < |us| ensures Interval(us[i].exchTime) < s.bars[j].adjBob {
      OrderedBefore(us + [u], i, |us|);
    }
    TicksStay(s, us, j);
    TickStays(Ticks(s, us), u, s.bars, j);
  }

  lemma {:induction false} OrderedBefore(us: seq<Umd>, i: nat, j: nat)
    requires InOrder(us) && i <= j < |us|
    ensures Interval(us[i].exchTime) <= Interval(us[j].exchTime)
    decreases j - i
  {
    hide Interval;
    if i < j { OrderedBefore(us, i, j - 1); }
  }

  /**
   * A trading bar records exactly the ticks inside it, whatever the ticks, if and only if every bar before it in the
   * vector is over when it begins.
   */
  lemma TradingExact(s: State, k: nat)
    requires Initial(s) && (forall i | 0 <= i < |s.bars| :: Blank(s.bars[i]))
    requires k < |s.bars| && !s.bars[k].auction && 0 <= s.bars[k].bob < s.bars[k].eob && s.bars[k].bob < 86400
    ensures (forall us | InOrder(us) :: Prices(s, us)[k] == InBar(us, s.bars[k])) <==> Apart(s.bars, k)
  {
    hide Interval, Prices, InBar, TickAt;
    assert Blank(s.bars[k]);
    if Apart(s.bars, k) {
      forall us | InOrder(us) ensures Prices(s, us)[k] == InBar(us, s.bars[k]) {
        TradingPrices(s, us, k);
      }
    } else {
      var j :| 0 <= j < k && s.bars[j].adjEob > s.bars[k].bob;
      var us := [Umd(TickAt(s.bars[k].bob), 1.0, 0, 0.0, 0.0)];
      TickTime(s.bars[k].bob);
      TickLost(s, us[0], j, k);
      assert InOrder(us);
    }
  }

  // ---------------------------------------------------------------- the second in which a session ends

  /** The bars that are not settled yet have the bounds they were cut with. */
  predicate CutsAhead(s: State, bars: seq<Bar2>) {
    && |s.bars| == |bars| && |s.settled| >= s.idx
    && (|s.settled| == s.idx ==> forall k | 0 <= k < |bars| && s.idx <= k :: SameCut(s.bars[k], bars[k]))
  }

  lemma SkipCuts(s: State, u: Umd, bars: seq<Bar2>)
    requires 0 <= s.idx < |s.bars| && CutsAhead(s, bars)
    ensures var t := Skip(s, u);
      CutsAhead(t, bars) && (Position(t.bars[t.idx], Interval(u.exchTime)) == 1 ==> |t.settled| > t.idx)
  {
    hide Interval, Skip, SameCut;
    SkipCount(s, u);
    var t := Skip(s, u);
    if |t.settled| == t.idx {
      forall k | 0 <= k < |bars| && t.idx <= k ensures SameCut(t.bars[k], bars[k]) {
        SkipTo(s, u, k);
        SameCutTwice(t.bars[k], s.bars[k], bars[k]);
      }
    }
  }

  lemma SameCutTwice(a: Bar2, b: Bar2, c: Bar2)
    ensures SameCut(a, b) && SameCut(b, c) ==> SameCut(a, c)
  {}

  lemma LookCuts(s: State, u: Umd, bars: seq<Bar2>)
    requires 0 <= s.idx < |s.bars| && CutsAhead(s, bars)
    ensures CutsAhead(Look(s, u).(last := Some(u)), bars)
  {
    hide Settle, UpdatePre, Fill, Interval, Position, NeedSettle;
    CutKept(s.bars[s.idx], u);
    if s.idx + 1 < |s.bars| { CutKept(s.bars[s.idx + 1], u); }
  }

  lemma TickCuts(s0: State, u: Umd, bars: seq<Bar2>)
    requires InRange(s0) && CutsAhead(if s0.idx == -1 then s0.(idx := 0) else s0, bars)
    ensures CutsAhead(OnTick(s0, u), bars)
  {
    hide Interval, Skip, Look, CutsAhead;
    var s := if s0.idx == -1 then s0.(idx := 0) else s0;
    if s.idx < |s.bars| {
      SkipCuts(s, u, bars);
      LookCuts(Skip(s, u), u, bars);
    }
  }

  lemma {:induction false} TicksCuts(s: State, us: seq<Umd>)
    requires Initial(s)
    ensures var t := Ticks(s, us); us != [] ==> t.idx >= 0
    ensures var t := Ticks(s, us); CutsAhead(if t.idx == -1 then t.(idx := 0) else t, s.bars)
  {
    hide Interval, OnTick;
    if us != [] {
      var p := Ticks(s, us[..|us| - 1]);
      TicksCuts(s, us[..|us| - 1]);
      TickCuts(p, us[|us| - 1], s.bars);
      TickPlaced(p, us[|us| - 1]);
    }
  }

  lemma TickPlaced(s: State, u: Umd)
    requires InRange(s)
    ensures OnTick(s, u).idx >= 0
  {
    hide Interval, Skip, Position, NeedSettle, Settle, UpdatePre, Fill;
  }

  /** No bar contains this second, and at most one trading bar is settled by it. */
  predicate Closing(bars: seq<Bar2>, sec: int) {
    && (forall k | 0 <= k < |bars| :: !Within(bars[k], sec) && (bars[k].auction ==> bars[k].settleSec == bars[k].adjEob))
    && forall j, k | 0 <= j < |bars| && 0 <= k < |bars| && !bars[j].auction && !bars[k].auction && AtSettle(bars[j], sec)
                     && AtSettle(bars[k], sec) :: j == k
  }

  /** Where a tick of that second is recorded: in the bar it settles. */
  lemma ClosingRecorded(s: State, u: Umd, bars: seq<Bar2>)
    requires 0 <= s.idx < |s.bars| && CutsAhead(s, bars) && |s.settled| == s.idx && Closing(bars, Interval(u.exchTime))
    requires Position(s.bars[s.idx], Interval(u.exchTime)) == 0
    ensures NeedOhlc(s.bars[s.idx], u) <==> !bars[s.idx].auction && AtSettle(bars[s.idx], Interval(u.exchTime))
    ensures NeedSettle(Fill(s.bars[s.idx], u), u) <==> NeedOhlc(s.bars[s.idx], u)
  {
    hide Interval, BaseSec;
    CutKept(s.bars[s.idx], u);
    assert SameCut(s.bars[s.idx], bars[s.idx]);
  }

  /** Once the maker has looked at a tick of that second, it is not before a bar that the second settles. */
  lemma LookClosing(s: State, u: Umd, bars: seq<Bar2>)
    requires 0 <= s.idx < |s.bars| && CutsAhead(s, bars) && Closing(bars, Interval(u.exchTime))
    requires |s.settled| == s.idx && Position(s.bars[s.idx], Interval(u.exchTime)) != 1
    ensures var t, sec := Look(s, u), Interval(u.exchTime);
      t.idx < |t.bars| && |t.settled| == t.idx && Position(t.bars[t.idx], sec) == 0 ==>
        bars[t.idx].auction || !AtSettle(bars[t.idx], sec)
    ensures var t, sec := Look(s, u), Interval(u.exchTime);
      t.idx == s.idx ==> Position(t.bars[t.idx], sec) != 1
    ensures Look(s, u).idx != s.idx ==> !bars[s.idx].auction && AtSettle(bars[s.idx], Interval(u.exchTime))
  {
    hide Interval, Settle, UpdatePre, Fill, NeedOhlc, AtSettle, NeedSettle;
    CutKept(s.bars[s.idx], u);
    if Position(s.bars[s.idx], Interval(u.exchTime)) == 0 {
      ClosingRecorded(s, u, bars);
    }
  }

  /** A further tick of that second, right behind another one, is recorded in no bar. */
  lemma ClosingAgain(s: State, u: Umd, v: Umd, bars: seq<Bar2>)
    requires 0 <= s.idx < |s.bars| && CutsAhead(s, bars) && Closing(bars, Interval(u.exchTime))
    requires |s.settled| == s.idx && Position(s.bars[s.idx], Interval(u.exchTime)) != 1
    requires Interval(v.exchTime) == Interval(u.exchTime)
    ensures var t := Look(s, u).(last := Some(u));
      InRange(t) ==> |t.settled| > t.idx || !Recorded(t, v)
  {
    hide Interval, Look, NeedOhlc, Position, AtSettle, CutsAhead;
    var t, sec := Look(s, u).(last := Some(u)), Interval(v.exchTime);
    LookCuts(s, u, bars);
    LookClosing(s, u, bars);
    LookPlaced(s, u);
    if InRange(t) && |t.settled| <= t.idx && t.idx < |t.bars| {
      SkipCuts(t, v, bars);
      SkipCount(t, v);
      CutsLength(t, bars);
      var x := Skip(t, v);
      if Position(x.bars[x.idx], sec) == 0 {
        ClosingRecorded(x, v, bars);
      }
    }
  }

  lemma LookPlaced(s: State, u: Umd)
    requires 0 <= s.idx < |s.bars|
    ensures Look(s, u).idx >= s.idx && |Look(s, u).bars| == |s.bars|
  {
    hide Interval, Position, NeedSettle, Settle, UpdatePre, Fill;
  }

  lemma CutsLength(s: State, bars: seq<Bar2>)
    requires CutsAhead(s, bars)
    ensures |s.settled| >= s.idx && |s.bars| == |bars|
  {}

  lemma LookCounts(s: State, u: Umd)
    requires 0 <= s.idx < |s.bars|
    ensures |Look(s, u).settled| - Look(s, u).idx == |s.settled| - s.idx
  {
    hide Interval, Position, NeedSettle, Settle, UpdatePre, Fill;
  }

  /** Behind the last bar's end nothing is recorded any more. */
  lemma EndRecords(s: State, h: seq<seq<real>>, u: Umd)
    requires InRange(s) && s.idx >= 0 && PricesOk(s, h, Interval(u.exchTime)) && |s.settled| > s.idx
    ensures !Recorded(s, u)
  {
    hide Interval, Settle, Done, Filling, Blank, NeedOhlc;
    if s.idx < |s.bars| {
      AgainPrices(s, h, u);
      SettleKeeps(s.bars[s.idx], u);
    }
  }

  /** After one tick of a closing second, a second one is not recorded. */
  lemma ClosingStep(p: State, v: Umd, u: Umd, bars: seq<Bar2>)
    requires InRange(p) && CutsAhead(if p.idx == -1 then p.(idx := 0) else p, bars)
    requires Closing(bars, Interval(u.exchTime)) && Interval(v.exchTime) == Interval(u.exchTime) && InRange(OnTick(p, v))
    ensures !Recorded(OnTick(p, v), u) || |OnTick(p, v).settled| > OnTick(p, v).idx
  {
    hide Interval, Skip, Look, NeedOhlc, Position, CutsAhead, Closing;
    var s := if p.idx == -1 then p.(idx := 0) else p;
    if s.idx < |s.bars| {
      var y := Skip(s, v);
      SkipCuts(s, v, bars);
      CutsLength(y, bars);
      LookCounts(y, v);
      if Position(y.bars[y.idx], Interval(v.exchTime)) == 1 {
        LookBehind(y, v);
      } else if |y.settled| == y.idx {
        ClosingAgain(y, v, u, bars);
      }
    }
  }

  lemma PricesNext(s: State, us: seq<Umd>, u: Umd)
    requires InRange(s)
    ensures |Prices(s, us)| == |Ticks(s, us).bars|
    ensures Prices(s, us + [u]) == Recording(Ticks(s, us), u, Prices(s, us))
  {
    hide Recording, OnTick;
    assert (us + [u])[..|us|] == us;
  }

  lemma TicksLast(s: State, us: seq<Umd>)
    requires InRange(s) && us != []
    ensures Ticks(s, us) == OnTick(Ticks(s, us[..|us| - 1]), us[|us| - 1])
  {
    hide OnTick;
  }

  lemma InOrderFront(us: seq<Umd>, u: Umd)
    requires InOrder(us + [u])
    ensures InOrder(us)
  {
    hide Interval;
    assert forall i | 0 <= i < |us| :: us[i] == (us + [u])[i];
  }

  /**
   * In a second that no bar contains, as the one in which a session ends, only the first tick can be recorded: it settles
   * the bar, and the others of that second are in no bar at all.
   */
  lemma ClosingLost(s: State, us: seq<Umd>, u: Umd)
    requires Initial(s) && us != [] && InOrder(us + [u]) && forall i | 0 <= i < |s.bars| :: Blank(s.bars[i])
    requires Interval(us[|us| - 1].exchTime) == Interval(u.exchTime) && Closing(s.bars, Interval(u.exchTime))
    ensures Prices(s, us + [u]) == Prices(s, us)
  {
    InitialRange(s);
    hide Interval, OnTick, Recorded, Blank, Closing, CutsAhead, PricesOk, Prices, Ticks, InOrder, Initial;
    var before, v := us[..|us| - 1], us[|us| - 1];
    InOrderFront(us, u);
    PricesNext(s, us, u);
    TicksLast(s, us);
    TicksCuts(s, before);
    TicksCuts(s, us);
    ClosingStep(Ticks(s, before), v, u, s.bars);
    TicksPrices(s, us);
    if |Ticks(s, us).settled| > Ticks(s, us).idx {
      EndRecords(Ticks(s, us), Prices(s, us), u);
    }
  }

  lemma InitialRange(s: State)
    requires Initial(s)
    ensures InRange(s)
  {}

  // ---------------------------------------------------------------- a bar that never comes out

  /** A bar of one minute that does not end a session. */
  function Minute(bob: int): Bar2 {
    Bar2(bob, bob + 60, false, bob, bob + 60, 0, 0, 0, 0.0, 0.0, 0.0, 0.0, 0, 0.0, 0.0, 0.0, 0, 0.0, 0.0, 0, 0.0, 0.0, 0.0)
  }

  function TickIn(minute: nat): Umd { Umd(TickAt(60 * minute + 10), 5.0, 0, 0.0, 0.0) }

  /** The maker of three minutes, before its first tick. */
  function ThreeMinutes(): State {
    State([Minute(0), Minute(60), Minute(120)], -1, -1, None, [], [])
  }

  predicate MinuteAt(b: Bar2, j: int, ahead: bool, open: real) {
    && b.adjBob == 60 * j && b.adjEob == 60 * j + 60 && !b.auction && b.settleSec == 0 && b.open == open
    && (ahead ==> b.bob == 60 * j && b.eob == 60 * j + 60)
  }

  /** The maker is at minute k of the three, all before it have had a tick, and minute k too if it is filled. */
  predicate AtMinute(s: State, k: nat, filled: bool) {
    && |s.bars| == 3 && s.idx == k < 3 && s.rtn == -1 && s.returned == []
    && forall j | 0 <= j < 3 :: MinuteAt(s.bars[j], j, j >= k, if j < k || (j == k && filled) then 5.0 else 0.0)
  }

  lemma MinuteKept(b: Bar2, j: int, ahead: bool, open: real, u: Umd)
    requires MinuteAt(b, j, ahead, open)
    ensures open != 0.0 ==> MinuteAt(Settle(b, u), j, false, open)
    ensures MinuteAt(UpdatePre(b, u), j, ahead, open)
  {
    hide BaseSec;
  }

  lemma MinuteFilled(b: Bar2, j: int, u: Umd)
    requires MinuteAt(b, j, true, 0.0) && u.px == 5.0
    ensures MinuteAt(Fill(b, u), j, true, 5.0) && !NeedSettle(Fill(b, u), u)
  {
    hide BaseSec, Interval;
  }

  /** The next minute's tick passes the minute before. */
  lemma SkipMinute(s: State, u: Umd, k: nat)
    requires AtMinute(s, k, true) && k < 2 && Interval(u.exchTime) == 60 * (k + 1) + 10
    ensures AtMinute(Skip(s, u), k + 1, false)
  {
    hide Interval, Settle, UpdatePre;
    MinuteKept(s.bars[k], k, true, 5.0, u);
    if s.last.Some? { MinuteKept(s.bars[k + 1], k + 1, true, 0.0, s.last.value); }
    var m := Move(SettleHere(s, u), s.last);
    assert AtMinute(m, k + 1, false);
    assert Position(s.bars[k], 60 * (k + 1) + 10) == 1 && Position(m.bars[k + 1], 60 * (k + 1) + 10) == 0;
    assert Skip(m, u) == m;
  }

  lemma LookMinute(s: State, u: Umd, k: nat)
    requires AtMinute(s, k, false) && Interval(u.exchTime) == 60 * k + 10 && u.px == 5.0
    ensures AtMinute(Look(s, u).(last := Some(u)), k, true)
  {
    hide Interval, Settle, UpdatePre, Fill, NeedSettle;
    MinuteFilled(s.bars[k], k, u);
    assert Position(s.bars[k], 60 * k + 10) == 0;
  }

  lemma FirstMinute(s: State)
    requires s == ThreeMinutes()
    ensures Initial(s) && AtMinute(OnTick(s, TickIn(0)), 0, true)
  {
    hide Interval, TickAt, Look;
    TickTime(10);
    assert Position(s.bars[0], 10) == 0;
    LookMinute(s.(idx := 0), TickIn(0), 0);
  }

  lemma NextMinute(s: State, k: nat)
    requires AtMinute(s, k, true) && k < 2
    ensures AtMinute(OnTick(s, TickIn(k + 1)), k + 1, true)
  {
    hide Interval, TickAt, Look, Skip;
    TickTime(60 * (k + 1) + 10);
    SkipMinute(s, TickIn(k + 1), k);
    LookMinute(Skip(s, TickIn(k + 1)), TickIn(k + 1), k + 1);
  }

  lemma RunNext(s: State, e: Event, es: seq<Event>)
    requires Ok(s)
    ensures Ok(Step(s, e)) && Run(s, [e] + es) == Run(Step(s, e), es)
  {
    hide Step, SettledOk, ReturnedOk;
    StepOk(s, e);
    assert ([e] + es)[1..] == es;
  }

  lemma LastMinute(s: State, es: seq<Event>)
    requires AtMinute(s, 2, true) && Ok(s)
    ensures Ok(Step(s, Get)) && Step(s, Get).returned == [1] && Step(s, Get).bars == s.bars && s.bars[0].open == 5.0
    ensures 0 !in Run(Step(s, Get), es).returned
  {
    hide SettledOk, ReturnedOk, Run;
    assert MinuteAt(s.bars[0], 0, false, 5.0) && MinuteAt(s.bars[1], 1, false, 5.0);
    OnlyTheLast(s, es, 0);
  }

  lemma MinutesOk(s: State)
    requires s == ThreeMinutes()
    ensures Ok(s)
  {}

  /**
   * Ticks in three minutes running, and then one call of `GetBar`: it hands out the second minute, and the first one, which
   * has a price like it, is never handed out, whatever follows.
   */
  lemma MinuteSkipped(s: State, before: seq<Event>, es: seq<Event>)
    requires s == ThreeMinutes() && before == [Tick(TickIn(0)), Tick(TickIn(1)), Tick(TickIn(2)), Get]
    ensures Ok(s) && |Run(s, before).bars| == 3
    ensures Run(s, before).returned == [1] && Run(s, before).bars[0].open == Run(s, before).bars[1].open == 5.0
    ensures 0 !in Run(s, before + es).returned
  {
    hide OnTick, TickIn, SettledOk, ReturnedOk, GetBar, Run;
    var e0, e1, e2 := before[0], before[1], before[2];
    MinutesOk(s);
    FirstMinute(s);
    hide AtMinute, ThreeMinutes;
    MinutesRun(s, e0, e1, e2, []);
    MinutesRun(s, e0, e1, e2, es);
    var s3 := Step(Step(Step(s, e0), e1), e2);
    NextMinute(Step(s, e0), 0);
    NextMinute(Step(Step(s, e0), e1), 1);
    LastMinute(s3, es);
    TwoOpen(s3);
    RunNone(Step(s3, Get));
    assert before == [e0, e1, e2, Get] && before + [] == before;
  }

  lemma TwoOpen(s: State)
    requires AtMinute(s, 2, true)
    ensures |s.bars| == 3 && s.bars[0].open == s.bars[1].open == 5.0
  {
    assert MinuteAt(s.bars[0], 0, false, 5.0) && MinuteAt(s.bars[1], 1, false, 5.0);
  }

  lemma RunNone(s: State)
    requires Ok(s)
    ensures Run(s, []) == s
  {}

  lemma RunPair(s: State, e: Event, f: Event, es: seq<Event>)
    requires Ok(s)
    ensures Ok(Step(s, e)) && Ok(Step(Step(s, e), f)) && Run(s, [e, f] + es) == Run(Step(Step(s, e), f), es)
  {
    hide Step, SettledOk, ReturnedOk, Run;
    RunNext(s, e, [f] + es);
    RunNext(Step(s, e), f, es);
    assert [e, f] + es == [e] + ([f] + es);
  }

  lemma MinutesRun(s: State, e0: Event, e1: Event, e2: Event, es: seq<Event>)
    requires Ok(s)
    ensures Ok(Step(s, e0)) && Ok(Step(Step(s, e0), e1)) && Ok(Step(Step(Step(s, e0), e1), e2))
    ensures Ok(Step(Step(Step(Step(s, e0), e1), e2), Get))
    ensures Run(s, [e0, e1, e2, Get] + es) == Run(Step(Step(Step(Step(s, e0), e1), e2), Get), es)
  {
    hide Step, SettledOk, ReturnedOk, Run;
    RunPair(s, e0, e1, [e2, Get] + es);
    RunPair(Step(Step(s, e0), e1), e2, Get, es);
    FourEvents(e0, e1, e2, Get, es);
  }

  lemma FourEvents(a: Event, b: Event, c: Event, d: Event, es: seq<Event>)
    ensures [a, b, c, d] + es == [a, b] + ([c, d] + es)
  {}
}
