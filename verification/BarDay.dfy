/** From the trading sessions to the prices of the bars: cutting and filling together. */
module BarDay {
  import opened Options
  import opened BarCut
  import opened BarMaking
  import R = BarRun
  import P = BarPrices
  import V = BarValues

  /** Sessions and auctions of one day in order of time, with a break between any two sessions. */
  predicate Listed(sps: seq<Span>) {
    && Ordered(Sessions(sps))
    && (forall i | 0 <= i < |sps| :: 0 <= sps[i].bgn < sps[i].end <= 86400)
    && (forall i | 0 <= i < |sps| - 1 :: sps[i].end <= sps[i + 1].bgn)
  }

  /** Trading seconds listed before span n. */
  function TradedBefore(sps: seq<Span>, n: nat): int
    requires n <= |sps|
  {
    Length(Sessions(sps[..n]), |Sessions(sps[..n])|)
  }

  /** No auction is listed while a bar is open. */
  predicate NoneOpen(sps: seq<Span>, c: int)
    requires c > 0
  {
    forall n | 0 <= n < |sps| && sps[n].auction :: TradedBefore(sps, n) % c == 0
  }

  predicate Cleanly(sps: seq<Span>, c: int) {
    c > 0 && Listed(sps) && Clean(Sessions(sps), c, |Sessions(sps)|)
  }

  // ---------------------------------------------------------------- the order of the spans

  /** The session of a trading second. */
  lemma {:induction false} ClockSession(ss: seq<Span>, n: nat, p: int) returns (m: nat)
    requires Ordered(ss) && n <= |ss| && 0 <= p < Length(ss, n)
    ensures m < n && ss[m].bgn <= Clock(ss, n, p) < ss[m].end
    ensures Length(ss, m) <= p < Length(ss, m + 1)
  {
    if p >= Length(ss, n - 1) { m := n - 1; } else { m := ClockSession(ss, n - 1, p); }
  }

  lemma {:induction false} SessionsOf(sps: seq<Span>, sp: Span)
    ensures sp in Sessions(sps) <==> sp in sps && !sp.auction
  {
    if sps != [] { SessionsOf(sps[1..], sp); }
  }

  /** Where a session stands in the list. */
  lemma SpanOf(sps: seq<Span>, j: nat) returns (i: nat)
    requires j < |Sessions(sps)|
    ensures i < |sps| && sps[i] == Sessions(sps)[j] && !sps[i].auction
  {
    hide Sessions;
    SessionsOf(sps, Sessions(sps)[j]);
    i :| 0 <= i < |sps| && sps[i] == Sessions(sps)[j];
  }

  lemma {:induction false} SessionsPlus(a: seq<Span>, b: seq<Span>)
    ensures Sessions(a + b) == Sessions(a) + Sessions(b)
  {
    if a == [] {
      assert a + b == b;
    } else {
      assert (a + b)[1..] == a[1..] + b;
      SessionsPlus(a[1..], b);
    }
  }

  lemma {:induction false} SessionsApart(ss: seq<Span>, m: nat, n: nat)
    requires Ordered(ss) && m < n < |ss|
    ensures ss[m].end < ss[n].bgn
  {
    if m + 1 < n { SessionsApart(ss, m, n - 1); }
  }

  lemma {:induction false} ListedApart(sps: seq<Span>, m: nat, n: nat)
    requires Listed(sps) && m < n < |sps|
    ensures sps[m].end <= sps[n].bgn
  {
    hide Sessions;
    if m + 1 < n { ListedApart(sps, m, n - 1); }
  }

  lemma {:induction false} LengthPrefix(ss: seq<Span>, m: nat, n: nat)
    requires n <= m <= |ss|
    ensures Length(ss[..m], n) == Length(ss, n)
  {
    if n > 0 { LengthPrefix(ss, m, n - 1); }
  }

  /** The sessions listed before span n, and those from there on. */
  lemma SessionsAt(sps: seq<Span>, n: nat) returns (m: nat)
    requires n <= |sps|
    ensures m == |Sessions(sps[..n])| <= |Sessions(sps)|
    ensures Sessions(sps)[..m] == Sessions(sps[..n]) && Sessions(sps)[m..] == Sessions(sps[n..])
    ensures Length(Sessions(sps), m) == TradedBefore(sps, n)
  {
    hide Sessions;
    m := |Sessions(sps[..n])|;
    SessionsPlus(sps[..n], sps[n..]);
    assert sps == sps[..n] + sps[n..];
    LengthPrefix(Sessions(sps), m, m);
  }

  /** A session of the spans from n on, */
  lemma SpanBehind(sps: seq<Span>, n: nat, m: nat, j: nat) returns (i: nat)
    requires n <= |sps| && m <= j < |Sessions(sps)| && Sessions(sps)[m..] == Sessions(sps[n..])
    ensures n <= i < |sps| && sps[i] == Sessions(sps)[j] && !sps[i].auction
  {
    hide Sessions;
    assert Sessions(sps)[j] == Sessions(sps)[m..][j - m];
    i := SpanOf(sps[n..], j - m);
    i := n + i;
  }

  /** and one of those before. */
  lemma SpanAhead(sps: seq<Span>, n: nat, m: nat, j: nat) returns (i: nat)
    requires n <= |sps| && j < m <= |Sessions(sps)| && Sessions(sps)[..m] == Sessions(sps[..n])
    ensures i < n && sps[i] == Sessions(sps)[j]
  {
    hide Sessions;
    assert Sessions(sps)[j] == Sessions(sps)[..m][j];
    i := SpanOf(sps[..n], j);
  }

  /** Trading time after an auction in the list comes after it on the clock, */
  lemma AfterAuction(sps: seq<Span>, n: nat, p: int)
    requires Listed(sps) && n < |sps| && sps[n].auction
    requires TradedBefore(sps, n) <= p < Length(Sessions(sps), |Sessions(sps)|) && p >= 0
    ensures sps[n].end <= Clock(Sessions(sps), |Sessions(sps)|, p)
  {
    var ss := Sessions(sps);
    assert Ordered(ss);
    hide Clock, Sessions, Listed, Sequential, Length, TradedBefore;
    var m := SessionsAt(sps, n);
    var j := ClockSession(ss, |ss|, p);
    if j < m { LengthGrows(ss, j + 1, m); }
    var i := SpanBehind(sps, n, m, j);
    ListedApart(sps, n, i);
  }

  /** and trading time before it comes before it. */
  lemma BeforeAuction(sps: seq<Span>, n: nat, p: int)
    requires Listed(sps) && n < |sps| && sps[n].auction && 0 <= p < TradedBefore(sps, n)
    ensures p < Length(Sessions(sps), |Sessions(sps)|)
    ensures Clock(Sessions(sps), |Sessions(sps)|, p) < sps[n].bgn
  {
    var ss := Sessions(sps);
    assert Ordered(ss);
    hide Clock, Sessions, Listed, Sequential, Length, TradedBefore;
    var m := SessionsAt(sps, n);
    LengthGrows(ss, m, |ss|);
    var j := ClockSession(ss, |ss|, p);
    if j >= m { LengthGrows(ss, m, j); }
    var i := SpanAhead(sps, n, m, j);
    ListedApart(sps, i, n);
  }

  // ---------------------------------------------------------------- the bars of trading time

  /** No span ends on a trading second that follows another at once. */
  lemma EndsInside(sps: seq<Span>, p: int, q: int)
    requires Listed(sps) && 0 <= p < q < Length(Sessions(sps), |Sessions(sps)|)
    requires var ss := Sessions(sps); Clock(ss, |ss|, p) + 1 == Clock(ss, |ss|, q)
    ensures !EndsSpan(sps, Clock(Sessions(sps), |Sessions(sps)|, q))
  {
    hide Clock, Sessions;
    var ss := Sessions(sps);
    var m := ClockSession(ss, |ss|, p);
    var n := ClockSession(ss, |ss|, q);
    if m < n { SessionsApart(ss, m, n); } else if n < m { SessionsApart(ss, n, m); }
    SessionsOf(sps, ss[n]);
    var k :| 0 <= k < |sps| && sps[k] == ss[n];
    if i :| 0 <= i < |sps| && sps[i].end == Clock(ss, |ss|, q) {
      if i < k { ListedApart(sps, i, k); } else if k < i { ListedApart(sps, k, i); }
    }
  }

  /** Of two bars of trading time, the earlier one is over, closing second included, when the later one begins. */
  lemma BarsApart(sps: seq<Span>, c: int, p: nat, q: nat)
    requires Cleanly(sps, c) && p < q < Count(Sessions(sps), c)
    ensures var ss := Sessions(sps); var a, b := Bar(ss, c, p), Bar(ss, c, q);
      a.eob + (if EndsSpan(sps, a.eob) then 1 else 0) <= b.bob
  {
    hide Clock, EndsSpan, Sequential, Clean, Sessions;
    var ss := Sessions(sps);
    CountMeans(ss, c, q);
    Multiples(p, q, c);
    ClockUp(ss, |ss|, (p + 1) * c - 1, q * c);
    if Clock(ss, |ss|, (p + 1) * c - 1) + 1 == Clock(ss, |ss|, q * c) {
      EndsInside(sps, (p + 1) * c - 1, q * c);
    }
  }

  lemma Multiples(p: nat, q: nat, c: int)
    requires p < q && c > 0
    ensures c <= (p + 1) * c <= q * c
  {}

  lemma BarHasTime(ss: seq<Span>, c: int, q: nat)
    requires Ordered(ss) && c > 0 && q < Count(ss, c)
    ensures Bar(ss, c, q).bob < Bar(ss, c, q).eob
  {
    hide Clock, Sequential;
    CountMeans(ss, c, q);
    var total := Length(ss, |ss|);
    assert (q + 1) * c == q * c + c;
    var last := if (q + 1) * c < total then (q + 1) * c else total;
    if q * c < last - 1 { ClockUp(ss, |ss|, q * c, last - 1); }
  }

  /** Bars of trading time come in order. */
  lemma TradingAt(bars: seq<Cut>, i: nat)
    requires i < |bars| && !bars[i].auction
    ensures |Trading(bars[..i])| < |Trading(bars)| && Trading(bars)[|Trading(bars[..i])|] == bars[i]
    ensures Trading(bars[..i + 1]) == Trading(bars[..i]) + [bars[i]]
  {
    assert bars == bars[..i] + bars[i..] && bars[..i + 1] == bars[..i] + [bars[i]];
    TradingPlus(bars[..i], bars[i..]);
    TradingPlus(bars[..i], [bars[i]]);
  }

  lemma TradingBefore(bars: seq<Cut>, j: nat, i: nat)
    requires j < i <= |bars|
    ensures |Trading(bars[..j])| <= |Trading(bars[..i])|
    ensures !bars[j].auction ==> |Trading(bars[..j])| < |Trading(bars[..i])|
  {
    assert bars[..i] == bars[..j] + bars[j..i];
    TradingPlus(bars[..j], bars[j..i]);
    assert bars[j..i][0] == bars[j];
  }

  /** Where in the vector bar number q of trading time is. */
  lemma {:induction false} TradingIndex(bars: seq<Cut>, q: nat) returns (i: nat)
    requires q < |Trading(bars)|
    ensures i < |bars| && !bars[i].auction && |Trading(bars[..i])| == q
  {
    var n := |bars| - 1;
    assert bars == bars[..n] + [bars[n]];
    TradingPlus(bars[..n], [bars[n]]);
    if q < |Trading(bars[..n])| {
      i := TradingIndex(bars[..n], q);
      assert bars[..n][..i] == bars[..i];
    } else {
      i := n;
    }
  }

  lemma TradingCut(sps: seq<Span>, c: int, i: nat) returns (q: nat)
    requires Cleanly(sps, c) && i < |CutAll(sps, c)| && !CutAll(sps, c)[i].auction
    ensures var cuts := CutAll(sps, c);
      q == |Trading(cuts[..i])| < Count(Sessions(sps), c) && cuts[i] == Bar(Sessions(sps), c, q)
  {
    hide CutAll, Clean, Sequential, Trading, Sessions, Bar;
    CutExact(sps, c);
    TradingAt(CutAll(sps, c), i);
    q := |Trading(CutAll(sps, c)[..i])|;
  }

  // ---------------------------------------------------------------- the bars of auctions

  predicate NoAuctions(bars: seq<Cut>) {
    forall i | 0 <= i < |bars| :: !bars[i].auction
  }

  lemma {:induction false} FullBarsGrow(s: State, end: int, c: int)
    requires c > 0
    ensures var t := FullBars(s, end, c);
      s.bars <= t.bars && NoAuctions(t.bars[|s.bars|..])
    decreases end - s.eob
  {
    if s.bob < end && s.eob <= end {
      FullBarsGrow(State(s.bars + [Cut(s.bob, s.eob, false)], s.leave, s.eob, s.eob + c), end, c);
    }
  }

  lemma SpanGrows(s: State, sp: Span, c: int)
    requires c > 0
    ensures var t := CutSpan(s, sp, c);
      s.bars <= t.bars &&
      if sp.auction then t.bars == s.bars + [Cut(sp.bgn, sp.end, true)]
      else NoAuctions(t.bars[|s.bars|..])
  {
    hide FullBars;
    if !sp.auction {
      var begun := if s.leave == 0 then s.(bob := sp.bgn, eob := sp.bgn + c) else s.(eob := sp.bgn + s.leave);
      FullBarsGrow(begun, sp.end, c);
    }
  }

  lemma {:induction false} SpansGrow(s: State, sps: seq<Span>, c: int)
    requires c > 0
    ensures s.bars <= CutSpans(s, sps, c).bars
    decreases |sps|
  {
    hide CutSpan;
    if sps != [] {
      SpanGrows(s, sps[0], c);
      SpansGrow(CutSpan(s, sps[0], c), sps[1..], c);
    }
  }

  /** The bars cut before span n. */
  function CutBefore(sps: seq<Span>, c: int, n: nat): seq<Cut>
    requires c > 0 && n <= |sps|
  {
    CutSpans(START, sps[..n], c).bars
  }

  lemma CutBeforeGrows(sps: seq<Span>, c: int, n: nat)
    requires c > 0 && n < |sps|
    ensures CutBefore(sps, c, n) <= CutBefore(sps, c, n + 1) <= CutAll(sps, c)
    ensures if sps[n].auction then CutBefore(sps, c, n + 1) == CutBefore(sps, c, n) + [Cut(sps[n].bgn, sps[n].end, true)]
            else NoAuctions(CutBefore(sps, c, n + 1)[|CutBefore(sps, c, n)|..])
  {
    hide CutSpans, CutSpan;
    assert sps[..n + 1] == sps[..n] + [sps[n]] && sps == sps[..n + 1] + sps[n + 1..];
    SpansLast(START, sps[..n], sps[n], c);
    SpanGrows(CutSpans(START, sps[..n], c), sps[n], c);
    SpansSplit(START, sps[..n + 1], sps[n + 1..], c);
    SpansGrow(CutSpans(START, sps[..n + 1], c), sps[n + 1..], c);
  }

  /** The auction a bar comes from. */
  lemma {:induction false} WhichAuction(sps: seq<Span>, c: int, m: nat, j: nat) returns (n: nat)
    requires c > 0 && m <= |sps| && j < |CutBefore(sps, c, m)| && CutBefore(sps, c, m)[j].auction
    ensures n < m && sps[n].auction && |CutBefore(sps, c, n)| == j
    ensures CutBefore(sps, c, m)[j] == Cut(sps[n].bgn, sps[n].end, true)
  {
    hide CutSpans, CutAll;
    NothingCut(c);
    assert sps[..0] == [];
    CutBeforeGrows(sps, c, m - 1);
    var before := |CutBefore(sps, c, m - 1)|;
    if j < before {
      n := WhichAuction(sps, c, m - 1, j);
    } else {
      n := m - 1;
      assert CutBefore(sps, c, m)[before..][j - before] == CutBefore(sps, c, m)[j];
    }
  }

  lemma NothingCut(c: int)
    requires c > 0
    ensures CutSpans(START, [], c).bars == []
  {}

  lemma AuctionBar(sps: seq<Span>, c: int, j: nat) returns (n: nat)
    requires c > 0 && j < |CutAll(sps, c)| && CutAll(sps, c)[j].auction
    ensures n < |sps| && sps[n].auction && |CutBefore(sps, c, n)| == j && CutBefore(sps, c, n) == CutAll(sps, c)[..j]
    ensures CutAll(sps, c)[j] == Cut(sps[n].bgn, sps[n].end, true)
  {
    hide CutSpans;
    assert sps[..|sps|] == sps;
    n := WhichAuction(sps, c, |sps|, j);
    CutBeforeGrows(sps, c, n);
  }

  /** How many bars of trading time were finished before span n. */
  lemma Finished(sps: seq<Span>, c: int, n: nat) returns (k: nat)
    requires Cleanly(sps, c) && n <= |sps|
    ensures |Trading(CutBefore(sps, c, n))| == k && k * c <= TradedBefore(sps, n) < (k + 1) * c
  {
    hide CutSpans, Sessions, Trading, Sequential, After, TradedBefore;
    var ss := Sessions(sps);
    var m := SessionsAt(sps, n);
    assert Clean(ss, c, m);
    k := SpansAfter(ss, c, m);
    AfterCount(ss, c, m, CutSpans(START, ss[..m], c), k);
    StartSame();
    SpansTrading(START, START, sps[..n], c);
  }

  lemma StartSame()
    ensures SameTrading(START, START)
  {}

  lemma AfterCount(ss: seq<Span>, c: int, n: nat, s: State, k: nat)
    requires c > 0 && n <= |ss| && After(ss, c, n, s, k)
    ensures |s.bars| == k && k * c <= Length(ss, n) < (k + 1) * c
  {}

  // ---------------------------------------------------------------- which bars have their time to themselves

  lemma AuctionBefore(sps: seq<Span>, c: int, j: nat, i: nat)
    requires Cleanly(sps, c) && NoneOpen(sps, c) && j < i < |CutAll(sps, c)|
    requires CutAll(sps, c)[j].auction && !CutAll(sps, c)[i].auction
    ensures CutAll(sps, c)[j].eob <= CutAll(sps, c)[i].bob
  {
    hide CutAll, CutBefore, Clock, Clean, Sequential, Listed, TradedBefore, Trading, Sessions;
    var cuts, ss := CutAll(sps, c), Sessions(sps);
    var q := TradingCut(sps, c, i);
    var n := AuctionBar(sps, c, j);
    var k := Finished(sps, c, n);
    DivIs(TradedBefore(sps, n), c, k);
    TradingBefore(cuts, j, i);
    CountMeans(ss, c, q);
    NoLess(k, q, c);
    AfterAuction(sps, n, q * c);
  }

  lemma NoLess(k: int, q: int, c: int)
    requires c > 0 && k <= q
    ensures k * c <= q * c
  {}

  /** The condition is enough. */
  lemma VecBarApart(sps: seq<Span>, c: int, i: nat)
    requires Cleanly(sps, c) && NoneOpen(sps, c) && i < |CutAll(sps, c)| && !CutAll(sps, c)[i].auction
    ensures P.Apart(VecBar(sps, c), i)
  {
    hide CutAll, Clean, Clock, Sequential, Trading, Sessions, Bar, EndsSpan, NoneOpen;
    var cuts, ss, bars := CutAll(sps, c), Sessions(sps), VecBar(sps, c);
    var q := TradingCut(sps, c, i);
    BarHasTime(ss, c, q);
    VecBarBlank(sps, c);
    assert P.Blank(bars[i]);
    forall j | 0 <= j < i ensures bars[j].adjEob <= bars[i].bob {
      if cuts[j].auction {
        AuctionBefore(sps, c, j, i);
      } else {
        var p := TradingCut(sps, c, j);
        TradingBefore(cuts, j, i);
        BarsApart(sps, c, p, q);
      }
    }
  }

  lemma VecBarBlank(sps: seq<Span>, c: int)
    requires Cleanly(sps, c)
    ensures |VecBar(sps, c)| == |CutAll(sps, c)| && forall i | 0 <= i < |VecBar(sps, c)| :: P.Blank(VecBar(sps, c)[i])
  {
    hide CutAll, Clean, Sequential, Sessions, R.Fresh;
    var ss := Sessions(sps);
    forall i | 0 <= i < |ss| ensures ss[i].bgn >= 0 { SessionsOf(sps, ss[i]); }
    VecBarFresh(sps, c);
  }

  lemma CountAbove(ss: seq<Span>, c: int, k: nat)
    requires c > 0 && k * c < Length(ss, |ss|)
    ensures k < Count(ss, c)
  {
    hide Length;
    var total := Length(ss, |ss|);
    var q := (total + c - 1) / c;
    assert total + c - 1 < q * c + c;
    Minus(q, k, c);
    if q <= k { NoLess(q, k, c); }
  }

  /** A bar that is open when an auction is listed comes behind the auction's bar, and begins before that is over. */
  lemma OpenBar(sps: seq<Span>, c: int, n: nat) returns (i: nat)
    requires Cleanly(sps, c) && n < |sps| && sps[n].auction && TradedBefore(sps, n) % c != 0
    ensures i < |CutAll(sps, c)| && !CutAll(sps, c)[i].auction
    ensures !P.Apart(VecBar(sps, c), i)
  {
    hide CutAll, CutBefore, Clean, Clock, Sequential, Trading, Sessions, EndsSpan;
    var cuts, ss := CutAll(sps, c), Sessions(sps);
    var k := Finished(sps, c, n);
    DivIs(TradedBefore(sps, n), c, k);
    ClockAtBar(k, c);
    BeforeAuction(sps, n, k * c);
    CountAbove(ss, c, k);
    CutExact(sps, c);
    i := TradingIndex(cuts, k);
    var q := TradingCut(sps, c, i);
    CutBeforeGrows(sps, c, n);
    var j := |CutBefore(sps, c, n)|;
    assert cuts[..j] == CutBefore(sps, c, n) && cuts[j] == Cut(sps[n].bgn, sps[n].end, true);
    if i < j { TradingBefore(cuts, i, j); }
    assert VecBar(sps, c)[j].adjEob == sps[n].end > cuts[i].bob;
  }

  // ---------------------------------------------------------------- a whole day

  /** The maker before its first tick. */
  function Made(sps: seq<Span>, c: int): (s: R.State)
    requires c > 0
    ensures R.InRange(s)
  {
    R.State(VecBar(sps, c), -1, -1, None, [], [])
  }

  /** Bar i records the ticks inside it, whatever the ticks of the day. */
  ghost predicate Records(sps: seq<Span>, c: int, i: nat)
    requires c > 0 && i < |CutAll(sps, c)|
  {
    forall us | P.InOrder(us) :: P.Prices(Made(sps, c), us)[i] == P.InBar(us, VecBar(sps, c)[i])
  }

  lemma RecordsExact(sps: seq<Span>, c: int, i: nat)
    requires Cleanly(sps, c) && i < |CutAll(sps, c)| && !CutAll(sps, c)[i].auction
    ensures Records(sps, c, i) <==> P.Apart(VecBar(sps, c), i)
  {
    hide CutAll, Clean, Sessions, Sequential, Clock, P.Apart, P.InBar, P.Prices;
    var ss := Sessions(sps);
    var q := TradingCut(sps, c, i);
    BarHasTime(ss, c, q);
    CountMeans(ss, c, q);
    var m := ClockSession(ss, |ss|, q * c);
    SessionsOf(sps, ss[m]);
    VecBarBlank(sps, c);
    P.TradingExact(Made(sps, c), i);
  }

  /**
   * For spans in order of time that are cut cleanly: every trading bar records exactly the ticks inside it, whatever
   * the ticks, if and only if no auction is listed while a bar is open.
   */
  lemma DayExact(sps: seq<Span>, c: int)
    requires Cleanly(sps, c)
    ensures (forall i | 0 <= i < |CutAll(sps, c)| && !CutAll(sps, c)[i].auction :: Records(sps, c, i)) <==> NoneOpen(sps, c)
  {
    hide CutAll, Listed, Clean, Sessions, Records, TradedBefore, P.Apart, VecBar;
    if NoneOpen(sps, c) {
      forall i | 0 <= i < |CutAll(sps, c)| && !CutAll(sps, c)[i].auction ensures Records(sps, c, i) {
        VecBarApart(sps, c, i);
        RecordsExact(sps, c, i);
      }
    } else {
      var n :| 0 <= n < |sps| && sps[n].auction && TradedBefore(sps, n) % c != 0;
      var i := OpenBar(sps, c, n);
      RecordsExact(sps, c, i);
    }
  }

  /**
   * From the spans of a day and any ticks in order to the finished bars: with no auction listed while a bar is open, a
   * trading bar has the first, highest, lowest and last price of the ticks inside it, and without such a tick the price
   * it started from.
   */
  lemma DayBars(sps: seq<Span>, c: int, us: seq<R.Umd>, i: nat)
    requires Cleanly(sps, c) && NoneOpen(sps, c) && P.InOrder(us) && i < |CutAll(sps, c)| && !CutAll(sps, c)[i].auction
    ensures var t := R.OnFinish(R.Ticks(Made(sps, c), us));
      |t.bars| == |CutAll(sps, c)| && P.Done(t.bars[i], P.InBar(us, VecBar(sps, c)[i]))
  {
    hide CutAll, Listed, Clean, Sessions, NoneOpen, P.Apart, P.InBar, P.Done, P.Prices, R.OnTick, R.Interval, R.SettleRest;
    var s := Made(sps, c);
    VecBarBlank(sps, c);
    VecBarApart(sps, c, i);
    P.DayPrices(s, us);
    P.TradingPrices(s, us, i);
  }

  /**
   * When a generated bar is open to ticks: a trading bar from its beginning to its end, and in the second of its end if a
   * session ends there, which closes it; an auction from two hours before it, or from the beginning of the day if it is the
   * first bar, to its end.
   */
  lemma OpenTimes(sps: seq<Span>, c: int, i: nat, sec: int)
    requires c > 0 && i < |CutAll(sps, c)|
    ensures var b, cut := VecBar(sps, c)[i], CutAll(sps, c)[i];
      var ends := exists m :: 0 <= m < |sps| && sps[m].end == cut.eob;
      && b.bob == cut.bob && b.eob == cut.eob && (b.auction <==> cut.auction)
      && (R.Position(b, sec) == 0 <==>
            if cut.auction then (if i == 0 then 0 else cut.bob - 2 * 3600) <= sec < cut.eob
            else cut.bob <= sec < cut.eob || (ends && sec == cut.eob && cut.bob <= sec))
      && (V.Closes(b, sec) <==> if cut.auction then cut.bob <= sec < cut.eob else ends && sec == cut.eob && sec != 0)
  {
    hide CutAll;
  }

  /** Every auction has a break of more than two hours before it, but for one that the day begins with. */
  predicate LongBreaks(sps: seq<Span>) {
    forall n | 0 < n < |sps| && sps[n].auction :: sps[n - 1].end + 2 * 3600 < sps[n].bgn
  }

  lemma {:induction false} FullBarsEnd(s: State, end: int, c: int)
    requires c > 0
    ensures forall i | |s.bars| <= i < |FullBars(s, end, c).bars| :: FullBars(s, end, c).bars[i].eob <= end
    decreases end - s.eob
  {
    if s.bob < end && s.eob <= end {
      var t := State(s.bars + [Cut(s.bob, s.eob, false)], s.leave, s.eob, s.eob + c);
      FullBarsEnd(t, end, c);
      FullBarsGrow(t, end, c);
    }
  }

  /** No bar cut before span n is over later than the spans there. */
  lemma {:induction false} CutEnds(sps: seq<Span>, c: int, n: nat, end: int)
    requires c > 0 && n <= |sps| && forall m | 0 <= m < n :: sps[m].end <= end
    ensures forall j | 0 <= j < |CutBefore(sps, c, n)| :: CutBefore(sps, c, n)[j].eob <= end
  {
    hide CutSpans, FullBars, CutAll;
    if n == 0 {
      NothingCut(c);
      assert sps[..0] == [];
    } else {
      CutEnds(sps, c, n - 1, end);
      CutBeforeGrows(sps, c, n - 1);
      var s, sp := CutSpans(START, sps[..n - 1], c), sps[n - 1];
      assert sps[..n] == sps[..n - 1] + [sp];
      SpansLast(START, sps[..n - 1], sp, c);
      if !sp.auction {
        FullBarsEnd(if s.leave == 0 then s.(bob := sp.bgn, eob := sp.bgn + c) else s.(eob := sp.bgn + s.leave), sp.end, c);
      }
    }
  }

  lemma {:induction false} SpansBefore(sps: seq<Span>, m: nat, n: nat)
    requires Listed(sps) && m < n < |sps|
    ensures sps[m].end <= sps[n - 1].end
  {
    if m < n - 1 { SpansBefore(sps, m, n - 1); }
  }

  lemma AuctionClear(sps: seq<Span>, c: int, i: nat)
    requires Cleanly(sps, c) && LongBreaks(sps) && i < |CutAll(sps, c)| && CutAll(sps, c)[i].auction
    ensures V.Clear(VecBar(sps, c), i) && VecBar(sps, c)[i].bob >= 0
  {
    hide CutAll, CutBefore, Clean, Sessions, EndsSpan;
    var n := AuctionBar(sps, c, i);
    var cuts, bars := CutAll(sps, c), VecBar(sps, c);
    if i > 0 {
      if n == 0 { NoneBefore(sps, c); }
      forall m | 0 <= m < n ensures sps[m].end <= sps[n - 1].end { SpansBefore(sps, m, n); }
      CutEnds(sps, c, n, sps[n - 1].end);
      forall j | 0 <= j < i ensures bars[j].adjEob <= bars[i].adjBob {
        assert cuts[j] == CutBefore(sps, c, n)[j];
      }
    }
  }

  lemma NoneBefore(sps: seq<Span>, c: int)
    requires c > 0
    ensures CutBefore(sps, c, 0) == []
  {
    NothingCut(c);
    assert sps[..0] == [];
  }

  /** Bar i has its time to itself: a trading bar as before, an auction by the break before it. */
  lemma ToItself(sps: seq<Span>, c: int, i: nat)
    requires Cleanly(sps, c) && i < |CutAll(sps, c)| && if CutAll(sps, c)[i].auction then LongBreaks(sps) else NoneOpen(sps, c)
    ensures V.Clear(VecBar(sps, c), i) && V.Untouched(VecBar(sps, c)[i]) && VecBar(sps, c)[i].bob >= 0
  {
    hide CutAll, Clean, Sessions, NoneOpen, LongBreaks, Listed, P.Apart, V.Clear;
    VecBarBlank(sps, c);
    if CutAll(sps, c)[i].auction {
      AuctionClear(sps, c, i);
    } else {
      VecBarApart(sps, c, i);
      V.ApartClear(VecBar(sps, c), i);
      CutPlace(sps, c, i);
    }
  }

  /**
   * The rest of a finished bar, a trading bar under the same condition, an auction with a long break before it: if it has
   * recorded ticks, which in an auction is the first one inside, its changes in price, volume, turnover and open interest
   * are those from the tick it starts from, the last one before its time if there is one, to its last; else there are none.
   */
  lemma DayValues(sps: seq<Span>, c: int, us: seq<R.Umd>, i: nat)
    requires Cleanly(sps, c) && P.InOrder(us) && us != []
    requires i < |CutAll(sps, c)| && if CutAll(sps, c)[i].auction then LongBreaks(sps) else NoneOpen(sps, c)
    ensures |R.OnFinish(R.Ticks(Made(sps, c), us)).bars| == |CutAll(sps, c)|
    ensures var b, cut := R.OnFinish(R.Ticks(Made(sps, c), us)).bars[i], VecBar(sps, c)[i];
      var ts := V.TicksIn(us, cut);
      if ts == [] then V.NoChange(b)
      else V.Holds(b, ts) && V.Origin(us, cut).Some? && V.Changes(b, V.Origin(us, cut).value, ts[|ts| - 1])
  {
    hide CutAll, Listed, Clean, Sessions, NoneOpen, LongBreaks, V.Clear, R.OnTick, R.Interval, R.SettleRest, V.TicksIn, V.Origin, V.Holds,
         V.Changes, V.NoChange, V.SameDay, V.StartsFrom;
    VecBarBlank(sps, c);
    ToItself(sps, c, i);
    V.SettledValues(Made(sps, c), us, i);
  }

  /**
   * And its times, on the day of its first tick or, without one, on the one day of all ticks: they are its own, unless it is
   * the day's last bar and the last tick lies behind it with none that closes it.
   */
  lemma DayTimes(sps: seq<Span>, c: int, us: seq<R.Umd>, i: nat, base: int)
    requires Cleanly(sps, c) && P.InOrder(us) && us != [] && base > 0
    requires i < |CutAll(sps, c)| && if CutAll(sps, c)[i].auction then LongBreaks(sps) else NoneOpen(sps, c)
    requires var ts := V.TicksIn(us, VecBar(sps, c)[i]);
      if ts == [] then V.SameDay(us, base) else base == R.BaseSec(ts[0].exchTime)
    ensures |R.OnFinish(R.Ticks(Made(sps, c), us)).bars| == |CutAll(sps, c)|
    ensures var b, cut := R.OnFinish(R.Ticks(Made(sps, c), us)).bars[i], VecBar(sps, c)[i];
      b.bob == (cut.bob + base) * R.NANO && b.eob == (cut.eob + base) * R.NANO <==>
      i < |CutAll(sps, c)| - 1 || V.ClosedIn(us, cut) || V.AllBefore(us, cut.adjEob)
  {
    hide CutAll, Listed, Clean, Sessions, NoneOpen, LongBreaks, V.Clear, R.OnTick, R.Interval, R.SettleRest, V.TicksIn, V.SameDay,
         R.BaseSec, V.ClosedIn, V.AllBefore;
    VecBarBlank(sps, c);
    ToItself(sps, c, i);
    V.TimesExact(Made(sps, c), us, i, base);
  }

  lemma CutPlace(sps: seq<Span>, c: int, i: nat)
    requires Cleanly(sps, c) && i < |CutAll(sps, c)| && !CutAll(sps, c)[i].auction
    ensures VecBar(sps, c)[i].bob >= 0
  {
    hide CutAll, Clean, Sessions, Sequential, Clock;
    var ss := Sessions(sps);
    var q := TradingCut(sps, c, i);
    BarHasTime(ss, c, q);
    CountMeans(ss, c, q);
    var m := ClockSession(ss, |ss|, q * c);
    SessionsOf(sps, ss[m]);
  }

  // ---------------------------------------------------------------- the second in which a session ends

  /** The bars of trading time, as seen from the end of one of them. */
  lemma EndSeen(sps: seq<Span>, c: int, i: nat, j: nat)
    requires Cleanly(sps, c) && i < |CutAll(sps, c)| && j < |CutAll(sps, c)|
    requires !CutAll(sps, c)[i].auction && !CutAll(sps, c)[j].auction && EndsSpan(sps, CutAll(sps, c)[i].eob)
    ensures var sec, b := CutAll(sps, c)[i].eob, CutAll(sps, c)[j]; !(b.bob <= sec < b.eob) && (b.eob == sec ==> i == j)
  {
    hide CutAll, Clean, Sequential, Trading, Sessions, Bar, EndsSpan, Listed;
    var cuts, ss := CutAll(sps, c), Sessions(sps);
    assert Ordered(ss) by { ListedOrdered(sps); }
    var p := TradingCut(sps, c, i);
    var q := TradingCut(sps, c, j);
    BarHasTime(ss, c, p);
    BarHasTime(ss, c, q);
    if i < j {
      TradingBefore(cuts, i, j);
      BarsApart(sps, c, p, q);
    } else if j < i {
      TradingBefore(cuts, j, i);
      BarsApart(sps, c, q, p);
    }
  }

  lemma ListedOrdered(sps: seq<Span>)
    requires Listed(sps)
    ensures Ordered(Sessions(sps))
  {}

  /**
   * At the end of a session with which a bar ends, outside any auction: whatever came before, a tick in that second behind
   * another one of the same second is recorded in no bar.
   */
  lemma ClosingSecond(sps: seq<Span>, c: int, i: nat, us: seq<R.Umd>, u: R.Umd)
    requires Cleanly(sps, c) && i < |CutAll(sps, c)| && !CutAll(sps, c)[i].auction && EndsSpan(sps, CutAll(sps, c)[i].eob)
    requires forall n | 0 <= n < |sps| && sps[n].auction :: !(sps[n].bgn <= CutAll(sps, c)[i].eob < sps[n].end)
    requires us != [] && P.InOrder(us + [u])
    requires R.Interval(us[|us| - 1].exchTime) == R.Interval(u.exchTime) == CutAll(sps, c)[i].eob
    ensures P.Prices(Made(sps, c), us + [u]) == P.Prices(Made(sps, c), us)
  {
    hide CutAll, Listed, Clean, Sessions, EndsSpan, R.Interval, P.Prices, P.InOrder, CutBefore;
    var bars, sec := VecBar(sps, c), CutAll(sps, c)[i].eob;
    VecBarBlank(sps, c);
    forall k | 0 <= k < |bars|
      ensures !R.Within(bars[k], sec) && (bars[k].auction ==> bars[k].settleSec == bars[k].adjEob)
      ensures !bars[k].auction && R.AtSettle(bars[k], sec) ==> k == i
    {
      if CutAll(sps, c)[k].auction {
        var n := AuctionBar(sps, c, k);
      } else {
        EndSeen(sps, c, i, k);
      }
    }
    P.ClosingLost(Made(sps, c), us, u);
  }

  // ---------------------------------------------------------------- a product with a night session

  /** Its spans, from six in the evening on: a night session until half past eleven, and an auction on either side. */
  const NIGHT_PRODUCT := [Span(10740, 10800, true), Span(10800, 19800, false), Span(53940, 54000, true),
                          Span(54000, 58500, false), Span(59400, 63000, false), Span(70200, 75600, false)]

  lemma SessionsFirst(sp: Span, sps: seq<Span>)
    ensures Sessions([sp] + sps) == (if sp.auction then [] else [sp]) + Sessions(sps)
  {
    assert ([sp] + sps)[1..] == sps;
  }

  lemma NightSessions()
    ensures Sessions(NIGHT_PRODUCT) == NIGHT_UNTIL_2330
    ensures TradedBefore(NIGHT_PRODUCT, 0) == 0 && TradedBefore(NIGHT_PRODUCT, 2) == 9000
  {
    var s := NIGHT_PRODUCT;
    SessionsFirst(s[5], []);
    SessionsFirst(s[4], [s[5]]);
    SessionsFirst(s[3], [s[4], s[5]]);
    SessionsFirst(s[2], [s[3], s[4], s[5]]);
    SessionsFirst(s[1], [s[2], s[3], s[4], s[5]]);
    SessionsFirst(s[0], [s[1], s[2], s[3], s[4], s[5]]);
    SessionsFirst(s[1], []);
    SessionsFirst(s[0], [s[1]]);
    assert s[..2] == [s[0]] + [s[1]] && s[..0] == [];
  }

  lemma NightListed()
    ensures Listed(NIGHT_PRODUCT)
    ensures forall n | 0 <= n < 6 :: NIGHT_PRODUCT[n].auction <==> n == 0 || n == 2
  {
    hide Sessions;
    NightSessions();
  }

  lemma NightLengths()
    ensures var ss := NIGHT_UNTIL_2330;
      Length(ss, 0) == 0 && Length(ss, 1) == 9000 && Length(ss, 2) == 13500 && Length(ss, 3) == 17100 && Length(ss, 4) == 22500
  {
    var ss := NIGHT_UNTIL_2330;
    assert Length(ss, 1) == 9000 && Length(ss, 2) == 13500;
  }

  /** Its bars of a quarter of an hour record all their ticks: the night ends with a bar. */
  lemma QuarterHours()
    ensures Cleanly(NIGHT_PRODUCT, 900) && NoneOpen(NIGHT_PRODUCT, 900) && LongBreaks(NIGHT_PRODUCT)
  {
    hide Sessions, Length, Listed, TradedBefore;
    NightSessions();
    NightLengths();
    NightListed();
  }

  /** Its bars of an hour do not, though they are cut cleanly: the night leaves half an hour open. */
  lemma HourBars()
    ensures Cleanly(NIGHT_PRODUCT, 3600) && !NoneOpen(NIGHT_PRODUCT, 3600)
  {
    hide Sessions, Length, Listed, TradedBefore;
    NightSessions();
    NightLengths();
    NightListed();
  }

  /** The bar from eleven in the evening to half past nine comes behind that of the morning's auction. */
  lemma HourCuts()
    ensures var cuts := CutAll(NIGHT_PRODUCT, 3600);
      |cuts| > 4 && cuts[0].eob == 10800 && cuts[1].eob == 14400 && cuts[2].eob == 18000 &&
      cuts[3] == Cut(53940, 54000, true) && cuts[4] == Cut(18000, 55800, false)
  {
    hide CutSpans, FullBars;
    var s := NIGHT_PRODUCT;
    assert s == [s[0], s[1], s[2], s[3]] + s[4..];
    SpansSplit(START, [s[0], s[1], s[2], s[3]], s[4..], 3600);
    FirstCuts();
    SpansGrow(CutSpans(START, [s[0], s[1], s[2], s[3]], 3600), s[4..], 3600);
  }

  lemma FirstCuts()
    ensures var s := NIGHT_PRODUCT; var bars := CutSpans(START, [s[0], s[1], s[2], s[3]], 3600).bars;
      |bars| == 5 && bars[0].eob == 10800 && bars[1].eob == 14400 && bars[2].eob == 18000 &&
      bars[3] == Cut(53940, 54000, true) && bars[4] == Cut(18000, 55800, false)
  {
    hide FullBars;
    var s := NIGHT_PRODUCT;
    var s1 := CutSpan(START, s[0], 3600);
    var b := s1.bars;
    FullBarsStep(State(b, 0, 10800, 14400), 19800, 3600);
    var b1 := b + [Cut(10800, 14400, false)];
    FullBarsStep(State(b1, 0, 14400, 18000), 19800, 3600);
    var b2 := b1 + [Cut(14400, 18000, false)];
    FullBarsStep(State(b2, 0, 18000, 21600), 19800, 3600);
    var s2 := CutSpan(s1, s[1], 3600);
    assert s2 == State(b2, 1800, 18000, 21600);
    var s3 := CutSpan(s2, s[2], 3600);
    FullBarsStep(State(s3.bars, 1800, 18000, 55800), 58500, 3600);
    var b4 := s3.bars + [Cut(18000, 55800, false)];
    FullBarsStep(State(b4, 1800, 55800, 59400), 58500, 3600);
    var s4 := CutSpan(s3, s[3], 3600);
    assert [s[0], s[1], s[2], s[3]][1..] == [s[1], s[2], s[3]] && [s[1], s[2], s[3]][1..] == [s[2], s[3]];
    assert [s[2], s[3]][1..] == [s[3]] && [s[3]][1..] == [];
    assert CutSpans(s4, [], 3600) == s4;
    assert CutSpans(s3, [s[3]], 3600) == s4;
    assert CutSpans(s2, [s[2], s[3]], 3600) == s4;
    assert CutSpans(s1, [s[1], s[2], s[3]], 3600) == s4;
  }

  /** Whatever ticks came before, one in the last half hour of the night lies in that bar, and no bar records it. */
  lemma TickOfTheNightLost(us: seq<R.Umd>, u: R.Umd)
    requires P.InOrder(us + [u]) && 18000 <= R.Interval(u.exchTime) < 19800
    ensures |CutAll(NIGHT_PRODUCT, 3600)| > 4
    ensures var b := VecBar(NIGHT_PRODUCT, 3600)[4]; P.InBar(us + [u], b) == P.InBar(us, b) + [u.px]
    ensures P.Prices(Made(NIGHT_PRODUCT, 3600), us + [u]) == P.Prices(Made(NIGHT_PRODUCT, 3600), us)
  {
    hide CutAll, Listed, Clean, Sessions, R.Interval, P.Prices;
    HourCuts();
    HourBars();
    VecBarBlank(NIGHT_PRODUCT, 3600);
    P.TickNowhere(Made(NIGHT_PRODUCT, 3600), us, u, 3);
    assert (us + [u])[..|us|] == us;
  }
}
