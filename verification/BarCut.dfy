/** Cutting the trading sessions of a day into bars of one length. */
module BarCut {
  datatype Span = Span(bgn: int, end: int, auction: bool)

  /** A bar's bounds in seconds; the adjusted bounds and the settling second come later. */
  datatype Cut = Cut(bob: int, eob: int, auction: bool)

  /** The variables of the cutting loop: bars so far, time the open cycle still needs, and the open bar's bounds. */
  datatype State = State(bars: seq<Cut>, leave: int, bob: int, eob: int)

  const START := State([], 0, 0, 0)

  // ---------------------------------------------------------------- the loops

  /** The inner loop: full bars up to the end of a session. */
  function FullBars(s: State, end: int, c: int): State
    requires c > 0
    decreases end - s.eob
  {
    if s.bob < end && s.eob <= end then
      FullBars(State(s.bars + [Cut(s.bob, s.eob, false)], s.leave, s.eob, s.eob + c), end, c)
    else s
  }

  /** One session. The time left over is not touched when the last bar ends with the session. */
  function CutSession(s: State, sp: Span, c: int): State
    requires c > 0
  {
    var begun := if s.leave == 0 then s.(bob := sp.bgn, eob := sp.bgn + c) else s.(eob := sp.bgn + s.leave);
    var t := FullBars(begun, sp.end, c);
    if t.bob != sp.end then t.(leave := t.eob - sp.end) else t
  }

  function CutSpan(s: State, sp: Span, c: int): State
    requires c > 0
  {
    if sp.auction then s.(bars := s.bars + [Cut(sp.bgn, sp.end, true)]) else CutSession(s, sp, c)
  }

  function CutSpans(s: State, sps: seq<Span>, c: int): State
    requires c > 0
    decreases |sps|
  {
    if sps == [] then s else CutSpans(CutSpan(s, sps[0], c), sps[1..], c)
  }

  /** The last bar, when it is not full. */
  function Finish(s: State): seq<Cut> {
    if s.leave > 0 then s.bars + [Cut(s.bob, s.eob - s.leave, false)] else s.bars
  }

  function CutAll(sps: seq<Span>, c: int): seq<Cut>
    requires c > 0
  {
    Finish(CutSpans(START, sps, c))
  }

  // ---------------------------------------------------------------- auctions stand apart

  function Sessions(sps: seq<Span>): seq<Span> {
    if sps == [] then [] else (if sps[0].auction then [] else [sps[0]]) + Sessions(sps[1..])
  }

  function Trading(bars: seq<Cut>): seq<Cut> {
    if bars == [] then [] else (if bars[0].auction then [] else [bars[0]]) + Trading(bars[1..])
  }

  lemma {:induction false} TradingPlus(a: seq<Cut>, b: seq<Cut>)
    ensures Trading(a + b) == Trading(a) + Trading(b)
  {
    if a == [] {
      assert a + b == b;
    } else {
      assert (a + b)[1..] == a[1..] + b;
      TradingPlus(a[1..], b);
    }
  }

  /** The same loop variables, with or without the auction bars. */
  predicate SameTrading(s: State, t: State) {
    t.bars == Trading(s.bars) && s.leave == t.leave && s.bob == t.bob && s.eob == t.eob
  }

  lemma {:induction false} FullBarsTrading(s: State, t: State, end: int, c: int)
    requires c > 0 && SameTrading(s, t)
    ensures SameTrading(FullBars(s, end, c), FullBars(t, end, c))
    decreases end - s.eob
  {
    if s.bob < end && s.eob <= end {
      var bar := Cut(s.bob, s.eob, false);
      TradingPlus(s.bars, [bar]);
      FullBarsTrading(State(s.bars + [bar], s.leave, s.eob, s.eob + c), State(t.bars + [bar], t.leave, t.eob, t.eob + c), end, c);
    }
  }

  lemma {:induction false} SpansTrading(s: State, t: State, sps: seq<Span>, c: int)
    requires c > 0 && SameTrading(s, t)
    ensures SameTrading(CutSpans(s, sps, c), CutSpans(t, Sessions(sps), c))
    decreases |sps|
  {
    hide FullBars;
    if sps != [] {
      var sp := sps[0];
      if sp.auction {
        TradingPlus(s.bars, [Cut(sp.bgn, sp.end, true)]);
        assert Sessions(sps) == Sessions(sps[1..]);
        SpansTrading(CutSpan(s, sp, c), t, sps[1..], c);
      } else {
        var so := if s.leave == 0 then s.(bob := sp.bgn, eob := sp.bgn + c) else s.(eob := sp.bgn + s.leave);
        var u := if t.leave == 0 then t.(bob := sp.bgn, eob := sp.bgn + c) else t.(eob := sp.bgn + t.leave);
        FullBarsTrading(so, u, sp.end, c);
        assert Sessions(sps) == [sp] + Sessions(sps[1..]);
        assert Sessions(sps)[1..] == Sessions(sps[1..]);
        SpansTrading(CutSpan(s, sp, c), CutSpan(t, sp, c), sps[1..], c);
      }
    }
  }

  /** Leaving the auction bars out of the result comes to leaving the auctions out of the day. */
  lemma AuctionsApart(sps: seq<Span>, c: int)
    requires c > 0
    ensures Trading(CutAll(sps, c)) == CutAll(Sessions(sps), c)
  {
    hide CutSpans;
    SpansTrading(START, START, sps, c);
    var s := CutSpans(START, sps, c);
    TradingPlus(s.bars, [Cut(s.bob, s.eob - s.leave, false)]);
  }

  // ---------------------------------------------------------------- trading time

  /** Sessions in order, each of some length. */
  predicate Sequential(ss: seq<Span>) {
    (forall i | 0 <= i < |ss| :: ss[i].bgn < ss[i].end && !ss[i].auction) &&
    (forall i | 0 <= i < |ss| - 1 :: ss[i].end <= ss[i + 1].bgn)
  }

  /** Sessions in order, with a break between any two. */
  predicate Ordered(ss: seq<Span>) {
    Sequential(ss) && forall i | 0 <= i < |ss| - 1 :: ss[i].end < ss[i + 1].bgn
  }

  /** Trading seconds in the first n sessions. */
  function Length(ss: seq<Span>, n: nat): int
    requires n <= |ss|
  {
    if n == 0 then 0 else Length(ss, n - 1) + ss[n - 1].end - ss[n - 1].bgn
  }

  /** The clock second of the p-th trading second among the first n sessions. */
  function Clock(ss: seq<Span>, n: nat, p: int): int
    requires n <= |ss|
  {
    if n == 0 then p
    else if p >= Length(ss, n - 1) then ss[n - 1].bgn + (p - Length(ss, n - 1))
    else Clock(ss, n - 1, p)
  }

  /** Bar number k of a day whose trading seconds are cut c by c. */
  function Bar(ss: seq<Span>, c: int, k: int): Cut
    requires c > 0
  {
    var total := Length(ss, |ss|);
    var last := if (k + 1) * c < total then (k + 1) * c else total;
    Cut(Clock(ss, |ss|, k * c), Clock(ss, |ss|, last - 1) + 1, false)
  }

  function Bars(ss: seq<Span>, c: int, n: nat): (r: seq<Cut>)
    requires c > 0
    ensures |r| == n
  {
    seq(n, k => Bar(ss, c, k))
  }

  /** How many bars there are: the last may be short. */
  function Count(ss: seq<Span>, c: int): nat
    requires c > 0
  {
    var total := Length(ss, |ss|);
    if total <= 0 then 0 else (total + c - 1) / c
  }

  /** No session ends on a bar's end that was opened in an earlier session. */
  predicate Clean(ss: seq<Span>, c: int, n: nat)
    requires c > 0 && n <= |ss|
  {
    forall i | 0 <= i < n :: Length(ss, i + 1) % c == 0 ==> Length(ss, i) % c == 0
  }

  lemma {:induction false} LengthGrows(ss: seq<Span>, m: nat, n: nat)
    requires Sequential(ss) && m <= n <= |ss|
    ensures Length(ss, m) + (n - m) <= Length(ss, n)
  {
    if m < n {
      LengthGrows(ss, m, n - 1);
      assert ss[n - 1].bgn < ss[n - 1].end;
    }
  }

  /** Where a trading second of session i lies. */
  lemma {:induction false} ClockIn(ss: seq<Span>, n: nat, i: nat, p: int)
    requires Sequential(ss) && i < n <= |ss| && Length(ss, i) <= p < Length(ss, i + 1)
    ensures Clock(ss, n, p) == ss[i].bgn + (p - Length(ss, i))
  {
    if i < n - 1 {
      LengthGrows(ss, i + 1, n - 1);
      ClockIn(ss, n - 1, i, p);
    }
  }

  lemma DivIs(p: int, c: int, k: int)
    requires c > 0 && k * c <= p < (k + 1) * c
    ensures p / c == k && p % c == p - k * c
  {
    assert (k + 1) * c == k * c + c;
    assert p == k * c + (p - k * c) && 0 <= p - k * c < c;
    DivUnique(p, c, k, p - k * c);
  }

  lemma AtLeast(a: int, c: int)
    requires c > 0
    ensures a >= 1 ==> a * c >= c
    ensures a * c == 0 ==> a == 0
  {}

  lemma Minus(a: int, b: int, c: int)
    ensures (a - b) * c == a * c - b * c
  {}

  lemma DivUnique(p: int, c: int, k: int, r: int)
    requires c > 0 && p == k * c + r && 0 <= r < c
    ensures p / c == k && p % c == r
  {
    var q := p / c;
    Minus(q, k, c);
    Minus(k, q, c);
    AtLeast(q - k, c);
    AtLeast(k - q, c);
  }

  // ---------------------------------------------------------------- the loops against trading time

  /** After the first n sessions, with k full bars. */
  predicate After(ss: seq<Span>, c: int, n: nat, s: State, k: nat)
    requires c > 0 && n <= |ss|
  {
    var p := Length(ss, n);
    && k * c <= p < (k + 1) * c && s.bars == Bars(ss, c, k)
    && (p == k * c ==> s.leave == 0)
    && (p > k * c ==> n > 0 && s.leave == (k + 1) * c - p && s.bob == Clock(ss, |ss|, k * c) && s.eob == ss[n - 1].end + s.leave)
  }

  /** Inside session n, with k full bars. */
  predicate Inside(ss: seq<Span>, c: int, n: nat, s: State, k: nat)
    requires c > 0 && n < |ss|
  {
    var p, q := Length(ss, n), Length(ss, n + 1);
    && k * c <= q && p < (k + 1) * c && s.bars == Bars(ss, c, k)
    && s.eob == ss[n].bgn + ((k + 1) * c - p)
    && s.bob == if k * c < q then Clock(ss, |ss|, k * c) else ss[n].end
  }

  lemma BarWithin(ss: seq<Span>, c: int, n: nat, k: nat)
    requires Sequential(ss) && c > 0 && n < |ss|
    requires Length(ss, n) < (k + 1) * c <= Length(ss, n + 1)
    ensures Bar(ss, c, k) == Cut(Clock(ss, |ss|, k * c), ss[n].bgn + ((k + 1) * c - Length(ss, n)), false)
  {
    hide Clock;
    LengthGrows(ss, n + 1, |ss|);
    ClockIn(ss, |ss|, n, (k + 1) * c - 1);
  }

  /** A clock second of session n or before lies before the session's end. */
  lemma {:induction false} ClockBefore(ss: seq<Span>, m: nat, n: nat, p: int)
    requires Sequential(ss) && n < m <= |ss| && 0 <= p < Length(ss, n + 1)
    ensures Clock(ss, m, p) < ss[n].end
  {
    if p >= Length(ss, n) {
      ClockIn(ss, m, n, p);
    } else {
      assert n > 0;
      ClockBefore(ss, m, n - 1, p);
      assert ss[n - 1].end <= ss[n].bgn;
    }
  }

  lemma Times(k: int, c: int)
    ensures (k + 1) * c == k * c + c
  {}

  lemma {:induction false} FullBarsInside(ss: seq<Span>, c: int, n: nat, s: State, k: nat) returns (k': nat)
    requires Sequential(ss) && c > 0 && n < |ss| && Inside(ss, c, n, s, k)
    ensures k' >= k && Inside(ss, c, n, FullBars(s, ss[n].end, c), k') && Length(ss, n + 1) < (k' + 1) * c
    ensures FullBars(s, ss[n].end, c).leave == s.leave
    decreases ss[n].end - s.eob
  {
    hide Bar, Clock;
    var p, q, e := Length(ss, n), Length(ss, n + 1), ss[n].end;
    Times(k, c);
    Times(k + 1, c);
    if k * c < q {
      assert k * c >= 0;
      ClockBefore(ss, |ss|, n, k * c);
    }
    if s.bob < e && s.eob <= e {
      BarWithin(ss, c, n, k);
      assert Bars(ss, c, k) + [Bar(ss, c, k)] == Bars(ss, c, k + 1);
      var t := State(s.bars + [Cut(s.bob, s.eob, false)], s.leave, s.eob, s.eob + c);
      if (k + 1) * c < q {
        ClockIn(ss, |ss|, n, (k + 1) * c);
      }
      k' := FullBarsInside(ss, c, n, t, k + 1);
    } else {
      k' := k;
    }
  }

  /** One session more; if it ends cleanly, nothing is left behind from before. */
  lemma SessionAfter(ss: seq<Span>, c: int, n: nat, s: State, k: nat) returns (k': nat)
    requires Sequential(ss) && c > 0 && n < |ss| && After(ss, c, n, s, k)
    ensures var t := CutSession(s, ss[n], c);
      t.bars == Bars(ss, c, k') && k' * c <= Length(ss, n + 1) < (k' + 1) * c &&
      (if Length(ss, n + 1) == k' * c && Length(ss, n) > k * c then t.leave == s.leave && t.bob == ss[n].end
       else After(ss, c, n + 1, t, k'))
  {
    hide Bars, FullBars;
    var b := ss[n].bgn;
    Times(k, c);
    var begun := if s.leave == 0 then s.(bob := b, eob := b + c) else s.(eob := b + s.leave);
    LengthGrows(ss, n, n + 1);
    if Length(ss, n) == k * c {
      ClockIn(ss, |ss|, n, k * c);
    }
    assert Inside(ss, c, n, begun, k);
    k' := FullBarsInside(ss, c, n, begun, k);
    if k' * c < Length(ss, n + 1) {
      ClockAtBar(k', c);
      ClockBefore(ss, |ss|, n, k' * c);
    }
    Times(k', c);
  }

  lemma ClockAtBar(k: nat, c: int)
    requires c > 0
    ensures k * c >= 0
  {}

  lemma CleanStep(ss: seq<Span>, c: int, n: nat, k: nat, k': nat)
    requires c > 0 && n < |ss|
    requires k * c <= Length(ss, n) < (k + 1) * c && k' * c <= Length(ss, n + 1) < (k' + 1) * c
    ensures Clean(ss, c, n + 1) <==> Clean(ss, c, n) && !(Length(ss, n + 1) == k' * c && Length(ss, n) > k * c)
  {
    DivIs(Length(ss, n), c, k);
    DivIs(Length(ss, n + 1), c, k');
  }

  /** The day's cut, as long as every session so far has ended cleanly. */
  lemma {:induction false} SpansAfter(ss: seq<Span>, c: int, n: nat) returns (k: nat)
    requires Sequential(ss) && c > 0 && n <= |ss| && Clean(ss, c, n)
    ensures After(ss, c, n, CutSpans(START, ss[..n], c), k)
  {
    hide Bar;
    if n == 0 {
      k := 0;
      assert Bars(ss, c, 0) == [];
    } else {
      assert Clean(ss, c, n - 1);
      var j := SpansAfter(ss, c, n - 1);
      k := SessionAfter(ss, c, n - 1, CutSpans(START, ss[..n - 1], c), j);
      CleanStep(ss, c, n - 1, j, k);
      SpansLast(START, ss[..n - 1], ss[n - 1], c);
      assert ss[..n - 1] + [ss[n - 1]] == ss[..n];
    }
  }

  lemma {:induction false} SpansLast(s: State, sps: seq<Span>, sp: Span, c: int)
    requires c > 0
    ensures CutSpans(s, sps + [sp], c) == CutSpan(CutSpans(s, sps, c), sp, c)
    decreases |sps|
  {
    hide CutSpan;
    if sps != [] {
      assert (sps + [sp])[1..] == sps[1..] + [sp];
      SpansLast(CutSpan(s, sps[0], c), sps[1..], sp, c);
    }
  }

  /** Clean sessions are cut as their trading time is. */
  lemma CleanCut(ss: seq<Span>, c: int)
    requires Sequential(ss) && c > 0 && Clean(ss, c, |ss|)
    ensures CutAll(ss, c) == Bars(ss, c, Count(ss, c))
  {
    hide Bar, CutSpans;
    var k := SpansAfter(ss, c, |ss|);
    assert ss[..|ss|] == ss;
    var s, total := CutSpans(START, ss, c), Length(ss, |ss|);
    Times(k, c);
    CountIs(ss, c, k);
    if total > k * c {
      LastBar(ss, c, k);
      assert Bars(ss, c, k) + [Bar(ss, c, k)] == Bars(ss, c, k + 1);
    }
  }

  lemma CountIs(ss: seq<Span>, c: int, k: nat)
    requires Sequential(ss) && c > 0 && k * c <= Length(ss, |ss|) < (k + 1) * c
    ensures Count(ss, c) == if Length(ss, |ss|) == k * c then k else k + 1
  {
    var total := Length(ss, |ss|);
    LengthGrows(ss, 0, |ss|);
    Times(k, c);
    Times(k + 1, c);
    if total == k * c {
      if total > 0 { DivIs(total + c - 1, c, k); } else { AtLeast(k, c); }
    } else {
      DivIs(total + c - 1, c, k + 1);
    }
  }

  lemma LastBar(ss: seq<Span>, c: int, k: nat)
    requires Sequential(ss) && c > 0 && k * c < Length(ss, |ss|) < (k + 1) * c && |ss| > 0
    ensures Bar(ss, c, k) == Cut(Clock(ss, |ss|, k * c), ss[|ss| - 1].end, false)
  {
    hide Clock;
    var n := |ss| - 1;
    LengthGrows(ss, n, |ss|);
    ClockIn(ss, |ss|, n, Length(ss, |ss|) - 1);
  }

  // ---------------------------------------------------------------- what goes wrong otherwise

  /** Bars once cut stay, and the next one begins where the open bar does. */
  predicate Continues(r: seq<Cut>, bars: seq<Cut>, bob: int) {
    |r| > |bars| && r[..|bars|] == bars && r[|bars|].bob == bob
  }

  lemma {:induction false} FullBarsContinue(s: State, end: int, c: int)
    requires c > 0
    ensures var t := FullBars(s, end, c);
      t.leave == s.leave && (t == s || Continues(t.bars, s.bars, s.bob)) &&
      (t == s ==> s.bob >= end || s.eob > end)
    decreases end - s.eob
  {
    if s.bob < end && s.eob <= end {
      var bars := s.bars + [Cut(s.bob, s.eob, false)];
      FullBarsContinue(State(bars, s.leave, s.eob, s.eob + c), end, c);
    }
  }

  lemma {:induction false} Kept(s: State, ss: seq<Span>, c: int, bars: seq<Cut>, bob: int)
    requires c > 0 && Continues(s.bars, bars, bob)
    ensures Continues(Finish(CutSpans(s, ss, c)), bars, bob)
    decreases |ss|
  {
    hide FullBars;
    if ss != [] {
      if !ss[0].auction {
        var b := ss[0].bgn;
        FullBarsContinue(if s.leave == 0 then s.(bob := b, eob := b + c) else s.(eob := b + s.leave), ss[0].end, c);
      }
      Kept(CutSpan(s, ss[0], c), ss[1..], c, bars, bob);
    }
  }

  /** Time left over from a bar that is already complete opens another one, at the end of its session. */
  lemma {:induction false} StaleBar(s: State, ss: seq<Span>, c: int)
    requires c > 0 && Sequential(ss) && s.leave > 0 && (ss != [] ==> s.bob < ss[0].bgn)
    ensures Continues(Finish(CutSpans(s, ss, c)), s.bars, s.bob)
    decreases |ss|
  {
    hide FullBars;
    if ss != [] {
      var begun := s.(eob := ss[0].bgn + s.leave);
      FullBarsContinue(begun, ss[0].end, c);
      var t := CutSpan(s, ss[0], c);
      assert Sequential(ss[1..]);
      if FullBars(begun, ss[0].end, c) == begun {
        StaleBar(t, ss[1..], c);
      } else {
        Kept(t, ss[1..], c, s.bars, s.bob);
      }
    }
  }

  lemma {:induction false} SpansSplit(s: State, a: seq<Span>, b: seq<Span>, c: int)
    requires c > 0
    ensures CutSpans(s, a + b, c) == CutSpans(CutSpans(s, a, c), b, c)
    decreases |a|
  {
    hide CutSpan;
    if a == [] {
      assert a + b == b;
    } else {
      assert (a + b)[1..] == a[1..] + b;
      SpansSplit(CutSpan(s, a[0], c), a[1..], b, c);
    }
  }

  lemma {:induction false} FirstDirty(ss: seq<Span>, c: int, n: nat) returns (i: nat)
    requires c > 0 && n <= |ss| && !Clean(ss, c, n)
    ensures i < n && Clean(ss, c, i) && Length(ss, i + 1) % c == 0 && Length(ss, i) % c != 0
  {
    if Clean(ss, c, n - 1) {
      i := n - 1;
    } else {
      i := FirstDirty(ss, c, n - 1);
    }
  }

  /** Session n is the first that ends on a bar's end that was opened before it. */
  predicate DirtyAt(ss: seq<Span>, c: int, n: nat)
    requires c > 0
  {
    n < |ss| && Clean(ss, c, n) && Length(ss, n + 1) % c == 0 && Length(ss, n) % c != 0
  }

  /** What session n found still open, in trading seconds; the loop takes as much away from the next bar again. */
  function Stale(ss: seq<Span>, c: int, n: nat): int
    requires c > 0 && n < |ss|
  {
    c - Length(ss, n) % c
  }

  /** The next session follows without a break, and what is left of the day is less than the stale time. */
  predicate Absorbed(ss: seq<Span>, c: int, n: nat)
    requires c > 0
  {
    n + 1 < |ss| && ss[n].end == ss[n + 1].bgn && Length(ss, |ss|) - Length(ss, n + 1) < Stale(ss, c, n)
  }

  predicate Harmless(ss: seq<Span>, c: int)
    requires c > 0
  {
    exists n :: 0 <= n < |ss| && DirtyAt(ss, c, n) && Absorbed(ss, c, n)
  }

  /** The loop's state behind such a session. */
  lemma DirtyState(ss: seq<Span>, c: int, n: nat) returns (k: nat)
    requires Sequential(ss) && c > 0 && DirtyAt(ss, c, n)
    ensures var t := CutSpans(START, ss[..n + 1], c);
      t.leave == Stale(ss, c, n) && t.bob == ss[n].end && t.bars == Bars(ss, c, k) && Length(ss, n + 1) == k * c
    ensures 0 < Stale(ss, c, n) < c
  {
    hide Bar, CutSpans, CutSession, Clean;
    var j := SpansAfter(ss, c, n);
    var s := CutSpans(START, ss[..n], c);
    k := SessionAfter(ss, c, n, s, j);
    DivIs(Length(ss, n), c, j);
    DivIs(Length(ss, n + 1), c, k);
    Times(j, c);
    SpansLast(START, ss[..n], ss[n], c);
    assert ss[..n] + [ss[n]] == ss[..n + 1];
  }

  lemma SplitAt(ss: seq<Span>, c: int, m: nat)
    requires c > 0 && m <= |ss|
    ensures CutAll(ss, c) == Finish(CutSpans(CutSpans(START, ss[..m], c), ss[m..], c))
    ensures m < |ss| ==> CutSpans(START, ss[..m + 1], c) == CutSpan(CutSpans(START, ss[..m], c), ss[m], c)
  {
    hide CutSpans, CutSpan;
    assert ss[..m] + ss[m..] == ss;
    SpansSplit(START, ss[..m], ss[m..], c);
    if m < |ss| {
      SpansLast(START, ss[..m], ss[m], c);
      assert ss[..m] + [ss[m]] == ss[..m + 1];
    }
  }

  /** With a break behind it, or as the last of the day, such a session adds a bar that begins at its end. */
  lemma DirtyApart(ss: seq<Span>, c: int, n: nat)
    requires Sequential(ss) && c > 0 && DirtyAt(ss, c, n) && (n + 1 < |ss| ==> ss[n].end < ss[n + 1].bgn)
    ensures CutAll(ss, c) != Bars(ss, c, Count(ss, c))
  {
    hide Bar, CutSpans, CutSession, Clean, DirtyAt, Stale;
    var k := DirtyState(ss, c, n);
    assert n < |ss| by { DirtyIn(ss, c, n); }
    SplitAt(ss, c, n + 1);
    assert Sequential(ss[n + 1..]);
    StaleBar(CutSpans(START, ss[..n + 1], c), ss[n + 1..], c);
    DirtyBar(ss, c, n, k);
  }

  lemma DirtyIn(ss: seq<Span>, c: int, n: nat)
    requires c > 0 && DirtyAt(ss, c, n)
    ensures n < |ss|
  {}

  /** There is no bar that begins where a session ends. */
  lemma DirtyBar(ss: seq<Span>, c: int, n: nat, k: nat)
    requires Sequential(ss) && c > 0 && n < |ss| && Length(ss, n + 1) == k * c
    requires n + 1 < |ss| ==> ss[n].end < ss[n + 1].bgn
    ensures k < Count(ss, c) ==> Bar(ss, c, k).bob != ss[n].end
  {
    hide Clock;
    LengthGrows(ss, n + 1, |ss|);
    if n + 1 < |ss| {
      LengthGrows(ss, n + 1, n + 2);
      ClockIn(ss, |ss|, n + 1, k * c);
    } else {
      Times(k, c);
      CountIs(ss, c, k);
    }
  }

  // ---------------------------------------------------------------- sessions without a break between them

  lemma {:induction false} EndsBefore(ss: seq<Span>, n: nat, m: nat)
    requires Sequential(ss) && n < m < |ss|
    ensures ss[n].end <= ss[m].bgn
  {
    if n + 1 < m { EndsBefore(ss, n, m - 1); }
  }

  /** Up to session m, the stale time is not used up, and the bar that began at the end of session n is still open. */
  lemma {:induction false} StillOpen(ss: seq<Span>, c: int, n: nat, k: nat, m: nat)
    requires Sequential(ss) && c > 0 && n < m <= |ss| && Length(ss, m) - Length(ss, n + 1) < Stale(ss, c, n)
    requires var t := CutSpans(START, ss[..n + 1], c);
      t.leave == Stale(ss, c, n) && t.bob == ss[n].end && t.bars == Bars(ss, c, k)
    ensures var t := CutSpans(START, ss[..m], c);
      t.leave == Stale(ss, c, n) - (Length(ss, m) - Length(ss, n + 1)) > 0 && t.bob == ss[n].end && t.bars == Bars(ss, c, k)
      && (m > n + 1 ==> t.eob == ss[m - 1].end + t.leave)
  {
    hide Bars, CutSpans, Stale;
    if m > n + 1 {
      LengthGrows(ss, m - 1, m);
      LengthGrows(ss, n + 1, m - 1);
      StillOpen(ss, c, n, k, m - 1);
      SplitAt(ss, c, m - 1);
      EndsBefore(ss, n, m - 1);
    }
  }

  /** If the day ends so, that bar is the day's last, as it should be. */
  lemma AbsorbedCut(ss: seq<Span>, c: int, n: nat)
    requires Sequential(ss) && c > 0 && DirtyAt(ss, c, n) && Absorbed(ss, c, n)
    ensures CutAll(ss, c) == Bars(ss, c, Count(ss, c))
  {
    hide Bar, CutSpans, Clean, DirtyAt, Clock;
    var k := DirtyState(ss, c, n);
    var total := Length(ss, |ss|);
    StillOpen(ss, c, n, k, |ss|);
    assert ss[..|ss|] == ss;
    LengthGrows(ss, n + 1, |ss|);
    LengthGrows(ss, n + 1, n + 2);
    Times(k, c);
    CountIs(ss, c, k);
    LastBar(ss, c, k);
    ClockIn(ss, |ss|, n + 1, k * c);
    assert Bars(ss, c, k) + [Bar(ss, c, k)] == Bars(ss, c, k + 1);
  }

  /** Bars stay once they are cut. */
  lemma {:induction false} BarsStay(s: State, ss: seq<Span>, c: int)
    requires c > 0
    ensures s.bars <= Finish(CutSpans(s, ss, c))
    decreases |ss|
  {
    hide FullBars;
    if ss != [] {
      if !ss[0].auction {
        var b := ss[0].bgn;
        FullBarsContinue(if s.leave == 0 then s.(bob := b, eob := b + c) else s.(eob := b + s.leave), ss[0].end, c);
      }
      BarsStay(CutSpan(s, ss[0], c), ss[1..], c);
    }
  }

  /** The session in which the stale time is used up. */
  lemma {:induction false} UsedUp(ss: seq<Span>, n: nat, stale: int, hi: nat) returns (m: nat)
    requires Sequential(ss) && n < hi <= |ss| && 0 < stale <= Length(ss, hi) - Length(ss, n)
    ensures n <= m < hi && Length(ss, m) - Length(ss, n) < stale <= Length(ss, m + 1) - Length(ss, n)
  {
    m := hi - 1;
    if m > n && Length(ss, m) - Length(ss, n) >= stale {
      m := UsedUp(ss, n, stale, m);
    }
  }

  /** In that session a bar is cut that is too short, and the stale time stays. */
  lemma ShortBar(s: State, sp: Span, c: int)
    requires c > 0 && 0 < s.leave <= sp.end - sp.bgn && s.bob <= sp.bgn && !sp.auction
    ensures var t, bar := CutSpan(s, sp, c), Cut(s.bob, sp.bgn + s.leave, false);
      s.bars + [bar] <= t.bars && (sp.bgn + s.leave == sp.end ==> t.bars == s.bars + [bar] && t.leave == s.leave)
  {
    var begun := s.(eob := sp.bgn + s.leave);
    var bars := s.bars + [Cut(s.bob, begun.eob, false)];
    FullBarsContinue(State(bars, s.leave, begun.eob, begun.eob + c), sp.end, c);
  }

  /** Otherwise a bar is cut in session m that is k-th of the day and too short. */
  lemma ShortAt(ss: seq<Span>, c: int, n: nat) returns (k: nat, m: nat)
    requires Sequential(ss) && c > 0 && DirtyAt(ss, c, n) && n + 1 < |ss| && Length(ss, |ss|) - Length(ss, n + 1) >= Stale(ss, c, n)
    ensures n < m < |ss| && Length(ss, n + 1) == k * c && 0 < Stale(ss, c, n) < c
    ensures Length(ss, m) < k * c + Stale(ss, c, n) <= Length(ss, m + 1)
    ensures var bar := Cut(ss[n].end, ss[m].bgn + (k * c + Stale(ss, c, n) - Length(ss, m)), false);
      var t := CutSpans(START, ss[..m + 1], c);
      Bars(ss, c, k) + [bar] <= CutAll(ss, c) &&
      (k * c + Stale(ss, c, n) == Length(ss, m + 1) ==> t.bars == Bars(ss, c, k) + [bar] && t.leave > 0)
  {
    hide Bars, CutAll, CutSpans, CutSpan, Clean, DirtyAt, Clock, Stale, Finish;
    k := DirtyState(ss, c, n);
    m := UsedUp(ss, n + 1, Stale(ss, c, n), |ss|);
    StillOpen(ss, c, n, k, m);
    EndsBefore(ss, n, m);
    SplitAt(ss, c, m);
    SplitAt(ss, c, m + 1);
    ShortBar(CutSpans(START, ss[..m], c), ss[m], c);
    BarsStay(CutSpans(START, ss[..m + 1], c), ss[m + 1..], c);
  }

  /** It is the wrong one, or an empty one follows it. */
  lemma UnabsorbedCut(ss: seq<Span>, c: int, n: nat)
    requires Sequential(ss) && c > 0 && DirtyAt(ss, c, n) && n + 1 < |ss| && Length(ss, |ss|) - Length(ss, n + 1) >= Stale(ss, c, n)
    ensures CutAll(ss, c) != Bars(ss, c, Count(ss, c))
  {
    hide Bar, CutAll, CutSpans, DirtyAt, Stale, Length;
    var k, m := ShortAt(ss, c, n);
    var stale, all := Stale(ss, c, n), CutAll(ss, c);
    var bar := Cut(ss[n].end, ss[m].bgn + (k * c + stale - Length(ss, m)), false);
    assert |all| > k && all[k] == (Bars(ss, c, k) + [bar])[k] == bar;
    LengthGrows(ss, m + 1, |ss|);
    if k * c + stale < Length(ss, |ss|) {
      LongerBar(ss, c, k, stale, m);
    } else {
      Times(k, c);
      OneMore(ss, c, k, m);
    }
  }

  /** The bar that belongs there goes on for longer. */
  lemma LongerBar(ss: seq<Span>, c: int, k: nat, stale: int, m: nat)
    requires Sequential(ss) && c > 0 && m < |ss| && 0 < stale < c && k * c + stale < Length(ss, |ss|)
    requires Length(ss, m) < k * c + stale <= Length(ss, m + 1)
    ensures Bar(ss, c, k).eob > ss[m].bgn + (k * c + stale - Length(ss, m))
  {
    hide Clock;
    Times(k, c);
    ClockAtBar(k, c);
    var total, p := Length(ss, |ss|), k * c + stale - 1;
    var last := if (k + 1) * c < total then (k + 1) * c else total;
    LengthGrows(ss, 0, m);
    ClockIn(ss, |ss|, m, p);
    ClockUp(ss, |ss|, p, last - 1);
  }

  /** When the stale time ends with the day, one more bar is cut than there are. */
  lemma OneMore(ss: seq<Span>, c: int, k: nat, m: nat)
    requires Sequential(ss) && c > 0 && m < |ss| && Length(ss, m + 1) == Length(ss, |ss|) && k * c < Length(ss, |ss|) < (k + 1) * c
    requires var t := CutSpans(START, ss[..m + 1], c); t.leave > 0 && |t.bars| == k + 1
    ensures |CutAll(ss, c)| == k + 2 && Count(ss, c) == k + 1
  {
    hide CutSpans;
    LengthGrows(ss, m + 1, |ss|);
    assert m + 1 == |ss| && ss[..m + 1] == ss;
    CountIs(ss, c, k);
  }

  /** Sessions that are not clean are cut like their trading time exactly in the harmless case. */
  lemma DirtyCut(ss: seq<Span>, c: int)
    requires Sequential(ss) && c > 0 && !Clean(ss, c, |ss|)
    ensures CutAll(ss, c) == Bars(ss, c, Count(ss, c)) <==> Harmless(ss, c)
    ensures Ordered(ss) ==> !Harmless(ss, c)
  {
    hide CutAll, Bars, Clean, DirtyAt, Stale;
    var n := FirstDirtyAt(ss, c);
    forall m | 0 <= m < |ss| && DirtyAt(ss, c, m) ensures m == n {
      OneDirty(ss, c, m, n);
    }
    assert Harmless(ss, c) <==> Absorbed(ss, c, n);
    if Absorbed(ss, c, n) {
      AbsorbedCut(ss, c, n);
    } else if n + 1 == |ss| || ss[n].end < ss[n + 1].bgn {
      DirtyApart(ss, c, n);
    } else {
      UnabsorbedCut(ss, c, n);
    }
  }

  lemma FirstDirtyAt(ss: seq<Span>, c: int) returns (n: nat)
    requires c > 0 && !Clean(ss, c, |ss|)
    ensures n < |ss| && DirtyAt(ss, c, n)
  {
    hide Clean, Length;
    n := FirstDirty(ss, c, |ss|);
  }

  lemma OneDirty(ss: seq<Span>, c: int, m: nat, n: nat)
    requires c > 0 && DirtyAt(ss, c, m) && DirtyAt(ss, c, n)
    ensures m == n
  {
    hide Length;
  }

  /**
   * The sessions are cut like their trading time exactly when no session ends on a bar's end that was opened before it, or
   * the first one that does is harmless, for which another session has to follow it without a break.
   */
  lemma CutExact(sps: seq<Span>, c: int)
    requires c > 0 && Sequential(Sessions(sps))
    ensures var ss := Sessions(sps);
      Trading(CutAll(sps, c)) == Bars(ss, c, Count(ss, c)) <==> Clean(ss, c, |ss|) || Harmless(ss, c)
    ensures var ss := Sessions(sps); Ordered(ss) ==>
      (Trading(CutAll(sps, c)) == Bars(ss, c, Count(ss, c)) <==> Clean(ss, c, |ss|))
  {
    hide CutAll, Bars, Clean, Harmless;
    AuctionsApart(sps, c);
    if Clean(Sessions(sps), c, |Sessions(sps)|) {
      CleanCut(Sessions(sps), c);
    } else {
      DirtyCut(Sessions(sps), c);
    }
  }

  /** It happens: five seconds behind two touching sessions of ten, cut into bars of twenty. */
  lemma HarmlessCut()
    ensures var ss := [Span(0, 10, false), Span(10, 20, false), Span(20, 25, false)];
      Sequential(ss) && !Clean(ss, 20, 3) && Harmless(ss, 20)
  {
    var ss := [Span(0, 10, false), Span(10, 20, false), Span(20, 25, false)];
    assert Length(ss, 0) == 0 && Length(ss, 1) == 10 && Length(ss, 2) == 20 && Length(ss, 3) == 25;
    assert DirtyAt(ss, 20, 1) && Absorbed(ss, 20, 1);
  }

  // ---------------------------------------------------------------- what that means for a trading second

  lemma {:induction false} ClockUp(ss: seq<Span>, n: nat, p: int, q: int)
    requires Sequential(ss) && n <= |ss| && 0 <= p < q < Length(ss, n)
    ensures Clock(ss, n, p) < Clock(ss, n, q)
  {
    var m := n - 1;
    if q >= Length(ss, m) {
      if p < Length(ss, m) {
        assert m > 0;
        ClockBefore(ss, m, m - 1, p);
        assert ss[m - 1].end <= ss[m].bgn;
      }
    } else {
      ClockUp(ss, m, p, q);
    }
  }

  lemma Quotient(p: int, c: int, k: int)
    requires c > 0
    ensures p / c == k <==> k * c <= p < (k + 1) * c
  {
    Times(k, c);
    if k * c <= p < (k + 1) * c {
      DivIs(p, c, k);
    } else {
      DivIs(p, c, p / c) by { Times(p / c, c); }
    }
  }

  /** The trading seconds from lo up to last - 1 are those between the clock times of the two. */
  lemma Stretch(ss: seq<Span>, lo: int, last: int, p: int)
    requires Sequential(ss) && 0 <= lo < last <= Length(ss, |ss|) && 0 <= p < Length(ss, |ss|)
    ensures Clock(ss, |ss|, lo) <= Clock(ss, |ss|, p) < Clock(ss, |ss|, last - 1) + 1 <==> lo <= p < last
  {
    hide Clock, Length, Sequential;
    var n := |ss|;
    if p < lo { ClockUp(ss, n, p, lo); }
    if lo < p { ClockUp(ss, n, lo, p); }
    if p < last - 1 { ClockUp(ss, n, p, last - 1); }
    if last - 1 < p { ClockUp(ss, n, last - 1, p); }
  }

  /** Every trading second lies in exactly one bar, and its number in trading time says in which. */
  lemma SecondInBar(ss: seq<Span>, c: int, p: int, k: nat)
    requires Sequential(ss) && c > 0 && 0 <= p < Length(ss, |ss|) && k < Count(ss, c)
    ensures var b := Bar(ss, c, k);
      b.bob <= Clock(ss, |ss|, p) < b.eob <==> p / c == k
  {
    hide Clock, Length, Sequential, Count;
    CountMeans(ss, c, k);
    Times(k, c);
    var total := Length(ss, |ss|);
    Stretch(ss, k * c, if (k + 1) * c < total then (k + 1) * c else total, p);
    Quotient(p, c, k);
  }

  lemma CountMeans(ss: seq<Span>, c: int, k: nat)
    requires c > 0 && k < Count(ss, c)
    ensures 0 <= k * c < Length(ss, |ss|)
  {
    hide Length;
    var total := Length(ss, |ss|);
    var q := (total + c - 1) / c;
    Minus(q, k, c);
    AtLeast(q - k, c);
    QuotientBelow(total + c - 1, c);
    ClockAtBar(k, c);
  }

  lemma QuotientBelow(p: int, c: int)
    requires c > 0
    ensures p / c * c <= p
  {}

  /** The sessions of a product with a night session until half past eleven, from six in the evening on. */
  const NIGHT_UNTIL_2330 := [Span(10800, 19800, false), Span(54000, 58500, false), Span(59400, 63000, false), Span(70200, 75600, false)]

  /** Bars of 45 minutes are cut wrongly there: one that the night leaves open ends with the session after it. */
  lemma FortyFiveMinutes()
    ensures Ordered(NIGHT_UNTIL_2330) && !Clean(NIGHT_UNTIL_2330, 2700, 4)
  {
    var ss := NIGHT_UNTIL_2330;
    assert Length(ss, 0) == 0 && Length(ss, 1) == 9000 && Length(ss, 2) == 13500;
    assert Length(ss, 2) % 2700 == 0 && Length(ss, 1) % 2700 != 0;
  }
}
