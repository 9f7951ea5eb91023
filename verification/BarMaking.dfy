/** `BarMaker`: its loops, changing its bars in place. */
module BarMaking {
  import opened Options
  import opened BarCut
  import R = BarRun

  // ---------------------------------------------------------------- the bars of a day

  /** `isEobOverlap`: some span ends there. */
  predicate EndsSpan(sps: seq<Span>, sec: int) {
    exists i :: 0 <= i < |sps| && sps[i].end == sec
  }

  /** A bar as it is handed to the ticks: its bounds adjusted, nothing recorded. */
  function Adjusted(cut: Cut, first: bool, overlap: bool): R.Bar2 {
    var bob := if !cut.auction then cut.bob else if first then 0 else cut.bob - 2 * 3600;
    R.Bar2(cut.bob, cut.eob, cut.auction, bob,
           if !cut.auction && overlap then cut.eob + 1 else cut.eob,
           if cut.auction || overlap then cut.eob else 0,
           0, 0, 0.0, 0.0, 0.0, 0.0, 0, 0.0, 0.0, 0.0, 0, 0.0, 0.0, 0, 0.0, 0.0, 0.0)
  }

  /** No tick has left a trace in the bar. */
  predicate Untouched(b: R.Bar2) {
    && b.baseSec == b.preBaseSec == b.vol == b.cumVol == b.preCumVol == 0
    && b.open == b.high == b.low == b.close == b.preClose == b.deltaClose == 0.0
    && b.cumTurnover == b.preCumTurnover == b.turnover == b.openInt == b.preOpenInt == b.deltaOpenInt == 0.0
  }

  /** What the fixed-cycle branch of `generateVecBar` leaves in the vector. */
  function VecBar(sps: seq<Span>, c: int): (r: seq<R.Bar2>)
    requires c > 0
  {
    var cuts := CutAll(sps, c);
    seq(|cuts|, i requires 0 <= i < |cuts| => Adjusted(cuts[i], i == 0, EndsSpan(sps, cuts[i].eob)))
  }

  method IsEobOverlap(sps: seq<Span>, sec: int) returns (r: bool)
    ensures r == EndsSpan(sps, sec)
  {
    for i := 0 to |sps|
      invariant forall j | 0 <= j < i :: sps[j].end != sec
    {
      if sps[i].end == sec {
        return true;
      }
    }
    return false;
  }

  method GenerateVecBar(sps: seq<Span>, c: int) returns (bars: seq<R.Bar2>)
    requires c > 0
    ensures bars == VecBar(sps, c)
    ensures forall b | b in bars :: Untouched(b)
  {
    var cuts := GenerateCuts(sps, c);
    bars := [];
    for i := 0 to |cuts|
      invariant |bars| == i && forall j | 0 <= j < i :: bars[j] == Adjusted(cuts[j], j == 0, EndsSpan(sps, cuts[j].eob))
    {
      var overlap := IsEobOverlap(sps, cuts[i].eob);
      bars := bars + [Adjusted(cuts[i], i == 0, overlap)];
    }
  }

  /** The loop over spans and the loop over full bars. */
  method GenerateCuts(sps: seq<Span>, c: int) returns (bars: seq<Cut>)
    requires c > 0
    ensures bars == CutAll(sps, c)
  {
    hide FullBars;
    var leave, bob, eob := 0, 0, 0;
    bars := [];
    for i := 0 to |sps|
      invariant CutSpans(START, sps, c) == CutSpans(State(bars, leave, bob, eob), sps[i..], c)
    {
      ghost var s := State(bars, leave, bob, eob);
      assert sps[i..][0] == sps[i] && sps[i..][1..] == sps[i + 1..];
      if sps[i].auction {
        bars := bars + [Cut(sps[i].bgn, sps[i].end, true)];
      } else {
        if leave == 0 {
          bob := sps[i].bgn;
          eob := bob + c;
        } else {
          eob := sps[i].bgn + leave;
        }
        ghost var begun := State(bars, leave, bob, eob);
        while bob < sps[i].end && eob <= sps[i].end
          invariant FullBars(begun, sps[i].end, c) == FullBars(State(bars, leave, bob, eob), sps[i].end, c)
          decreases sps[i].end - eob
        {
          FullBarsStep(State(bars, leave, bob, eob), sps[i].end, c);
          bars := bars + [Cut(bob, eob, false)];
          bob := eob;
          eob := eob + c;
        }
        FullBarsStep(State(bars, leave, bob, eob), sps[i].end, c);
        if bob != sps[i].end {
          leave := eob - sps[i].end;
        }
      }
      assert State(bars, leave, bob, eob) == CutSpan(s, sps[i], c);
    }
    assert sps[|sps|..] == [];
    if leave > 0 {
      eob := eob - leave;
      bars := bars + [Cut(bob, eob, false)];
    }
  }

  lemma FullBarsStep(s: State, end: int, c: int)
    requires c > 0
    ensures FullBars(s, end, c) ==
      if s.bob < end && s.eob <= end then FullBars(State(s.bars + [Cut(s.bob, s.eob, false)], s.leave, s.eob, s.eob + c), end, c)
      else s
  {}

  // ---------------------------------------------------------------- the bars are fit for the ticks

  lemma {:induction false} InTrading(bars: seq<Cut>, i: nat) returns (j: nat)
    requires i < |bars| && !bars[i].auction
    ensures j < |Trading(bars)| && Trading(bars)[j] == bars[i]
  {
    if i == 0 {
      j := 0;
    } else {
      j := InTrading(bars[1..], i - 1);
      if !bars[0].auction { j := j + 1; }
    }
  }

  lemma {:induction false} ClockPositive(ss: seq<Span>, n: nat, p: int)
    requires n <= |ss| && p >= 0 && forall i | 0 <= i < n :: ss[i].bgn >= 0
    ensures Clock(ss, n, p) >= 0
  {
    if n > 0 && p < Length(ss, n - 1) { ClockPositive(ss, n - 1, p); }
  }

  /** Cleanly cut sessions give bars that the settlement can account for. */
  lemma VecBarFresh(sps: seq<Span>, c: int)
    requires c > 0 && Ordered(Sessions(sps)) && Clean(Sessions(sps), c, |Sessions(sps)|)
    requires forall i | 0 <= i < |Sessions(sps)| :: Sessions(sps)[i].bgn >= 0
    ensures R.FreshFrom(VecBar(sps, c), 0)
  {
    hide CutAll, Clean, Clock, Trading, Sequential;
    var cuts, ss := CutAll(sps, c), Sessions(sps);
    CutExact(sps, c);
    forall i | 0 <= i < |cuts| ensures R.Fresh(VecBar(sps, c)[i]) {
      if !cuts[i].auction {
        var j := InTrading(cuts, i);
        assert cuts[i] == Bar(ss, c, j);
        CountMeans(ss, c, j);
        BarBehindStart(ss, c, j);
      }
    }
  }

  lemma BarBehindStart(ss: seq<Span>, c: int, j: nat)
    requires c > 0 && 0 <= j * c < Length(ss, |ss|) && forall i | 0 <= i < |ss| :: ss[i].bgn >= 0
    ensures Bar(ss, c, j).eob > 0
  {
    hide Clock;
    var total := Length(ss, |ss|);
    var last := if (j + 1) * c < total then (j + 1) * c else total;
    assert (j + 1) * c == j * c + c;
    ClockPositive(ss, |ss|, last - 1);
  }

  // ---------------------------------------------------------------- the maker

  class BarMaker {
    var vec_bar: seq<R.Bar2>
    var bar_idx: int
    var rtn_bar_idx: int
    var last_umd: Option<R.Umd>
    ghost var settled: seq<int>
    ghost var returned: seq<int>

    ghost function State(): R.State
      reads this
    {
      R.State(vec_bar, bar_idx, rtn_bar_idx, last_umd, settled, returned)
    }

    constructor (sps: seq<Span>, c: int)
      requires c > 0
      ensures State() == R.State(VecBar(sps, c), -1, -1, None, [], []) && R.Ok(State())
    {
      bar_idx, rtn_bar_idx, last_umd, settled, returned := -1, -1, None, [], [];
      var bars := GenerateVecBar(sps, c);
      vec_bar := bars;
    }

    method SettleBar(u: R.Umd)
      requires 0 <= bar_idx < |vec_bar|
      modifies this
      ensures State() == R.SettleHere(old(State()), u)
    {
      settled := settled + [bar_idx];
      vec_bar := vec_bar[bar_idx := R.Settle(vec_bar[bar_idx], u)];
    }

    /** Goes to the next bar, which starts from the last tick before it. */
    method NextBar()
      requires 0 <= bar_idx < |vec_bar| - 1
      modifies this
      ensures State() == R.Move(old(State()), old(last_umd))
    {
      hide R.UpdatePre;
      bar_idx := bar_idx + 1;
      if last_umd.Some? {
        vec_bar := vec_bar[bar_idx := R.UpdatePre(vec_bar[bar_idx], last_umd.value)];
      }
    }

    /** `OnTick`, for a tick of this instrument. */
    method OnTick(u: R.Umd)
      requires R.InRange(State())
      modifies this
      ensures R.InRange(State()) && State() == R.OnTick(old(State()), u)
    {
      hide R.Settle, R.UpdatePre, R.Fill, R.NeedSettle, R.Interval, R.Position;
      R.TickRange(State(), u);
      if bar_idx == -1 {
        bar_idx := 0;
      }
      if bar_idx >= |vec_bar| {
        return;
      }
      ghost var s := State();
      var sec := R.Interval(u.exchTime);
      var stuck := false;
      while !stuck && R.Position(vec_bar[bar_idx], sec) == 1
        invariant 0 <= bar_idx < |vec_bar|
        invariant if stuck then State() == R.Skip(s, u) && R.Position(vec_bar[bar_idx], sec) == 1
                  else R.Skip(s, u) == R.Skip(State(), u)
        decreases |vec_bar| - bar_idx, !stuck
      {
        ghost var now := State();
        SettleBar(u);
        R.SettleKeeps(now.bars[now.idx], u);
        if bar_idx < |vec_bar| - 1 {
          NextBar();
        } else {
          stuck := true;
          R.PositionKept(now.bars[now.idx], R.Settle(now.bars[now.idx], u), sec);
        }
      }
      ghost var t := State();
      assert t == R.Skip(s, u);
      if !stuck {
        LookAt(u);
      }
      last_umd := Some(u);
    }

    /** What follows once the tick does not lie behind the current bar. */
    method LookAt(u: R.Umd)
      requires 0 <= bar_idx < |vec_bar| && R.Position(vec_bar[bar_idx], R.Interval(u.exchTime)) != 1
      modifies this
      ensures State() == R.Look(old(State()), u)
    {
      hide R.Settle, R.UpdatePre, R.UpdateBar, R.NeedSettle, R.NeedOpen, R.NeedOhlc, R.Interval;
      var b := vec_bar[bar_idx];
      if R.Position(b, R.Interval(u.exchTime)) == 0 {
        if R.NeedOpen(b, u) {
          b := b.(open := u.px);
        }
        if b.preClose == 0.0 {
          b := R.UpdatePre(b, u);
        }
        if R.NeedOhlc(b, u) {
          b := R.UpdateBar(b, u);
        }
        vec_bar := vec_bar[bar_idx := b];
        if R.NeedSettle(b, u) {
          SettleBar(u);
          bar_idx := bar_idx + 1;
          if bar_idx < |vec_bar| {
            vec_bar := vec_bar[bar_idx := R.UpdatePre(vec_bar[bar_idx], u)];
          }
        }
      } else {
        vec_bar := vec_bar[bar_idx := R.UpdatePre(b, u)];
      }
    }

    /** `OnFinish`. */
    method OnFinish()
      requires R.InRange(State())
      modifies this
      ensures State() == R.OnFinish(old(State()))
    {
      hide R.Settle;
      if bar_idx == -1 {
        bar_idx := 0;
      }
      ghost var s := State();
      var u := if last_umd.Some? then last_umd.value else R.NO_TICK;
      while bar_idx < |vec_bar|
        invariant 0 <= bar_idx <= |vec_bar| && last_umd == s.last
        invariant R.SettleRest(s) == R.SettleRest(State())
        decreases |vec_bar| - bar_idx
      {
        SettleBar(u);
        bar_idx := bar_idx + 1;
      }
    }

    /** `GetBar`: the index of the bar handed out, if there is one. */
    method GetBar() returns (r: Option<int>)
      requires R.InRange(State())
      modifies this
      ensures State() == R.GetBar(old(State()))
      ensures returned == if r.Some? then old(returned) + [r.value] else old(returned)
      ensures r.Some? ==> 0 <= r.value < |vec_bar| && vec_bar[r.value].open != 0.0
    {
      ghost var s := State();
      r := None;
      while rtn_bar_idx < bar_idx
        invariant s.rtn <= rtn_bar_idx <= bar_idx && State() == s.(rtn := rtn_bar_idx)
        invariant r == if s.rtn < rtn_bar_idx && rtn_bar_idx >= 1 && vec_bar[rtn_bar_idx - 1].open != 0.0
                       then Some(rtn_bar_idx - 1) else None
        decreases bar_idx - rtn_bar_idx
      {
        r := if rtn_bar_idx != -1 && vec_bar[rtn_bar_idx].open != 0.0 then Some(rtn_bar_idx) else None;
        rtn_bar_idx := rtn_bar_idx + 1;
      }
      if r.Some? {
        returned := returned + [r.value];
      }
    }
  }
}
