/** The difference of two order-book ladders, price by price. */
module BookDelta {
  /** On the ask side a lower price comes first, on the bid side a higher one. */
  predicate Before(ask: bool, p: real, q: real) { if ask then p < q else p > q }

  /** The levels of one side, best price first. */
  predicate Ladder(ask: bool, px: seq<real>) {
    px != [] && forall i, j | 0 <= i < j < |px| :: Before(ask, px[i], px[j])
  }

  /** The volume at a price, 0 when there is no such level. */
  function VolAt(px: seq<real>, vol: seq<int>, p: real): int
    requires |vol| == |px|
  {
    if px == [] then 0 else if px[0] == p then vol[0] else VolAt(px[1..], vol[1..], p)
  }

  lemma {:induction false} VolIs(ask: bool, px: seq<real>, vol: seq<int>, i: nat)
    requires |vol| == |px| && i < |px| && forall j, k | 0 <= j < k < |px| :: Before(ask, px[j], px[k])
    ensures VolAt(px, vol, px[i]) == vol[i]
  {
    if i > 0 {
      assert Before(ask, px[0], px[i]);
      VolIs(ask, px[1..], vol[1..], i - 1);
    }
  }

  lemma {:induction false} VolNone(px: seq<real>, vol: seq<int>, p: real)
    requires |vol| == |px| && p !in px
    ensures VolAt(px, vol, p) == 0
  {
    if px != [] {
      assert px[0] in px;
      VolNone(px[1..], vol[1..], p);
    }
  }

  /** Prices both ladders reach: no better than either best, no worse than either worst. */
  predicate Reached(ask: bool, a: seq<real>, b: seq<real>, p: real)
    requires a != [] && b != []
  {
    !Before(ask, p, a[0]) && !Before(ask, p, b[0]) && !Before(ask, a[|a| - 1], p) && !Before(ask, b[|b| - 1], p)
  }

  /** An entry of the difference. */
  predicate Entry(ask: bool, a: seq<real>, av: seq<int>, b: seq<real>, bv: seq<int>, p: real, v: int)
    requires a != [] && b != [] && |av| == |a| && |bv| == |b|
  {
    (p in a || p in b) && Reached(ask, a, b, p) && v == VolAt(b, bv, p) - VolAt(a, av, p)
  }

  /** The k entries written are these, in the ladder's order, and cover every price both ladders reach. */
  ghost predicate IsDelta(ask: bool, a: seq<real>, av: seq<int>, b: seq<real>, bv: seq<int>, px: seq<real>, vol: seq<int>)
    requires a != [] && b != [] && |av| == |a| && |bv| == |b|
  {
    && |px| == |vol| <= |a| + |b| - 1
    && (forall m, n | 0 <= m < n < |px| :: Before(ask, px[m], px[n]))
    && (forall m | 0 <= m < |px| :: Entry(ask, a, av, b, bv, px[m], vol[m]))
    && (forall p | (p in a || p in b) && Reached(ask, a, b, p) :: p in px)
  }

  /** Behind the merge so far: i old and j new levels are done, k entries written. */
  ghost predicate Merged(ask: bool, a: seq<real>, av: seq<int>, b: seq<real>, bv: seq<int>,
                         px: seq<real>, vol: seq<int>, i: nat, j: nat)
    requires a != [] && b != [] && |av| == |a| && |bv| == |b|
  {
    && i <= |a| && j <= |b| && |px| == |vol| <= i + j
    && (forall m, n | 0 <= m < n < |px| :: Before(ask, px[m], px[n]))
    && (forall m | 0 <= m < |px| :: Entry(ask, a, av, b, bv, px[m], vol[m]))
    && (forall m | 0 <= m < |px| :: (i < |a| ==> Before(ask, px[m], a[i])) && (j < |b| ==> Before(ask, px[m], b[j])))
    && Done(ask, a, b, px, i, j) && Done(ask, b, a, px, j, i)
  }

  /** The first i levels of a lie before what is left of b; they were better than all of b, or are entries. */
  predicate Done(ask: bool, a: seq<real>, b: seq<real>, px: seq<real>, i: nat, j: nat)
    requires b != [] && i <= |a| && j <= |b|
  {
    && (forall x | 0 <= x < i :: (j < |b| ==> Before(ask, a[x], b[j])) && (Before(ask, a[x], b[0]) || a[x] in px))
    && (i < |a| ==> !Before(ask, a[i], b[0]))
  }

  /** The next entry. */
  lemma MergeStep(ask: bool, a: seq<real>, av: seq<int>, b: seq<real>, bv: seq<int>,
                  px: seq<real>, vol: seq<int>, i: nat, j: nat)
    requires Ladder(ask, a) && Ladder(ask, b) && |av| == |a| && |bv| == |b|
    requires Merged(ask, a, av, b, bv, px, vol, i, j) && i < |a| && j < |b|
    ensures var p := if Before(ask, a[i], b[j]) then a[i] else b[j];
      var v := (if p == b[j] then bv[j] else 0) - (if p == a[i] then av[i] else 0);
      Merged(ask, a, av, b, bv, px + [p], vol + [v], if p == a[i] then i + 1 else i, if p == b[j] then j + 1 else j)
  {
    hide VolAt, Reached, Done;
    var p := if Before(ask, a[i], b[j]) then a[i] else b[j];
    DoneFront(ask, a, b, px, i, j);
    DoneFront(ask, b, a, px, j, i);
    DoneStep(ask, a, b, px, i, j, p);
    DoneStep(ask, b, a, px, j, i, p);
    if p == a[i] { VolIs(ask, a, av, i); } else { NotIn(ask, a, i, p); VolNone(a, av, p); }
    if p == b[j] { VolIs(ask, b, bv, j); } else { NotIn(ask, b, j, p); VolNone(b, bv, p); }
    Within(ask, a, b, i, j, p);
  }

  lemma DoneFront(ask: bool, a: seq<real>, b: seq<real>, px: seq<real>, i: nat, j: nat)
    requires b != [] && i < |a| && j < |b| && Done(ask, a, b, px, i, j)
    ensures !Before(ask, a[i], b[0]) && forall x | 0 <= x < i :: Before(ask, a[x], b[j])
  {}

  lemma DoneStep(ask: bool, a: seq<real>, b: seq<real>, px: seq<real>, i: nat, j: nat, p: real)
    requires Ladder(ask, a) && Ladder(ask, b) && i < |a| && j < |b| && Done(ask, a, b, px, i, j)
    requires p == if Before(ask, a[i], b[j]) then a[i] else b[j]
    ensures Done(ask, a, b, px + [p], if p == a[i] then i + 1 else i, if p == b[j] then j + 1 else j)
  {
    assert j + 1 < |b| ==> Before(ask, b[j], b[j + 1]);
    assert i + 1 < |a| ==> Before(ask, a[i], a[i + 1]);
    assert forall q | q in px :: q in px + [p];
    assert p in px + [p];
  }

  /** A price between two levels is none. */
  lemma NotIn(ask: bool, a: seq<real>, i: nat, p: real)
    requires Ladder(ask, a) && i < |a| && Before(ask, p, a[i]) && forall x | 0 <= x < i :: Before(ask, a[x], p)
    ensures p !in a
  {
    assert forall x | i < x < |a| :: Before(ask, a[i], a[x]);
  }

  lemma Within(ask: bool, a: seq<real>, b: seq<real>, i: nat, j: nat, p: real)
    requires Ladder(ask, a) && Ladder(ask, b) && i < |a| && j < |b|
    requires p == (if Before(ask, a[i], b[j]) then a[i] else b[j])
    requires !Before(ask, a[i], b[0]) && !Before(ask, b[j], a[0])
    ensures Reached(ask, a, b, p)
  {
    assert i > 0 ==> Before(ask, a[0], a[i]);
    assert j > 0 ==> Before(ask, b[0], b[j]);
    assert i < |a| - 1 ==> Before(ask, a[i], a[|a| - 1]);
    assert j < |b| - 1 ==> Before(ask, b[j], b[|b| - 1]);
  }

  /** When one ladder is used up, everything both reach is an entry. */
  lemma MergeEnd(ask: bool, a: seq<real>, av: seq<int>, b: seq<real>, bv: seq<int>,
                 px: seq<real>, vol: seq<int>, i: nat, j: nat)
    requires Ladder(ask, a) && Ladder(ask, b) && |av| == |a| && |bv| == |b|
    requires Merged(ask, a, av, b, bv, px, vol, i, j) && (i == |a| || j == |b|)
    ensures forall p | (p in a || p in b) && Reached(ask, a, b, p) :: p in px
  {
    hide VolAt, Entry;
    forall p | (p in a || p in b) && Reached(ask, a, b, p) ensures p in px {
      if p in a { Covered(ask, a, b, px, i, j, p); } else { Covered(ask, b, a, px, j, i, p); }
    }
  }

  lemma Covered(ask: bool, a: seq<real>, b: seq<real>, px: seq<real>, i: nat, j: nat, p: real)
    requires Ladder(ask, a) && Ladder(ask, b) && i <= |a| && j <= |b| && (i == |a| || j == |b|)
    requires Done(ask, a, b, px, i, j) && Done(ask, b, a, px, j, i) && p in a && Reached(ask, a, b, p)
    ensures p in px
  {
    if i < |a| {
      assert Before(ask, b[|b| - 1], a[i]);
    }
    var x :| 0 <= x < |a| && a[x] == p;
    assert x < i;
  }

  /** Levels better than all of the other ladder are skipped. */
  method SkipBetter(ask: bool, a: seq<real>, b: seq<real>) returns (i: nat)
    requires b != []
    ensures i <= |a| && (forall x | 0 <= x < i :: Before(ask, a[x], b[0])) && (i < |a| ==> !Before(ask, a[i], b[0]))
  {
    i := 0;
    while i < |a| && Before(ask, a[i], b[0])
      invariant 0 <= i <= |a| && forall x | 0 <= x < i :: Before(ask, a[x], b[0])
    {
      i := i + 1;
    }
  }

  lemma MergeStart(ask: bool, a: seq<real>, av: seq<int>, b: seq<real>, bv: seq<int>, i: nat, j: nat)
    requires Ladder(ask, a) && Ladder(ask, b) && |av| == |a| && |bv| == |b| && i <= |a| && j <= |b|
    requires (forall x | 0 <= x < i :: Before(ask, a[x], b[0])) && (i < |a| ==> !Before(ask, a[i], b[0]))
    requires (forall x | 0 <= x < j :: Before(ask, b[x], a[0])) && (j < |b| ==> !Before(ask, b[j], a[0]))
    ensures Merged(ask, a, av, b, bv, [], [], i, j)
  {
    assert j < |b| && j > 0 ==> Before(ask, b[0], b[j]);
    assert i < |a| && i > 0 ==> Before(ask, a[0], a[i]);
  }

  /**
   * One side of `GetOBDMap2`: the old levels a with volumes av, the new ones b with bv. The arrays are cleared and the
   * first k entries written; they are the difference when the levels are ladders.
   */
  method MergeSide(ask: bool, a: seq<real>, av: seq<int>, b: seq<real>, bv: seq<int>, px: array<real>, vol: array<int>)
    returns (k: nat)
    requires a != [] && b != [] && |av| == |a| && |bv| == |b|
    requires px.Length == vol.Length >= |a| + |b| - 1
    modifies px, vol
    ensures k <= |a| + |b| - 1
    ensures Ladder(ask, a) && Ladder(ask, b) ==> IsDelta(ask, a, av, b, bv, px[..k], vol[..k])
    ensures forall m | k <= m < px.Length :: px[m] == 0.0 && vol[m] == 0
  {
    hide Merged, IsDelta, Ladder;
    for m := 0 to px.Length
      invariant forall n | 0 <= n < m :: px[n] == 0.0 && vol[n] == 0
    {
      px[m], vol[m] := 0.0, 0;
    }
    var i := SkipBetter(ask, a, b);
    var j := SkipBetter(ask, b, a);
    ghost var ladders := Ladder(ask, a) && Ladder(ask, b);
    if ladders { MergeStart(ask, a, av, b, bv, i, j); }
    k := 0;
    assert px[..0] == [] && vol[..0] == [];
    while i < |a| && j < |b|
      invariant 0 <= i <= |a| && 0 <= j <= |b| && k <= i + j && k <= |a| + |b| - 1
      invariant ladders ==> Merged(ask, a, av, b, bv, px[..k], vol[..k], i, j)
      invariant forall m | k <= m < px.Length :: px[m] == 0.0 && vol[m] == 0
      decreases |a| + |b| - i - j
    {
      if ladders { MergeStep(ask, a, av, b, bv, px[..k], vol[..k], i, j); }
      ghost var p0, v0 := px[..k], vol[..k];
      px[k] := if Before(ask, a[i], b[j]) then a[i] else b[j];
      if px[k] == a[i] {
        vol[k] := vol[k] - av[i];
        i := i + 1;
      }
      if px[k] == b[j] {
        vol[k] := vol[k] + bv[j];
        j := j + 1;
      }
      assert px[..k + 1] == p0 + [px[k]] && vol[..k + 1] == v0 + [vol[k]];
      k := k + 1;
    }
    if ladders { MergeDone(ask, a, av, b, bv, px[..k], vol[..k], i, j); }
  }

  /** The levels of a snapshot; the program has five. */
  datatype Side = Side(px: seq<real>, vol: seq<int>)

  predicate Levels(s: Side) { |s.px| == |s.vol| == 5 }

  predicate Rising(px: seq<real>) { forall i, j | 0 <= i < j < |px| :: px[i] < px[j] }

  predicate Falling(px: seq<real>) { forall i, j | 0 <= i < j < |px| :: px[i] > px[j] }

  /** A price between the least and the greatest of some, both included. */
  predicate Spans(px: seq<real>, p: real) {
    (exists x | x in px :: x <= p) && (exists x | x in px :: p <= x)
  }

  /** The side offers this volume at the price, or has no such level and the volume is 0. */
  predicate Quoted(s: Side, p: real, v: int)
    requires |s.px| == |s.vol|
  {
    if p in s.px then exists i :: 0 <= i < |s.px| && s.px[i] == p && s.vol[i] == v else v == 0
  }

  /** A price's change of volume. */
  ghost predicate Changed(old': Side, new': Side, p: real, v: int)
    requires |old'.px| == |old'.vol| && |new'.px| == |new'.vol|
  {
    exists o, n :: Quoted(old', p, o) && Quoted(new', p, n) && v == n - o
  }

  /** The prices of either snapshot inside the ranges of both, each with its change of volume. */
  ghost predicate Difference(old': Side, new': Side, d: Side)
    requires |old'.px| == |old'.vol| && |new'.px| == |new'.vol|
  {
    && |d.px| == |d.vol|
    && (forall p :: p in d.px <==> (p in old'.px || p in new'.px) && Spans(old'.px, p) && Spans(new'.px, p))
    && (forall m | 0 <= m < |d.px| :: Changed(old', new', d.px[m], d.vol[m]))
  }

  lemma {:induction false} QuotedVol(px: seq<real>, vol: seq<int>, p: real)
    requires |vol| == |px|
    ensures Quoted(Side(px, vol), p, VolAt(px, vol, p))
  {
    if p in px {
      if px[0] != p {
        QuotedVol(px[1..], vol[1..], p);
        var i :| 0 <= i < |px[1..]| && px[1..][i] == p && vol[1..][i] == VolAt(px[1..], vol[1..], p);
        assert px[i + 1] == p && vol[i + 1] == VolAt(px, vol, p);
      }
    } else {
      VolNone(px, vol, p);
    }
  }

  lemma ReachedSpans(ask: bool, px: seq<real>, p: real)
    requires Ladder(ask, px)
    ensures Spans(px, p) <==> !Before(ask, p, px[0]) && !Before(ask, px[|px| - 1], p)
  {
    assert px[0] in px && px[|px| - 1] in px;
    assert forall x | x in px :: !Before(ask, x, px[0]) && !Before(ask, px[|px| - 1], x);
  }

  /** What the merge writes, said of prices alone, without the direction of the ladder. */
  lemma DeltaMeans(ask: bool, a: seq<real>, av: seq<int>, b: seq<real>, bv: seq<int>, px: seq<real>, vol: seq<int>)
    requires Ladder(ask, a) && Ladder(ask, b) && |av| == |a| && |bv| == |b|
    requires IsDelta(ask, a, av, b, bv, px, vol)
    ensures Difference(Side(a, av), Side(b, bv), Side(px, vol))
    ensures if ask then Rising(px) else Falling(px)
  {
    hide VolAt, Quoted, Spans;
    forall p ensures p in px <==> (p in a || p in b) && Spans(a, p) && Spans(b, p) {
      ReachedSpans(ask, a, p);
      ReachedSpans(ask, b, p);
    }
    forall m | 0 <= m < |px| ensures Changed(Side(a, av), Side(b, bv), px[m], vol[m]) {
      QuotedVol(a, av, px[m]);
      QuotedVol(b, bv, px[m]);
    }
  }

  /** `GetOBDMap2`, and with cleared arrays `getDeltaMarketData`. */
  method GetOBDMap2(lastBid: Side, bid: Side, lastAsk: Side, ask: Side,
                    bidPx: array<real>, bidVol: array<int>, askPx: array<real>, askVol: array<int>)
    returns (bids: nat, asks: nat)
    requires Levels(lastBid) && Levels(bid) && Levels(lastAsk) && Levels(ask)
    requires bidPx.Length == bidVol.Length == askPx.Length == askVol.Length == 10
    requires bidPx != askPx && bidVol != askVol
    modifies bidPx, bidVol, askPx, askVol
    ensures bids <= 9 && asks <= 9
    ensures Ladder(false, lastBid.px) && Ladder(false, bid.px) ==>
              IsDelta(false, lastBid.px, lastBid.vol, bid.px, bid.vol, bidPx[..bids], bidVol[..bids])
    ensures Ladder(true, lastAsk.px) && Ladder(true, ask.px) ==>
              IsDelta(true, lastAsk.px, lastAsk.vol, ask.px, ask.vol, askPx[..asks], askVol[..asks])
    ensures Falling(lastBid.px) && Falling(bid.px) ==>
              Falling(bidPx[..bids]) && Difference(lastBid, bid, Side(bidPx[..bids], bidVol[..bids]))
    ensures Rising(lastAsk.px) && Rising(ask.px) ==>
              Rising(askPx[..asks]) && Difference(lastAsk, ask, Side(askPx[..asks], askVol[..asks]))
  {
    hide IsDelta, Ladder, Difference;
    bids := MergeSide(false, lastBid.px, lastBid.vol, bid.px, bid.vol, bidPx, bidVol);
    ghost var p, v := bidPx[..bids], bidVol[..bids];
    asks := MergeSide(true, lastAsk.px, lastAsk.vol, ask.px, ask.vol, askPx, askVol);
    assert bidPx[..bids] == p && bidVol[..bids] == v;
    BothMean(false, lastBid, bid, p, v);
    BothMean(true, lastAsk, ask, askPx[..asks], askVol[..asks]);
  }

  lemma BothMean(ask: bool, old': Side, new': Side, px: seq<real>, vol: seq<int>)
    requires Levels(old') && Levels(new')
    requires Ladder(ask, old'.px) && Ladder(ask, new'.px) ==>
               IsDelta(ask, old'.px, old'.vol, new'.px, new'.vol, px, vol)
    ensures (if ask then Rising(old'.px) && Rising(new'.px) else Falling(old'.px) && Falling(new'.px)) ==>
              (if ask then Rising(px) else Falling(px)) && Difference(old', new', Side(px, vol))
  {
    hide IsDelta, Difference;
    if Ladder(ask, old'.px) && Ladder(ask, new'.px) {
      DeltaMeans(ask, old'.px, old'.vol, new'.px, new'.vol, px, vol);
    }
  }

  lemma MergeDone(ask: bool, a: seq<real>, av: seq<int>, b: seq<real>, bv: seq<int>,
                  px: seq<real>, vol: seq<int>, i: nat, j: nat)
    requires Ladder(ask, a) && Ladder(ask, b) && |av| == |a| && |bv| == |b| && |px| <= |a| + |b| - 1
    requires Merged(ask, a, av, b, bv, px, vol, i, j) && (i == |a| || j == |b|)
    ensures IsDelta(ask, a, av, b, bv, px, vol)
  {
    hide VolAt, Reached, Entry;
    MergeEnd(ask, a, av, b, bv, px, vol, i, j);
  }

  /** The description leaves no choice: two differences of the same ladders are the same. */
  lemma {:induction false} DeltaUnique(ask: bool, a: seq<real>, av: seq<int>, b: seq<real>, bv: seq<int>,
                                       p: seq<real>, v: seq<int>, q: seq<real>, w: seq<int>)
    requires a != [] && b != [] && |av| == |a| && |bv| == |b|
    requires IsDelta(ask, a, av, b, bv, p, v) && IsDelta(ask, a, av, b, bv, q, w)
    ensures p == q && v == w
  {
    hide VolAt, Reached;
    assert forall x :: x in p <==> x in q;
    SameOrder(ask, p, q);
    forall m | 0 <= m < |p| ensures v[m] == w[m] {
      assert Entry(ask, a, av, b, bv, p[m], v[m]) && Entry(ask, a, av, b, bv, q[m], w[m]);
    }
  }

  /** Strictly ordered sequences of the same prices are the same. */
  lemma {:induction false} SameOrder(ask: bool, p: seq<real>, q: seq<real>)
    requires forall m, n | 0 <= m < n < |p| :: Before(ask, p[m], p[n])
    requires forall m, n | 0 <= m < n < |q| :: Before(ask, q[m], q[n])
    requires forall x :: x in p <==> x in q
    ensures p == q
  {
    if q != [] {
      var x := q[0];
      assert x in q;
    }
    if p != [] {
      var x := p[0];
      assert x in p;
    }
    if p != [] && q != [] {
      var i :| 0 <= i < |q| && q[i] == p[0];
      var j :| 0 <= j < |p| && p[j] == q[0];
      assert p[0] == q[0];
      forall x ensures x in p[1..] <==> x in q[1..] {
        TailOf(ask, p, x);
        TailOf(ask, q, x);
      }
      SameOrder(ask, p[1..], q[1..]);
    }
  }

  lemma TailOf(ask: bool, p: seq<real>, x: real)
    requires p != [] && forall m, n | 0 <= m < n < |p| :: Before(ask, p[m], p[n])
    ensures x in p[1..] <==> x in p && x != p[0]
  {
    if x in p[1..] {
      var i :| 0 <= i < |p[1..]| && p[1..][i] == x;
      assert Before(ask, p[0], p[i + 1]);
    }
  }
}
