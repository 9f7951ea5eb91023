/** A trading day: live messages against a replay of the final order records, and the switch to the next day. */
module LedgerDay {
  import opened Ledger
  import opened LedgerTotals
  import opened LedgerInstr

  // ---------------------------------------------------------------- the day as a run

  datatype Day = Day(book: Book, orders: seq<Order>)

  datatype Event =
    | Send(k: nat, d: Dir, o: Off, px: real, v: int)
    | Message(id: nat, m: Rtn)
    | Market(k: nat, px: real)

  /** Orders have known terms, and messages fit their order. */
  predicate Legal(s: Day, e: Event) {
    match e
    case Send(k, d, o, px, v) => Known(d, o) && v >= 1
    case Message(id, m) =>
      id < |s.orders| && (m == Other || s.orders[id].live) &&
      (m.Cxl? ==> m.v == s.orders[id].vol - s.orders[id].traded) &&
      (m.Trd? ==> 1 <= m.v <= s.orders[id].vol - s.orders[id].traded)
    case Market(k, px) => true
  }

  function Step(s: Day, info: map<nat, Info>, e: Event): Day
    requires Linked(s.book) && Legal(s, e)
  {
    match e
    case Send(k, d, o, px, v) =>
      Day(OnNew(s.book, info, k, d, o, px, v), s.orders + [Order(k, d, o, px, v, 0, 0.0, true)])
    case Message(id, m) =>
      var r := Recorded(s.orders[id], m);
      Day(OnRtn(s.book, info, r, m), s.orders[id := r])
    case Market(k, px) => s.(book := OnTickPx(s.book, info, k, px))
  }

  predicate LegalRun(s: Day, info: map<nat, Info>, es: seq<Event>)
    decreases |es|
  {
    es == [] || (Linked(s.book) && Legal(s, es[0]) && LegalRun(Step(s, info, es[0]), info, es[1..]))
  }

  function Run(s: Day, info: map<nat, Info>, es: seq<Event>): Day
    requires LegalRun(s, info, es)
    decreases |es|
  {
    if es == [] then s else Run(Step(s, info, es[0]), info, es[1..])
  }

  /** `onOrderTrack` for one final record after another. */
  function Replay(b: Book, info: map<nat, Info>, rs: seq<Order>): Book
    requires Linked(b)
    ensures Linked(Replay(b, info, rs))
  {
    if rs == [] then b
    else
      var before := Replay(b, info, rs[..|rs| - 1]);
      TrackLinked(before, info, rs[|rs| - 1]);
      OnOrderTrack(before, info, rs[|rs| - 1])
  }

  lemma PostLinked(b: Book, k: nat, i: Instr, d: Sheet, count: int)
    requires Linked(b) && k in b.instrs && i.prd == b.instrs[k].prd
    ensures Linked(PostTo(b, k, i, d, count)) && k in PostTo(b, k, i, d, count).instrs
  {
    hide Plus, PlusAmt, PlusPnl;
  }

  lemma TrackLinked(b: Book, info: map<nat, Info>, r: Order)
    requires Linked(b)
    ensures Linked(OnOrderTrack(b, info, r))
  {
    hide Linked, PostTo, NewPosting, TradePosting, TickPosting, Traded, Plus;
    if r.k in info {
      var b0 := Registered(b, info, r.k);
      RegisteredLinked(b, info, r.k);
      var i := b0.instrs[r.k];
      PostLinked(b0, r.k, Posted(i, NewPosting(r.d, r.o, r.px, r.vol, i.mult)), NewPosting(r.d, r.o, r.px, r.vol, i.mult), 1);
      var b1 := DoNew(b0, r.k, r.d, r.o, r.px, r.vol);
      LinkedAt(b1, r.k);
      var j, v := b1.instrs[r.k], -(r.vol - r.traded);
      PostLinked(b1, r.k, Posted(j, NewPosting(r.d, r.o, r.px, v, j.mult)), NewPosting(r.d, r.o, r.px, v, j.mult), -1);
      var b2 := if !r.live && r.vol != r.traded then DoCxl(b1, r.k, r.d, r.o, r.px, r.vol - r.traded) else b1;
      LinkedAt(b2, r.k);
      if r.traded > 0 {
        var l, trdPx := b2.instrs[r.k], r.amount / r.traded as real;
        TradedFields(l, r.d, r.o, r.px, trdPx, r.traded);
        PostLinked(b2, r.k, Traded(l, r.d, r.o, r.px, trdPx, r.traded),
                   Plus(TickPosting(l, trdPx), TradePosting(r.d, r.o, r.px, trdPx, r.traded, l.mult)),
                   if r.vol == r.traded then -1 else 0);
      }
    }
  }

  lemma LinkedAt(b: Book, k: nat)
    requires Linked(b) && k in b.instrs
    ensures b.instrs[k].prd in b.prds
  {}

  lemma RegisteredLinked(b: Book, info: map<nat, Info>, k: nat)
    requires Linked(b) && k in info
    ensures Linked(Registered(b, info, k)) && k in Registered(b, info, k).instrs
    ensures Registered(b, info, k).instrs[k].prd in Registered(b, info, k).prds
  {}

  // ---------------------------------------------------------------- the invariant

  function StartCols(b0: Book, k: nat): Sheet {
    if k in b0.instrs then Cols(b0.instrs[k].sheet) else BLANK
  }

  function StartPx(b0: Book, k: nat): real {
    if k in b0.instrs then b0.instrs[k].px.stlYd else 0.0
  }

  /** An instrument with these columns, and everything else as it has to be. */
  predicate InstrAt(b0: Book, info: map<nat, Info>, k: nat, i: Instr, cols: Sheet) {
    && k in info && Sound(i) && i.mult == info[k].mult && i.prd == info[k].prd
    && i.px.stlYd == StartPx(b0, k) && Cols(i.sheet) == cols
  }

  /** The columns of instrument k: those it started with, and what its orders add. */
  function Expected(b0: Book, info: map<nat, Info>, rs: seq<Order>, k: nat): Sheet
    requires k in info
  {
    Plus(StartCols(b0, k), SumOrders(rs, k, info[k].mult))
  }

  function LiveCount(info: map<nat, Info>, rs: seq<Order>): int {
    if rs == [] then 0
    else LiveCount(info, rs[..|rs| - 1]) + if rs[|rs| - 1].live && rs[|rs| - 1].k in info then 1 else 0
  }

  /** Books as the orders have it, but for `extra` on instrument k and n orders counted besides. */
  ghost predicate BookAt(b0: Book, info: map<nat, Info>, rs: seq<Order>, b: Book, k: nat, extra: Sheet, n: int) {
    && Totals(b) && b0.instrs.Keys <= b.instrs.Keys
    && (forall j | j in b.instrs :: j in info &&
          InstrAt(b0, info, j, b.instrs[j], if j == k then Plus(Expected(b0, info, rs, j), extra) else Expected(b0, info, rs, j)))
    && (forall id | 0 <= id < |rs| :: rs[id].k in info ==> rs[id].k in b.instrs)
    && PrdKeys(b0, info, b)
    && b.acc.unfilled == LiveCount(info, rs) + n
  }

  /** The products on record are those there were, and those of the instruments. */
  predicate PrdKeys(b0: Book, info: map<nat, Info>, b: Book)
    requires forall j | j in b.instrs :: j in info
  {
    b.prds.Keys == b0.prds.Keys + set j | j in b.instrs :: info[j].prd
  }

  ghost predicate BookOk(b0: Book, info: map<nat, Info>, rs: seq<Order>, b: Book) {
    BookAt(b0, info, rs, b, 0, BLANK, 0)
  }

  /** With nothing extra it does not matter where. */
  lemma Anywhere(b0: Book, info: map<nat, Info>, rs: seq<Order>, b: Book, k: nat, m: nat)
    requires BookAt(b0, info, rs, b, k, BLANK, 0)
    ensures BookAt(b0, info, rs, b, m, BLANK, 0)
  {
    hide Totals, SumOrders, LiveCount, Plus, Cols, Sound;
    forall j | j in b.instrs ensures Plus(Expected(b0, info, rs, j), BLANK) == Expected(b0, info, rs, j) {
      PlusBlank(Expected(b0, info, rs, j));
    }
  }

  predicate InstrStart(i: Instr, info: Info) {
    && Sound(i) && i.mult == info.mult && i.prd == info.prd && Quiet(i.sheet)
  }

  /** Nothing in flight, nothing turned over. */
  predicate Quiet(s: Sheet) {
    && s.vol.longYdClsIng == s.vol.longTdClsIng == s.vol.longTdOpnIng == 0
    && s.vol.shortYdClsIng == s.vol.shortTdClsIng == s.vol.shortTdOpnIng == 0 && s.vol.buy == s.vol.sell == 0
    && s.amt.longYdSubIng == s.amt.longTdAddIng == s.amt.longTdSubIng == 0.0
    && s.amt.shortYdSubIng == s.amt.shortTdAddIng == s.amt.shortTdSubIng == 0.0 && s.amt.buy == s.amt.sell == 0.0
  }

  /** The account as a day begins. */
  ghost predicate StartOk(b0: Book, info: map<nat, Info>) {
    && Totals(b0) && b0.acc.unfilled == 0
    && forall k | k in b0.instrs :: k in info && InstrStart(b0.instrs[k], info[k])
  }

  lemma StartBook(b0: Book, info: map<nat, Info>)
    requires StartOk(b0, info)
    ensures BookOk(b0, info, [], b0)
  {
    hide Totals, Plus, Cols, Sound;
    forall j | j in b0.instrs
      ensures Expected(b0, info, [], j) == StartCols(b0, j) && Plus(Expected(b0, info, [], j), BLANK) == StartCols(b0, j)
    {
      assert InstrStart(b0.instrs[j], info[j]);
      PlusBlank(StartCols(b0, j));
    }
    assert Linked(b0) by { TotalsLinked(b0); }
    assert forall j | j in b0.instrs :: info[j].prd in b0.prds by {
      forall j | j in b0.instrs ensures info[j].prd in b0.prds {
        assert InstrStart(b0.instrs[j], info[j]);
      }
    }
  }

  lemma TotalsLinked(b: Book)
    requires Totals(b)
    ensures Linked(b)
  {}

  // ---------------------------------------------------------------- steps

  lemma FreshAt(b0: Book, info: map<nat, Info>, rs: seq<Order>, k: nat)
    requires k in info && k !in b0.instrs && forall id | 0 <= id < |rs| :: rs[id].k != k
    ensures InstrAt(b0, info, k, NewInstr(info[k].mult, info[k].prd), Expected(b0, info, rs, k))
  {
    hide Plus;
    NewSound(info[k].mult, info[k].prd);
    NoOrders(rs, k, info[k].mult);
    PlusBlank(BLANK);
  }

  lemma {:induction false} NoOrders(rs: seq<Order>, k: nat, mult: int)
    requires forall id | 0 <= id < |rs| :: rs[id].k != k
    ensures SumOrders(rs, k, mult) == BLANK
  {
    if rs != [] {
      NoOrders(rs[..|rs| - 1], k, mult);
    }
  }

  lemma RegisteredAt(b0: Book, info: map<nat, Info>, rs: seq<Order>, b: Book, k: nat)
    requires BookAt(b0, info, rs, b, k, BLANK, 0) && k in info
    ensures BookAt(b0, info, rs, Registered(b, info, k), k, BLANK, 0)
    ensures k in Registered(b, info, k).instrs && Linked(Registered(b, info, k))
  {
    hide Totals, Plus, SumOrders, LiveCount, InstrAt, Expected, PrdKeys;
    var b' := Registered(b, info, k);
    RegisteredTotals(b, info, k);
    TotalsLinked(b');
    assert k in b.instrs ==> b.instrs[k].prd == info[k].prd && info[k].prd in b.prds by {
      if k in b.instrs { AtFields(b0, info, rs, b, k, BLANK, 0); }
    }
    RegisteredKeys(b0, info, b, k);
    if k !in b.instrs {
      forall id | 0 <= id < |rs| ensures rs[id].k != k { }
      FreshAt(b0, info, rs, k);
      PlusBlank(Expected(b0, info, rs, k));
    } else {
      assert b' == b;
    }
  }

  lemma RegisteredKeys(b0: Book, info: map<nat, Info>, b: Book, k: nat)
    requires k in info && (forall j | j in b.instrs :: j in info) && PrdKeys(b0, info, b)
    requires k in b.instrs ==> info[k].prd in b.prds
    ensures forall j | j in Registered(b, info, k).instrs :: j in info
    ensures PrdKeys(b0, info, Registered(b, info, k))
  {
    var b' := Registered(b, info, k);
    if k !in b.instrs {
      var before, after := set j | j in b.instrs :: info[j].prd, set j | j in b'.instrs :: info[j].prd;
      forall p | p in before ensures p in after {
        var j :| j in b.instrs && info[j].prd == p;
        assert j in b'.instrs;
      }
      assert k in b'.instrs && info[k].prd in after;
      assert after == before + {info[k].prd};
    }
  }

  /** One posting, and what it leaves extra. */
  lemma PostAt(b0: Book, info: map<nat, Info>, rs: seq<Order>, b: Book, k: nat, extra: Sheet, n: int,
               i: Instr, d: Sheet, count: int, extra': Sheet)
    requires BookAt(b0, info, rs, b, k, extra, n) && k in b.instrs && b.instrs[k].prd in b.prds
    requires Totals(PostTo(b, k, i, d, count))
    requires InstrAt(b0, info, k, i, Plus(Expected(b0, info, rs, k), extra'))
    ensures BookAt(b0, info, rs, PostTo(b, k, i, d, count), k, extra', n + count)
  {
    hide Totals, Plus, SumOrders, LiveCount, InstrAt, Expected;
    var b' := PostTo(b, k, i, d, count);
    assert b'.instrs.Keys == b.instrs.Keys;
    assert b'.prds.Keys == b.prds.Keys;
  }

  /** The orders catch up with what was extra. */
  lemma Settle(b0: Book, info: map<nat, Info>, rs: seq<Order>, rs': seq<Order>, b: Book, k: nat, extra: Sheet, n: int)
    requires BookAt(b0, info, rs, b, k, extra, n) && k in info && k in b.instrs
    requires SumOrders(rs', k, info[k].mult) == Plus(SumOrders(rs, k, info[k].mult), extra)
    requires forall j, m | j != k :: SumOrders(rs', j, m) == SumOrders(rs, j, m)
    requires LiveCount(info, rs') == LiveCount(info, rs) + n
    requires forall id | 0 <= id < |rs'| :: rs'[id].k in info ==> rs'[id].k in b.instrs
    ensures BookAt(b0, info, rs', b, k, BLANK, 0)
  {
    hide Totals, Plus, SumOrders, LiveCount, InstrAt;
    PlusAssoc(StartCols(b0, k), SumOrders(rs, k, info[k].mult), extra);
    PlusBlank(Expected(b0, info, rs', k));
  }

  lemma TickAt(b0: Book, info: map<nat, Info>, rs: seq<Order>, b: Book, k: nat, px: real)
    requires BookAt(b0, info, rs, b, k, BLANK, 0) && k in b.instrs && b.instrs[k].prd in b.prds
    ensures BookAt(b0, info, rs, DoTick(b, k, px), k, BLANK, 0)
  {
    hide Totals, Plus, SumOrders, LiveCount, TickPosting, PostTo, Cols, Sound, Expected, Posted;
    var i := b.instrs[k];
    TickTotals(b, k, px);
    TickSound(i, px);
    TickCols(i, px);
    TickedFields(i, px);
    PostAt(b0, info, rs, b, k, BLANK, 0, Ticked(i, px), TickPosting(i, px), 0, BLANK);
  }

  lemma NewAt(b0: Book, info: map<nat, Info>, rs: seq<Order>, b: Book, k: nat, extra: Sheet, n: int,
              d: Dir, o: Off, px: real, v: int)
    requires BookAt(b0, info, rs, b, k, extra, n) && k in b.instrs && b.instrs[k].prd in b.prds
    ensures BookAt(b0, info, rs, DoNew(b, k, d, o, px, v), k, Plus(extra, NewPosting(d, o, px, v, b.instrs[k].mult)), n + 1)
    ensures BookAt(b0, info, rs, DoCxl(b, k, d, o, px, v), k, Plus(extra, NewPosting(d, o, px, -v, b.instrs[k].mult)), n - 1)
  {
    hide Totals, Plus, SumOrders, LiveCount, NewPosting, PostTo, Cols, Sound, Expected;
    var i := b.instrs[k];
    NewTotals(b, k, d, o, px, v);
    NewInstrAt(b0, info, k, i, Expected(b0, info, rs, k), extra, d, o, px, v);
    NewInstrAt(b0, info, k, i, Expected(b0, info, rs, k), extra, d, o, px, -v);
    var p, q := NewPosting(d, o, px, v, i.mult), NewPosting(d, o, px, -v, i.mult);
    PostAt(b0, info, rs, b, k, extra, n, Posted(i, p), p, 1, Plus(extra, p));
    PostAt(b0, info, rs, b, k, extra, n, Posted(i, q), q, -1, Plus(extra, q));
  }

  lemma NewInstrAt(b0: Book, info: map<nat, Info>, k: nat, i: Instr, cols: Sheet, extra: Sheet,
                   d: Dir, o: Off, px: real, v: int)
    requires InstrAt(b0, info, k, i, Plus(cols, extra))
    ensures InstrAt(b0, info, k, Posted(i, NewPosting(d, o, px, v, i.mult)), Plus(cols, Plus(extra, NewPosting(d, o, px, v, i.mult))))
  {
    hide Plus, NewPosting, Cols, Sound;
    NewPostingSound(i, d, o, px, v);
    NewCols(i, d, o, px, v);
    PlusAssoc(cols, extra, NewPosting(d, o, px, v, i.mult));
  }

  lemma TrdAt(b0: Book, info: map<nat, Info>, rs: seq<Order>, b: Book, k: nat, extra: Sheet, n: int,
              d: Dir, o: Off, px: real, full: bool, trdPx: real, v: int)
    requires BookAt(b0, info, rs, b, k, extra, n) && k in b.instrs && b.instrs[k].prd in b.prds && Known(d, o)
    ensures BookAt(b0, info, rs, DoTrd(b, k, d, o, px, full, trdPx, v), k,
                   Plus(extra, TradeCols(d, o, px, v, Worth(trdPx, v), b.instrs[k].mult)), n + if full then -1 else 0)
  {
    hide Totals, Plus, SumOrders, LiveCount, TradePosting, TickPosting, PostTo, Cols, Sound, Traded, TradeCols, Worth, Expected;
    var i := b.instrs[k];
    TrdTotals(b, k, d, o, px, full, trdPx, v);
    TradedSound(i, d, o, px, trdPx, v);
    TradedCols(i, d, o, px, trdPx, v);
    TradedFields(i, d, o, px, trdPx, v);
    var t := TradeCols(d, o, px, v, Worth(trdPx, v), i.mult);
    PlusAssoc(Expected(b0, info, rs, k), extra, t);
    PostAt(b0, info, rs, b, k, extra, n, Traded(i, d, o, px, trdPx, v),
           Plus(TickPosting(i, trdPx), TradePosting(d, o, px, trdPx, v, i.mult)), if full then -1 else 0, Plus(extra, t));
  }

  lemma TradedFields(i: Instr, d: Dir, o: Off, px: real, trdPx: real, v: int)
    ensures var t := Traded(i, d, o, px, trdPx, v); t.mult == i.mult && t.prd == i.prd && t.px.stlYd == i.px.stlYd
  {
    hide CalcAvgPx, Amount, Plus, TradePosting, TickPosting;
  }

  // ---------------------------------------------------------------- live

  /** Every record is one the helper can keep. */
  predicate OrdersOk(rs: seq<Order>) {
    forall id | 0 <= id < |rs| :: OrderOk(rs[id])
  }

  lemma LiveAppend(info: map<nat, Info>, rs: seq<Order>, r: Order)
    ensures LiveCount(info, rs + [r]) == LiveCount(info, rs) + if r.live && r.k in info then 1 else 0
  {
    assert (rs + [r])[..|rs|] == rs;
  }

  lemma {:induction false} LiveChange(info: map<nat, Info>, rs: seq<Order>, id: nat, r: Order)
    requires id < |rs| && r.k == rs[id].k
    ensures LiveCount(info, rs[id := r]) == LiveCount(info, rs) +
            if r.k in info then (if r.live then 1 else 0) - (if rs[id].live then 1 else 0) else 0
  {
    var n := |rs| - 1;
    if id == n {
      assert rs[id := r][..n] == rs[..n];
    } else {
      assert rs[id := r][..n] == rs[..n][id := r];
      LiveChange(info, rs[..n], id, r);
    }
  }

  /** A new record adds its columns to its own instrument only. */
  lemma Appended(rs: seq<Order>, r: Order)
    ensures forall j, m | j != r.k :: SumOrders(rs + [r], j, m) == SumOrders(rs, j, m)
  {
    forall j, m | j != r.k ensures SumOrders(rs + [r], j, m) == SumOrders(rs, j, m) {
      SumAppend(rs, r, j, m);
    }
  }

  lemma Changed(rs: seq<Order>, id: nat, r: Order)
    requires id < |rs| && r.k == rs[id].k
    ensures forall j, m | j != r.k :: SumOrders(rs[id := r], j, m) == SumOrders(rs, j, m)
  {
    forall j, m | j != r.k ensures SumOrders(rs[id := r], j, m) == SumOrders(rs, j, m) {
      SumChange(rs, id, r, j, m, BLANK);
    }
  }

  lemma SendOk(b0: Book, info: map<nat, Info>, rs: seq<Order>, b: Book, r: Order)
    requires BookOk(b0, info, rs, b) && Linked(b) && r.live && r.traded == 0 && r.amount == 0.0
    ensures BookOk(b0, info, rs + [r], OnNew(b, info, r.k, r.d, r.o, r.px, r.vol))
  {
    hide BookAt, Plus, OrderCols, NewPosting, SumOrders, LiveCount, DoNew, Registered, Linked;
    LiveAppend(info, rs, r);
    Appended(rs, r);
    if r.k in info {
      Anywhere(b0, info, rs, b, 0, r.k);
      RegisteredAt(b0, info, rs, b, r.k);
      var b1, m := Registered(b, info, r.k), info[r.k].mult;
      AtFields(b0, info, rs, b1, r.k, BLANK, 0);
      NewAt(b0, info, rs, b1, r.k, BLANK, 0, r.d, r.o, r.px, r.vol);
      FreshCols(r, m);
      SumAppend(rs, r, r.k, m);
      PlusBlank(OrderCols(r, m));
      var b2 := DoNew(b1, r.k, r.d, r.o, r.px, r.vol);
      AtOrders(b0, info, rs, b2, r.k, Plus(BLANK, OrderCols(r, m)), 1);
      KeysDoNew(b1, r.k, r.d, r.o, r.px, r.vol);
      Settle(b0, info, rs, rs + [r], b2, r.k, Plus(BLANK, OrderCols(r, m)), 1);
      Anywhere(b0, info, rs + [r], b2, r.k, 0);
    } else {
      AtUnknown(b0, info, rs, rs + [r], b, r);
    }
  }

  lemma KeysDoNew(b: Book, k: nat, d: Dir, o: Off, px: real, v: int)
    requires k in b.instrs && b.instrs[k].prd in b.prds
    ensures DoNew(b, k, d, o, px, v).instrs.Keys == b.instrs.Keys && DoCxl(b, k, d, o, px, v).instrs.Keys == b.instrs.Keys
  {
    hide NewPosting, Plus;
  }

  lemma KeysDoTrd(b: Book, k: nat, d: Dir, o: Off, px: real, full: bool, trdPx: real, v: int)
    requires k in b.instrs && b.instrs[k].prd in b.prds
    ensures DoTrd(b, k, d, o, px, full, trdPx, v).instrs.Keys == b.instrs.Keys
  {
    hide TradePosting, TickPosting, Plus;
  }

  lemma AtFields(b0: Book, info: map<nat, Info>, rs: seq<Order>, b: Book, k: nat, extra: Sheet, n: int)
    requires BookAt(b0, info, rs, b, k, extra, n) && k in b.instrs
    ensures k in info && b.instrs[k].mult == info[k].mult && b.instrs[k].prd == info[k].prd && Linked(b) && b.instrs[k].prd in b.prds
  {
    hide Plus, Expected, LiveCount, AccOk, PrdOk;
    assert InstrAt(b0, info, k, b.instrs[k], Plus(Expected(b0, info, rs, k), extra));
  }

  lemma AtOrders(b0: Book, info: map<nat, Info>, rs: seq<Order>, b: Book, k: nat, extra: Sheet, n: int)
    requires BookAt(b0, info, rs, b, k, extra, n)
    ensures forall id | 0 <= id < |rs| :: rs[id].k in info ==> rs[id].k in b.instrs
  {}

  /** An order for an instrument that is not known leaves no trace. */
  lemma AtUnknown(b0: Book, info: map<nat, Info>, rs: seq<Order>, rs': seq<Order>, b: Book, r: Order)
    requires BookOk(b0, info, rs, b) && r.k !in info
    requires forall j, m | j != r.k :: SumOrders(rs', j, m) == SumOrders(rs, j, m)
    requires LiveCount(info, rs') == LiveCount(info, rs)
    requires forall id | 0 <= id < |rs'| && rs'[id].k in info :: id < |rs| && rs'[id].k == rs[id].k
    ensures BookOk(b0, info, rs', b)
  {
    hide Totals, Plus, SumOrders, LiveCount, InstrAt;
  }

  lemma MessageOk(b0: Book, info: map<nat, Info>, rs: seq<Order>, b: Book, id: nat, m: Rtn)
    requires BookOk(b0, info, rs, b) && Linked(b) && OrdersOk(rs) && id < |rs| && m != Other && rs[id].live
    requires m.Cxl? ==> m.v == rs[id].vol - rs[id].traded
    requires m.Trd? ==> 1 <= m.v <= rs[id].vol - rs[id].traded
    ensures BookOk(b0, info, rs[id := Recorded(rs[id], m)], OnRtn(b, info, Recorded(rs[id], m), m))
  {
    hide BookAt, Plus, OrderCols, NewPosting, TradeCols, SumOrders, LiveCount, DoCxl, DoTrd, Registered, Linked, Worth;
    var r0, r := rs[id], Recorded(rs[id], m);
    var rs' := rs[id := r];
    assert OrderOk(r0);
    LiveChange(info, rs, id, r);
    Changed(rs, id, r);
    var k := r.k;
    if k in info {
      Anywhere(b0, info, rs, b, 0, k);
      RegisteredAt(b0, info, rs, b, k);
      var b1, mult := Registered(b, info, k), info[k].mult;
      AtFields(b0, info, rs, b1, k, BLANK, 0);
      var d, b2, n;
      if m.Cxl? {
        NewAt(b0, info, rs, b1, k, BLANK, 0, r.d, r.o, r.px, m.v);
        CancelCols(r0, mult);
        KeysDoNew(b1, k, r.d, r.o, r.px, m.v);
        d, b2, n := NewPosting(r.d, r.o, r.px, -m.v, mult), DoCxl(b1, k, r.d, r.o, r.px, m.v), -1;
      } else {
        var full := r.vol == r.traded;
        TrdAt(b0, info, rs, b1, k, BLANK, 0, r.d, r.o, r.px, full, m.px, m.v);
        TrdCols(r0, m.px, m.v, mult);
        KeysDoTrd(b1, k, r.d, r.o, r.px, full, m.px, m.v);
        d, b2 := TradeCols(r.d, r.o, r.px, m.v, Worth(m.px, m.v), mult), DoTrd(b1, k, r.d, r.o, r.px, full, m.px, m.v);
        n := if full then -1 else 0;
      }
      PlusBlank(d);
      SumChange(rs, id, r, k, mult, d);
      AtOrders(b0, info, rs, b2, k, Plus(BLANK, d), n);
      Settle(b0, info, rs, rs', b2, k, Plus(BLANK, d), n);
      Anywhere(b0, info, rs', b2, k, 0);
    } else {
      AtUnknown(b0, info, rs, rs', b, r);
    }
  }

  lemma MarketOk(b0: Book, info: map<nat, Info>, rs: seq<Order>, b: Book, k: nat, px: real)
    requires BookOk(b0, info, rs, b) && Linked(b)
    ensures BookOk(b0, info, rs, OnTickPx(b, info, k, px))
  {
    hide BookAt, DoTick, Registered, Linked;
    if k in info {
      Anywhere(b0, info, rs, b, 0, k);
      RegisteredAt(b0, info, rs, b, k);
      AtFields(b0, info, rs, Registered(b, info, k), k, BLANK, 0);
      TickAt(b0, info, rs, Registered(b, info, k), k, px);
      Anywhere(b0, info, rs, DoTick(Registered(b, info, k), k, px), k, 0);
    }
  }

  lemma StepOk(b0: Book, info: map<nat, Info>, s: Day, e: Event)
    requires BookOk(b0, info, s.orders, s.book) && Linked(s.book) && OrdersOk(s.orders) && Legal(s, e)
    ensures var s' := Step(s, info, e); BookOk(b0, info, s'.orders, s'.book) && Linked(s'.book) && OrdersOk(s'.orders)
  {
    hide BookAt, Linked, OnNew, OnRtn, OnTickPx;
    var s' := Step(s, info, e);
    match e {
      case Send(k, d, o, px, v) => SendOk(b0, info, s.orders, s.book, Order(k, d, o, px, v, 0, 0.0, true));
      case Message(id, m) =>
        if m == Other {
          OtherOk(b0, info, s.orders, s.book, id);
        } else {
          MessageOk(b0, info, s.orders, s.book, id, m);
        }
      case Market(k, px) => MarketOk(b0, info, s.orders, s.book, k, px);
    }
    BookLinked(b0, info, s'.orders, s'.book);
  }

  lemma OtherOk(b0: Book, info: map<nat, Info>, rs: seq<Order>, b: Book, id: nat)
    requires BookOk(b0, info, rs, b) && Linked(b) && id < |rs|
    ensures rs[id := Recorded(rs[id], Other)] == rs && BookOk(b0, info, rs, OnRtn(b, info, rs[id], Other))
  {
    hide BookAt, Linked, Registered;
    if rs[id].k in info {
      Anywhere(b0, info, rs, b, 0, rs[id].k);
      RegisteredAt(b0, info, rs, b, rs[id].k);
      Anywhere(b0, info, rs, Registered(b, info, rs[id].k), rs[id].k, 0);
    }
  }

  lemma BookLinked(b0: Book, info: map<nat, Info>, rs: seq<Order>, b: Book)
    requires BookOk(b0, info, rs, b)
    ensures Linked(b)
  {
    hide InstrAt, Expected, LiveCount, AccOk, PrdOk;
  }

  /** After any legal day so far, the books are what the start and the orders say. */
  lemma {:induction false} RunOk(b0: Book, info: map<nat, Info>, s: Day, es: seq<Event>)
    requires BookOk(b0, info, s.orders, s.book) && Linked(s.book) && OrdersOk(s.orders) && LegalRun(s, info, es)
    ensures var s' := Run(s, info, es); BookOk(b0, info, s'.orders, s'.book) && Linked(s'.book) && OrdersOk(s'.orders)
    decreases |es|
  {
    hide BookOk, Linked, Step, Legal, OrdersOk;
    if es != [] {
      StepOk(b0, info, s, es[0]);
      RunOk(b0, info, Step(s, info, es[0]), es[1..]);
    }
  }
}
