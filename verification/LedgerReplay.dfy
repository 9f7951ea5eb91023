/** Replaying the final order records gives the account that the live messages gave. */
module LedgerReplay {
  import opened Ledger
  import opened LedgerTotals
  import opened LedgerInstr
  import opened LedgerDay

  // ---------------------------------------------------------------- one record

  lemma TrackOk(b0: Book, info: map<nat, Info>, rs: seq<Order>, b: Book, r: Order)
    requires BookOk(b0, info, rs, b) && Linked(b) && OrderOk(r)
    ensures BookOk(b0, info, rs + [r], OnOrderTrack(b, info, r))
  {
    hide BookAt, Plus, OrderCols, NewPosting, TradeCols, SumOrders, LiveCount, DoNew, DoCxl, DoTrd, Registered, Linked;
    LiveAppend(info, rs, r);
    Appended(rs, r);
    var k := r.k;
    if k in info {
      var m := info[k].mult;
      Anywhere(b0, info, rs, b, 0, k);
      RegisteredAt(b0, info, rs, b, k);
      var b1 := Registered(b, info, k);
      AtFields(b0, info, rs, b1, k, BLANK, 0);
      NewAt(b0, info, rs, b1, k, BLANK, 0, r.d, r.o, r.px, r.vol);
      KeysDoNew(b1, k, r.d, r.o, r.px, r.vol);
      var placed := NewPosting(r.d, r.o, r.px, r.vol, m);
      PlusBlank(placed);
      var b2, x, n := DoNew(b1, k, r.d, r.o, r.px, r.vol), placed, 1;
      AtFields(b0, info, rs, b2, k, x, n);
      RecordCols(r, m);
      if !r.live && r.vol != r.traded {
        NewAt(b0, info, rs, b2, k, x, n, r.d, r.o, r.px, r.vol - r.traded);
        KeysDoNew(b2, k, r.d, r.o, r.px, r.vol - r.traded);
        x, n := Plus(x, NewPosting(r.d, r.o, r.px, -(r.vol - r.traded), m)), n - 1;
        b2 := DoCxl(b2, k, r.d, r.o, r.px, r.vol - r.traded);
        AtFields(b0, info, rs, b2, k, x, n);
      }
      if r.traded > 0 {
        var trdPx, full := r.amount / r.traded as real, r.vol == r.traded;
        assert Worth(trdPx, r.traded) == r.amount;
        TrdAt(b0, info, rs, b2, k, x, n, r.d, r.o, r.px, full, trdPx, r.traded);
        KeysDoTrd(b2, k, r.d, r.o, r.px, full, trdPx, r.traded);
        x, n := Plus(x, TradeCols(r.d, r.o, r.px, r.traded, r.amount, m)), n + if full then -1 else 0;
        b2 := DoTrd(b2, k, r.d, r.o, r.px, full, trdPx, r.traded);
      }
      TrackDone(b0, info, rs, b2, r, x, n);
    } else {
      AtUnknown(b0, info, rs, rs + [r], b, r);
    }
  }

  lemma TrackDone(b0: Book, info: map<nat, Info>, rs: seq<Order>, b: Book, r: Order, x: Sheet, n: int)
    requires BookAt(b0, info, rs, b, r.k, x, n) && r.k in info && r.k in b.instrs
    requires x == OrderCols(r, info[r.k].mult) && n == if r.live then 1 else 0
    ensures BookOk(b0, info, rs + [r], b)
  {
    hide BookAt, Plus, OrderCols, SumOrders, LiveCount;
    LiveAppend(info, rs, r);
    Appended(rs, r);
    SumAppend(rs, r, r.k, info[r.k].mult);
    AtOrders(b0, info, rs, b, r.k, x, n);
    Settle(b0, info, rs, rs + [r], b, r.k, x, n);
    Anywhere(b0, info, rs + [r], b, r.k, 0);
  }

  lemma {:induction false} ReplayOk(b0: Book, info: map<nat, Info>, rs: seq<Order>)
    requires BookOk(b0, info, [], b0) && Linked(b0) && OrdersOk(rs)
    ensures BookOk(b0, info, rs, Replay(b0, info, rs))
  {
    hide BookOk, Linked, OnOrderTrack, OrderOk;
    if rs != [] {
      var before, r := rs[..|rs| - 1], rs[|rs| - 1];
      ReplayOk(b0, info, before);
      TrackOk(b0, info, before, Replay(b0, info, before), r);
      assert before + [r] == rs;
    }
  }

  // ---------------------------------------------------------------- one common tick for every instrument

  function TickAll(b: Book, info: map<nat, Info>, ks: seq<nat>, px: map<nat, real>): Book
    requires Linked(b) && forall k | k in ks :: k in px
    ensures Linked(TickAll(b, info, ks, px))
  {
    if ks == [] then b
    else
      var before := TickAll(b, info, ks[..|ks| - 1], px);
      var k := ks[|ks| - 1];
      TickLinked(before, info, k, px[k]);
      OnTickPx(before, info, k, px[k])
  }

  lemma TickLinked(b: Book, info: map<nat, Info>, k: nat, px: real)
    requires Linked(b)
    ensures Linked(OnTickPx(b, info, k, px))
  {
    hide Linked, PostTo, Posted, TickPosting;
    if k in info {
      RegisteredLinked(b, info, k);
      var b1 := Registered(b, info, k);
      TickedFields(b1.instrs[k], px);
      PostLinked(b1, k, Ticked(b1.instrs[k], px), TickPosting(b1.instrs[k], px), 0);
    }
  }

  /** The instruments among ks stand at their prices. */
  predicate AtPrices(b: Book, info: map<nat, Info>, ks: seq<nat>, px: map<nat, real>) {
    forall k | k in ks && k in info && k in px :: k in b.instrs && b.instrs[k].px.last == px[k]
  }

  lemma TickEffect(b: Book, info: map<nat, Info>, k: nat, px: real)
    requires Linked(b)
    ensures var b' := OnTickPx(b, info, k, px);
      b'.instrs.Keys == b.instrs.Keys + (if k in info then {k} else {}) &&
      (k in info ==> b'.instrs[k].px.last == px) &&
      forall j | j in b.instrs && j != k :: b'.instrs[j] == b.instrs[j]
  {
    hide TickPosting, Plus, PlusAmt, PlusPnl;
    if k in info { RegisteredLinked(b, info, k); }
  }

  lemma {:induction false} TickAllOk(b0: Book, info: map<nat, Info>, rs: seq<Order>, b: Book, ks: seq<nat>, px: map<nat, real>)
    requires BookOk(b0, info, rs, b) && Linked(b) && forall k | k in ks :: k in px
    ensures BookOk(b0, info, rs, TickAll(b, info, ks, px))
    ensures AtPrices(TickAll(b, info, ks, px), info, ks, px)
  {
    hide BookOk, Linked, OnTickPx, AtPrices;
    if ks != [] {
      var before, k := ks[..|ks| - 1], ks[|ks| - 1];
      assert ks == before + [k];
      var b1 := TickAll(b, info, before, px);
      TickAllOk(b0, info, rs, b, before, px);
      MarketOk(b0, info, rs, b1, k, px[k]);
      TickOnce(b1, info, before, k, px);
    } else {
      NoPrices(b, info, px);
    }
  }

  lemma NoPrices(b: Book, info: map<nat, Info>, px: map<nat, real>)
    ensures AtPrices(b, info, [], px)
  {}

  lemma {:induction false} TickAllKeys(b: Book, info: map<nat, Info>, ks: seq<nat>, px: map<nat, real>)
    requires Linked(b) && forall k | k in ks :: k in px
    ensures TickAll(b, info, ks, px).instrs.Keys == b.instrs.Keys + set k | k in ks && k in info
  {
    hide Linked, OnTickPx;
    if ks != [] {
      var before, k := ks[..|ks| - 1], ks[|ks| - 1];
      assert ks == before + [k];
      TickAllKeys(b, info, before, px);
      TickEffect(TickAll(b, info, before, px), info, k, px[k]);
      assert (set j | j in ks && j in info) == (set j | j in before && j in info) + (if k in info then {k} else {});
    }
  }

  lemma TickOnce(b: Book, info: map<nat, Info>, before: seq<nat>, k: nat, px: map<nat, real>)
    requires Linked(b) && k in px && AtPrices(b, info, before, px)
    ensures AtPrices(OnTickPx(b, info, k, px[k]), info, before + [k], px)
    ensures OnTickPx(b, info, k, px[k]).instrs.Keys == b.instrs.Keys + if k in info then {k} else {}
  {
    hide OnTickPx;
    TickEffect(b, info, k, px[k]);
    var b' := OnTickPx(b, info, k, px[k]);
    forall j | j in before + [k] && j in info && j in px ensures j in b'.instrs && b'.instrs[j].px.last == px[j] {
      if j != k { assert j in before; }
    }
  }

  /** Two books of the same orders whose instruments stand at the same prices are the same book. */
  lemma SameBook(b0: Book, info: map<nat, Info>, rs: seq<Order>, b: Book, c: Book)
    requires BookOk(b0, info, rs, b) && BookOk(b0, info, rs, c) && b.instrs.Keys == c.instrs.Keys
    requires forall k | k in b.instrs :: b.instrs[k].px.last == c.instrs[k].px.last
    ensures b == c
  {
    hide Plus, Cols, Sound, Expected, LiveCount, SumOf, Linked;
    forall k | k in b.instrs ensures b.instrs[k] == c.instrs[k] {
      SameInstrAt(b0, info, rs, b, k);
      SameInstrAt(b0, info, rs, c, k);
      SameInstr(b.instrs[k], c.instrs[k]);
    }
    assert b.instrs == c.instrs;
    assert b.prds.Keys == c.prds.Keys;
    forall p | p in b.prds ensures b.prds[p] == c.prds[p] {
      assert PrdOk(b, p) && PrdOk(c, p);
    }
    assert b.prds == c.prds;
  }

  lemma SameInstrAt(b0: Book, info: map<nat, Info>, rs: seq<Order>, b: Book, k: nat)
    requires BookOk(b0, info, rs, b) && k in b.instrs
    ensures k in info && InstrAt(b0, info, k, b.instrs[k], Expected(b0, info, rs, k))
  {
    hide Plus, InstrAt, LiveCount, Totals, Expected;
    assert k in info && InstrAt(b0, info, k, b.instrs[k],
      if k == 0 then Plus(Expected(b0, info, rs, k), BLANK) else Expected(b0, info, rs, k));
    PlusBlank(Expected(b0, info, rs, k));
  }

  /**
   * However the messages of a day are interleaved: the final order records replayed from the day's start, then one
   * tick for every instrument, give the same account as the day itself, then the same ticks.
   */
  lemma ReplayEqualsLive(b0: Book, info: map<nat, Info>, es: seq<Event>, ks: seq<nat>, px: map<nat, real>)
    requires StartOk(b0, info) && LegalRun(Day(b0, []), info, es) && forall k | k in ks :: k in px
    requires forall k | k in Run(Day(b0, []), info, es).book.instrs :: k in ks
    ensures var live := Run(Day(b0, []), info, es);
      Linked(b0) && Linked(live.book) &&
      TickAll(live.book, info, ks, px) == TickAll(Replay(b0, info, live.orders), info, ks, px)
  {
    hide StartOk, BookOk, Linked, Run, LegalRun, Replay, OrderOk, TickAll;
    var s := Day(b0, []);
    StartBook(b0, info);
    BookLinked(b0, info, [], b0);
    RunOk(b0, info, s, es);
    var live := Run(s, info, es);
    var again := Replay(b0, info, live.orders);
    ReplayOk(b0, info, live.orders);
    KeysWithin(b0, info, live.orders, live.book);
    ReplayKeys(b0, info, live.orders);
    OrdersRegistered(b0, info, live.orders, live.book);
    assert forall k | k in again.instrs :: k in live.book.instrs;
    TickedSame(b0, info, live.orders, live.book, again, ks, px);
  }

  lemma TickedSame(b0: Book, info: map<nat, Info>, rs: seq<Order>, b: Book, c: Book, ks: seq<nat>, px: map<nat, real>)
    requires BookOk(b0, info, rs, b) && BookOk(b0, info, rs, c) && Linked(b) && Linked(c)
    requires forall k | k in ks :: k in px
    requires forall k | k in b.instrs :: k in ks && k in info
    requires forall k | k in c.instrs :: k in b.instrs
    ensures TickAll(b, info, ks, px) == TickAll(c, info, ks, px)
  {
    hide BookOk, Linked, TickAll;
    TickAllOk(b0, info, rs, b, ks, px);
    TickAllOk(b0, info, rs, c, ks, px);
    TickAllKeys(b, info, ks, px);
    TickAllKeys(c, info, ks, px);
    var b', c' := TickAll(b, info, ks, px), TickAll(c, info, ks, px);
    assert b'.instrs.Keys == (set k | k in ks && k in info) == c'.instrs.Keys;
    SameBook(b0, info, rs, b', c');
  }

  lemma KeysWithin(b0: Book, info: map<nat, Info>, rs: seq<Order>, b: Book)
    requires BookOk(b0, info, rs, b)
    ensures b0.instrs.Keys <= b.instrs.Keys && forall k | k in b.instrs :: k in info
  {}

  lemma OrdersRegistered(b0: Book, info: map<nat, Info>, rs: seq<Order>, b: Book)
    requires BookOk(b0, info, rs, b)
    ensures forall id | 0 <= id < |rs| :: rs[id].k in info ==> rs[id].k in b.instrs
  {}

  /** A replay registers the instruments of its orders and no others. */
  lemma {:induction false} ReplayKeys(b0: Book, info: map<nat, Info>, rs: seq<Order>)
    requires Linked(b0)
    ensures forall k | k in Replay(b0, info, rs).instrs ::
              k in b0.instrs || exists id :: 0 <= id < |rs| && rs[id].k == k && k in info
  {
    hide OnOrderTrack;
    if rs != [] {
      var before, r := rs[..|rs| - 1], rs[|rs| - 1];
      ReplayKeys(b0, info, before);
      TrackKeys(Replay(b0, info, before), info, r);
      forall k | k in Replay(b0, info, rs).instrs
        ensures k in b0.instrs || exists id :: 0 <= id < |rs| && rs[id].k == k && k in info
      {
        if k in Replay(b0, info, before).instrs {
          if k !in b0.instrs {
            var id :| 0 <= id < |before| && before[id].k == k && k in info;
            assert rs[id].k == k;
          }
        } else {
          assert rs[|rs| - 1].k == k;
        }
      }
    }
  }

  lemma TrackKeys(b: Book, info: map<nat, Info>, r: Order)
    requires Linked(b)
    ensures OnOrderTrack(b, info, r).instrs.Keys == b.instrs.Keys + if r.k in info then {r.k} else {}
  {
    hide DoNew, DoCxl, DoTrd;
    if r.k in info {
      var b1 := Registered(b, info, r.k);
      RegisteredLinked(b, info, r.k);
      KeysDoNew(b1, r.k, r.d, r.o, r.px, r.vol);
      DoLinked(b1, r);
      var b2 := DoNew(b1, r.k, r.d, r.o, r.px, r.vol);
      KeysDoNew(b2, r.k, r.d, r.o, r.px, r.vol - r.traded);
      var b3 := if !r.live && r.vol != r.traded then DoCxl(b2, r.k, r.d, r.o, r.px, r.vol - r.traded) else b2;
      if r.traded > 0 {
        KeysDoTrd(b3, r.k, r.d, r.o, r.px, r.vol == r.traded, r.amount / r.traded as real, r.traded);
      }
    }
  }

  lemma DoLinked(b: Book, r: Order)
    requires Linked(b) && r.k in b.instrs && b.instrs[r.k].prd in b.prds
    ensures var b2 := DoNew(b, r.k, r.d, r.o, r.px, r.vol);
      r.k in b2.instrs && b2.instrs[r.k].prd in b2.prds &&
      (var b3 := DoCxl(b2, r.k, r.d, r.o, r.px, r.vol - r.traded);
       r.k in b3.instrs && b3.instrs[r.k].prd in b3.prds)
  {
    hide NewPosting, Plus;
  }

  // ---------------------------------------------------------------- in flight

  /** The volume of the live orders for one instrument, direction and offset that has not traded. */
  function RestVol(rs: seq<Order>, k: nat, d: Dir, o: Off): int {
    if rs == [] then 0
    else
      var r := rs[|rs| - 1];
      RestVol(rs[..|rs| - 1], k, d, o) + if r.live && r.k == k && r.d == d && r.o == o then r.vol - r.traded else 0
  }

  function RestAmt(rs: seq<Order>, k: nat, d: Dir, o: Off, mult: int): real {
    if rs == [] then 0.0
    else
      var r := rs[|rs| - 1];
      RestAmt(rs[..|rs| - 1], k, d, o, mult)
      + if r.live && r.k == k && r.d == d && r.o == o then Amount(r.px, r.vol - r.traded, mult) else 0.0
  }

  /** The columns for what is in flight. */
  function FlightVol(v: UnitVol, d: Dir, o: Off): int
    requires Known(d, o)
  {
    match (d, o)
    case (Buy, Open) => v.longTdOpnIng
    case (Buy, CloseYesterday) => v.shortYdClsIng
    case (Buy, CloseToday) => v.shortTdClsIng
    case (Sell, Open) => v.shortTdOpnIng
    case (Sell, CloseYesterday) => v.longYdClsIng
    case (Sell, CloseToday) => v.longTdClsIng
  }

  function FlightAmt(a: UnitAmt, d: Dir, o: Off): real
    requires Known(d, o)
  {
    match (d, o)
    case (Buy, Open) => a.longTdAddIng
    case (Buy, CloseYesterday) => a.shortYdSubIng
    case (Buy, CloseToday) => a.shortTdSubIng
    case (Sell, Open) => a.shortTdAddIng
    case (Sell, CloseYesterday) => a.longYdSubIng
    case (Sell, CloseToday) => a.longTdSubIng
  }

  lemma OrderFlight(r: Order, mult: int, d: Dir, o: Off)
    requires Known(d, o) && OrderOk(r)
    ensures var c := OrderCols(r, mult); var on := r.live && r.d == d && r.o == o;
      FlightVol(c.vol, d, o) == (if on then r.vol - r.traded else 0) &&
      FlightAmt(c.amt, d, o) == (if on then Amount(r.px, r.vol - r.traded, mult) else 0.0)
  {
    hide Amount, Times;
    AmountNone(r.px, mult);
  }

  lemma FlightPlus(a: Sheet, b: Sheet, d: Dir, o: Off)
    requires Known(d, o)
    ensures FlightVol(Plus(a, b).vol, d, o) == FlightVol(a.vol, d, o) + FlightVol(b.vol, d, o)
    ensures FlightAmt(Plus(a, b).amt, d, o) == FlightAmt(a.amt, d, o) + FlightAmt(b.amt, d, o)
  {}

  lemma {:induction false} OrdersFlight(rs: seq<Order>, k: nat, mult: int, d: Dir, o: Off)
    requires Known(d, o) && OrdersOk(rs)
    ensures FlightVol(SumOrders(rs, k, mult).vol, d, o) == RestVol(rs, k, d, o)
    ensures FlightAmt(SumOrders(rs, k, mult).amt, d, o) == RestAmt(rs, k, d, o, mult)
  {
    hide Plus, OrderCols, FlightVol, FlightAmt, OrderOk, Amount;
    if rs == [] {
      FlightBlank(d, o);
    } else {
      var before, r := rs[..|rs| - 1], rs[|rs| - 1];
      OrdersFlight(before, k, mult, d, o);
      OrderFlight(r, mult, d, o);
      FlightPlus(SumOrders(before, k, mult), OrderCols(r, mult), d, o);
    }
  }

  lemma FlightBlank(d: Dir, o: Off)
    requires Known(d, o)
    ensures FlightVol(BLANK.vol, d, o) == 0 && FlightAmt(BLANK.amt, d, o) == 0.0
  {}

  lemma QuietFlight(s: Sheet, d: Dir, o: Off)
    requires Quiet(s) && Known(d, o)
    ensures FlightVol(Cols(s).vol, d, o) == 0 && FlightAmt(Cols(s).amt, d, o) == 0.0
  {}

  lemma ColsFlight(s: Sheet, d: Dir, o: Off)
    requires Known(d, o)
    ensures FlightVol(s.vol, d, o) == FlightVol(Cols(s).vol, d, o) && FlightAmt(s.amt, d, o) == FlightAmt(Cols(s).amt, d, o)
  {}

  /** At any moment of a day, what the books hold in flight is the rest of the live orders, and they count them. */
  lemma InFlight(b0: Book, info: map<nat, Info>, es: seq<Event>, k: nat, d: Dir, o: Off)
    requires StartOk(b0, info) && LegalRun(Day(b0, []), info, es) && Known(d, o)
    requires k in Run(Day(b0, []), info, es).book.instrs
    ensures var s := Run(Day(b0, []), info, es);
      FlightVol(s.book.instrs[k].sheet.vol, d, o) == RestVol(s.orders, k, d, o) &&
      FlightAmt(s.book.instrs[k].sheet.amt, d, o) == RestAmt(s.orders, k, d, o, s.book.instrs[k].mult) &&
      s.book.acc.unfilled == LiveCount(info, s.orders)
  {
    hide Run, LegalRun, Plus, FlightVol, FlightAmt, Cols, Quiet, Totals, LiveCount, SumOrders, Sound, Linked, OrderOk;
    StartBook(b0, info);
    BookLinked(b0, info, [], b0);
    RunOk(b0, info, Day(b0, []), es);
    var s := Run(Day(b0, []), info, es);
    var i := s.book.instrs[k];
    SameInstrAt(b0, info, s.orders, s.book, k);
    ColsFlight(i.sheet, d, o);
    FlightPlus(StartCols(b0, k), SumOrders(s.orders, k, info[k].mult), d, o);
    OrdersFlight(s.orders, k, info[k].mult, d, o);
    FlightBlank(d, o);
    if k in b0.instrs {
      assert InstrStart(b0.instrs[k], info[k]);
      QuietFlight(b0.instrs[k].sheet, d, o);
    }
  }
}
