/** Where the fills of a day go: positions by day and direction, turnover and average prices, from the orders alone. */
module LedgerPositions {
  import opened Ledger
  import opened LedgerDay
  import opened LedgerDays
  import opened LedgerInstr
  import opened LedgerReplay
  import opened LedgerTotals

  /** The lots that the orders for one instrument, direction and offset have traded. */
  function Lots(rs: seq<Order>, k: nat, d: Dir, o: Off): int {
    if rs == [] then 0
    else
      var r := rs[|rs| - 1];
      Lots(rs[..|rs| - 1], k, d, o) + if r.k == k && r.d == d && r.o == o then r.traded else 0
  }

  /** What they traded in one direction for, before the multiplier. */
  function Spent(rs: seq<Order>, k: nat, d: Dir): real {
    if rs == [] then 0.0
    else
      var r := rs[|rs| - 1];
      Spent(rs[..|rs| - 1], k, d) + if r.k == k && r.d == d then r.amount else 0.0
  }

  /** From v0 to v, when so many lots were bought and sold to open, to close yesterday's position and to close today's. */
  predicate Moved(v0: UnitVol, v: UnitVol, buyOpen: int, buyYd: int, buyTd: int, sellOpen: int, sellYd: int, sellTd: int) {
    && v.longYdIni == v0.longYdIni && v.shortYdIni == v0.shortYdIni
    && v.longTd == v0.longTd + buyOpen - sellTd && v.longYd == v0.longYd - sellYd
    && v.shortTd == v0.shortTd + sellOpen - buyTd && v.shortYd == v0.shortYd - buyYd
    && v.long == v0.long + buyOpen - sellTd - sellYd && v.short == v0.short + sellOpen - buyTd - buyYd
    && v.buy == v0.buy + buyOpen + buyYd + buyTd && v.sell == v0.sell + sellOpen + sellYd + sellTd
  }

  predicate MovedBy(v0: UnitVol, v: UnitVol, rs: seq<Order>, k: nat) {
    Moved(v0, v, Lots(rs, k, Buy, Open), Lots(rs, k, Buy, CloseYesterday), Lots(rs, k, Buy, CloseToday),
          Lots(rs, k, Sell, Open), Lots(rs, k, Sell, CloseYesterday), Lots(rs, k, Sell, CloseToday))
  }

  lemma LotsAppend(rs: seq<Order>, r: Order, k: nat)
    ensures forall d, o ::
      Lots(rs + [r], k, d, o) == Lots(rs, k, d, o) + if r.k == k && r.d == d && r.o == o then r.traded else 0
  {
    assert (rs + [r])[..|rs|] == rs;
  }

  lemma LotsOne(r: Order, k: nat)
    ensures forall d, o :: Lots([r], k, d, o) == if r.k == k && r.d == d && r.o == o then r.traded else 0
  {
    assert [] + [r] == [r];
    LotsAppend([], r, k);
  }

  lemma OrderMoves(r: Order, mult: int, k: nat)
    requires OrderOk(r) && r.k == k
    ensures MovedBy(NO_VOL, OrderCols(r, mult).vol, [r], k)
    ensures OrderCols(r, mult).amt.buy == (if r.d == Buy then Times(r.amount, mult) else 0.0)
    ensures OrderCols(r, mult).amt.sell == (if r.d == Sell then Times(r.amount, mult) else 0.0)
  {
    hide Amount, Times, Lots;
    LotsOne(r, k);
  }

  lemma MovesAdd(a: UnitVol, b: UnitVol, rs: seq<Order>, r: Order, k: nat)
    requires MovedBy(NO_VOL, a, rs, k) && MovedBy(NO_VOL, b, [r], k)
    ensures MovedBy(NO_VOL, PlusVol(a, b), rs + [r], k)
  {
    hide Lots;
    LotsAppend(rs, r, k);
    LotsOne(r, k);
  }

  lemma MovesNot(a: UnitVol, rs: seq<Order>, r: Order, k: nat)
    requires MovedBy(NO_VOL, a, rs, k) && r.k != k
    ensures MovedBy(NO_VOL, a, rs + [r], k)
  {
    hide Lots;
    LotsAppend(rs, r, k);
  }

  lemma {:induction false} OrdersMove(rs: seq<Order>, k: nat, mult: int)
    requires OrdersOk(rs)
    ensures var s := SumOrders(rs, k, mult);
      MovedBy(NO_VOL, s.vol, rs, k) &&
      s.amt.buy == Times(Spent(rs, k, Buy), mult) && s.amt.sell == Times(Spent(rs, k, Sell), mult)
  {
    hide OrderOk, OrderCols, MovedBy, Times, PlusVol;
    TimesPlus(0.0, 0.0, mult);
    if rs == [] {
      BlankMoved(k);
    } else {
      var before, r := rs[..|rs| - 1], rs[|rs| - 1];
      OrdersMove(before, k, mult);
      assert rs == before + [r];
      if r.k == k {
        OrderMoves(r, mult, k);
        MovesAdd(SumOrders(before, k, mult).vol, OrderCols(r, mult).vol, before, r, k);
        TimesPlus(Spent(before, k, Buy), r.amount, mult);
        TimesPlus(Spent(before, k, Sell), r.amount, mult);
      } else {
        MovesNot(SumOrders(before, k, mult).vol, before, r, k);
      }
    }
  }

  lemma BlankMoved(k: nat)
    ensures MovedBy(NO_VOL, BLANK.vol, [], k)
  {}

  lemma FromStart(v0: UnitVol, d: UnitVol, rs: seq<Order>, k: nat)
    requires MovedBy(NO_VOL, d, rs, k)
    ensures MovedBy(v0, PlusVol(v0, d), rs, k)
  {
    hide Lots;
  }

  /** An average price: what was turned over is that much a lot. */
  predicate Averages(avg: real, lots: int, mult: int, amount: real) {
    if lots != 0 && mult != 0 then avg * lots as real * mult as real == amount else avg == 0.0
  }

  lemma CalcAverages(amount: real, lots: int, mult: int)
    ensures Averages(CalcAvgPx(amount, lots, mult), lots, mult, amount)
  {
    if lots != 0 && mult != 0 {
      var x := amount / lots as real / mult as real;
      assert x * mult as real == amount / lots as real;
      assert x * lots as real * mult as real == x * mult as real * lots as real;
    }
  }

  /** The volumes an instrument began the day with. */
  function StartVol(b0: Book, k: nat): UnitVol {
    if k in b0.instrs then b0.instrs[k].sheet.vol else NO_VOL
  }

  /**
   * At any moment of a day: what was bought to open is long since today, what was sold to close comes off the position of
   * the day it says, and the other way round; all else is as the day began. Bought and sold lots, and what was paid and got
   * for them, are those of the orders, and the average prices give those amounts back.
   */
  lemma Positions(b0: Book, info: map<nat, Info>, es: seq<Event>, k: nat)
    requires StartOk(b0, info) && LegalRun(Day(b0, []), info, es)
    requires k in Run(Day(b0, []), info, es).book.instrs
    ensures var s := Run(Day(b0, []), info, es);
      var i := s.book.instrs[k];
      var v, a := i.sheet.vol, i.sheet.amt;
      && MovedBy(StartVol(b0, k), v, s.orders, k)
      && a.buy == Times(Spent(s.orders, k, Buy), i.mult) && a.sell == Times(Spent(s.orders, k, Sell), i.mult)
      && Averages(i.px.avgBuy, v.buy, i.mult, a.buy) && Averages(i.px.avgSell, v.sell, i.mult, a.sell)
  {
    hide Run, LegalRun, PlusVol, Times, Quiet, Totals, LiveCount, SumOrders, Linked, OrderOk, Amount, CalcAvgPx, Averages, MovedBy;
    StartBook(b0, info);
    BookLinked(b0, info, [], b0);
    RunOk(b0, info, Day(b0, []), es);
    var s := Run(Day(b0, []), info, es);
    var i := s.book.instrs[k];
    SameInstrAt(b0, info, s.orders, s.book, k);
    OrdersMove(s.orders, k, info[k].mult);
    FromStart(StartVol(b0, k), SumOrders(s.orders, k, info[k].mult).vol, s.orders, k);
    CalcAverages(i.sheet.amt.buy, i.sheet.vol.buy, i.mult);
    CalcAverages(i.sheet.amt.sell, i.sheet.vol.sell, i.mult);
    NothingTurned(b0, info, k);
  }

  lemma NothingTurned(b0: Book, info: map<nat, Info>, k: nat)
    requires StartOk(b0, info)
    ensures StartCols(b0, k).vol == StartVol(b0, k) && StartCols(b0, k).amt.buy == StartCols(b0, k).amt.sell == 0.0
  {
    hide Totals;
    if k in b0.instrs {
      assert InstrStart(b0.instrs[k], info[k]);
    }
  }

  // ---------------------------------------------------------------- what comes back after a reload

  predicate OnWay(r: Order, k: nat, d: Dir, o: Off) { r.live && r.k == k && r.d == d && r.o == o }

  lemma {:induction false} RestPositive(rs: seq<Order>, k: nat, d: Dir, o: Off)
    requires OrdersOk(rs)
    ensures RestVol(rs, k, d, o) >= 0
    ensures RestVol(rs, k, d, o) != 0 <==> exists id :: 0 <= id < |rs| && OnWay(rs[id], k, d, o)
  {
    if rs != [] {
      var n := |rs| - 1;
      RestPositive(rs[..n], k, d, o);
      assert OrderOk(rs[n]);
      assert forall id | 0 <= id < n :: rs[..n][id] == rs[id];
    }
  }

  predicate Orders(rs: seq<Order>, k: nat) { exists id :: 0 <= id < |rs| && rs[id].live && rs[id].k == k }

  /** Live orders of a day have a direction and an offset. */
  lemma SomeWay(rs: seq<Order>, k: nat)
    requires OrdersOk(rs)
    ensures Orders(rs, k) <==>
      RestVol(rs, k, Buy, Open) != 0 || RestVol(rs, k, Buy, CloseYesterday) != 0 || RestVol(rs, k, Buy, CloseToday) != 0 ||
      RestVol(rs, k, Sell, Open) != 0 || RestVol(rs, k, Sell, CloseYesterday) != 0 || RestVol(rs, k, Sell, CloseToday) != 0
  {
    forall d, o
      ensures RestVol(rs, k, d, o) != 0 <==> exists id :: 0 <= id < |rs| && OnWay(rs[id], k, d, o)
    {
      RestPositive(rs, k, d, o);
    }
    if Orders(rs, k) {
      var id :| 0 <= id < |rs| && rs[id].live && rs[id].k == k;
      assert OrderOk(rs[id]);
      assert OnWay(rs[id], k, rs[id].d, rs[id].o);
    }
  }

  lemma WorthyFlights(v: UnitVol)
    ensures Worthy(v) <==>
      v.longYdIni != 0 || v.shortYdIni != 0 || v.long != 0 || v.short != 0 ||
      FlightVol(v, Buy, Open) != 0 || FlightVol(v, Buy, CloseYesterday) != 0 || FlightVol(v, Buy, CloseToday) != 0 ||
      FlightVol(v, Sell, Open) != 0 || FlightVol(v, Sell, CloseYesterday) != 0 || FlightVol(v, Sell, CloseToday) != 0
  {}

  lemma InSaved(b: Book, k: nat)
    requires k in b.instrs
    ensures k in Save(b).instrs <==> Worthy(b.instrs[k].sheet.vol)
  {
    hide Worthy;
  }

  lemma SameOpening(v0: UnitVol, v: UnitVol, rs: seq<Order>, k: nat)
    requires MovedBy(v0, v, rs, k)
    ensures v.longYdIni == v0.longYdIni && v.shortYdIni == v0.shortYdIni
  {
    hide Lots;
  }

  lemma FlightOf(b0: Book, info: map<nat, Info>, es: seq<Event>, k: nat)
    requires StartOk(b0, info) && LegalRun(Day(b0, []), info, es)
    requires k in Run(Day(b0, []), info, es).book.instrs
    ensures var s := Run(Day(b0, []), info, es);
      forall d, o | Known(d, o) :: FlightVol(s.book.instrs[k].sheet.vol, d, o) == RestVol(s.orders, k, d, o)
  {
    hide Run, LegalRun, StartOk, FlightVol, RestVol, RestAmt, FlightAmt, LiveCount;
    forall d, o | Known(d, o)
      ensures var s := Run(Day(b0, []), info, es);
        FlightVol(s.book.instrs[k].sheet.vol, d, o) == RestVol(s.orders, k, d, o)
    {
      InFlight(b0, info, es, k, d, o);
    }
  }

  lemma DayOrders(b0: Book, info: map<nat, Info>, es: seq<Event>)
    requires StartOk(b0, info) && LegalRun(Day(b0, []), info, es)
    ensures OrdersOk(Run(Day(b0, []), info, es).orders)
  {
    hide BookOk, StartOk, Linked, Run, LegalRun, OrderOk;
    StartBook(b0, info);
    BookLinked(b0, info, [], b0);
    RunOk(b0, info, Day(b0, []), es);
  }

  /**
   * At any moment of a day, a saved account has an instrument if and only if that began the day with a position, holds
   * one, or has a live order.
   */
  lemma SavedExactly(b0: Book, info: map<nat, Info>, es: seq<Event>, k: nat)
    requires StartOk(b0, info) && LegalRun(Day(b0, []), info, es)
    requires k in Run(Day(b0, []), info, es).book.instrs
    ensures var s, v0 := Run(Day(b0, []), info, es), StartVol(b0, k);
      var v := s.book.instrs[k].sheet.vol;
      k in Save(s.book).instrs <==>
      v0.longYdIni != 0 || v0.shortYdIni != 0 || v.long != 0 || v.short != 0 || Orders(s.orders, k)
  {
    hide Run, LegalRun, StartOk, FlightVol, RestVol, OrdersOk, Orders, Worthy, Save, MovedBy, Times, Averages, StartVol;
    var s := Run(Day(b0, []), info, es);
    InSaved(s.book, k);
    WorthyFlights(s.book.instrs[k].sheet.vol);
    DayOrders(b0, info, es);
    SomeWay(s.orders, k);
    Positions(b0, info, es, k);
    SameOpening(StartVol(b0, k), s.book.instrs[k].sheet.vol, s.orders, k);
    FlightOf(b0, info, es, k);
  }
}
