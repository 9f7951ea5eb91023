/** One instrument through the day: its columns from its orders, and its profit and loss. */
module LedgerInstr {
  import opened Ledger

  /** An amount before the multiplier. */
  function Times(x: real, mult: int): real { x * mult as real }

  lemma AmountSum(px: real, v: int, w: int, mult: int)
    ensures Amount(px, v + w, mult) == Amount(px, v, mult) + Amount(px, w, mult)
  {
    assert Worth(px, v + w) == Worth(px, v) + Worth(px, w);
  }

  lemma AmountMove(a: real, b: real, v: int, mult: int)
    ensures Amount(a - b, v, mult) == Amount(a, v, mult) - Amount(b, v, mult)
  {
    assert Worth(a - b, v) == Worth(a, v) - Worth(b, v);
  }

  lemma AmountNone(px: real, mult: int)
    ensures Amount(px, 0, mult) == 0.0 && forall v: int :: Amount(0.0, v, mult) == 0.0
  {}

  lemma AmountNeg(px: real, v: int, mult: int)
    ensures Amount(px, -v, mult) == -Amount(px, v, mult)
  {
    AmountNone(px, mult);
    AmountSum(px, v, -v, mult);
  }

  // ---------------------------------------------------------------- money follows volume and price

  /** The columns that hold money at the last price, and the profit and loss. */
  predicate Sound(i: Instr) {
    var v, a, m, last := i.sheet.vol, i.sheet.amt, i.mult, i.px.last;
    && a.long == Amount(last, v.long, m) && a.short == Amount(last, v.short, m)
    && i.sheet.pnl.pos == Amount(last, v.longYdIni - v.shortYdIni, m) - Amount(i.px.stlYd, v.longYdIni - v.shortYdIni, m)
    && i.sheet.pnl.trd == Amount(last, v.buy - v.sell, m) - (a.buy - a.sell)
    && v.long - v.short == v.longYdIni - v.shortYdIni + v.buy - v.sell
    && v.long == v.longYd + v.longTd && v.short == v.shortYd + v.shortTd
    && i.px.avgBuy == CalcAvgPx(a.buy, v.buy, m) && i.px.avgSell == CalcAvgPx(a.sell, v.sell, m)
  }

  /**
   * The day's profit: what the position is worth, less what the opening position was worth at yesterday's
   * settlement, less what was spent net.
   */
  lemma ProfitIdentity(i: Instr)
    requires Sound(i)
    ensures var v, a := i.sheet.vol, i.sheet.amt;
      i.sheet.pnl.pos + i.sheet.pnl.trd ==
        (a.long - a.short) - Amount(i.px.stlYd, v.longYdIni - v.shortYdIni, i.mult) - (a.buy - a.sell)
  {
    hide Amount, CalcAvgPx;
    var v, m, last := i.sheet.vol, i.mult, i.px.last;
    AmountSum(last, v.longYdIni - v.shortYdIni, v.buy - v.sell, m);
    AmountSum(last, v.long, -v.short, m);
    AmountNeg(last, v.short, m);
    assert v.long + -v.short == v.longYdIni - v.shortYdIni + (v.buy - v.sell);
  }

  lemma NewSound(mult: int, prd: nat)
    ensures Sound(NewInstr(mult, prd))
  {
    hide Amount;
    AmountNone(0.0, mult);
  }

  lemma TickSound(i: Instr, px: real)
    requires Sound(i)
    ensures Sound(Ticked(i, px))
  {
    hide Amount, CalcAvgPx;
    var v, m := i.sheet.vol, i.mult;
    AmountMove(px, i.px.last, v.long, m);
    AmountMove(px, i.px.last, v.short, m);
    AmountMove(px, i.px.last, v.longYdIni - v.shortYdIni, m);
    AmountMove(px, i.px.last, v.buy - v.sell, m);
  }

  lemma NewPostingSound(i: Instr, d: Dir, o: Off, px: real, v: int)
    requires Sound(i)
    ensures Sound(Posted(i, NewPosting(d, o, px, v, i.mult)))
  {
    hide Amount, CalcAvgPx;
  }

  /** A trade at the last price. */
  lemma TradePostingSound(i: Instr, d: Dir, o: Off, px: real, v: int)
    requires Sound(i) && Known(d, o)
    ensures Sound(TurnedOver(Posted(i, TradePosting(d, o, px, i.px.last, v, i.mult)), d, Amount(i.px.last, v, i.mult)))
  {
    hide Amount, CalcAvgPx;
    var w, m, last := i.sheet.vol, i.mult, i.px.last;
    AmountNeg(last, v, m);
    AmountSum(last, w.long, v, m);
    AmountSum(last, w.long, -v, m);
    AmountSum(last, w.short, v, m);
    AmountSum(last, w.short, -v, m);
    AmountSum(last, w.buy - w.sell, v, m);
    AmountSum(last, w.buy - w.sell, -v, m);
  }

  lemma TradedSound(i: Instr, d: Dir, o: Off, px: real, trdPx: real, v: int)
    requires Sound(i) && Known(d, o)
    ensures Sound(Traded(i, d, o, px, trdPx, v))
  {
    hide Sound, Posted, TickPosting, TradePosting, TurnedOver, Amount;
    TickSound(i, trdPx);
    TickedFields(i, trdPx);
    TradePostingSound(Ticked(i, trdPx), d, o, px, v);
  }

  lemma TickedFields(i: Instr, px: real)
    ensures Ticked(i, px).px.last == px && Ticked(i, px).mult == i.mult && Ticked(i, px).px.stlYd == i.px.stlYd
    ensures Ticked(i, px).prd == i.prd
  {}

  lemma SwitchSound(i: Instr)
    requires Sound(i)
    ensures Sound(SwitchInstr(i))
  {
    hide Amount;
    AmountNone(i.px.last, i.mult);
  }

  // ---------------------------------------------------------------- the other columns follow the orders

  /** The columns without those that depend on the last price. */
  function Cols(s: Sheet): Sheet { Sheet(s.vol, s.amt.(long := 0.0, short := 0.0), NO_PNL) }

  /** The volume that is or was in flight: all of a live order, what has traded of a closed one. */
  function Flight(r: Order): int { if r.live then r.vol else r.traded }

  function Turnover(d: Dir, x: real): UnitAmt {
    match d
    case Buy => NO_AMT.(buy := x)
    case Sell => NO_AMT.(sell := x)
    case UnknownDir => NO_AMT
  }

  /** The columns for n lots put in flight, t lots traded, the amount x left in flight, and y turned over. */
  function Column(d: Dir, o: Off, n: int, t: int, x: real, y: real): Sheet {
    Sheet(PlusVol(NewVol(d, o, n), TrdVol(d, o, t)), PlusAmt(IngAmt(d, o, x), Turnover(d, y)), NO_PNL)
  }

  lemma NewVolPlus(d: Dir, o: Off, n: int, m: int)
    ensures PlusVol(NewVol(d, o, n), NewVol(d, o, m)) == NewVol(d, o, n + m)
  {}

  lemma OpenPlus(d: Dir, n: int, m: int)
    ensures PlusVol(TrdVol(d, Open, n), TrdVol(d, Open, m)) == TrdVol(d, Open, n + m)
  {}

  lemma CloseYesterdayPlus(d: Dir, n: int, m: int)
    ensures PlusVol(TrdVol(d, CloseYesterday, n), TrdVol(d, CloseYesterday, m)) == TrdVol(d, CloseYesterday, n + m)
  {}

  lemma CloseTodayPlus(d: Dir, n: int, m: int)
    ensures PlusVol(TrdVol(d, CloseToday, n), TrdVol(d, CloseToday, m)) == TrdVol(d, CloseToday, n + m)
  {}

  lemma UnknownOffPlus(d: Dir, o: Off, n: int, m: int)
    requires !o.Open? && !o.CloseYesterday? && !o.CloseToday?
    ensures PlusVol(TrdVol(d, o, n), TrdVol(d, o, m)) == TrdVol(d, o, n + m)
  {}

  lemma TrdVolPlus(d: Dir, o: Off, n: int, m: int)
    ensures PlusVol(TrdVol(d, o, n), TrdVol(d, o, m)) == TrdVol(d, o, n + m)
  {
    hide TrdVol, PlusVol;
    match o
    case Open => OpenPlus(d, n, m);
    case CloseYesterday => CloseYesterdayPlus(d, n, m);
    case CloseToday => CloseTodayPlus(d, n, m);
    case _ => UnknownOffPlus(d, o, n, m);
  }

  lemma IngPlus(d: Dir, o: Off, x: real, y: real)
    ensures PlusAmt(IngAmt(d, o, x), IngAmt(d, o, y)) == IngAmt(d, o, x + y)
  {}

  lemma TurnoverPlus(d: Dir, x: real, y: real)
    ensures PlusAmt(Turnover(d, x), Turnover(d, y)) == Turnover(d, x + y)
  {}

  lemma SwapVol(a: UnitVol, b: UnitVol, c: UnitVol, d: UnitVol)
    ensures PlusVol(PlusVol(a, b), PlusVol(c, d)) == PlusVol(PlusVol(a, c), PlusVol(b, d))
  {}

  lemma SwapAmt(a: UnitAmt, b: UnitAmt, c: UnitAmt, d: UnitAmt)
    ensures PlusAmt(PlusAmt(a, b), PlusAmt(c, d)) == PlusAmt(PlusAmt(a, c), PlusAmt(b, d))
  {}

  lemma ColumnPlus(d: Dir, o: Off, n: int, t: int, x: real, y: real, n': int, t': int, x': real, y': real)
    ensures Plus(Column(d, o, n, t, x, y), Column(d, o, n', t', x', y')) == Column(d, o, n + n', t + t', x + x', y + y')
  {
    hide PlusVol, PlusAmt, NewVol, TrdVol, IngAmt, Turnover;
    NewVolPlus(d, o, n, n');
    TrdVolPlus(d, o, t, t');
    IngPlus(d, o, x, x');
    TurnoverPlus(d, y, y');
    SwapVol(NewVol(d, o, n), TrdVol(d, o, t), NewVol(d, o, n'), TrdVol(d, o, t'));
    SwapAmt(IngAmt(d, o, x), Turnover(d, y), IngAmt(d, o, x'), Turnover(d, y'));
  }

  /** What an order adds to the columns of its instrument. */
  function OrderCols(r: Order, mult: int): Sheet {
    Column(r.d, r.o, Flight(r), r.traded, Amount(r.px, Flight(r) - r.traded, mult), Times(r.amount, mult))
  }

  function SumOrders(rs: seq<Order>, k: nat, mult: int): Sheet {
    if rs == [] then BLANK
    else
      var r := rs[|rs| - 1];
      var before := SumOrders(rs[..|rs| - 1], k, mult);
      if r.k == k then Plus(before, OrderCols(r, mult)) else before
  }

  lemma SumAppend(rs: seq<Order>, r: Order, k: nat, mult: int)
    ensures SumOrders(rs + [r], k, mult) ==
            if r.k == k then Plus(SumOrders(rs, k, mult), OrderCols(r, mult)) else SumOrders(rs, k, mult)
  {
    hide Plus, OrderCols;
    assert (rs + [r])[..|rs|] == rs;
  }

  /** An order's record changes: its instrument's sum gains what the record gains. */
  lemma {:induction false} SumChange(rs: seq<Order>, id: nat, r: Order, k: nat, mult: int, d: Sheet)
    requires id < |rs| && r.k == rs[id].k
    requires r.k == k ==> OrderCols(r, mult) == Plus(OrderCols(rs[id], mult), d)
    ensures SumOrders(rs[id := r], k, mult) ==
            if r.k == k then Plus(SumOrders(rs, k, mult), d) else SumOrders(rs, k, mult)
  {
    hide Plus, OrderCols;
    var n := |rs| - 1;
    if id == n {
      assert rs[id := r][..n] == rs[..n];
      PlusAssoc(SumOrders(rs[..n], k, mult), OrderCols(rs[id], mult), d);
    } else {
      assert rs[id := r][..n] == rs[..n][id := r];
      SumChange(rs[..n], id, r, k, mult, d);
      if r.k == k && rs[n].k == k {
        PlusSwap(SumOrders(rs[..n], k, mult), d, OrderCols(rs[n], mult));
      }
    }
  }

  // ---------------------------------------------------------------- what each call adds to the columns

  lemma TickCols(i: Instr, px: real)
    ensures Cols(Ticked(i, px).sheet) == Cols(i.sheet)
  {
    hide Amount;
  }

  lemma NewCols(i: Instr, d: Dir, o: Off, px: real, v: int)
    ensures Cols(Posted(i, NewPosting(d, o, px, v, i.mult)).sheet) == Plus(Cols(i.sheet), NewPosting(d, o, px, v, i.mult))
  {
    hide Amount;
  }

  /** What a trade of v lots for the amount x (before the multiplier) adds to the columns. */
  function TradeCols(d: Dir, o: Off, px: real, v: int, x: real, mult: int): Sheet {
    Column(d, o, 0, v, -Amount(px, v, mult), Times(x, mult))
  }

  lemma NewColumn(d: Dir, o: Off, px: real, v: int, mult: int)
    ensures NewPosting(d, o, px, v, mult) == Column(d, o, v, 0, Amount(px, v, mult), 0.0)
  {
    hide Amount;
  }

  lemma TradedCols(i: Instr, d: Dir, o: Off, px: real, trdPx: real, v: int)
    ensures Cols(Traded(i, d, o, px, trdPx, v).sheet) ==
            Plus(Cols(i.sheet), TradeCols(d, o, px, v, Worth(trdPx, v), i.mult))
  {
    hide TickPosting, Amount, Times, TradePosting, TradeCols, Plus;
    var t := Ticked(i, trdPx);
    TickCols(i, trdPx);
    TickedFields(i, trdPx);
    TurnedCols(t, d, o, px, trdPx, v);
  }

  lemma AmountIs(px: real, v: int, mult: int)
    ensures Amount(px, v, mult) == Times(Worth(px, v), mult)
  {}

  lemma TurnedCols(i: Instr, d: Dir, o: Off, px: real, trdPx: real, v: int)
    ensures Cols(TurnedOver(Posted(i, TradePosting(d, o, px, trdPx, v, i.mult)), d, Amount(trdPx, v, i.mult)).sheet) ==
            Plus(Cols(i.sheet), TradeCols(d, o, px, v, Worth(trdPx, v), i.mult))
  {
    hide CalcAvgPx, Amount, Times, PlusAmt, PlusVol, IngAmt, PosAmt, TrdVol, NewVol, Turnover;
    AmountIs(trdPx, v, i.mult);
    var a, x := -Amount(px, v, i.mult), Amount(trdPx, v, i.mult);
    TurnedAmt(i.sheet.amt, d, o, a, x);
    NoNewVol(d, o, TrdVol(d, o, v));
  }

  lemma NoNewVol(d: Dir, o: Off, v: UnitVol)
    ensures PlusVol(NewVol(d, o, 0), v) == v
  {}

  function MoneyCols(a: UnitAmt): UnitAmt { a.(long := 0.0, short := 0.0) }

  function AddTurnover(a: UnitAmt, d: Dir, x: real): UnitAmt {
    match d
    case Buy => a.(buy := a.buy + x)
    case Sell => a.(sell := a.sell + x)
    case UnknownDir => a
  }

  lemma IngShape(d: Dir, o: Off, x: real)
    ensures IngAmt(d, o, x).(long := 0.0, short := 0.0, buy := 0.0, sell := 0.0) == IngAmt(d, o, x)
    ensures PosAmt(d, o, x) == NO_AMT.(long := PosAmt(d, o, x).long, short := PosAmt(d, o, x).short)
  {}

  lemma TurnedAmt(m: UnitAmt, d: Dir, o: Off, a: real, x: real)
    ensures MoneyCols(AddTurnover(PlusAmt(m, PlusAmt(IngAmt(d, o, a), PosAmt(d, o, x))), d, x)) ==
            PlusAmt(MoneyCols(m), PlusAmt(IngAmt(d, o, a), Turnover(d, x)))
  {
    IngShape(d, o, a);
    IngShape(d, o, x);
    hide IngAmt, PosAmt;
  }

  // ---------------------------------------------------------------- what each message adds to an order's columns

  /** A record as the helper keeps it. */
  predicate OrderOk(r: Order) {
    Known(r.d, r.o) && 1 <= r.vol && 0 <= r.traded <= r.vol && (r.live ==> r.traded < r.vol) && (r.traded == 0 ==> r.amount == 0.0)
  }

  lemma FreshCols(r: Order, mult: int)
    requires r.live && r.traded == 0 && r.amount == 0.0
    ensures OrderCols(r, mult) == NewPosting(r.d, r.o, r.px, r.vol, mult)
  {
    hide Amount, Times, Column, NewPosting;
    TimesPlus(0.0, 0.0, mult);
    NewColumn(r.d, r.o, r.px, r.vol, mult);
  }

  lemma CancelCols(r: Order, mult: int)
    requires r.live
    ensures OrderCols(Recorded(r, Cxl(r.vol - r.traded)), mult) ==
            Plus(OrderCols(r, mult), NewPosting(r.d, r.o, r.px, -(r.vol - r.traded), mult))
  {
    hide Amount, Times, Column, NewPosting, Plus;
    var rest := r.vol - r.traded;
    AmountNone(r.px, mult);
    AmountNeg(r.px, rest, mult);
    NewColumn(r.d, r.o, r.px, -rest, mult);
    var y := Times(r.amount, mult);
    ColumnPlus(r.d, r.o, r.vol, r.traded, Amount(r.px, rest, mult), y, -rest, 0, Amount(r.px, -rest, mult), 0.0);
    assert OrderCols(r, mult) == Column(r.d, r.o, r.vol, r.traded, Amount(r.px, rest, mult), y);
    var r' := Recorded(r, Cxl(rest));
    assert Flight(r') == r.traded && Flight(r') - r'.traded == 0;
    assert OrderCols(r', mult) == Column(r.d, r.o, r.traded, r.traded, Amount(r.px, 0, mult), y);
  }

  lemma TrdCols(r: Order, trdPx: real, v: int, mult: int)
    requires r.live && OrderOk(r) && r.traded + v <= r.vol
    ensures OrderCols(Recorded(r, Trd(trdPx, v)), mult) ==
            Plus(OrderCols(r, mult), TradeCols(r.d, r.o, r.px, v, Worth(trdPx, v), mult))
  {
    hide OrderCols, TradeCols, Plus, Worth;
    var r' := Recorded(r, Trd(trdPx, v));
    FillCols(r, r', v, Worth(trdPx, v), mult);
  }

  lemma FillCols(r: Order, r': Order, v: int, x: real, mult: int)
    requires r.live && OrderOk(r) && r.traded + v <= r.vol
    requires r' == r.(traded := r.traded + v, amount := r.amount + x, live := r.traded + v < r.vol)
    ensures OrderCols(r', mult) == Plus(OrderCols(r, mult), TradeCols(r.d, r.o, r.px, v, x, mult))
  {
    hide Amount, Times, Column, Plus;
    AmountNeg(r.px, v, mult);
    AmountSum(r.px, r.vol - r.traded, -v, mult);
    assert r.vol - r.traded + -v == r.vol - (r.traded + v);
    TimesPlus(r.amount, x, mult);
    ColumnPlus(r.d, r.o, r.vol, r.traded, Amount(r.px, r.vol - r.traded, mult), Times(r.amount, mult),
               0, v, -Amount(r.px, v, mult), Times(x, mult));
  }

  lemma TimesPlus(a: real, b: real, mult: int)
    ensures Times(a + b, mult) == Times(a, mult) + Times(b, mult) && Times(0.0, mult) == 0.0
  {}

  /** A whole record posted at once: new, the cancelled rest, and one trade at the average price. */
  lemma RecordCols(r: Order, mult: int)
    requires OrderOk(r)
    ensures var placed := NewPosting(r.d, r.o, r.px, r.vol, mult);
      var cut := if !r.live && r.vol != r.traded
                 then Plus(placed, NewPosting(r.d, r.o, r.px, -(r.vol - r.traded), mult)) else placed;
      OrderCols(r, mult) == if r.traded > 0 then Plus(cut, TradeCols(r.d, r.o, r.px, r.traded, r.amount, mult)) else cut
  {
    hide Amount, Times, Column, Plus, NewPosting;
    var rest := r.vol - r.traded;
    AmountNone(r.px, mult);
    AmountNeg(r.px, rest, mult);
    AmountNeg(r.px, r.traded, mult);
    AmountSum(r.px, r.vol, -r.traded, mult);
    AmountSum(r.px, r.vol, -rest, mult);
    TimesPlus(0.0, 0.0, mult);
    assert r.vol + -rest == r.traded && r.vol + -r.traded == rest;
    NewColumn(r.d, r.o, r.px, r.vol, mult);
    NewColumn(r.d, r.o, r.px, -rest, mult);
    var cut := if !r.live && r.vol != r.traded
               then Plus(NewPosting(r.d, r.o, r.px, r.vol, mult), NewPosting(r.d, r.o, r.px, -rest, mult))
               else NewPosting(r.d, r.o, r.px, r.vol, mult);
    var x, f := Amount(r.px, r.vol, mult), Flight(r);
    ColumnPlus(r.d, r.o, r.vol, 0, x, 0.0, -rest, 0, Amount(r.px, -rest, mult), 0.0);
    assert cut == Column(r.d, r.o, f, 0, Amount(r.px, f, mult), 0.0);
    var t, y := Amount(r.px, r.traded, mult), Times(r.amount, mult);
    AmountSum(r.px, f, -r.traded, mult);
    assert f + -r.traded == f - r.traded;
    ColumnPlus(r.d, r.o, f, 0, Amount(r.px, f, mult), 0.0, 0, r.traded, -t, y);
    if r.traded == 0 {
      assert y == 0.0 && f - r.traded == f;
    }
  }

  /** Two instruments with the same columns, prices and terms are the same: the rest follows. */
  lemma SameInstr(i: Instr, j: Instr)
    requires Sound(i) && Sound(j) && Cols(i.sheet) == Cols(j.sheet)
    requires i.mult == j.mult && i.prd == j.prd && i.px.stlYd == j.px.stlYd && i.px.last == j.px.last
    ensures i == j
  {
    hide Amount, CalcAvgPx;
    assert i.sheet.vol == j.sheet.vol;
    var a, b := i.sheet.amt, j.sheet.amt;
    assert Cols(i.sheet).amt == Cols(j.sheet).amt;
    assert a == b;
  }
}
