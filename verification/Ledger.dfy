/** The columns of the trading account, and what one event adds to them. */
module Ledger {
  // ---------------------------------------------------------------- columns

  /** Volumes in lots: opening and current positions, what is being opened or closed, and today's turnover. */
  datatype UnitVol = UnitVol(
    longYdIni: int, longYd: int, longTd: int, long: int, longYdClsIng: int, longTdClsIng: int, longTdOpnIng: int,
    shortYdIni: int, shortYd: int, shortTd: int, short: int, shortYdClsIng: int, shortTdClsIng: int, shortTdOpnIng: int,
    buy: int, sell: int)
  {
    function OnBuyOpnNew(v: int): UnitVol { this.(longTdOpnIng := longTdOpnIng + v) }
    function OnBuyOpnCxl(v: int): UnitVol { this.(longTdOpnIng := longTdOpnIng - v) }
    function OnBuyOpnTrd(v: int): UnitVol {
      this.(longTdOpnIng := longTdOpnIng - v, longTd := longTd + v, long := long + v, buy := buy + v)
    }
    function OnSellOpnNew(v: int): UnitVol { this.(shortTdOpnIng := shortTdOpnIng + v) }
    function OnSellOpnCxl(v: int): UnitVol { this.(shortTdOpnIng := shortTdOpnIng - v) }
    function OnSellOpnTrd(v: int): UnitVol {
      this.(shortTdOpnIng := shortTdOpnIng - v, shortTd := shortTd + v, short := short + v, sell := sell + v)
    }
    function OnBuyClsYdNew(v: int): UnitVol { this.(shortYdClsIng := shortYdClsIng + v) }
    function OnBuyClsYdCxl(v: int): UnitVol { this.(shortYdClsIng := shortYdClsIng - v) }
    function OnBuyClsYdTrd(v: int): UnitVol {
      this.(shortYdClsIng := shortYdClsIng - v, shortYd := shortYd - v, short := short - v, buy := buy + v)
    }
    function OnSellClsYdNew(v: int): UnitVol { this.(longYdClsIng := longYdClsIng + v) }
    function OnSellClsYdCxl(v: int): UnitVol { this.(longYdClsIng := longYdClsIng - v) }
    function OnSellClsYdTrd(v: int): UnitVol {
      this.(longYdClsIng := longYdClsIng - v, longYd := longYd - v, long := long - v, sell := sell + v)
    }
    function OnBuyClsTdNew(v: int): UnitVol { this.(shortTdClsIng := shortTdClsIng + v) }
    function OnBuyClsTdCxl(v: int): UnitVol { this.(shortTdClsIng := shortTdClsIng - v) }
    function OnBuyClsTdTrd(v: int): UnitVol {
      this.(shortTdClsIng := shortTdClsIng - v, shortTd := shortTd - v, short := short - v, buy := buy + v)
    }
    function OnSellClsTdNew(v: int): UnitVol { this.(longTdClsIng := longTdClsIng + v) }
    function OnSellClsTdCxl(v: int): UnitVol { this.(longTdClsIng := longTdClsIng - v) }
    function OnSellClsTdTrd(v: int): UnitVol {
      this.(longTdClsIng := longTdClsIng - v, longTd := longTd - v, long := long - v, sell := sell + v)
    }
    function OnSwitchDay(): UnitVol { UnitVol(long, long, 0, long, 0, 0, 0, short, short, 0, short, 0, 0, 0, 0, 0) }
  }

  /** Amounts of money: price * volume * multiplier. */
  datatype UnitAmt = UnitAmt(
    longYdSubIng: real, longTdAddIng: real, longTdSubIng: real, long: real,
    shortYdSubIng: real, shortTdAddIng: real, shortTdSubIng: real, short: real,
    buy: real, sell: real)
  {
    function OnSwitchDay(): UnitAmt { UnitAmt(0.0, 0.0, 0.0, long, 0.0, 0.0, 0.0, short, 0.0, 0.0) }
  }

  datatype UnitPnl = UnitPnl(pos: real, trd: real)

  datatype UnitPx = UnitPx(stlYd: real, last: real, avgBuy: real, avgSell: real) {
    function OnSwitchDay(): UnitPx { UnitPx(last, last, 0.0, 0.0) }
  }

  const NO_VOL := UnitVol(0, 0, 0, 0, 0, 0, 0, 0, 0, 0, 0, 0, 0, 0, 0, 0)
  const NO_AMT := UnitAmt(0.0, 0.0, 0.0, 0.0, 0.0, 0.0, 0.0, 0.0, 0.0, 0.0)
  const NO_PNL := UnitPnl(0.0, 0.0)
  const NO_PX := UnitPx(0.0, 0.0, 0.0, 0.0)

  /** The columns an instrument shares with its product and, but for volumes, with the account. */
  datatype Sheet = Sheet(vol: UnitVol, amt: UnitAmt, pnl: UnitPnl)

  const BLANK := Sheet(NO_VOL, NO_AMT, NO_PNL)

  function PlusVol(a: UnitVol, b: UnitVol): UnitVol {
    UnitVol(a.longYdIni + b.longYdIni, a.longYd + b.longYd, a.longTd + b.longTd, a.long + b.long,
            a.longYdClsIng + b.longYdClsIng, a.longTdClsIng + b.longTdClsIng, a.longTdOpnIng + b.longTdOpnIng,
            a.shortYdIni + b.shortYdIni, a.shortYd + b.shortYd, a.shortTd + b.shortTd, a.short + b.short,
            a.shortYdClsIng + b.shortYdClsIng, a.shortTdClsIng + b.shortTdClsIng, a.shortTdOpnIng + b.shortTdOpnIng,
            a.buy + b.buy, a.sell + b.sell)
  }

  function PlusAmt(a: UnitAmt, b: UnitAmt): UnitAmt {
    UnitAmt(a.longYdSubIng + b.longYdSubIng, a.longTdAddIng + b.longTdAddIng, a.longTdSubIng + b.longTdSubIng,
            a.long + b.long, a.shortYdSubIng + b.shortYdSubIng, a.shortTdAddIng + b.shortTdAddIng,
            a.shortTdSubIng + b.shortTdSubIng, a.short + b.short, a.buy + b.buy, a.sell + b.sell)
  }

  function PlusPnl(a: UnitPnl, b: UnitPnl): UnitPnl { UnitPnl(a.pos + b.pos, a.trd + b.trd) }

  function Plus(a: Sheet, b: Sheet): Sheet {
    Sheet(PlusVol(a.vol, b.vol), PlusAmt(a.amt, b.amt), PlusPnl(a.pnl, b.pnl))
  }

  lemma PlusSwap(a: Sheet, b: Sheet, c: Sheet)
    ensures Plus(Plus(a, b), c) == Plus(Plus(a, c), b)
  {}

  lemma PlusAssoc(a: Sheet, b: Sheet, c: Sheet)
    ensures Plus(Plus(a, b), c) == Plus(a, Plus(b, c))
  {}

  lemma PlusComm(a: Sheet, b: Sheet)
    ensures Plus(a, b) == Plus(b, a)
  {}

  lemma PlusBlank(a: Sheet)
    ensures Plus(a, BLANK) == a && Plus(BLANK, a) == a
  {}

  // ---------------------------------------------------------------- postings

  datatype Dir = Buy | Sell | UnknownDir

  datatype Off = Open | CloseYesterday | CloseToday | UnknownOff

  predicate Known(d: Dir, o: Off) { d != UnknownDir && o != UnknownOff }

  function Worth(px: real, vol: int): real { px * vol as real }

  function Amount(px: real, vol: int, mult: int): real { Worth(px, vol) * mult as real }

  /** What a new order of v lots adds to the volumes; a cancellation adds the opposite. */
  function NewVol(d: Dir, o: Off, v: int): UnitVol {
    match (d, o)
    case (Buy, Open) => NO_VOL.OnBuyOpnNew(v)
    case (Buy, CloseYesterday) => NO_VOL.OnBuyClsYdNew(v)
    case (Buy, CloseToday) => NO_VOL.OnBuyClsTdNew(v)
    case (Sell, Open) => NO_VOL.OnSellOpnNew(v)
    case (Sell, CloseYesterday) => NO_VOL.OnSellClsYdNew(v)
    case (Sell, CloseToday) => NO_VOL.OnSellClsTdNew(v)
    case _ => NO_VOL
  }

  /** The amount in flight that a new order, a cancellation or a trade changes. */
  function IngAmt(d: Dir, o: Off, x: real): UnitAmt {
    match (d, o)
    case (Buy, Open) => NO_AMT.(longTdAddIng := x)
    case (Buy, CloseYesterday) => NO_AMT.(shortYdSubIng := x)
    case (Buy, CloseToday) => NO_AMT.(shortTdSubIng := x)
    case (Sell, Open) => NO_AMT.(shortTdAddIng := x)
    case (Sell, CloseYesterday) => NO_AMT.(longYdSubIng := x)
    case (Sell, CloseToday) => NO_AMT.(longTdSubIng := x)
    case _ => NO_AMT
  }

  function TrdVol(d: Dir, o: Off, v: int): UnitVol {
    match (d, o)
    case (Buy, Open) => NO_VOL.OnBuyOpnTrd(v)
    case (Buy, CloseYesterday) => NO_VOL.OnBuyClsYdTrd(v)
    case (Buy, CloseToday) => NO_VOL.OnBuyClsTdTrd(v)
    case (Sell, Open) => NO_VOL.OnSellOpnTrd(v)
    case (Sell, CloseYesterday) => NO_VOL.OnSellClsYdTrd(v)
    case (Sell, CloseToday) => NO_VOL.OnSellClsTdTrd(v)
    case _ => NO_VOL
  }

  /** The position amount that a trade worth x changes. */
  function PosAmt(d: Dir, o: Off, x: real): UnitAmt {
    match (d, o)
    case (Buy, Open) => NO_AMT.(long := x)
    case (Buy, CloseYesterday) => NO_AMT.(short := -x)
    case (Buy, CloseToday) => NO_AMT.(short := -x)
    case (Sell, Open) => NO_AMT.(short := x)
    case (Sell, CloseYesterday) => NO_AMT.(long := -x)
    case (Sell, CloseToday) => NO_AMT.(long := -x)
    case _ => NO_AMT
  }

  function NewPosting(d: Dir, o: Off, px: real, v: int, mult: int): Sheet {
    Sheet(NewVol(d, o, v), IngAmt(d, o, Amount(px, v, mult)), NO_PNL)
  }

  function TradePosting(d: Dir, o: Off, px: real, trdPx: real, v: int, mult: int): Sheet {
    Sheet(TrdVol(d, o, v), PlusAmt(IngAmt(d, o, -Amount(px, v, mult)), PosAmt(d, o, Amount(trdPx, v, mult))), NO_PNL)
  }

  // ---------------------------------------------------------------- instruments

  datatype Instr = Instr(sheet: Sheet, px: UnitPx, mult: int, prd: nat)

  function NewInstr(mult: int, prd: nat): Instr { Instr(BLANK, NO_PX, mult, prd) }

  function CalcAvgPx(amt: real, pos: int, mult: int): real {
    if pos == 0 || mult == 0 then 0.0 else amt / pos as real / mult as real
  }

  /** What a new last price adds. */
  function TickPosting(i: Instr, px: real): Sheet {
    var move := px - i.px.last;
    var v := i.sheet.vol;
    Sheet(NO_VOL,
          NO_AMT.(long := Amount(move, v.long, i.mult), short := Amount(move, v.short, i.mult)),
          UnitPnl(Amount(move, v.longYdIni - v.shortYdIni, i.mult), Amount(move, v.buy - v.sell, i.mult)))
  }

  function Posted(i: Instr, d: Sheet): Instr { i.(sheet := Plus(i.sheet, d)) }

  function Ticked(i: Instr, px: real): Instr {
    Posted(i, TickPosting(i, px)).(px := i.px.(last := px))
  }

  /** The instrument's own turnover and average prices, behind a trade worth x. */
  function TurnedOver(i: Instr, d: Dir, x: real): Instr {
    var a, v := i.sheet.amt, i.sheet.vol;
    match d
    case Buy => i.(sheet := i.sheet.(amt := a.(buy := a.buy + x)), px := i.px.(avgBuy := CalcAvgPx(a.buy + x, v.buy, i.mult)))
    case Sell => i.(sheet := i.sheet.(amt := a.(sell := a.sell + x)), px := i.px.(avgSell := CalcAvgPx(a.sell + x, v.sell, i.mult)))
    case UnknownDir => i
  }

  function Traded(i: Instr, d: Dir, o: Off, px: real, trdPx: real, v: int): Instr {
    TurnedOver(Posted(Ticked(i, trdPx), TradePosting(d, o, px, trdPx, v, i.mult)), d, Amount(trdPx, v, i.mult))
  }

  function SwitchSheet(s: Sheet): Sheet { Sheet(s.vol.OnSwitchDay(), s.amt.OnSwitchDay(), NO_PNL) }

  function SwitchInstr(i: Instr): Instr { i.(sheet := SwitchSheet(i.sheet), px := i.px.OnSwitchDay()) }

  // ---------------------------------------------------------------- the account

  /** What CTradeBaseInfo knows of an instrument. */
  datatype Info = Info(prd: nat, mult: nat)

  datatype Acc = Acc(unfilled: int, amt: UnitAmt, pnl: UnitPnl)

  datatype Book = Book(instrs: map<nat, Instr>, prds: map<nat, Sheet>, acc: Acc)

  const NO_BOOK := Book(map[], map[], Acc(0, NO_AMT, NO_PNL))

  /** `regInstr`, for an instrument that is known. */
  function Registered(b: Book, info: map<nat, Info>, k: nat): Book
    requires k in info
  {
    var p := info[k].prd;
    b.(prds := if p in b.prds then b.prds else b.prds[p := BLANK],
       instrs := if k in b.instrs then b.instrs else b.instrs[k := NewInstr(info[k].mult, p)])
  }

  /** Every instrument's product is on record. */
  predicate Linked(b: Book) {
    forall k | k in b.instrs :: b.instrs[k].prd in b.prds
  }

  /** One posting: to the instrument, its product and the account. */
  function PostTo(b: Book, k: nat, i: Instr, d: Sheet, count: int): Book
    requires k in b.instrs && b.instrs[k].prd in b.prds
  {
    var p := b.instrs[k].prd;
    Book(b.instrs[k := i], b.prds[p := Plus(b.prds[p], d)],
         Acc(b.acc.unfilled + count, PlusAmt(b.acc.amt, d.amt), PlusPnl(b.acc.pnl, d.pnl)))
  }

  function DoTick(b: Book, k: nat, px: real): Book
    requires k in b.instrs && b.instrs[k].prd in b.prds
  {
    PostTo(b, k, Ticked(b.instrs[k], px), TickPosting(b.instrs[k], px), 0)
  }

  function DoNew(b: Book, k: nat, d: Dir, o: Off, px: real, v: int): Book
    requires k in b.instrs && b.instrs[k].prd in b.prds
  {
    var posting := NewPosting(d, o, px, v, b.instrs[k].mult);
    PostTo(b, k, Posted(b.instrs[k], posting), posting, 1)
  }

  function DoCxl(b: Book, k: nat, d: Dir, o: Off, px: real, v: int): Book
    requires k in b.instrs && b.instrs[k].prd in b.prds
  {
    var posting := NewPosting(d, o, px, -v, b.instrs[k].mult);
    PostTo(b, k, Posted(b.instrs[k], posting), posting, -1)
  }

  function DoTrd(b: Book, k: nat, d: Dir, o: Off, px: real, full: bool, trdPx: real, v: int): Book
    requires k in b.instrs && b.instrs[k].prd in b.prds
  {
    var i := b.instrs[k];
    PostTo(b, k, Traded(i, d, o, px, trdPx, v),
           Plus(TickPosting(i, trdPx), TradePosting(d, o, px, trdPx, v, i.mult)), if full then -1 else 0)
  }

  /** An instrument or product that the day switch drops. */
  predicate Flat(s: Sheet) { s.vol.long == 0 && s.vol.short == 0 }

  function SwitchedInstrs(m: map<nat, Instr>): map<nat, Instr> {
    map k | k in m && !Flat(m[k].sheet) :: SwitchInstr(m[k])
  }

  function SwitchedPrds(m: map<nat, Sheet>): map<nat, Sheet> {
    map p | p in m && !Flat(m[p]) :: SwitchSheet(m[p])
  }

  function SwitchDay(b: Book): Book {
    Book(SwitchedInstrs(b.instrs), SwitchedPrds(b.prds), Acc(0, b.acc.amt.OnSwitchDay(), NO_PNL))
  }

  /** Calls for instruments that are not known change nothing. */
  function OnTickPx(b: Book, info: map<nat, Info>, k: nat, px: real): Book
    requires Linked(b)
  {
    if k in info then DoTick(Registered(b, info, k), k, px) else b
  }

  // ---------------------------------------------------------------- orders

  /** The record of an order: its terms, what has traded and for how much, and whether more can come. */
  datatype Order = Order(k: nat, d: Dir, o: Off, px: real, vol: int, traded: int, amount: real, live: bool)

  function OnNew(b: Book, info: map<nat, Info>, k: nat, d: Dir, o: Off, px: real, v: int): Book
    requires Linked(b)
  {
    if k in info then DoNew(Registered(b, info, k), k, d, o, px, v) else b
  }

  /** What a message says: a cancellation or rejection of v lots, or a trade of v lots, or nothing of interest. */
  datatype Rtn = Cxl(v: int) | Trd(px: real, v: int) | Other

  /** The record after a message: a trade that completes the order closes it. */
  function Recorded(r: Order, m: Rtn): Order {
    match m
    case Cxl(v) => r.(live := false)
    case Trd(px, v) =>
      r.(traded := r.traded + v, amount := r.amount + Worth(px, v), live := r.live && r.traded + v < r.vol)
    case Other => r
  }

  /** `onRtn`, which is given the record after the message. */
  function OnRtn(b: Book, info: map<nat, Info>, r: Order, m: Rtn): Book
    requires Linked(b)
  {
    if r.k !in info || m == Other then
      if r.k in info then Registered(b, info, r.k) else b
    else if m.Cxl? then DoCxl(Registered(b, info, r.k), r.k, r.d, r.o, r.px, m.v)
    else DoTrd(Registered(b, info, r.k), r.k, r.d, r.o, r.px, r.vol == r.traded, m.px, m.v)
  }

  /** A whole record at once: the new order, the cancelled rest, and one trade at the average price. */
  function PostRecord(b: Book, r: Order): Book
    requires r.k in b.instrs && b.instrs[r.k].prd in b.prds
  {
    var b1 := DoNew(b, r.k, r.d, r.o, r.px, r.vol);
    var b2 := if !r.live && r.vol != r.traded then DoCxl(b1, r.k, r.d, r.o, r.px, r.vol - r.traded) else b1;
    if r.traded > 0 then
      DoTrd(b2, r.k, r.d, r.o, r.px, r.vol == r.traded, r.amount / r.traded as real, r.traded)
    else b2
  }

  /** `onOrderTrack`. */
  function OnOrderTrack(b: Book, info: map<nat, Info>, r: Order): Book
    requires Linked(b)
  {
    if r.k in info then PostRecord(Registered(b, info, r.k), r) else b
  }
}
