/** The account objects, which every event changes in place on three levels. */
module LedgerBook {
  import opened Ledger
  import opened LedgerInstr
  import LedgerDay

  /** The summary of a product. */
  class ModPrd {
    var vol: UnitVol
    var amt: UnitAmt
    var pnl: UnitPnl

    constructor ()
      ensures Value() == BLANK
    {
      vol, amt, pnl := NO_VOL, NO_AMT, NO_PNL;
    }

    function Value(): Sheet
      reads this
    {
      Sheet(vol, amt, pnl)
    }

    method OnSwitchDay()
      modifies this
      ensures Value() == SwitchSheet(old(Value()))
    {
      vol, amt, pnl := vol.OnSwitchDay(), amt.OnSwitchDay(), NO_PNL;
    }
  }

  /** The summary of the account. */
  class ModAcc {
    var unfilled: int
    var amt: UnitAmt
    var pnl: UnitPnl

    constructor ()
      ensures Value() == NO_BOOK.acc
    {
      unfilled, amt, pnl := 0, NO_AMT, NO_PNL;
    }

    function Value(): Acc
      reads this
    {
      Acc(unfilled, amt, pnl)
    }

    method OnSwitchDay()
      modifies this
      ensures Value() == Acc(0, old(amt).OnSwitchDay(), NO_PNL)
    {
      unfilled, amt, pnl := 0, amt.OnSwitchDay(), NO_PNL;
    }
  }

  function PlusAcc(a: Acc, d: Sheet, count: int): Acc {
    Acc(a.unfilled + count, PlusAmt(a.amt, d.amt), PlusPnl(a.pnl, d.pnl))
  }

  class ModInstr {
    var vol: UnitVol
    var amt: UnitAmt
    var pnl: UnitPnl
    var px: UnitPx
    const mult: int
    const prd: nat
    const p_prd: ModPrd
    const p_acc: ModAcc

    constructor (mult: int, prd: nat, p_prd: ModPrd, p_acc: ModAcc)
      ensures Value() == NewInstr(mult, prd)
      ensures this.mult == mult && this.prd == prd && this.p_prd == p_prd && this.p_acc == p_acc
    {
      vol, amt, pnl, px := NO_VOL, NO_AMT, NO_PNL, NO_PX;
      this.mult, this.prd, this.p_prd, this.p_acc := mult, prd, p_prd, p_acc;
    }

    function Value(): (i: Instr)
      reads this
      ensures i.mult == mult && i.prd == prd
    {
      Instr(Sheet(vol, amt, pnl), px, mult, prd)
    }

    /** The same posting reaches the instrument, its product and the account. */
    twostate predicate PostedEverywhere(d: Sheet, count: int)
      reads this, p_prd, p_acc
    {
      Value() == Posted(old(Value()), d) && p_prd.Value() == Plus(old(p_prd.Value()), d) &&
      p_acc.Value() == PlusAcc(old(p_acc.Value()), d, count)
    }

    method OnTickPx(tickPx: real)
      modifies this, p_prd, p_acc
      ensures Value() == Ticked(old(Value()), tickPx)
      ensures p_prd.Value() == Plus(old(p_prd.Value()), TickPosting(old(Value()), tickPx))
      ensures p_acc.Value() == PlusAcc(old(p_acc.Value()), TickPosting(old(Value()), tickPx), 0)
    {
      hide Amount;
      var move := tickPx - px.last;
      MoveAmounts(Amount(move, vol.long, mult), Amount(move, vol.short, mult));
      MovePnl(Amount(move, vol.longYdIni - vol.shortYdIni, mult), Amount(move, vol.buy - vol.sell, mult));
      px := px.(last := tickPx);
    }

    /** The position amounts follow the price, on all three levels. */
    method MoveAmounts(long: real, short: real)
      modifies this`amt, p_prd`amt, p_acc`amt
      ensures amt == PlusAmt(old(amt), NO_AMT.(long := long, short := short))
      ensures p_prd.amt == PlusAmt(old(p_prd.amt), NO_AMT.(long := long, short := short))
      ensures p_acc.amt == PlusAmt(old(p_acc.amt), NO_AMT.(long := long, short := short))
    {
      if long != 0.0 {
        amt := amt.(long := amt.long + long);
        p_prd.amt := p_prd.amt.(long := p_prd.amt.long + long);
        p_acc.amt := p_acc.amt.(long := p_acc.amt.long + long);
      }
      if short != 0.0 {
        amt := amt.(short := amt.short + short);
        p_prd.amt := p_prd.amt.(short := p_prd.amt.short + short);
        p_acc.amt := p_acc.amt.(short := p_acc.amt.short + short);
      }
    }

    method MovePnl(pos: real, trd: real)
      modifies this`pnl, p_prd`pnl, p_acc`pnl
      ensures pnl == PlusPnl(old(pnl), UnitPnl(pos, trd))
      ensures p_prd.pnl == PlusPnl(old(p_prd.pnl), UnitPnl(pos, trd))
      ensures p_acc.pnl == PlusPnl(old(p_acc.pnl), UnitPnl(pos, trd))
    {
      if pos != 0.0 {
        pnl := pnl.(pos := pnl.pos + pos);
        p_prd.pnl := p_prd.pnl.(pos := p_prd.pnl.pos + pos);
        p_acc.pnl := p_acc.pnl.(pos := p_acc.pnl.pos + pos);
      }
      if trd != 0.0 {
        pnl := pnl.(trd := pnl.trd + trd);
        p_prd.pnl := p_prd.pnl.(trd := p_prd.pnl.trd + trd);
        p_acc.pnl := p_acc.pnl.(trd := p_acc.pnl.trd + trd);
      }
    }

    method OnNew(d: Dir, o: Off, price: real, v: int)
      modifies this, p_prd, p_acc
      ensures PostedEverywhere(NewPosting(d, o, price, v, mult), 1)
    {
      hide Amount;
      var chg := Amount(price, v, mult);
      p_acc.unfilled := p_acc.unfilled + 1;
      match (d, o)
      case (Buy, Open) =>
        vol, p_prd.vol := vol.OnBuyOpnNew(v), p_prd.vol.OnBuyOpnNew(v);
        AddIng(d, o, chg);
      case (Buy, CloseYesterday) =>
        vol, p_prd.vol := vol.OnBuyClsYdNew(v), p_prd.vol.OnBuyClsYdNew(v);
        AddIng(d, o, chg);
      case (Buy, CloseToday) =>
        vol, p_prd.vol := vol.OnBuyClsTdNew(v), p_prd.vol.OnBuyClsTdNew(v);
        AddIng(d, o, chg);
      case (Sell, Open) =>
        vol, p_prd.vol := vol.OnSellOpnNew(v), p_prd.vol.OnSellOpnNew(v);
        AddIng(d, o, chg);
      case (Sell, CloseYesterday) =>
        vol, p_prd.vol := vol.OnSellClsYdNew(v), p_prd.vol.OnSellClsYdNew(v);
        AddIng(d, o, chg);
      case (Sell, CloseToday) =>
        vol, p_prd.vol := vol.OnSellClsTdNew(v), p_prd.vol.OnSellClsTdNew(v);
        AddIng(d, o, chg);
      case _ =>
    }

    /** The amount in flight of one direction and offset, on all three levels. */
    method AddIng(d: Dir, o: Off, x: real)
      modifies this`amt, p_prd`amt, p_acc`amt
      ensures amt == PlusAmt(old(amt), IngAmt(d, o, x))
      ensures p_prd.amt == PlusAmt(old(p_prd.amt), IngAmt(d, o, x))
      ensures p_acc.amt == PlusAmt(old(p_acc.amt), IngAmt(d, o, x))
    {
      match (d, o)
      case (Buy, Open) =>
        amt := amt.(longTdAddIng := amt.longTdAddIng + x);
        p_prd.amt := p_prd.amt.(longTdAddIng := p_prd.amt.longTdAddIng + x);
        p_acc.amt := p_acc.amt.(longTdAddIng := p_acc.amt.longTdAddIng + x);
      case (Buy, CloseYesterday) =>
        amt := amt.(shortYdSubIng := amt.shortYdSubIng + x);
        p_prd.amt := p_prd.amt.(shortYdSubIng := p_prd.amt.shortYdSubIng + x);
        p_acc.amt := p_acc.amt.(shortYdSubIng := p_acc.amt.shortYdSubIng + x);
      case (Buy, CloseToday) =>
        amt := amt.(shortTdSubIng := amt.shortTdSubIng + x);
        p_prd.amt := p_prd.amt.(shortTdSubIng := p_prd.amt.shortTdSubIng + x);
        p_acc.amt := p_acc.amt.(shortTdSubIng := p_acc.amt.shortTdSubIng + x);
      case (Sell, Open) =>
        amt := amt.(shortTdAddIng := amt.shortTdAddIng + x);
        p_prd.amt := p_prd.amt.(shortTdAddIng := p_prd.amt.shortTdAddIng + x);
        p_acc.amt := p_acc.amt.(shortTdAddIng := p_acc.amt.shortTdAddIng + x);
      case (Sell, CloseYesterday) =>
        amt := amt.(longYdSubIng := amt.longYdSubIng + x);
        p_prd.amt := p_prd.amt.(longYdSubIng := p_prd.amt.longYdSubIng + x);
        p_acc.amt := p_acc.amt.(longYdSubIng := p_acc.amt.longYdSubIng + x);
      case (Sell, CloseToday) =>
        amt := amt.(longTdSubIng := amt.longTdSubIng + x);
        p_prd.amt := p_prd.amt.(longTdSubIng := p_prd.amt.longTdSubIng + x);
        p_acc.amt := p_acc.amt.(longTdSubIng := p_acc.amt.longTdSubIng + x);
      case _ =>
    }

    method OnCxl(d: Dir, o: Off, price: real, v: int)
      modifies this, p_prd, p_acc
      ensures PostedEverywhere(NewPosting(d, o, price, -v, mult), -1)
    {
      AmountNeg(price, v, mult);
      hide Amount;
      var chg := -Amount(price, v, mult);
      p_acc.unfilled := p_acc.unfilled - 1;
      match (d, o)
      case (Buy, Open) =>
        vol, p_prd.vol := vol.OnBuyOpnCxl(v), p_prd.vol.OnBuyOpnCxl(v);
        AddIng(d, o, chg);
      case (Buy, CloseYesterday) =>
        vol, p_prd.vol := vol.OnBuyClsYdCxl(v), p_prd.vol.OnBuyClsYdCxl(v);
        AddIng(d, o, chg);
      case (Buy, CloseToday) =>
        vol, p_prd.vol := vol.OnBuyClsTdCxl(v), p_prd.vol.OnBuyClsTdCxl(v);
        AddIng(d, o, chg);
      case (Sell, Open) =>
        vol, p_prd.vol := vol.OnSellOpnCxl(v), p_prd.vol.OnSellOpnCxl(v);
        AddIng(d, o, chg);
      case (Sell, CloseYesterday) =>
        vol, p_prd.vol := vol.OnSellClsYdCxl(v), p_prd.vol.OnSellClsYdCxl(v);
        AddIng(d, o, chg);
      case (Sell, CloseToday) =>
        vol, p_prd.vol := vol.OnSellClsTdCxl(v), p_prd.vol.OnSellClsTdCxl(v);
        AddIng(d, o, chg);
      case _ =>
    }

    /** The position amount a trade changes, on all three levels. */
    method AddPos(d: Dir, o: Off, x: real)
      modifies this`amt, p_prd`amt, p_acc`amt
      ensures amt == PlusAmt(old(amt), PosAmt(d, o, x))
      ensures p_prd.amt == PlusAmt(old(p_prd.amt), PosAmt(d, o, x))
      ensures p_acc.amt == PlusAmt(old(p_acc.amt), PosAmt(d, o, x))
    {
      match (d, o)
      case (Buy, Open) =>
        amt := amt.(long := amt.long + x);
        p_prd.amt := p_prd.amt.(long := p_prd.amt.long + x);
        p_acc.amt := p_acc.amt.(long := p_acc.amt.long + x);
      case (Buy, CloseYesterday) =>
        amt := amt.(short := amt.short - x);
        p_prd.amt := p_prd.amt.(short := p_prd.amt.short - x);
        p_acc.amt := p_acc.amt.(short := p_acc.amt.short - x);
      case (Buy, CloseToday) =>
        amt := amt.(short := amt.short - x);
        p_prd.amt := p_prd.amt.(short := p_prd.amt.short - x);
        p_acc.amt := p_acc.amt.(short := p_acc.amt.short - x);
      case (Sell, Open) =>
        amt := amt.(short := amt.short + x);
        p_prd.amt := p_prd.amt.(short := p_prd.amt.short + x);
        p_acc.amt := p_acc.amt.(short := p_acc.amt.short + x);
      case (Sell, CloseYesterday) =>
        amt := amt.(long := amt.long - x);
        p_prd.amt := p_prd.amt.(long := p_prd.amt.long - x);
        p_acc.amt := p_acc.amt.(long := p_acc.amt.long - x);
      case (Sell, CloseToday) =>
        amt := amt.(long := amt.long - x);
        p_prd.amt := p_prd.amt.(long := p_prd.amt.long - x);
        p_acc.amt := p_acc.amt.(long := p_acc.amt.long - x);
      case _ =>
    }

    /** The six ways in which a trade moves volumes. */
    method TradeVolumes(d: Dir, o: Off, v: int)
      modifies this`vol, p_prd`vol
      ensures vol == PlusVol(old(vol), TrdVol(d, o, v)) && p_prd.vol == PlusVol(old(p_prd.vol), TrdVol(d, o, v))
    {
      match (d, o) {
        case (Buy, Open) => vol, p_prd.vol := vol.OnBuyOpnTrd(v), p_prd.vol.OnBuyOpnTrd(v);
        case (Buy, CloseYesterday) => vol, p_prd.vol := vol.OnBuyClsYdTrd(v), p_prd.vol.OnBuyClsYdTrd(v);
        case (Buy, CloseToday) => vol, p_prd.vol := vol.OnBuyClsTdTrd(v), p_prd.vol.OnBuyClsTdTrd(v);
        case (Sell, Open) => vol, p_prd.vol := vol.OnSellOpnTrd(v), p_prd.vol.OnSellOpnTrd(v);
        case (Sell, CloseYesterday) => vol, p_prd.vol := vol.OnSellClsYdTrd(v), p_prd.vol.OnSellClsYdTrd(v);
        case (Sell, CloseToday) => vol, p_prd.vol := vol.OnSellClsTdTrd(v), p_prd.vol.OnSellClsTdTrd(v);
        case _ =>
      }
    }

    /** What a trade moves in volumes and amounts. */
    method PostTrade(d: Dir, o: Off, price: real, trdPx: real, v: int)
      modifies this, p_prd, p_acc
      ensures PostedEverywhere(TradePosting(d, o, price, trdPx, v, mult), 0)
    {
      hide Amount, PlusVol, PlusAmt, TrdVol, IngAmt, PosAmt;
      var ing, chg := -Amount(price, v, mult), Amount(trdPx, v, mult);
      AmtPlus(amt, IngAmt(d, o, ing), PosAmt(d, o, chg));
      AmtPlus(p_prd.amt, IngAmt(d, o, ing), PosAmt(d, o, chg));
      AmtPlus(p_acc.amt, IngAmt(d, o, ing), PosAmt(d, o, chg));
      TradeVolumes(d, o, v);
      AddIng(d, o, ing);
      AddPos(d, o, chg);
    }

    method OnTrd(d: Dir, o: Off, price: real, full: bool, trdPx: real, v: int)
      modifies this, p_prd, p_acc
      ensures Value() == Traded(old(Value()), d, o, price, trdPx, v)
      ensures var posting := Plus(TickPosting(old(Value()), trdPx), TradePosting(d, o, price, trdPx, v, mult));
        p_prd.Value() == Plus(old(p_prd.Value()), posting) &&
        p_acc.Value() == PlusAcc(old(p_acc.Value()), posting, if full then -1 else 0)
    {
      hide Amount, TickPosting, TradePosting, CalcAvgPx, PlusVol, PlusAmt, PlusPnl;
      ghost var before, prdBefore, accBefore := Value(), p_prd.Value(), p_acc.Value();
      ghost var t := TickPosting(before, trdPx);
      OnTickPx(trdPx);
      if full {
        p_acc.unfilled := p_acc.unfilled - 1;
      }
      ghost var middle := Value();
      ghost var p := TradePosting(d, o, price, trdPx, v, mult);
      PostTrade(d, o, price, trdPx, v);
      SheetPlus(prdBefore, t, p);
      AccPlus(accBefore, t, p, if full then -1 else 0);
      var chg := Amount(trdPx, v, mult);
      match d
      case Buy =>
        amt := amt.(buy := amt.buy + chg);
        px := px.(avgBuy := CalcAvgPx(amt.buy, vol.buy, mult));
      case Sell =>
        amt := amt.(sell := amt.sell + chg);
        px := px.(avgSell := CalcAvgPx(amt.sell, vol.sell, mult));
      case UnknownDir =>
    }

    method OnSwitchDay()
      modifies this
      ensures Value() == SwitchInstr(old(Value()))
      ensures vol.longYdIni == vol.longYd == vol.long == old(vol.long) && vol.longTd == vol.buy == 0
      ensures vol.shortYdIni == vol.shortYd == vol.short == old(vol.short) && vol.shortTd == vol.sell == 0
      ensures px.stlYd == px.last == old(px.last) && amt.long == old(amt.long) && amt.short == old(amt.short)
    {
      vol, amt, pnl, px := vol.OnSwitchDay(), amt.OnSwitchDay(), NO_PNL, px.OnSwitchDay();
    }
  }

  lemma AmtPlus(a: UnitAmt, b: UnitAmt, c: UnitAmt)
    ensures PlusAmt(PlusAmt(a, b), c) == PlusAmt(a, PlusAmt(b, c))
  {}

  lemma SheetPlus(a: Sheet, b: Sheet, c: Sheet)
    ensures Plus(Plus(a, b), c) == Plus(a, Plus(b, c))
  {
    PlusAssoc(a, b, c);
  }

  lemma AccPlus(a: Acc, b: Sheet, c: Sheet, count: int)
    ensures PlusAcc(PlusAcc(a, b, count), c, 0) == PlusAcc(a, Plus(b, c), count)
  {}

  // ---------------------------------------------------------------- the account

  class AccBase {
    var instrs: map<nat, ModInstr>
    var prds: map<nat, ModPrd>
    const acc: ModAcc
    const info: map<nat, Info>

    constructor (info: map<nat, Info>)
      ensures Valid() && State() == NO_BOOK && this.info == info
    {
      instrs, prds := map[], map[];
      acc := new ModAcc();
      this.info := info;
    }

    /** Every instrument points to its product and to this account; no object serves twice. */
    predicate LinkedObjects(ms: map<nat, ModInstr>, ps: map<nat, ModPrd>) {
      && (forall k | k in ms :: ms[k].p_acc == acc && ms[k].prd in ps && ms[k].p_prd == ps[ms[k].prd])
      && (forall j, k | j in ms && k in ms && j != k :: ms[j] != ms[k])
      && (forall p, q | p in ps && q in ps && p != q :: ps[p] != ps[q])
    }

    ghost predicate Valid()
      reads this
    {
      LinkedObjects(instrs, prds)
    }

    lemma LinkInstr(ms: map<nat, ModInstr>, ps: map<nat, ModPrd>, k: nat, instr: ModInstr)
      requires LinkedObjects(ms, ps) && forall j | j in ms :: ms[j] != instr
      requires instr.p_acc == acc && instr.prd in ps && instr.p_prd == ps[instr.prd]
      ensures LinkedObjects(ms[k := instr], ps)
    {}

    lemma LinkPrd(ms: map<nat, ModInstr>, ps: map<nat, ModPrd>, p: nat, prd: ModPrd)
      requires LinkedObjects(ms, ps) && p !in ps && forall q | q in ps :: ps[q] != prd
      ensures LinkedObjects(ms, ps[p := prd])
    {}

    /** The contents of all objects. */
    ghost function State(): Book
      reads this, acc, instrs.Values, prds.Values
    {
      Book(Instrs(), Prds(), acc.Value())
    }

    ghost function Instrs(): (m: map<nat, Instr>)
      reads this`instrs, instrs.Values
      ensures m.Keys == instrs.Keys
    {
      map k | k in instrs :: instrs[k].Value()
    }

    ghost function Prds(): (m: map<nat, Sheet>)
      reads this`prds, prds.Values
      ensures m.Keys == prds.Keys
    {
      map p | p in prds :: prds[p].Value()
    }

    lemma StateLinked()
      requires Valid()
      ensures Linked(State())
    {}

    /** `regModPrd`. */
    method RegModPrd(p: nat)
      requires Valid()
      modifies this`prds
      ensures Valid() && p in prds
      ensures State() == old(State()).(prds := if p in old(prds) then old(State()).prds else old(State()).prds[p := BLANK])
      ensures forall x | x in prds.Values :: x in old(prds.Values) || fresh(x)
    {
      hide ModInstr.Value, ModPrd.Value, AccBase.LinkedObjects;
      if p !in prds {
        ghost var was, ps := State(), prds;
        var prd := new ModPrd();
        prds := prds[p := prd];
        LinkPrd(instrs, ps, p, prd);
        assert State().prds == was.prds[p := BLANK];
        assert State().instrs == was.instrs;
      }
    }

    /** `regModInstr`, and the links to the product and the account. */
    method RegModInstr(k: nat)
      requires Valid() && k in info && info[k].prd in prds
      modifies this`instrs
      ensures Valid() && k in instrs
      ensures State() == old(State()).(instrs :=
        if k in old(instrs) then old(State()).instrs else old(State()).instrs[k := NewInstr(info[k].mult, info[k].prd)])
      ensures forall x | x in instrs.Values :: x in old(instrs.Values) || fresh(x)
    {
      hide ModInstr.Value, ModPrd.Value, NewInstr, AccBase.LinkedObjects;
      if k !in instrs {
        ghost var was, ms := State(), instrs;
        var instr := new ModInstr(info[k].mult, info[k].prd, prds[info[k].prd], acc);
        instrs := instrs[k := instr];
        LinkInstr(ms, prds, k, instr);
        assert State().instrs == was.instrs[k := NewInstr(info[k].mult, info[k].prd)];
        assert State().prds == was.prds;
      }
    }

    /** `regInstr`, which inserts what is missing. */
    method RegInstr(k: nat) returns (known: bool)
      requires Valid()
      modifies this
      ensures Valid() && known == (k in info)
      ensures State() == (if k in info then Registered(old(State()), info, k) else old(State()))
      ensures known ==> k in instrs
      ensures forall x | x in instrs.Values :: x in old(instrs.Values) || fresh(x)
      ensures forall x | x in prds.Values :: x in old(prds.Values) || fresh(x)
    {
      if k !in info {
        return false;
      }
      ghost var was := State();
      assert was.prds.Keys == prds.Keys && was.instrs.Keys == instrs.Keys;
      RegModPrd(info[k].prd);
      RegModInstr(k);
      return true;
    }

    /** One instrument, its product and the account have changed since the book was `was`, and nothing else. */
    lemma OnePosting(was: Book, k: nat, i: Instr, d: Sheet, count: int)
      requires Valid() && k in instrs && was.instrs.Keys == instrs.Keys && was.prds.Keys == prds.Keys
      requires was.instrs[k].prd == instrs[k].prd
      requires forall j | j in instrs && j != k :: instrs[j].Value() == was.instrs[j]
      requires forall p | p in prds && p != instrs[k].prd :: prds[p].Value() == was.prds[p]
      requires instrs[k].Value() == i
      requires instrs[k].p_prd.Value() == Plus(was.prds[instrs[k].prd], d)
      requires acc.Value() == PlusAcc(was.acc, d, count)
      ensures State() == PostTo(was, k, i, d, count)
    {
      hide Plus, PlusAmt, PlusPnl, ModInstr.Value, ModPrd.Value, ModAcc.Value;
      assert Instrs() == was.instrs[k := i];
      assert Prds() == was.prds[instrs[k].prd := Plus(was.prds[instrs[k].prd], d)];
    }

    method OnTickPx(k: nat, px: real)
      requires Valid()
      modifies this, acc, instrs.Values, prds.Values
      ensures Valid() && Linked(old(State())) && State() == Ledger.OnTickPx(old(State()), info, k, px)
    {
      hide TickPosting, Ticked, Plus, PlusAcc, Registered, ModInstr.Value, ModPrd.Value, ModAcc.Value;
      StateLinked();
      var known := RegInstr(k);
      if known {
        ghost var was, i := State(), instrs[k].Value();
        instrs[k].OnTickPx(px);
        OnePosting(was, k, Ticked(i, px), TickPosting(i, px), 0);
      }
    }

    method OnNew(d: Dir, o: Off, px: real, v: int, k: nat)
      requires Valid()
      modifies this, acc, instrs.Values, prds.Values
      ensures Valid() && Linked(old(State())) && State() == Ledger.OnNew(old(State()), info, k, d, o, px, v)
    {
      hide NewPosting, Posted, Plus, PlusAcc, Registered, ModInstr.Value, ModPrd.Value, ModAcc.Value;
      StateLinked();
      var known := RegInstr(k);
      if known {
        Placed(k, d, o, px, v);
      }
    }

    /** A call of `onCxl` for an instrument on record. */
    method Cancelled(k: nat, d: Dir, o: Off, px: real, v: int)
      requires Valid() && k in instrs
      modifies acc, instrs.Values, prds.Values
      ensures Valid() && k in old(State()).instrs && old(State()).instrs[k].prd in old(State()).prds
      ensures State() == DoCxl(old(State()), k, d, o, px, v)
    {
      hide NewPosting, Posted, Plus, PlusAcc, ModInstr.Value, ModPrd.Value, ModAcc.Value;
      ghost var was, i := State(), instrs[k].Value();
      instrs[k].OnCxl(d, o, px, v);
      OnePosting(was, k, Posted(i, NewPosting(d, o, px, -v, i.mult)), NewPosting(d, o, px, -v, i.mult), -1);
    }

    method Filled(k: nat, d: Dir, o: Off, px: real, full: bool, trdPx: real, v: int)
      requires Valid() && k in instrs
      modifies acc, instrs.Values, prds.Values
      ensures Valid() && k in old(State()).instrs && old(State()).instrs[k].prd in old(State()).prds
      ensures State() == DoTrd(old(State()), k, d, o, px, full, trdPx, v)
    {
      hide TradePosting, TickPosting, Traded, Plus, PlusAcc, ModInstr.Value, ModPrd.Value, ModAcc.Value;
      ghost var was, i := State(), instrs[k].Value();
      instrs[k].OnTrd(d, o, px, full, trdPx, v);
      OnePosting(was, k, Traded(i, d, o, px, trdPx, v),
                 Plus(TickPosting(i, trdPx), TradePosting(d, o, px, trdPx, v, i.mult)), if full then -1 else 0);
    }

    method Placed(k: nat, d: Dir, o: Off, px: real, v: int)
      requires Valid() && k in instrs
      modifies acc, instrs.Values, prds.Values
      ensures Valid() && k in old(State()).instrs && old(State()).instrs[k].prd in old(State()).prds
      ensures State() == DoNew(old(State()), k, d, o, px, v)
    {
      hide NewPosting, Posted, Plus, PlusAcc, ModInstr.Value, ModPrd.Value, ModAcc.Value;
      ghost var was, i := State(), instrs[k].Value();
      instrs[k].OnNew(d, o, px, v);
      OnePosting(was, k, Posted(i, NewPosting(d, o, px, v, i.mult)), NewPosting(d, o, px, v, i.mult), 1);
    }

    method OnRtn(r: Order, m: Rtn)
      requires Valid()
      modifies this, acc, instrs.Values, prds.Values
      ensures Valid() && Linked(old(State())) && State() == Ledger.OnRtn(old(State()), info, r, m)
    {
      hide DoCxl, DoTrd, Registered, ModInstr.Value, ModPrd.Value, ModAcc.Value, AccBase.Instrs, AccBase.Prds;
      StateLinked();
      var known := RegInstr(r.k);
      if known && m.Cxl? {
        Cancelled(r.k, r.d, r.o, r.px, m.v);
      }
      if known && m.Trd? {
        Filled(r.k, r.d, r.o, r.px, r.vol == r.traded, m.px, m.v);
      }
    }

    method OnOrderTrack(r: Order)
      requires Valid()
      modifies this, acc, instrs.Values, prds.Values
      ensures Valid() && Linked(old(State())) && State() == Ledger.OnOrderTrack(old(State()), info, r)
    {
      hide PostRecord, Registered, ModInstr.Value, ModPrd.Value, ModAcc.Value, AccBase.Instrs, AccBase.Prds;
      StateLinked();
      var known := RegInstr(r.k);
      if known {
        TrackKnown(r);
      }
    }

    method TrackKnown(r: Order)
      requires Valid() && r.k in instrs
      modifies acc, instrs.Values, prds.Values
      ensures Valid() && r.k in old(State()).instrs && old(State()).instrs[r.k].prd in old(State()).prds
      ensures State() == PostRecord(old(State()), r)
    {
      hide DoNew, DoCxl, DoTrd, AccBase.Valid, AccBase.State;
      Placed(r.k, r.d, r.o, r.px, r.vol);
      if !r.live && r.vol != r.traded {
        Cancelled(r.k, r.d, r.o, r.px, r.vol - r.traded);
      }
      if r.traded > 0 {
        Filled(r.k, r.d, r.o, r.px, r.vol == r.traded, r.amount / r.traded as real, r.traded);
      }
    }

    lemma Distinct()
      requires Valid()
      ensures forall j, k | j in instrs && k in instrs && j != k :: instrs[j] != instrs[k]
      ensures forall p, q | p in prds && q in prds && p != q :: prds[p] != prds[q]
    {}

    lemma Links()
      requires Valid()
      ensures LinkedObjects(instrs, prds)
    {}

    lemma StillValid(ms: map<nat, ModInstr>, ps: map<nat, ModPrd>)
      requires LinkedObjects(ms, ps) && Linked(State())
      requires forall k | k in instrs :: k in ms && instrs[k] == ms[k]
      requires forall p | p in prds :: p in ps && prds[p] == ps[p]
      ensures Valid()
    {
      forall k | k in instrs ensures instrs[k].prd in prds {
        assert State().instrs[k].prd in State().prds;
      }
    }

    lemma StateParts()
      ensures State() == Book(Instrs(), Prds(), acc.Value())
    {}

    lemma MoneyPart()
      ensures acc.Value().amt == acc.amt
    {}

    lemma SwitchParts(b: Book)
      ensures SwitchDay(b) == Book(SwitchedInstrs(b.instrs), SwitchedPrds(b.prds), Acc(0, b.acc.amt.OnSwitchDay(), NO_PNL))
    {}

    method SwitchContents()
      requires forall j, k | j in instrs && k in instrs && j != k :: instrs[j] != instrs[k]
      requires forall p, q | p in prds && q in prds && p != q :: prds[p] != prds[q]
      modifies this, acc, instrs.Values, prds.Values
      ensures State() == SwitchDay(old(State()))
      ensures forall k | k in instrs :: k in old(instrs) && instrs[k] == old(instrs)[k]
      ensures forall p | p in prds :: p in old(prds) && prds[p] == old(prds)[p]
    {
      hide *;
      ghost var i0, p0 := Instrs(), Prds();
      StateParts();
      MoneyPart();
      acc.OnSwitchDay();
      assert Instrs() == i0 && Prds() == p0;
      SwitchPrds();
      assert Instrs() == i0;
      SwitchInstrs();
      StateParts();
      SwitchParts(old(State()));
    }

    /** `onSwitchDay`: what holds no position is erased, the rest begins a new day. */
    method OnSwitchDay()
      requires Valid()
      modifies this, acc, instrs.Values, prds.Values
      ensures State() == SwitchDay(old(State()))
      ensures Linked(State()) ==> Valid()
    {
      hide *;
      Distinct();
      ghost var ms, ps := instrs, prds;
      Links();
      SwitchContents();
      if Linked(State()) {
        StillValid(ms, ps);
      }
    }

    method SwitchPrd(prd: ModPrd) returns (erase: bool)
      modifies prd
      ensures erase == Flat(old(prd.Value()))
      ensures prd.Value() == if erase then old(prd.Value()) else SwitchSheet(old(prd.Value()))
    {
      hide SwitchSheet;
      erase := prd.vol.long == 0 && prd.vol.short == 0;
      if !erase {
        prd.OnSwitchDay();
      }
    }

    method SwitchPrds()
      requires forall p, q | p in prds && q in prds && p != q :: prds[p] != prds[q]
      modifies this`prds, prds.Values
      ensures Prds() == SwitchedPrds(old(Prds()))
      ensures forall p | p in prds :: p in old(prds) && prds[p] == old(prds)[p]
    {
      hide ModPrd.Value, SwitchSheet, Flat;
      ghost var was := Prds();
      var todo, erase := prds.Keys, {};
      while todo != {}
        invariant prds == old(prds) && todo <= prds.Keys && erase <= prds.Keys - todo
        invariant forall p | p in prds :: (p in erase <==> p !in todo && Flat(was[p]))
        invariant forall p | p in prds ::
          prds[p].Value() == (if p in todo || p in erase then was[p] else SwitchSheet(was[p]))
        decreases todo
      {
        var p :| p in todo;
        todo := todo - {p};
        var flat := SwitchPrd(prds[p]);
        if flat {
          erase := erase + {p};
        }
      }
      prds := prds - erase;
    }

    method SwitchInstr1(instr: ModInstr) returns (erase: bool)
      modifies instr
      ensures erase == Flat(old(instr.Value()).sheet)
      ensures instr.Value() == if erase then old(instr.Value()) else SwitchInstr(old(instr.Value()))
    {
      hide SwitchInstr;
      erase := instr.vol.long == 0 && instr.vol.short == 0;
      if !erase {
        instr.OnSwitchDay();
      }
    }

    method SwitchInstrs()
      requires forall j, k | j in instrs && k in instrs && j != k :: instrs[j] != instrs[k]
      modifies this`instrs, instrs.Values
      ensures Instrs() == SwitchedInstrs(old(Instrs()))
      ensures forall k | k in instrs :: k in old(instrs) && instrs[k] == old(instrs)[k]
    {
      hide ModInstr.Value, SwitchInstr, Flat;
      ghost var was := Instrs();
      var todo, erase := instrs.Keys, {};
      while todo != {}
        invariant instrs == old(instrs) && todo <= instrs.Keys && erase <= instrs.Keys - todo
        invariant forall k | k in instrs :: (k in erase <==> k !in todo && Flat(was[k].sheet))
        invariant forall k | k in instrs ::
          instrs[k].Value() == (if k in todo || k in erase then was[k] else SwitchInstr(was[k]))
        decreases todo
      {
        var k :| k in todo;
        todo := todo - {k};
        var flat := SwitchInstr1(instrs[k]);
        if flat {
          erase := erase + {k};
        }
      }
      instrs := instrs - erase;
    }
  }
}
