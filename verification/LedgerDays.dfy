/** Day after day: what holds in every reachable account, and saving and reloading against the day switch. */
module LedgerDays {
  import opened Ledger
  import opened LedgerTotals
  import opened LedgerInstr
  import opened LedgerDay
  import opened LedgerReplay

  // ---------------------------------------------------------------- no position turns negative

  predicate Positive(i: Instr) {
    var v := i.sheet.vol;
    v.longYd >= 0 && v.longTd >= 0 && v.shortYd >= 0 && v.shortTd >= 0
  }

  /** What is left of the position an order closes. */
  function Holding(b: Book, r: Order): int
    requires r.k in b.instrs
  {
    var v := b.instrs[r.k].sheet.vol;
    match (r.d, r.o)
    case (Buy, CloseYesterday) => v.shortYd
    case (Buy, CloseToday) => v.shortTd
    case (Sell, CloseYesterday) => v.longYd
    case (Sell, CloseToday) => v.longTd
    case _ => r.vol
  }

  /** No close exceeds what is held. */
  predicate Covered(s: Day, e: Event)
    requires Legal(s, e)
  {
    e.Message? && e.m.Trd? && s.orders[e.id].k in s.book.instrs ==> e.m.v <= Holding(s.book, s.orders[e.id])
  }

  predicate CoveredRun(s: Day, info: map<nat, Info>, es: seq<Event>)
    requires LegalRun(s, info, es)
    decreases |es|
  {
    es == [] || (Covered(s, es[0]) && CoveredRun(Step(s, info, es[0]), info, es[1..]))
  }

  predicate AllPositive(b: Book) {
    forall k | k in b.instrs :: Positive(b.instrs[k])
  }

  lemma RegisteredPositive(b: Book, info: map<nat, Info>, k: nat)
    requires AllPositive(b) && k in info
    ensures AllPositive(Registered(b, info, k))
  {}

  lemma NewPositive(b: Book, k: nat, d: Dir, o: Off, px: real, v: int)
    requires AllPositive(b) && k in b.instrs && b.instrs[k].prd in b.prds
    ensures AllPositive(DoNew(b, k, d, o, px, v)) && AllPositive(DoCxl(b, k, d, o, px, v))
  {
    hide IngAmt, PlusAmt, PlusPnl;
    NewVolPositions(d, o, v);
    NewVolPositions(d, o, -v);
    hide NewVol;
    assert Positive(b.instrs[k]);
  }

  lemma NewVolPositions(d: Dir, o: Off, v: int)
    ensures var n := NewVol(d, o, v); n.longYd == n.longTd == n.shortYd == n.shortTd == 0
  {}

  lemma TickPositive(b: Book, k: nat, px: real)
    requires AllPositive(b) && k in b.instrs && b.instrs[k].prd in b.prds
    ensures AllPositive(DoTick(b, k, px))
  {
    hide Amount, PlusAmt, PlusPnl;
    assert Positive(b.instrs[k]);
  }

  lemma TrdPositive(b: Book, r: Order, full: bool, trdPx: real, v: int)
    requires AllPositive(b) && r.k in b.instrs && b.instrs[r.k].prd in b.prds && v >= 0 && v <= Holding(b, r)
    ensures AllPositive(DoTrd(b, r.k, r.d, r.o, r.px, full, trdPx, v))
  {
    hide PostTo, Traded;
    var i := b.instrs[r.k];
    TradedVol(i, r.d, r.o, r.px, trdPx, v);
    TrdKeeps(b, r, full, trdPx, v);
    assert Positive(i);
  }

  lemma TradedVol(i: Instr, d: Dir, o: Off, px: real, trdPx: real, v: int)
    ensures Traded(i, d, o, px, trdPx, v).sheet.vol == PlusVol(i.sheet.vol, TrdVol(d, o, v))
  {
    hide Amount, CalcAvgPx, PlusAmt, PlusPnl, IngAmt, PosAmt, TrdVol;
  }

  lemma TrdKeeps(b: Book, r: Order, full: bool, trdPx: real, v: int)
    requires r.k in b.instrs && b.instrs[r.k].prd in b.prds
    ensures DoTrd(b, r.k, r.d, r.o, r.px, full, trdPx, v).instrs ==
            b.instrs[r.k := Traded(b.instrs[r.k], r.d, r.o, r.px, trdPx, v)]
  {
    hide Traded, Plus, TradePosting, TickPosting;
  }

  lemma StepPositive(b0: Book, info: map<nat, Info>, s: Day, e: Event)
    requires BookOk(b0, info, s.orders, s.book) && Linked(s.book) && Legal(s, e) && Covered(s, e) && AllPositive(s.book)
    ensures AllPositive(Step(s, info, e).book)
  {
    hide AllPositive, Linked, DoNew, DoCxl, DoTrd, DoTick, Registered, BookOk;
    match e
    case Send(k, d, o, px, v) =>
      if k in info {
        RegisteredPositive(s.book, info, k);
        RegisteredLinked(s.book, info, k);
        NewPositive(Registered(s.book, info, k), k, d, o, px, v);
      }
    case Market(k, px) =>
      if k in info {
        RegisteredPositive(s.book, info, k);
        RegisteredLinked(s.book, info, k);
        TickPositive(Registered(s.book, info, k), k, px);
      }
    case Message(id, m) =>
      var r0 := s.orders[id];
      if r0.k in info {
        RegisteredPositive(s.book, info, r0.k);
        RegisteredLinked(s.book, info, r0.k);
        OrdersRegistered(b0, info, s.orders, s.book);
        RegisteredAgain(b0, info, s.orders, s.book, r0.k);
        var r := Recorded(r0, m);
        if m.Cxl? {
          NewPositive(s.book, r.k, r.d, r.o, r.px, m.v);
        } else if m.Trd? {
          TrdPositive(s.book, r, r.vol == r.traded, m.px, m.v);
        }
      }
  }

  lemma RegisteredAgain(b0: Book, info: map<nat, Info>, rs: seq<Order>, b: Book, k: nat)
    requires BookOk(b0, info, rs, b) && k in b.instrs && Linked(b)
    ensures k in info && Registered(b, info, k) == b && b.instrs[k].prd in b.prds
  {
    hide BookOk, InstrAt, Expected;
    SameInstrAt(b0, info, rs, b, k);
    InstrTerms(b0, info, rs, b, k);
  }

  lemma InstrTerms(b0: Book, info: map<nat, Info>, rs: seq<Order>, b: Book, k: nat)
    requires k in info && k in b.instrs && InstrAt(b0, info, k, b.instrs[k], Expected(b0, info, rs, k))
    ensures b.instrs[k].prd == info[k].prd && b.instrs[k].mult == info[k].mult && Sound(b.instrs[k])
  {
    hide Expected, Cols, Sound;
  }

  lemma {:induction false} RunPositive(b0: Book, info: map<nat, Info>, s: Day, es: seq<Event>)
    requires BookOk(b0, info, s.orders, s.book) && Linked(s.book) && OrdersOk(s.orders) && LegalRun(s, info, es)
    requires AllPositive(s.book) && CoveredRun(s, info, es)
    ensures AllPositive(Run(s, info, es).book)
    decreases |es|
  {
    hide BookOk, Linked, Step, Legal, Covered, OrdersOk, AllPositive;
    if es != [] {
      StepOk(b0, info, s, es[0]);
      StepPositive(b0, info, s, es[0]);
      RunPositive(b0, info, Step(s, info, es[0]), es[1..]);
    }
  }

  // ---------------------------------------------------------------- the account during a day

  /** What holds of an account at any moment, whatever was closed. */
  ghost predicate AccountOk(b: Book, info: map<nat, Info>) {
    && Totals(b)
    && forall k | k in b.instrs :: k in info && InstrOk(b.instrs[k], info[k])
  }

  predicate InstrOk(i: Instr, info: Info) {
    Sound(i) && i.mult == info.mult && i.prd == info.prd
  }

  lemma DayOk(b0: Book, info: map<nat, Info>, es: seq<Event>)
    requires StartOk(b0, info) && LegalRun(Day(b0, []), info, es)
    ensures AccountOk(Run(Day(b0, []), info, es).book, info)
  {
    hide Run, LegalRun, BookAt, Totals, Sound, Linked, InstrAt, Expected;
    StartBook(b0, info);
    BookLinked(b0, info, [], b0);
    RunOk(b0, info, Day(b0, []), es);
    var s := Run(Day(b0, []), info, es);
    assert Totals(s.book) by { BookTotals(b0, info, s.orders, s.book); }
    forall k | k in s.book.instrs ensures k in info && InstrOk(s.book.instrs[k], info[k]) {
      SameInstrAt(b0, info, s.orders, s.book, k);
      InstrTerms(b0, info, s.orders, s.book, k);
    }
  }

  lemma DayPositive(b0: Book, info: map<nat, Info>, es: seq<Event>)
    requires StartOk(b0, info) && AllPositive(b0) && LegalRun(Day(b0, []), info, es) && CoveredRun(Day(b0, []), info, es)
    ensures AllPositive(Run(Day(b0, []), info, es).book)
  {
    hide Run, LegalRun, CoveredRun, BookAt, StartOk, AllPositive, Linked;
    StartBook(b0, info);
    BookLinked(b0, info, [], b0);
    RunPositive(b0, info, Day(b0, []), es);
  }

  lemma BookTotals(b0: Book, info: map<nat, Info>, rs: seq<Order>, b: Book)
    requires BookOk(b0, info, rs, b)
    ensures Totals(b)
  {
    hide Totals;
  }

  lemma SoundDroppable(i: Instr)
    requires Sound(i)
    ensures Droppable(i) && (Positive(i) ==> NonNegative(i))
  {
    hide Amount, CalcAvgPx;
    AmountNone(i.px.last, i.mult);
  }

  lemma SwitchStart(i: Instr, info: Info)
    requires InstrOk(i, info)
    ensures InstrStart(SwitchInstr(i), info) && (Positive(i) ==> Positive(SwitchInstr(i)))
  {
    hide Sound;
    SwitchSound(i);
    assert Positive(i) ==> NonNegative(i) by { SoundDroppable(i); }
  }

  /**
   * An account can begin the next day if and only if the switch takes no product from an instrument that holds a
   * position.
   */
  lemma NextDay(b: Book, info: map<nat, Info>)
    requires AccountOk(b, info)
    ensures StartOk(SwitchDay(b), info) <==> NoneStranded(b)
    ensures AllPositive(b) ==> NoneStranded(b) && AllPositive(SwitchDay(b))
  {
    hide Totals, Sound, Positive, Droppable, NonNegative, InstrStart, SwitchInstr, SwitchSheet, Flat, NoneStranded, Linked;
    forall k | k in b.instrs ensures Droppable(b.instrs[k]) && (Positive(b.instrs[k]) ==> NonNegative(b.instrs[k])) {
      assert InstrOk(b.instrs[k], info[k]);
      SoundDroppable(b.instrs[k]);
    }
    SwitchTotals(b);
    if AllPositive(b) { NegativesStrand(b); }
    forall k | k in SwitchDay(b).instrs
      ensures k in info && InstrStart(SwitchDay(b).instrs[k], info[k])
      ensures Positive(b.instrs[k]) ==> Positive(SwitchDay(b).instrs[k])
    {
      assert InstrOk(b.instrs[k], info[k]);
      SwitchStart(b.instrs[k], info[k]);
    }
  }

  // ---------------------------------------------------------------- any number of days

  /** Days at the end of which no instrument with a position belongs to a product without one. */
  ghost predicate LegalDays(b: Book, info: map<nat, Info>, days: seq<seq<Event>>)
    decreases |days|
  {
    days == [] ||
    (LegalRun(Day(b, []), info, days[0]) && NoneStranded(Run(Day(b, []), info, days[0]).book) &&
     LegalDays(SwitchDay(Run(Day(b, []), info, days[0]).book), info, days[1..]))
  }

  /** The account at the start of the day after these. */
  function After(b: Book, info: map<nat, Info>, days: seq<seq<Event>>): Book
    requires LegalDays(b, info, days)
    decreases |days|
  {
    if days == [] then b else After(SwitchDay(Run(Day(b, []), info, days[0]).book), info, days[1..])
  }

  lemma {:induction false} DaysOk(b: Book, info: map<nat, Info>, days: seq<seq<Event>>)
    requires StartOk(b, info) && LegalDays(b, info, days)
    ensures StartOk(After(b, info, days), info)
    decreases |days|
  {
    hide StartOk, SwitchDay, Run, LegalRun, AccountOk, AllPositive, NoneStranded;
    if days != [] {
      DayOk(b, info, days[0]);
      NextDay(Run(Day(b, []), info, days[0]).book, info);
      DaysOk(SwitchDay(Run(Day(b, []), info, days[0]).book), info, days[1..]);
    }
  }

  /** Days over which no close exceeds what is held. */
  predicate CoveredDays(b: Book, info: map<nat, Info>, days: seq<seq<Event>>)
    decreases |days|
  {
    days == [] ||
    (LegalRun(Day(b, []), info, days[0]) && CoveredRun(Day(b, []), info, days[0]) &&
     CoveredDays(SwitchDay(Run(Day(b, []), info, days[0]).book), info, days[1..]))
  }

  /** Such days strand nothing, and no position turns negative. */
  lemma {:induction false} CoveredDaysLegal(b: Book, info: map<nat, Info>, days: seq<seq<Event>>)
    requires StartOk(b, info) && AllPositive(b) && CoveredDays(b, info, days)
    ensures LegalDays(b, info, days) && AllPositive(After(b, info, days))
    decreases |days|
  {
    hide StartOk, SwitchDay, Run, LegalRun, CoveredRun, AccountOk, AllPositive, NoneStranded;
    if days != [] {
      DayOk(b, info, days[0]);
      DayPositive(b, info, days[0]);
      NextDay(Run(Day(b, []), info, days[0]).book, info);
      CoveredDaysLegal(SwitchDay(Run(Day(b, []), info, days[0]).book), info, days[1..]);
    }
  }

  /**
   * From an empty account, after any number of days whose switch strands no position, and at any moment of the next day,
   * whatever is closed on it: products and account are the sums of the instruments, and every instrument's profit is
   * what it holds less what it started with and spent.
   */
  lemma AlwaysBalanced(info: map<nat, Info>, days: seq<seq<Event>>, es: seq<Event>)
    requires LegalDays(NO_BOOK, info, days) && LegalRun(Day(After(NO_BOOK, info, days), []), info, es)
    ensures var b := Run(Day(After(NO_BOOK, info, days), []), info, es).book;
      Totals(b) &&
      forall k | k in b.instrs ::
        var i := b.instrs[k];
        var v, a := i.sheet.vol, i.sheet.amt;
        i.sheet.pnl.pos + i.sheet.pnl.trd ==
          (a.long - a.short) - Amount(i.px.stlYd, v.longYdIni - v.shortYdIni, i.mult) - (a.buy - a.sell)
  {
    hide Run, LegalRun, LegalDays, After, Totals, Sound, Amount, StartOk;
    EmptyStart(info);
    DaysOk(NO_BOOK, info, days);
    var b0 := After(NO_BOOK, info, days);
    DayOk(b0, info, es);
    var b := Run(Day(b0, []), info, es).book;
    forall k | k in b.instrs
      ensures b.instrs[k].sheet.pnl.pos + b.instrs[k].sheet.pnl.trd ==
        (b.instrs[k].sheet.amt.long - b.instrs[k].sheet.amt.short)
        - Amount(b.instrs[k].px.stlYd, b.instrs[k].sheet.vol.longYdIni - b.instrs[k].sheet.vol.shortYdIni, b.instrs[k].mult)
        - (b.instrs[k].sheet.amt.buy - b.instrs[k].sheet.amt.sell)
    {
      assert InstrOk(b.instrs[k], info[k]);
      ProfitIdentity(b.instrs[k]);
    }
  }

  lemma EmptyStart(info: map<nat, Info>)
    ensures StartOk(NO_BOOK, info) && AllPositive(NO_BOOK)
  {
    EmptyTotals();
  }

  // ---------------------------------------------------------------- a switch that strands positions

  /** Both instruments of product 0 are on record, with these long positions and no short ones. */
  predicate Longs(b: Book, x: int, y: int) {
    && Linked(b) && b.instrs.Keys == {0, 1} && b.prds.Keys == {0} && b.instrs[0].prd == b.instrs[1].prd == 0
    && b.instrs[0].sheet.vol.long == x && b.instrs[1].sheet.vol.long == y && b.prds[0].vol.long == x + y
    && b.instrs[0].sheet.vol.short == b.instrs[1].sheet.vol.short == b.prds[0].vol.short == 0
  }

  const TWINS: map<nat, Info> := map[0 := Info(0, 1), 1 := Info(0, 1)]

  lemma TwinsPosted(b: Book, x: int, y: int, k: nat, i: Instr, d: Sheet, count: int)
    requires Longs(b, x, y) && k <= 1 && i.prd == 0 && d.vol.short == 0
    requires i.sheet.vol == PlusVol(b.instrs[k].sheet.vol, d.vol)
    ensures Longs(PostTo(b, k, i, d, count), if k == 0 then x + d.vol.long else x, if k == 1 then y + d.vol.long else y)
  {
    hide PlusAmt, PlusPnl;
  }

  lemma TwinsKnown(b: Book, x: int, y: int, k: nat)
    requires Longs(b, x, y) && k <= 1
    ensures Registered(b, TWINS, k) == b
  {}

  lemma NewVolNet(d: Dir, o: Off, v: int)
    ensures NewVol(d, o, v).long == NewVol(d, o, v).short == 0
  {}

  lemma NewPosted(i: Instr, d: Dir, o: Off, v: int)
    ensures var p := NewPosting(d, o, 1.0, v, i.mult);
      p.vol.long == p.vol.short == 0 && Posted(i, p).sheet.vol == PlusVol(i.sheet.vol, p.vol) && Posted(i, p).prd == i.prd
  {
    hide NewVol, PlusVol, PlusAmt, PlusPnl, Amount, IngAmt;
    NewVolNet(d, o, v);
  }

  lemma TwinsNew(b: Book, x: int, y: int, k: nat, d: Dir, o: Off)
    requires Longs(b, x, y) && k <= 1
    ensures k in b.instrs && b.instrs[k].prd in b.prds && Longs(DoNew(b, k, d, o, 1.0, 1), x, y)
  {
    hide PostTo, PlusVol, NewPosting, Posted, Linked;
    var i := b.instrs[k];
    NewPosted(i, d, o, 1);
    TwinsPosted(b, x, y, k, Posted(i, NewPosting(d, o, 1.0, 1, i.mult)), NewPosting(d, o, 1.0, 1, i.mult), 1);
  }

  lemma LongsLinked(b: Book, x: int, y: int)
    requires Longs(b, x, y)
    ensures Linked(b) && NoneStranded(b) == (x + y == 0 ==> x == 0 && y == 0)
  {}

  lemma TwinsSent(s: Day, x: int, y: int, k: nat, d: Dir, o: Off)
    requires Longs(s.book, x, y) && k <= 1 && Known(d, o)
    ensures var e := Send(k, d, o, 1.0, 1);
      Linked(s.book) && Legal(s, e) && Longs(Step(s, TWINS, e).book, x, y) &&
      Step(s, TWINS, e).orders == s.orders + [Order(k, d, o, 1.0, 1, 0, 0.0, true)]
  {
    hide Longs, DoNew, Registered, Linked, NoneStranded;
    LongsLinked(s.book, x, y);
    TwinsKnown(s.book, x, y, k);
    TwinsNew(s.book, x, y, k, d, o);
  }

  /** An opening of one lot, or a close of one lot that nothing may be held for. */
  predicate OneLot(r: Order) {
    r.k <= 1 && r.live && r.vol == 1 && r.traded == 0 && ((r.d == Buy && r.o == Open) || (r.d == Sell && r.o == CloseToday))
  }

  lemma OneLotVol(r: Order)
    requires OneLot(r)
    ensures TrdVol(r.d, r.o, 1).long == (if r.d == Buy then 1 else -1) && TrdVol(r.d, r.o, 1).short == 0
  {}

  lemma TwinsTrd(b: Book, x: int, y: int, r: Order)
    requires Longs(b, x, y) && OneLot(r)
    ensures r.k in b.instrs && b.instrs[r.k].prd in b.prds
    ensures var n := if r.d == Buy then 1 else -1;
      Longs(DoTrd(b, r.k, r.d, r.o, r.px, true, 1.0, 1), if r.k == 0 then x + n else x, if r.k == 1 then y + n else y)
  {
    hide PostTo, PlusVol, Plus, TickPosting, TradePosting, Traded, TrdVol, Linked;
    var i := b.instrs[r.k];
    TradedVol(i, r.d, r.o, r.px, 1.0, 1);
    TradedFields(i, r.d, r.o, r.px, 1.0, 1);
    TwinsTrade(i, r);
    OneLotVol(r);
    TwinsPosted(b, x, y, r.k, Traded(i, r.d, r.o, r.px, 1.0, 1),
                Plus(TickPosting(i, 1.0), TradePosting(r.d, r.o, r.px, 1.0, 1, i.mult)), -1);
  }

  lemma TwinsTrade(i: Instr, r: Order)
    ensures Plus(TickPosting(i, 1.0), TradePosting(r.d, r.o, r.px, 1.0, 1, i.mult)).vol == TrdVol(r.d, r.o, 1)
  {
    hide TrdVol, PlusAmt, PlusPnl, Amount, IngAmt, PosAmt;
  }

  lemma TwinsFilled(s: Day, x: int, y: int, id: nat)
    requires Longs(s.book, x, y) && id < |s.orders| && OneLot(s.orders[id])
    ensures var e, r := Message(id, Trd(1.0, 1)), s.orders[id]; var n := if r.d == Buy then 1 else -1;
      Linked(s.book) && Legal(s, e) && |Step(s, TWINS, e).orders| == |s.orders|
      && Longs(Step(s, TWINS, e).book, if r.k == 0 then x + n else x, if r.k == 1 then y + n else y)
  {
    hide Longs, DoTrd, Registered, Linked, Worth, NoneStranded;
    LongsLinked(s.book, x, y);
    TwinsKnown(s.book, x, y, s.orders[id].k);
    TwinsTrd(s.book, x, y, s.orders[id]);
  }

  lemma TickNoVol(i: Instr, px: real)
    ensures TickPosting(i, px).vol == NO_VOL && Ticked(i, px).sheet.vol == i.sheet.vol && Ticked(i, px).prd == i.prd
  {
    hide Amount, PlusAmt, PlusPnl;
  }

  lemma PlusNoVol(a: Sheet, d: Sheet)
    requires d.vol == NO_VOL
    ensures Plus(a, d).vol == a.vol
  {
    hide PlusAmt, PlusPnl;
  }

  /** Only instrument 0 and its product are on record, and hold nothing. */
  predicate OneBlank(b: Book) {
    && b.instrs.Keys == {0} && b.prds.Keys == {0} && b.instrs[0].prd == 0
    && b.instrs[0].sheet.vol == NO_VOL && b.prds[0].vol == NO_VOL
  }

  lemma FirstTick()
    ensures Linked(NO_BOOK) && OneBlank(OnTickPx(NO_BOOK, TWINS, 0, 1.0))
  {
    hide TickPosting, Ticked, Plus, PlusAmt, PlusPnl;
    TickNoVol(NewInstr(1, 0), 1.0);
    PlusNoVol(BLANK, TickPosting(NewInstr(1, 0), 1.0));
  }

  lemma SecondTick(b: Book)
    requires OneBlank(b)
    ensures Linked(b) && Longs(OnTickPx(b, TWINS, 1, 1.0), 0, 0)
  {
    hide TickPosting, Ticked, Plus, PlusAmt, PlusPnl;
    TickNoVol(NewInstr(1, 0), 1.0);
    PlusNoVol(b.prds[0], TickPosting(NewInstr(1, 0), 1.0));
  }

  lemma Prepend(s: Day, info: map<nat, Info>, e: Event, rest: seq<Event>)
    requires Linked(s.book) && Legal(s, e) && LegalRun(Step(s, info, e), info, rest)
    ensures LegalRun(s, info, [e] + rest) && Run(s, info, [e] + rest) == Run(Step(s, info, e), info, rest)
  {
    hide Step, Legal;
    assert ([e] + rest)[1..] == rest;
  }

  /**
   * One lot bought of one instrument and one sold short, as a close, of another of the same product: the product holds
   * nothing, the switch drops it, and both instruments survive without it.
   */
  lemma PositionsStranded()
    ensures var es := [Market(0, 1.0), Market(1, 1.0), Send(0, Buy, Open, 1.0, 1), Message(0, Trd(1.0, 1)),
                       Send(1, Sell, CloseToday, 1.0, 1), Message(1, Trd(1.0, 1))];
      LegalRun(Day(NO_BOOK, []), TWINS, es) &&
      var b := Run(Day(NO_BOOK, []), TWINS, es).book;
      Longs(b, 1, -1) && !NoneStranded(b) && !Linked(SwitchDay(b))
  {
    hide Longs, Step, Legal, Linked, SwitchDay, NoneStranded, OnTickPx;
    var s0 := Day(NO_BOOK, []);
    var e0, e1, e2, e3 := Market(0, 1.0), Market(1, 1.0), Send(0, Buy, Open, 1.0, 1), Message(0, Trd(1.0, 1));
    var e4, e5 := Send(1, Sell, CloseToday, 1.0, 1), Message(1, Trd(1.0, 1));
    var s2 := TwinsListed(s0, e0, e1);
    var s4 := TwinsTraded(s2, 0, 0, e2, e3);
    var s6 := TwinsTraded(s4, 1, 0, e4, e5);
    LongsLinked(s6.book, 1, -1);
    SwitchLinked(s6.book);
    assert LegalRun(s6, TWINS, []) && Run(s6, TWINS, []) == s6;
    TwoMore(s4, e4, e5, []);
    assert [e4, e5] + [] == [e4, e5] && [e2, e3] + [e4, e5] == [e2, e3, e4, e5];
    TwoMore(s2, e2, e3, [e4, e5]);
    TwoMore(s0, e0, e1, [e2, e3, e4, e5]);
    assert [e0, e1] + [e2, e3, e4, e5] == [e0, e1, e2, e3, e4, e5];
  }

  lemma TwoMore(s: Day, e: Event, f: Event, rest: seq<Event>)
    requires Linked(s.book) && Legal(s, e) && Linked(Step(s, TWINS, e).book) && Legal(Step(s, TWINS, e), f)
    requires LegalRun(Step(Step(s, TWINS, e), TWINS, f), TWINS, rest)
    ensures LegalRun(s, TWINS, [e, f] + rest)
    ensures Run(s, TWINS, [e, f] + rest) == Run(Step(Step(s, TWINS, e), TWINS, f), TWINS, rest)
  {
    hide Step, Legal, Linked, LegalRun, Run;
    Prepend(Step(s, TWINS, e), TWINS, f, rest);
    Prepend(s, TWINS, e, [f] + rest);
    assert [e] + ([f] + rest) == [e, f] + rest;
  }

  lemma TwinsListed(s: Day, e: Event, f: Event) returns (t: Day)
    requires s == Day(NO_BOOK, []) && e == Market(0, 1.0) && f == Market(1, 1.0)
    ensures Linked(s.book) && Legal(s, e) && Linked(Step(s, TWINS, e).book) && Legal(Step(s, TWINS, e), f)
    ensures t == Step(Step(s, TWINS, e), TWINS, f) && Longs(t.book, 0, 0) && t.orders == []
  {
    hide OnTickPx, Longs;
    FirstTick();
    SecondTick(OnTickPx(NO_BOOK, TWINS, 0, 1.0));
    t := Step(Step(s, TWINS, e), TWINS, f);
  }

  lemma TwinsTraded(s: Day, x: int, y: int, e: Event, f: Event) returns (t: Day)
    requires Longs(s.book, x, y) && f == Message(|s.orders|, Trd(1.0, 1))
    requires e == Send(0, Buy, Open, 1.0, 1) || e == Send(1, Sell, CloseToday, 1.0, 1)
    ensures Linked(s.book) && Legal(s, e) && Linked(Step(s, TWINS, e).book) && Legal(Step(s, TWINS, e), f)
    ensures t == Step(Step(s, TWINS, e), TWINS, f) && |t.orders| == |s.orders| + 1
    ensures Longs(t.book, if e.k == 0 then x + 1 else x, if e.k == 1 then y - 1 else y)
  {
    hide Longs, Step, Legal, Linked;
    KnownTwins(e);
    TwinsSent(s, x, y, e.k, e.d, e.o);
    TwinsFilled(Step(s, TWINS, e), x, y, |s.orders|);
    t := Step(Step(s, TWINS, e), TWINS, f);
  }

  lemma KnownTwins(e: Event)
    requires e == Send(0, Buy, Open, 1.0, 1) || e == Send(1, Sell, CloseToday, 1.0, 1)
    ensures Known(e.d, e.o)
  {}

  // ---------------------------------------------------------------- saving and reloading

  /** What a saved account holds of an instrument. */
  datatype SavedInstr = SavedInstr(sheet: Sheet, px: UnitPx)

  datatype Saved = Saved(acc: Acc, prds: map<nat, Sheet>, instrs: map<nat, SavedInstr>)

  /** What is worth saving. */
  predicate Worthy(v: UnitVol) {
    v.longYdIni != 0 || v.longYdClsIng != 0 || v.longTdOpnIng != 0 || v.longTdClsIng != 0 || v.long != 0 ||
    v.shortYdIni != 0 || v.shortYdClsIng != 0 || v.shortTdOpnIng != 0 || v.shortTdClsIng != 0 || v.short != 0
  }

  /** `to_json`. */
  function Save(b: Book): Saved {
    Saved(b.acc,
          map p | p in b.prds && Worthy(b.prds[p].vol) :: b.prds[p],
          map k | k in b.instrs && Worthy(b.instrs[k].sheet.vol) :: SavedInstr(b.instrs[k].sheet, b.instrs[k].px))
  }

  /** The `from_json` of the units: positions and their amounts survive, everything of the day is gone. */
  function LoadVol(v: UnitVol): UnitVol {
    UnitVol(v.long, v.long, 0, v.long, 0, 0, 0, v.short, v.short, 0, v.short, 0, 0, 0, 0, 0)
  }

  function LoadAmt(a: UnitAmt): UnitAmt { NO_AMT.(long := a.long, short := a.short) }

  function LoadSheet(s: Sheet): Sheet { Sheet(LoadVol(s.vol), LoadAmt(s.amt), NO_PNL) }

  function LoadPx(px: UnitPx): UnitPx { NO_PX.(stlYd := px.last, last := px.last) }

  /** The loop of `from_json` over instruments, in the order ks; each has to be known. */
  function LoadInstrs(b: Book, info: map<nat, Info>, s: Saved, ks: seq<nat>): (r: (bool, Book))
    requires forall k | k in ks :: k in s.instrs
    decreases |ks|
  {
    if ks == [] then (true, b)
    else if ks[0] !in info then (false, b)
    else
      var b1 := Registered(b, info, ks[0]);
      var i := b1.instrs[ks[0]].(sheet := LoadSheet(s.instrs[ks[0]].sheet), px := LoadPx(s.instrs[ks[0]].px));
      LoadInstrs(b1.(instrs := b1.instrs[ks[0] := i]), info, s, ks[1..])
  }

  /** The loop over products. */
  function LoadPrds(b: Book, s: Saved, ps: seq<nat>): Book
    requires forall p | p in ps :: p in s.prds
    decreases |ps|
  {
    if ps == [] then b else LoadPrds(b.(prds := b.prds[ps[0] := LoadSheet(s.prds[ps[0]])]), s, ps[1..])
  }

  /** `from_json` into an empty account, meeting the entries in these orders. */
  function Load(info: map<nat, Info>, s: Saved, ks: seq<nat>, ps: seq<nat>): (r: (bool, Book))
    requires (forall k | k in ks :: k in s.instrs) && forall p | p in ps :: p in s.prds
  {
    var acc := Acc(0, LoadAmt(s.acc.amt), NO_PNL);
    var r := LoadInstrs(NO_BOOK.(acc := acc), info, s, ks);
    if r.0 then (true, LoadPrds(r.1, s, ps)) else r
  }

  lemma {:induction false} LoadedInstrs(b: Book, info: map<nat, Info>, s: Saved, ks: seq<nat>)
    requires forall k | k in ks :: k in s.instrs && k in info
    requires forall k | k in b.instrs :: k in info && b.instrs[k].mult == info[k].mult && b.instrs[k].prd == info[k].prd
    ensures var r := LoadInstrs(b, info, s, ks);
      r.0 && r.1.acc == b.acc &&
      (forall k :: k in r.1.instrs <==> k in b.instrs || k in ks) &&
      (forall k | k in r.1.instrs :: k in info && r.1.instrs[k] ==
        if k in ks then Instr(LoadSheet(s.instrs[k].sheet), LoadPx(s.instrs[k].px), info[k].mult, info[k].prd) else b.instrs[k]) &&
      (forall p | p in r.1.prds :: if p in b.prds then r.1.prds[p] == b.prds[p] else r.1.prds[p] == BLANK)
    decreases |ks|
  {
    hide LoadSheet, LoadPx;
    if ks != [] {
      var b1 := Registered(b, info, ks[0]);
      var i := b1.instrs[ks[0]].(sheet := LoadSheet(s.instrs[ks[0]].sheet), px := LoadPx(s.instrs[ks[0]].px));
      LoadedInstrs(b1.(instrs := b1.instrs[ks[0] := i]), info, s, ks[1..]);
    }
  }

  lemma {:induction false} LoadedPrds(b: Book, s: Saved, ps: seq<nat>)
    requires forall p | p in ps :: p in s.prds
    ensures var r := LoadPrds(b, s, ps);
      r.acc == b.acc && r.instrs == b.instrs &&
      (forall p :: p in r.prds <==> p in b.prds || p in ps) &&
      (forall p | p in r.prds :: r.prds[p] == if p in ps then LoadSheet(s.prds[p]) else b.prds[p])
    decreases |ps|
  {
    hide LoadSheet;
    if ps != [] {
      LoadedPrds(b.(prds := b.prds[ps[0] := LoadSheet(s.prds[ps[0]])]), s, ps[1..]);
    }
  }

  lemma LoadIsSwitch(s: Sheet, px: UnitPx)
    ensures LoadSheet(s) == SwitchSheet(s) && LoadPx(px) == px.OnSwitchDay()
  {}

  /**
   * Saving an account and loading it into an empty one comes to the day switch, but for instruments and products
   * that hold no position: those the switch drops, and the reload may keep, empty.
   */
  lemma ReloadEqualsSwitch(b: Book, info: map<nat, Info>, ks: seq<nat>, ps: seq<nat>)
    requires AccountOk(b, info)
    requires (forall k :: k in ks <==> k in Save(b).instrs) && (forall p :: p in ps <==> p in Save(b).prds)
    ensures var r := Load(info, Save(b), ks, ps); var w := SwitchDay(b);
      r.0 && r.1.acc == w.acc &&
      (forall k | k in w.instrs :: k in r.1.instrs && r.1.instrs[k] == w.instrs[k]) &&
      (forall k | k in r.1.instrs && k !in w.instrs :: Flat(r.1.instrs[k].sheet)) &&
      (forall p | p in w.prds :: p in r.1.prds && r.1.prds[p] == w.prds[p]) &&
      (forall p | p in r.1.prds && p !in w.prds :: Flat(r.1.prds[p]))
  {
    hide LoadSheet, LoadPx, SwitchSheet, Totals, Sound, Positive, LoadInstrs, LoadPrds;
    var s := Save(b);
    var b1 := NO_BOOK.(acc := Acc(0, LoadAmt(s.acc.amt), NO_PNL));
    LoadedInstrs(b1, info, s, ks);
    LoadedPrds(LoadInstrs(b1, info, s, ks).1, s, ps);
    forall k | k in b.instrs ensures InstrOk(b.instrs[k], info[k]) && (k in s.instrs ==>
      LoadSheet(s.instrs[k].sheet) == SwitchSheet(b.instrs[k].sheet) && LoadPx(s.instrs[k].px) == b.instrs[k].px.OnSwitchDay())
    {
      LoadIsSwitch(b.instrs[k].sheet, b.instrs[k].px);
    }
    forall p | p in b.prds ensures LoadSheet(b.prds[p]) == SwitchSheet(b.prds[p]) {
      LoadIsSwitch(b.prds[p], NO_PX);
    }
    forall x: Sheet ensures Flat(SwitchSheet(x)) == Flat(x) {
      SwitchFlat(x);
    }
    assert forall x: Sheet :: !Flat(x) ==> Worthy(x.vol);
  }

  lemma SwitchFlat(x: Sheet)
    ensures Flat(SwitchSheet(x)) == Flat(x)
  {}
}
