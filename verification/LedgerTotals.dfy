/** Product and account columns are the sums over their instruments, and each instrument's columns agree. */
module LedgerTotals {
  import opened Ledger

  // ---------------------------------------------------------------- sums over instruments

  /** The columns an instrument hands on: everything but its own turnover. */
  function Share(i: Instr): Sheet { i.sheet.(amt := i.sheet.amt.(buy := 0.0, sell := 0.0)) }

  ghost function SumOf(instrs: map<nat, Instr>, ks: set<nat>): Sheet
    requires ks <= instrs.Keys
  {
    if ks == {} then BLANK
    else
      var k :| k in ks;
      Plus(Share(instrs[k]), SumOf(instrs, ks - {k}))
  }

  lemma {:induction false} SumTake(instrs: map<nat, Instr>, ks: set<nat>, k: nat)
    requires ks <= instrs.Keys && k in ks
    ensures SumOf(instrs, ks) == Plus(Share(instrs[k]), SumOf(instrs, ks - {k}))
  {
    hide Plus, Share;
    var x :| x in ks && SumOf(instrs, ks) == Plus(Share(instrs[x]), SumOf(instrs, ks - {x}));
    if x != k {
      SumTake(instrs, ks - {x}, k);
      SumTake(instrs, ks - {k}, x);
      assert ks - {x} - {k} == ks - {k} - {x};
      var rest := SumOf(instrs, ks - {x} - {k});
      PlusComm(Share(instrs[k]), rest);
      PlusAssoc(Share(instrs[x]), Share(instrs[k]), rest);
      PlusComm(Share(instrs[x]), Share(instrs[k]));
      PlusAssoc(Share(instrs[k]), Share(instrs[x]), rest);
    }
  }

  lemma {:induction false} SumSame(a: map<nat, Instr>, b: map<nat, Instr>, ks: set<nat>)
    requires ks <= a.Keys && ks <= b.Keys && forall k | k in ks :: a[k] == b[k]
    ensures SumOf(a, ks) == SumOf(b, ks)
  {
    hide Plus, Share;
    if ks != {} {
      var k :| k in ks;
      SumTake(a, ks, k);
      SumTake(b, ks, k);
      SumSame(a, b, ks - {k});
    }
  }

  /** What one instrument gains, the sum gains. */
  lemma SumGain(instrs: map<nat, Instr>, ks: set<nat>, k: nat, i: Instr, d: Sheet)
    requires ks <= instrs.Keys && k in ks && Share(i) == Plus(Share(instrs[k]), d)
    ensures SumOf(instrs[k := i], ks) == Plus(SumOf(instrs, ks), d)
  {
    hide Plus, Share;
    SumTake(instrs, ks, k);
    SumTake(instrs[k := i], ks, k);
    SumSame(instrs, instrs[k := i], ks - {k});
    PlusSwap(Share(instrs[k]), d, SumOf(instrs, ks - {k}));
  }

  function OfPrd(instrs: map<nat, Instr>, p: nat): set<nat> {
    set k | k in instrs && instrs[k].prd == p
  }

  ghost function PrdSum(instrs: map<nat, Instr>, p: nat): Sheet {
    SumOf(instrs, OfPrd(instrs, p))
  }

  ghost function AccSum(instrs: map<nat, Instr>): Sheet {
    SumOf(instrs, instrs.Keys)
  }

  ghost predicate AccOk(b: Book) {
    b.acc.amt == AccSum(b.instrs).amt && b.acc.pnl == AccSum(b.instrs).pnl
  }

  ghost predicate PrdOk(b: Book, p: nat)
    requires p in b.prds
  {
    b.prds[p] == PrdSum(b.instrs, p)
  }

  /** Every product sums up its instruments, and the account sums up all of them. */
  ghost predicate Totals(b: Book) {
    Linked(b) && AccOk(b) && forall p | p in b.prds :: PrdOk(b, p)
  }

  lemma EmptyTotals()
    ensures Totals(NO_BOOK)
  {}

  /** A posting keeps the sums. */
  lemma PostTotals(b: Book, k: nat, i: Instr, d: Sheet, count: int)
    requires Totals(b) && k in b.instrs && b.instrs[k].prd in b.prds
    requires i.prd == b.instrs[k].prd && Share(i) == Plus(Share(b.instrs[k]), d)
    ensures Totals(PostTo(b, k, i, d, count))
  {
    hide Share, SumOf, PlusVol, PlusAmt, PlusPnl;
    var b' := PostTo(b, k, i, d, count);
    assert b'.instrs.Keys == b.instrs.Keys;
    SumGain(b.instrs, b.instrs.Keys, k, i, d);
    forall p | p in b'.prds ensures PrdOk(b', p) {
      assert PrdOk(b, p);
      assert OfPrd(b'.instrs, p) == OfPrd(b.instrs, p);
      if p == i.prd {
        SumGain(b.instrs, OfPrd(b.instrs, p), k, i, d);
      } else {
        SumSame(b.instrs, b'.instrs, OfPrd(b.instrs, p));
      }
    }
  }

  lemma RegisteredTotals(b: Book, info: map<nat, Info>, k: nat)
    requires Totals(b) && k in info
    ensures Totals(Registered(b, info, k)) && k in Registered(b, info, k).instrs
  {
    hide Plus, SumOf, Share;
    var b' := Registered(b, info, k);
    if k !in b.instrs {
      var i := NewInstr(info[k].mult, info[k].prd);
      ShareNew(i.mult, i.prd);
      SumAdded(b.instrs, b.instrs.Keys, k, i);
      assert b'.instrs.Keys == b.instrs.Keys + {k};
      forall p | p in b'.prds ensures PrdOk(b', p) {
        if p == i.prd {
          SumAdded(b.instrs, OfPrd(b.instrs, p), k, i);
          assert OfPrd(b'.instrs, p) == OfPrd(b.instrs, p) + {k};
          if p !in b.prds { NoneOf(b, p); } else { assert PrdOk(b, p); }
        } else {
          assert PrdOk(b, p);
          assert OfPrd(b'.instrs, p) == OfPrd(b.instrs, p);
          SumSame(b.instrs, b'.instrs, OfPrd(b.instrs, p));
        }
      }
    } else {
      assert b'.instrs == b.instrs;
      forall p | p in b'.prds ensures PrdOk(b', p) {
        if p !in b.prds { NoneOf(b, p); } else { assert PrdOk(b, p); }
      }
    }
  }

  lemma ShareNew(mult: int, prd: nat)
    ensures Share(NewInstr(mult, prd)) == BLANK
  {}

  lemma NoneOf(b: Book, p: nat)
    requires Linked(b) && p !in b.prds
    ensures OfPrd(b.instrs, p) == {} && PrdSum(b.instrs, p) == BLANK
  {
    hide Plus;
    assert forall k | k in b.instrs :: b.instrs[k].prd in b.prds;
    assert OfPrd(b.instrs, p) == {};
  }

  lemma SumAdded(instrs: map<nat, Instr>, ks: set<nat>, k: nat, i: Instr)
    requires ks <= instrs.Keys && k !in instrs && Share(i) == BLANK
    ensures SumOf(instrs[k := i], ks + {k}) == SumOf(instrs, ks)
  {
    hide Plus, Share;
    SumTake(instrs[k := i], ks + {k}, k);
    assert ks + {k} - {k} == ks;
    SumSame(instrs, instrs[k := i], ks);
    PlusBlank(SumOf(instrs, ks));
  }

  // ---------------------------------------------------------------- each call keeps the sums

  lemma PostedShare(i: Instr, d: Sheet)
    requires d.amt.buy == 0.0 && d.amt.sell == 0.0
    ensures Share(Posted(i, d)) == Plus(Share(i), d)
  {}

  lemma TickShare(i: Instr, px: real)
    ensures Share(Ticked(i, px)) == Plus(Share(i), TickPosting(i, px))
  {
    hide Amount;
    PostedShare(i, TickPosting(i, px));
  }

  lemma NewShare(i: Instr, d: Dir, o: Off, px: real, v: int)
    ensures var posting := NewPosting(d, o, px, v, i.mult); Share(Posted(i, posting)) == Plus(Share(i), posting)
  {
    hide Amount, NewVol, Plus, Share;
    var posting := NewPosting(d, o, px, v, i.mult);
    PostedShare(i, posting);
  }

  lemma TurnedShare(i: Instr, d: Dir, x: real)
    ensures Share(TurnedOver(i, d, x)) == Share(i) && TurnedOver(i, d, x).prd == i.prd
  {
    hide CalcAvgPx;
  }

  lemma TradeShare(i: Instr, d: Dir, o: Off, px: real, trdPx: real, v: int)
    ensures Share(Traded(i, d, o, px, trdPx, v)) ==
            Plus(Share(i), Plus(TickPosting(i, trdPx), TradePosting(d, o, px, trdPx, v, i.mult)))
    ensures Traded(i, d, o, px, trdPx, v).prd == i.prd
  {
    hide Amount, TickPosting, TradePosting, Plus, Share, TurnedOver;
    var t, posting := TickPosting(i, trdPx), TradePosting(d, o, px, trdPx, v, i.mult);
    TickShare(i, trdPx);
    assert posting.amt.buy == 0.0 && posting.amt.sell == 0.0 by {
      TradeTurnover(d, o, px, trdPx, v, i.mult);
    }
    PostedShare(Ticked(i, trdPx), posting);
    TurnedShare(Posted(Ticked(i, trdPx), posting), d, Amount(trdPx, v, i.mult));
    PlusAssoc(Share(i), t, posting);
  }

  lemma TradeTurnover(d: Dir, o: Off, px: real, trdPx: real, v: int, mult: int)
    ensures var posting := TradePosting(d, o, px, trdPx, v, mult); posting.amt.buy == 0.0 && posting.amt.sell == 0.0
  {
    hide Amount, TrdVol;
  }

  lemma TickTotals(b: Book, k: nat, px: real)
    requires Totals(b) && k in b.instrs && b.instrs[k].prd in b.prds
    ensures Totals(DoTick(b, k, px))
  {
    hide Totals, Share, Plus, PostTo, TickPosting;
    TickShare(b.instrs[k], px);
    PostTotals(b, k, Ticked(b.instrs[k], px), TickPosting(b.instrs[k], px), 0);
  }

  lemma NewTotals(b: Book, k: nat, d: Dir, o: Off, px: real, v: int)
    requires Totals(b) && k in b.instrs && b.instrs[k].prd in b.prds
    ensures Totals(DoNew(b, k, d, o, px, v)) && Totals(DoCxl(b, k, d, o, px, v))
  {
    hide Totals, Share, Plus, PostTo, NewPosting;
    var i := b.instrs[k];
    NewShare(i, d, o, px, v);
    NewShare(i, d, o, px, -v);
    PostTotals(b, k, Posted(i, NewPosting(d, o, px, v, i.mult)), NewPosting(d, o, px, v, i.mult), 1);
    PostTotals(b, k, Posted(i, NewPosting(d, o, px, -v, i.mult)), NewPosting(d, o, px, -v, i.mult), -1);
  }

  lemma TrdTotals(b: Book, k: nat, d: Dir, o: Off, px: real, full: bool, trdPx: real, v: int)
    requires Totals(b) && k in b.instrs && b.instrs[k].prd in b.prds
    ensures Totals(DoTrd(b, k, d, o, px, full, trdPx, v))
  {
    hide Totals, Share, Plus, PostTo, TickPosting, TradePosting, TurnedOver;
    var i := b.instrs[k];
    TradeShare(i, d, o, px, trdPx, v);
    PostTotals(b, k, Traded(i, d, o, px, trdPx, v),
               Plus(TickPosting(i, trdPx), TradePosting(d, o, px, trdPx, v, i.mult)), if full then -1 else 0);
  }

  // ---------------------------------------------------------------- the day switch

  lemma SwitchLinear(a: Sheet, b: Sheet)
    ensures SwitchSheet(Plus(a, b)) == Plus(SwitchSheet(a), SwitchSheet(b))
  {}

  lemma SwitchShare(i: Instr)
    ensures Share(SwitchInstr(i)) == SwitchSheet(Share(i))
  {}

  lemma SwitchBlank()
    ensures SwitchSheet(BLANK) == BLANK
  {}

  /** No position: nothing is left of the instrument tomorrow. */
  predicate Droppable(i: Instr) {
    (i.sheet.vol.long == 0 ==> i.sheet.amt.long == 0.0) && (i.sheet.vol.short == 0 ==> i.sheet.amt.short == 0.0)
  }

  predicate NonNegative(i: Instr) { i.sheet.vol.long >= 0 && i.sheet.vol.short >= 0 }

  /** A product without position has only instruments without position, so that the switch drops them together. */
  predicate NoneStranded(b: Book) {
    forall k | k in b.instrs && b.instrs[k].prd in b.prds && Flat(b.prds[b.instrs[k].prd]) :: Flat(b.instrs[k].sheet)
  }

  lemma FlatShare(i: Instr)
    requires Droppable(i) && Flat(i.sheet)
    ensures SwitchSheet(Share(i)) == BLANK
  {}

  /** The instruments that survive the switch sum up to the switched sum. */
  lemma {:induction false} SwitchSum(a: map<nat, Instr>, b: map<nat, Instr>, ks: set<nat>, kept: set<nat>)
    requires ks <= a.Keys && kept <= b.Keys && kept <= ks
    requires forall k | k in ks :: Droppable(a[k]) && (k in kept <==> !Flat(a[k].sheet))
    requires forall k | k in kept :: b[k] == SwitchInstr(a[k])
    ensures SumOf(b, kept) == SwitchSheet(SumOf(a, ks))
  {
    hide Plus, Share, SwitchSheet, Droppable, SumOf, SwitchInstr, Flat;
    if ks == {} {
      assert kept == {};
      SumEmpty(a);
      SumEmpty(b);
      SwitchBlank();
    } else {
      var k :| k in ks;
      SumTake(a, ks, k);
      SwitchLinear(Share(a[k]), SumOf(a, ks - {k}));
      SwitchSum(a, b, ks - {k}, kept - {k});
      if k in kept {
        SumTake(b, kept, k);
        SwitchShare(a[k]);
      } else {
        assert kept - {k} == kept;
        FlatShare(a[k]);
        PlusBlank(SumOf(b, kept));
      }
    }
  }

  lemma SumEmpty(a: map<nat, Instr>)
    ensures SumOf(a, {}) == BLANK
  {}

  /** A sum of positions that are not negative is flat only if all are. */
  lemma {:induction false} FlatSum(a: map<nat, Instr>, ks: set<nat>)
    requires ks <= a.Keys && forall k | k in ks :: NonNegative(a[k])
    ensures SumOf(a, ks).vol.long >= 0 && SumOf(a, ks).vol.short >= 0
    ensures Flat(SumOf(a, ks)) ==> forall k | k in ks :: Flat(a[k].sheet)
  {
    hide SumOf;
    if ks == {} {
      SumEmpty(a);
    } else {
      var k :| k in ks;
      SumTake(a, ks, k);
      FlatSum(a, ks - {k});
      var rest := SumOf(a, ks - {k});
      assert SumOf(a, ks).vol.long == a[k].sheet.vol.long + rest.vol.long;
      assert SumOf(a, ks).vol.short == a[k].sheet.vol.short + rest.vol.short;
      if Flat(SumOf(a, ks)) {
        forall j | j in ks ensures Flat(a[j].sheet) {
          if j != k { assert j in ks - {k}; }
        }
      }
    }
  }

  /** So it is where no position is negative. */
  lemma NegativesStrand(b: Book)
    requires Totals(b) && forall k | k in b.instrs :: NonNegative(b.instrs[k])
    ensures NoneStranded(b)
  {
    hide Plus, Share, SumOf, Flat, NonNegative;
    forall k | k in b.instrs && b.instrs[k].prd in b.prds && Flat(b.prds[b.instrs[k].prd]) ensures Flat(b.instrs[k].sheet) {
      var p := b.instrs[k].prd;
      assert PrdOk(b, p);
      FlatSum(b.instrs, OfPrd(b.instrs, p));
      assert k in OfPrd(b.instrs, p);
    }
  }

  /**
   * The day switch leaves every surviving instrument its product if and only if no instrument with a position belongs to a
   * product without one; and then, and only then, it keeps the sums.
   */
  lemma SwitchTotals(b: Book)
    requires Totals(b) && forall k | k in b.instrs :: Droppable(b.instrs[k])
    ensures Linked(SwitchDay(b)) <==> NoneStranded(b)
    ensures Totals(SwitchDay(b)) <==> NoneStranded(b)
  {
    SwitchLinked(b);
    if NoneStranded(b) { SwitchSums(b); }
  }

  lemma SurvivorLinked(b: Book, k: nat)
    requires Linked(SwitchDay(b)) && k in b.instrs
    ensures k in SwitchDay(b).instrs ==> b.instrs[k].prd in SwitchDay(b).prds
  {
    hide SwitchSheet, Flat;
    if k in SwitchDay(b).instrs {
      assert SwitchDay(b).instrs[k].prd == b.instrs[k].prd;
    }
  }

  lemma SwitchLinked(b: Book)
    requires Linked(b)
    ensures Linked(SwitchDay(b)) <==> NoneStranded(b)
  {
    hide SwitchSheet, Flat;
    var b' := SwitchDay(b);
    if Linked(b') {
      forall k | k in b.instrs && Flat(b.prds[b.instrs[k].prd]) ensures Flat(b.instrs[k].sheet) {
        assert k in b'.instrs <==> !Flat(b.instrs[k].sheet);
        SurvivorLinked(b, k);
      }
    }
  }

  lemma SwitchSums(b: Book)
    requires Totals(b) && Linked(SwitchDay(b)) && forall k | k in b.instrs :: Droppable(b.instrs[k])
    ensures Totals(SwitchDay(b))
  {
    hide Plus, Share, SwitchSheet, Droppable, SumOf, Flat;
    var b' := SwitchDay(b);
    SwitchSum(b.instrs, b'.instrs, b.instrs.Keys, b'.instrs.Keys);
    SwitchMoney(AccSum(b.instrs));
    forall p | p in b'.prds ensures PrdOk(b', p) {
      assert PrdOk(b, p);
      SwitchSum(b.instrs, b'.instrs, OfPrd(b.instrs, p), OfPrd(b'.instrs, p));
    }
  }

  lemma SwitchMoney(s: Sheet)
    ensures SwitchSheet(s).amt == s.amt.OnSwitchDay() && SwitchSheet(s).pnl == NO_PNL
  {}
}
