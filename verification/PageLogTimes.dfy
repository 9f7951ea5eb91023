/**
 * What the time stamps of a log say, whatever the writer did and wherever it stopped, as long as its clock never goes
 * back.
 */
module PageLogTimes {
  import opened Bytes
  import opened PageLog
  import opened PageLogSafety
  import opened PageLogWriter

  predicate InOrder(fs: seq<Rec>) {
    forall i, j | 0 <= i <= j < |fs| :: fs[i].nano <= fs[j].nano
  }

  /** The bytes behind the last frame hold the head of one that was never committed, with the time the page head carries. */
  predicate Torn(pg: Page) {
    pg.tail + FRAME_HEAD_SIZE <= |pg.body| && FromLE(pg.body[pg.tail + 8..pg.tail + 16]) >= pg.lastNano
  }

  /** Time stamps never decrease along a page; its head carries the last one, or that of a frame that was given up. */
  predicate TimesOk(pg: Page, fs: seq<Rec>) {
    && InOrder(fs) && (fs != [] ==> fs[|fs| - 1].nano <= pg.lastNano)
    && (pg.lastNano == (if fs == [] then 0 else fs[|fs| - 1].nano) || Torn(pg))
  }

  /** No frame is older than what the head of an earlier page carries. */
  predicate PagesInOrder(pages: seq<Page>, log: seq<seq<Rec>>)
    requires |pages| == |log|
  {
    forall p, q, i | 0 <= p < q < |pages| && 0 <= i < |log[q]| :: pages[p].lastNano <= log[q][i].nano
  }

  predicate AllTimesOk(pages: seq<Page>, log: seq<seq<Rec>>)
    requires |pages| == |log|
  {
    (forall p | 0 <= p < |pages| :: TimesOk(pages[p], log[p])) && PagesInOrder(pages, log)
  }

  /** The latest time that the heads of pages may carry. */
  function Latest(w: Writer, clock: int): int {
    if InFrame(w.pc) then w.pc.rec.nano else clock
  }

  predicate TimeInv(w: Writer, clock: int)
    requires |w.pages| == |w.log|
  {
    && AllTimesOk(w.pages, w.log)
    && (forall p | 0 <= p < |w.pages| :: w.pages[p].lastNano <= Latest(w, clock)) && Latest(w, clock) <= clock
    && (w.pages != [] ==>
          (w.pc.Tail? ==> LastPage(w).lastNano == w.pc.rec.nano) && (Creating(w.pc) ==> LastPage(w).lastNano == 0))
  }

  // ---------------------------------------------------------------- one store

  lemma OrderSnoc(fs: seq<Rec>, r: Rec)
    requires InOrder(fs) && (fs != [] ==> fs[|fs| - 1].nano <= r.nano)
    ensures InOrder(fs + [r])
  {
    var gs := fs + [r];
    forall i, j | 0 <= i <= j < |gs| ensures gs[i].nano <= gs[j].nano {
      if i < |fs| && j == |fs| { assert fs[i].nano <= fs[|fs| - 1].nano; }
    }
  }

  /** A store that leaves the time of the frame at the tail alone. */
  lemma TornKept(pg: Page, o: nat, b: seq<byte>)
    requires pg.tail + FRAME_HEAD_SIZE <= |pg.body| && o + |b| <= |pg.body|
    requires o + |b| <= pg.tail + 8 || pg.tail + 16 <= o
    ensures Torn(pg) ==> Torn(pg.(body := Splice(pg.body, o, b)))
  {
    SpliceSlices(pg.body, o, b, pg.tail + 8, pg.tail + 16);
  }

  lemma NanoTorn(pg: Page, r: Rec)
    requires pg.tail + FRAME_HEAD_SIZE <= |pg.body| && pg.lastNano <= r.nano < Pow256(8)
    ensures Torn(pg.(body := Splice(pg.body, pg.tail + 8, LE(r.nano, 8))))
  {
    SpliceSlices(pg.body, pg.tail + 8, LE(r.nano, 8), pg.tail, pg.tail);
    LERoundTrip(r.nano, 8);
  }

  /** Every store of a frame but the last. */
  lemma FrameTimes(pg: Page, fs: seq<Rec>, pc: WPc)
    requires InFrame(pc) && !pc.Tail? && FrameProgress(pg, pc) && TimesOk(pg, fs) && pg.lastNano <= pc.rec.nano
    requires |pg.body| == pg.fileSize
    ensures var (pg', pc') := StoreFrame(pg, pc);
      InFrame(pc') && pc'.rec == pc.rec && TimesOk(pg', fs) && pg.lastNano <= pg'.lastNano <= pc.rec.nano &&
      (pc'.Tail? ==> pg'.lastNano == pc.rec.nano)
  {
    hide InOrder, HasData, HasWord, Splice, LE, FromLE;
    var r, o := pc.rec, pg.tail;
    match pc
    case Data(_, _, k) => TornKept(pg, o + FRAME_HEAD_SIZE + k, [r.data[k]]);
    case Len(_, _) => TornKept(pg, o + 4, LE(|r.data|, 4));
    case Magic(_) => TornKept(pg, o, LE(FRAME_HEAD_MAGIC, 4));
    case Nano(_) => NanoTorn(pg, r);
    case Last(_) =>
  }

  lemma TailTimes(pg: Page, fs: seq<Rec>, r: Rec)
    requires TimesOk(pg, fs) && pg.lastNano == r.nano
    ensures TimesOk(pg.(tail := pg.tail + FRAME_HEAD_SIZE + |r.data|), fs + [r])
  {
    OrderSnoc(fs, r);
  }

  lemma HeadTimes(pg: Page, fs: seq<Rec>, pc: WPc, pageSize: nat, now: int)
    requires !InFrame(pc) && pc != Idle && !pc.Open? && TimesOk(pg, fs) && (Creating(pc) ==> pg.lastNano == 0 && fs == [])
    ensures var (pg', pc') := StoreHead(pg, pc, pageSize, now);
      TimesOk(pg', fs) && pg'.lastNano == pg.lastNano && !InFrame(pc') && (Creating(pc') ==> Creating(pc))
  {}

  // ---------------------------------------------------------------- one store, seen on the disk

  /** The last page changes, and its head carries no less than before. */
  lemma LastTimes(w: Writer, pg: Page, added: seq<Rec>, pc: WPc, clock: int)
    requires |w.pages| == |w.log| && w.pages != [] && TimeInv(w, clock)
    requires TimesOk(pg, LastLog(w) + added) && pg.lastNano <= Latest(w.(pc := pc), clock)
    requires Latest(w, clock) <= Latest(w.(pc := pc), clock) <= clock
    requires forall i | 0 <= i < |added| :: added[i].nano == Latest(w, clock)
    requires (pc.Tail? ==> pg.lastNano == pc.rec.nano) && (Creating(pc) ==> pg.lastNano == 0)
    ensures TimeInv(OnLast(w, pg, LastLog(w) + added, pc), clock)
  {
    hide TimesOk, Creating, InFrame;
    var n, w' := |w.pages| - 1, OnLast(w, pg, LastLog(w) + added, pc);
    forall p, q, i | 0 <= p < q < |w'.pages| && 0 <= i < |w'.log[q]|
      ensures w'.pages[p].lastNano <= w'.log[q][i].nano
    {
      if q == n && i >= |w.log[n]| {
        assert w'.log[q][i] == added[i - |w.log[n]|];
      } else {
        assert w'.log[q][i] == w.log[q][i];
      }
    }
  }

  lemma TailStoreTimes(w: Writer, clock: int)
    requires WInv(w) && TimeInv(w, clock) && w.pages != [] && w.pc.Tail?
    ensures var w' := WStep(w, 0, 0); |w'.pages| == |w'.log| && TimeInv(w', clock)
  {
    hide TimesOk, PagesInOrder, DiskOk, FrameProgress;
    RoomAtTail(w);
    LastIsOk(w);
    assert TimesOk(LastPage(w), LastLog(w));
    TailTimes(LastPage(w), LastLog(w), w.pc.rec);
    LastTimes(w, StoreFrame(LastPage(w), w.pc).0, [w.pc.rec], Idle, clock);
  }

  lemma FrameStoreTimes(w: Writer, clock: int)
    requires WInv(w) && TimeInv(w, clock) && w.pages != [] && InFrame(w.pc) && !w.pc.Tail?
    ensures var w' := WStep(w, 0, 0); |w'.pages| == |w'.log| && TimeInv(w', clock)
  {
    hide TimesOk, PagesInOrder, DiskOk, FrameProgress, StoreFrame;
    RoomAtTail(w);
    LastIsOk(w);
    assert TimesOk(LastPage(w), LastLog(w));
    FrameTimes(LastPage(w), LastLog(w), w.pc);
    assert LastLog(w) + [] == LastLog(w);
    LastTimes(w, StoreFrame(LastPage(w), w.pc).0, [], StoreFrame(LastPage(w), w.pc).1, clock);
  }

  lemma HeadStoreTimes(w: Writer, pageSize: nat, now: int, clock: int)
    requires WInv(w) && TimeInv(w, clock) && w.pages != [] && !InFrame(w.pc) && w.pc != Idle && !w.pc.Open?
    ensures var w' := WStep(w, pageSize, now); |w'.pages| == |w'.log| && TimeInv(w', clock)
  {
    hide TimesOk, PagesInOrder, DiskOk, HeadProgress, PageOk;
    hide StoreHead;
    LastIsOk(w);
    assert TimesOk(LastPage(w), LastLog(w));
    if Creating(w.pc) { NoFramesYet(LastPage(w), LastLog(w), w.pc); }
    HeadTimes(LastPage(w), LastLog(w), w.pc, pageSize, now);
    assert LastLog(w) + [] == LastLog(w);
    LastTimes(w, StoreHead(LastPage(w), w.pc, pageSize, now).0, [], StoreHead(LastPage(w), w.pc, pageSize, now).1, clock);
  }

  lemma LastIsOk(w: Writer)
    requires WInv(w) && w.pages != []
    ensures |w.pages| == |w.log|
    ensures PageOk(LastPage(w), LastLog(w)) && |LastPage(w).body| == LastPage(w).fileSize
  {
    hide LastProgress, FramesAt;
  }

  lemma FileTimes(w: Writer, clock: int)
    requires WInv(w) && TimeInv(w, clock) && w.pc.Open? && clock >= 0
    ensures TimeInv(Writer(w.pages + [NewFile], w.log + [[]], Truncate), clock)
  {
    hide DiskOk, Torn, PageOk;
    SizesAgree(w);
    assert TimesOk(NewFile, []);
    var w' := Writer(w.pages + [NewFile], w.log + [[]], Truncate);
    forall p, q, i | 0 <= p < q < |w'.pages| && 0 <= i < |w'.log[q]|
      ensures w'.pages[p].lastNano <= w'.log[q][i].nano
    {
      assert w'.log[q] == w.log[q];
    }
  }

  lemma StepTimes(w: Writer, pageSize: nat, now: int, clock: int)
    requires WInv(w) && TimeInv(w, clock) && clock >= 0
    ensures var w' := WStep(w, pageSize, now); |w'.pages| == |w'.log| && TimeInv(w', clock)
  {
    hide TimeInv, DiskOk, LastProgress, StoreFrame, StoreHead;
    SizesAgree(w);
    if w.pages != [] && w.pc.Tail? {
      TailStoreTimes(w, clock);
      assert WStep(w, pageSize, now) == WStep(w, 0, 0);
    } else if w.pages != [] && InFrame(w.pc) {
      FrameStoreTimes(w, clock);
      assert WStep(w, pageSize, now) == WStep(w, 0, 0);
    } else if w.pc.Open? {
      FileTimes(w, clock);
    } else if w.pages != [] && w.pc != Idle {
      HeadStoreTimes(w, pageSize, now, clock);
    }
  }

  lemma RoomAtTail(w: Writer)
    requires WInv(w) && w.pages != [] && InFrame(w.pc)
    ensures LastPage(w).tail + FRAME_HEAD_SIZE + |w.pc.rec.data| <= |LastPage(w).body|
  {
    hide FramesAt, FrameAt, HasData, HasWord;
    LastIsOk(w);
  }

  lemma NoFramesYet(pg: Page, fs: seq<Rec>, pc: WPc)
    requires PageOk(pg, fs) && !InFrame(pc) && pc != Idle && !pc.Open? && HeadProgress(pg, pc) && Creating(pc)
    ensures fs == []
  {}

  // ---------------------------------------------------------------- runs

  /** The time of the last call. */
  function LastTime(es: seq<Event>, clock: int): int {
    if es == [] then clock
    else if es[|es| - 1].WriterCall? then es[|es| - 1].rec.nano
    else LastTime(es[..|es| - 1], clock)
  }

  /** The clock never goes back from call to call. */
  predicate Timely(es: seq<Event>, clock: int) {
    es == [] || (Timely(es[..|es| - 1], clock) &&
                 (es[|es| - 1].WriterCall? ==> es[|es| - 1].rec.nano >= LastTime(es[..|es| - 1], clock)))
  }

  lemma CallTimes(w: Writer, mode: Mode, r: Rec, clock: int)
    requires |w.pages| == |w.log| && TimeInv(w, clock) && r.nano >= clock
    ensures TimeInv(Call(w, mode, r), r.nano)
  {
    hide AllTimesOk, Fits;
  }

  lemma DiscardTimes(w: Writer, clock: int)
    requires |w.pages| == |w.log| && TimeInv(w, clock)
    ensures TimeInv(Discard(w), clock)
  {
    hide AllTimesOk;
  }

  lemma {:induction false} TimelyGrows(es: seq<Event>, clock: int)
    requires Timely(es, clock)
    ensures LastTime(es, clock) >= clock
  {
    if es != [] { TimelyGrows(es[..|es| - 1], clock); }
  }

  /**
   * Whatever a writer calls, gives up or leaves unfinished: as long as its clock never goes back, the times of the log
   * are in order, and each page head carries the time of its last frame or of one that lies torn behind it.
   */
  lemma {:induction false} RunTimes(w: Writer, pageSize: nat, es: seq<Event>, clock: int)
    requires WInv(w) && pageSize >= PAGE_HEAD_SIZE + FRAME_HEAD_SIZE && TimeInv(w, clock) && clock >= 0 && Timely(es, clock)
    ensures var w' := WRun(w, pageSize, es); |w'.pages| == |w'.log| && TimeInv(w', LastTime(es, clock))
  {
    hide TimeInv, WInv, WStep, Call, Discard;
    if es != [] {
      var before, e := es[..|es| - 1], es[|es| - 1];
      RunTimes(w, pageSize, before, clock);
      WRunOk(w, pageSize, before);
      TimelyGrows(before, clock);
      var w', c := WRun(w, pageSize, before), LastTime(before, clock);
      match e
      case WriterCall(mode, rec) => CallTimes(w', mode, rec, c); CallPages(w', mode, rec);
      case WriterDiscard => DiscardTimes(w', c); DiscardPages(w');
      case WriterStore(now) => StepTimes(w', pageSize, now, c);
      case _ =>
    } else {
      SizesAgree(w);
    }
  }

  lemma CallPages(w: Writer, mode: Mode, r: Rec)
    ensures Call(w, mode, r).pages == w.pages && Call(w, mode, r).log == w.log
  {}

  lemma DiscardPages(w: Writer)
    ensures Discard(w).pages == w.pages && Discard(w).log == w.log
  {}

  lemma SizesAgree(w: Writer)
    requires WInv(w)
    ensures |w.pages| == |w.log|
  {}

  /** The times of every log that a writer has filled from an empty directory on, stops and restarts included. */
  lemma TimesFromNothing(pageSize: nat, es: seq<Event>)
    requires pageSize >= PAGE_HEAD_SIZE + FRAME_HEAD_SIZE && Timely(es, 0)
    ensures var w := WRun(Writer([], [], Open), pageSize, es); |w.pages| == |w.log| && AllTimesOk(w.pages, w.log)
  {
    hide WRun, AllTimesOk;
    assert AllTimesOk([], []) by { NoTimes(); }
    RunTimes(Writer([], [], Open), pageSize, es, 0);
  }

  lemma NoTimes()
    ensures AllTimesOk([], [])
  {}

  /** A writer that takes over after a stop finds the times as they were. */
  lemma RestartTimes(w: Writer, pageSize: nat, clock: int)
    requires WInv(w) && !Creating(w.pc) && TimeInv(w, clock)
    ensures Init(w, pageSize).Started? && |Init(w, pageSize).w.pages| == |Init(w, pageSize).w.log|
    ensures TimeInv(Init(w, pageSize).w, clock)
  {
    hide AllTimesOk, WInv;
    RestartKeeps(w, pageSize);
    SizesAgree(w);
  }

  lemma LastStored(w: Writer, pageSize: nat)
    requires WInv(w) && w.pages != [] && w.pc.Last?
    ensures var w' := WStep(w, pageSize, 0);
      w'.pc == Tail(w.pc.rec) && w'.log == w.log &&
      w'.pages != [] && LastPage(w').lastNano == w.pc.rec.nano && Torn(LastPage(w'))
  {
    hide DiskOk;
    RoomAtTail(w);
    SizesAgree(w);
    assert LastLog(w) + [] == LastLog(w);
  }

  /** The head of a page can run ahead of its frames: giving a frame up before its `tail` is stored leaves its time behind. */
  lemma GivenUpTime(w: Writer, pageSize: nat)
    requires WInv(w) && w.pages != [] && w.pc.Last?
    ensures var w' := WRun(w, pageSize, [WriterStore(0), WriterDiscard]);
      w'.pc == Idle && w'.log == w.log && w'.pages != [] && LastPage(w').lastNano == w.pc.rec.nano && Torn(LastPage(w'))
  {
    LastStored(w, pageSize);
    hide WInv, WStep, Torn;
    var es := [WriterStore(0), WriterDiscard];
    assert es[..1] == [WriterStore(0)] && [WriterStore(0)][..0] == [];
    assert WRun(w, pageSize, [WriterStore(0)]) == WStep(w, pageSize, 0);
  }
}
