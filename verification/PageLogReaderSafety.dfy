/** A reader that runs beside the writer sees a contiguous run of the committed frames. */
module PageLogReaderSafety {
  import opened Bytes
  import opened PageLog
  import opened PageLogSafety

  /** How many committed frames precede frame i of page p. */
  function Pos(log: seq<seq<Rec>>, p: nat, i: nat): nat
    requires p <= |log|
  {
    |Flat(log[..p])| + i
  }

  lemma {:induction false} FlatTake(log: seq<seq<Rec>>, p: nat)
    requires p <= |log|
    ensures Flat(log[..p]) <= Flat(log)
  {
    if p == |log| {
      assert log[..p] == log;
    } else {
      FlatTake(log[..|log| - 1], p);
      assert log[..|log| - 1][..p] == log[..p];
    }
  }

  lemma FlatNext(log: seq<seq<Rec>>, p: nat)
    requires p < |log|
    ensures Flat(log[..p + 1]) == Flat(log[..p]) + log[p] && Flat(log[..p]) + log[p] <= Flat(log)
  {
    assert log[..p + 1][..p] == log[..p];
    FlatTake(log, p + 1);
  }

  lemma FlatAt(log: seq<seq<Rec>>, p: nat, i: nat)
    requires p < |log| && i < |log[p]|
    ensures Pos(log, p, i) < |Flat(log)| && Flat(log)[Pos(log, p, i)] == log[p][i]
  {
    FlatNext(log, p);
    assert (Flat(log[..p]) + log[p])[Pos(log, p, i)] == log[p][i];
  }

  lemma FlatGrows(log: seq<seq<Rec>>, log': seq<seq<Rec>>)
    requires log != [] && |log| <= |log'| && log[..|log| - 1] == log'[..|log| - 1]
    requires log[|log| - 1] <= log'[|log| - 1]
    ensures Flat(log) <= Flat(log')
  {
    var n := |log| - 1;
    FlatNext(log', n);
  }

  /** Committed frames stay committed, in the same order: the log only grows at its end. */
  lemma CommittedGrows(w: Writer, w': Writer)
    requires DiskOk(w.pages, w.log) && Evolves(w, w')
    ensures Flat(w.log) <= Flat(w'.log)
  {
    if w.log != [] {
      var n := |w.log| - 1;
      forall p | 0 <= p <= n ensures w.log[p] <= w'.log[p] && (p < n ==> w.log[p] == w'.log[p]) {
        assert PageEvolves(w.pages[p], w.log[p], w'.pages[p], w'.log[p]);
      }
      FlatGrows(w.log, w'.log);
    }
  }

  /** Every page before p is closed, so that p is where the log goes on after those pages. */
  predicate Anchored(w: Writer, p: nat) {
    p <= |w.pages| && forall j | 0 <= j < p :: Frozen(w.pages[j])
  }

  lemma AnchoredKept(w: Writer, w': Writer, p: nat)
    requires |w.pages| == |w.log| && Evolves(w, w') && Anchored(w, p)
    ensures Anchored(w', p) && w.log[..p] == w'.log[..p]
  {
    forall j | 0 <= j < p ensures w'.log[j] == w.log[j] && w'.pages[j] == w.pages[j] {
      assert PageEvolves(w.pages[j], w.log[j], w'.pages[j], w'.log[j]);
    }
  }

  /** The reader stands before frame idx of an open page. */
  predicate OnPage(w: Writer, r: Reader) {
    && r.open && |w.pages| == |w.log| && r.page < |w.pages| && Published(w.pages[r.page])
    && r.idx <= |w.log[r.page]| && r.cursor == Off(w.log[r.page][..r.idx])
  }

  predicate AtFrame(w: Writer, r: Reader) {
    OnPage(w, r) && r.idx < |w.log[r.page]|
  }

  predicate RPcOk(w: Writer, r: Reader) {
    match r.pc
    case Returned => r.open ==> OnPage(w, r)
    case TryOpen => !r.open
    case Stat => !r.open && r.page < |w.pages|
    case CheckVersion(sz) => !r.open && r.page < |w.pages| && sz == w.pages[r.page].fileSize >= PAGE_HEAD_SIZE
    case CheckSize(sz) => !r.open && r.page < |w.pages| && sz == w.pages[r.page].fileSize && Published(w.pages[r.page])
    case LoadStatus => OnPage(w, r)
    case LoadTail(st) => OnPage(w, r) && (st == Finish ==> Frozen(w.pages[r.page]))
    case BadFormat => false
    case _ => AtFrame(w, r) && LoadedSoFar(r.pc, w.log[r.page][r.idx])
  }

  /** What has been loaded of a frame agrees with the frame. */
  predicate LoadedSoFar(pc: RPc, rec: Rec) {
    match pc
    case LoadNano(len) => len == |rec.data|
    case LoadByte(len, nano, got) => len == |rec.data| && nano == rec.nano && got <= rec.data
    case _ => true
  }

  /** What has been delivered is what was committed from the reader's first position up to where it stands. */
  predicate Delivered(w: Writer, r: Reader) {
    |w.pages| == |w.log| &&
    if Anchored(w, r.page0) then
      && Anchored(w, r.page)
      && Pos(w.log, r.page0, r.idx0) <= Pos(w.log, r.page, r.idx) <= |Flat(w.log)|
      && r.out == Flat(w.log)[Pos(w.log, r.page0, r.idx0)..Pos(w.log, r.page, r.idx)]
    else r.page == r.page0 && r.idx == 0 && r.idx0 == 0 && !r.open && r.out == []
  }

  predicate RInv(w: Writer, r: Reader) {
    Delivered(w, r) && RPcOk(w, r) && (!r.open ==> r.idx == 0)
  }

  // ---------------------------------------------------------------- the writer's stores do not disturb the reader

  lemma OnPageKept(w: Writer, w': Writer, r: Reader)
    requires Evolves(w, w') && OnPage(w, r)
    ensures OnPage(w', r) && w.log[r.page] <= w'.log[r.page]
  {
    var p := r.page;
    assert PageEvolves(w.pages[p], w.log[p], w'.pages[p], w'.log[p]);
    assert w'.log[p][..r.idx] == w.log[p][..r.idx];
  }

  lemma RPcOkKept(w: Writer, w': Writer, r: Reader)
    requires |w.pages| == |w.log| && Evolves(w, w') && RPcOk(w, r)
    ensures RPcOk(w', r)
  {
    if r.open {
      OnPageKept(w, w', r);
    }
    if r.page < |w.pages| {
      assert PageEvolves(w.pages[r.page], w.log[r.page], w'.pages[r.page], w'.log[r.page]);
    }
  }

  lemma PosKept(w: Writer, w': Writer, p: nat, i: nat)
    requires |w.pages| == |w.log| && Evolves(w, w') && Anchored(w, p)
    ensures Anchored(w', p) && Pos(w'.log, p, i) == Pos(w.log, p, i)
  {
    AnchoredKept(w, w', p);
  }

  lemma DeliveredKept(w: Writer, w': Writer, r: Reader)
    requires DiskOk(w.pages, w.log) && Evolves(w, w') && Delivered(w, r)
    ensures Delivered(w', r)
  {
    hide Flat, PageEvolves, PageOk;
    CommittedGrows(w, w');
    if Anchored(w, r.page0) {
      PosKept(w, w', r.page0, r.idx0);
      PosKept(w, w', r.page, r.idx);
    } else if Anchored(w', r.page0) {
      FlatTake(w'.log, r.page0);
    }
  }

  lemma ReaderKept(w: Writer, w': Writer, r: Reader)
    requires DiskOk(w.pages, w.log) && Evolves(w, w') && RInv(w, r)
    ensures RInv(w', r)
  {
    hide RPcOk, Evolves, DiskOk;
    DeliveredKept(w, w', r);
    RPcOkKept(w, w', r);
  }

  // ---------------------------------------------------------------- the reader's loads

  lemma OpenPageAnchored(w: Writer, p: nat)
    requires DiskOk(w.pages, w.log) && p < |w.pages|
    ensures Anchored(w, p)
  {
  }

  /** Opening a page, or learning more about the one that is open, delivers nothing. */
  lemma SamePosition(w: Writer, r: Reader, r': Reader)
    requires DiskOk(w.pages, w.log) && Delivered(w, r)
    requires r'.page == r.page && r'.idx == r.idx && r'.page0 == r.page0 && r'.idx0 == r.idx0 && r'.out == r.out
    requires r'.open ==> r.page < |w.pages|
    ensures Delivered(w, r')
  {
    if r.page < |w.pages| {
      OpenPageAnchored(w, r.page);
    }
  }

  lemma CallKept(w: Writer, r: Reader)
    requires DiskOk(w.pages, w.log) && RInv(w, r)
    ensures RInv(w, ReadCall(r))
  {
    hide Flat, FrameAt, FramesAt, PageOk, DiskOk;
    assert Delivered(w, ReadCall(r));
  }

  lemma CommittedFrame(w: Writer, r: Reader)
    requires DiskOk(w.pages, w.log) && AtFrame(w, r)
    ensures FrameAt(w.pages[r.page].body, r.cursor, w.log[r.page][r.idx])
  {
    assert PageOk(w.pages[r.page], w.log[r.page]);
  }

  lemma ReaderOpens(w: Writer, r: Reader)
    requires DiskOk(w.pages, w.log) && RInv(w, r)
    requires r.pc.TryOpen? || r.pc.Stat? || r.pc.CheckVersion? || r.pc.CheckSize?
    ensures RPcOk(w, RStep(w.pages, r))
  {
    if r.page < |w.pages| {
      assert PageOk(w.pages[r.page], w.log[r.page]);
      assert w.log[r.page][..0] == [];
    }
  }

  /** The cursor is before the tail exactly when a committed frame is left on the page. */
  lemma CursorBeforeTail(w: Writer, r: Reader)
    requires DiskOk(w.pages, w.log) && OnPage(w, r)
    ensures r.cursor < w.pages[r.page].tail <==> AtFrame(w, r)
  {
    assert PageOk(w.pages[r.page], w.log[r.page]);
    OffInjective(w.log[r.page], r.idx);
    if !AtFrame(w, r) {
      assert w.log[r.page][..r.idx] == w.log[r.page];
    }
  }

  /** The reader leaves a page only after its last frame: FINISH was seen before the tail. */
  lemma ReaderHops(w: Writer, r: Reader)
    requires DiskOk(w.pages, w.log) && RInv(w, r) && r.pc == LoadTail(Finish) && r.cursor >= w.pages[r.page].tail
    ensures RInv(w, RStep(w.pages, r))
  {
    hide PageOk, Flat, FrameAt, FramesAt;
    CursorBeforeTail(w, r);
    OpenPageAnchored(w, r.page);
    FlatNext(w.log, r.page);
    assert Pos(w.log, r.page, r.idx) == Pos(w.log, r.page + 1, 0);
    assert Frozen(w.pages[r.page]);
    assert Anchored(w, r.page + 1);
    if !Anchored(w, r.page0) {
      assert false;
    }
  }

  lemma LoadFrameOk(body: seq<byte>, r: Reader, rec: Rec)
    requires FrameAt(body, r.cursor, rec) && InLoad(r.pc) && LoadedSoFar(r.pc, rec)
    requires !(r.pc.LoadByte? && |r.pc.got| == r.pc.len)
    ensures var r' := LoadFrame(body, r); r' == r.(pc := r'.pc) && InLoad(r'.pc) && LoadedSoFar(r'.pc, rec)
  {
    if r.pc.LoadByte? {
      NextByte(body, r.cursor, rec, |r.pc.got|);
    }
  }

  lemma NextByte(body: seq<byte>, o: nat, rec: Rec, k: nat)
    requires FrameAt(body, o, rec) && k < |rec.data|
    ensures body[o + FRAME_HEAD_SIZE + k] == rec.data[k] && rec.data[..k] + [rec.data[k]] == rec.data[..k + 1]
  {
    assert body[o + FRAME_HEAD_SIZE..o + FRAME_HEAD_SIZE + |rec.data|][k] == rec.data[k];
  }

  lemma NextOffset(fs: seq<Rec>, i: nat)
    requires i < |fs|
    ensures Off(fs[..i + 1]) == Off(fs[..i]) + FRAME_HEAD_SIZE + |fs[i].data|
  {
    OffSnoc(fs[..i], fs[i]);
    assert fs[..i] + [fs[i]] == fs[..i + 1];
  }

  lemma SliceSnoc<T>(s: seq<T>, a: nat, b: nat)
    requires a <= b < |s|
    ensures s[a..b] + [s[b]] == s[a..b + 1]
  {
  }

  /** Where the reader stands on an open page, its first page is behind it or the same. */
  lemma FirstPageAnchored(w: Writer, r: Reader)
    requires Delivered(w, r) && r.open
    ensures Anchored(w, r.page0)
  {
  }

  lemma FrameDelivered(w: Writer, r: Reader, r': Reader)
    requires DiskOk(w.pages, w.log) && Delivered(w, r) && AtFrame(w, r)
    requires r' == r.(pc := r'.pc, cursor := r'.cursor, idx := r.idx + 1, out := r.out + [w.log[r.page][r.idx]])
    ensures Delivered(w, r')
  {
    hide Flat, Off, FrameAt, FramesAt, PageOk, Evolves, Anchored, DiskOk;
    FlatAt(w.log, r.page, r.idx);
    OpenPageAnchored(w, r.page);
    FirstPageAnchored(w, r);
    SliceSnoc(Flat(w.log), Pos(w.log, r.page0, r.idx0), Pos(w.log, r.page, r.idx));
  }

  /** The frame returned is the next committed one. */
  lemma ReaderReturns(w: Writer, r: Reader)
    requires DiskOk(w.pages, w.log) && AtFrame(w, r)
    requires r.pc.LoadByte? && |r.pc.got| == r.pc.len && LoadedSoFar(r.pc, w.log[r.page][r.idx])
    ensures var rec := w.log[r.page][r.idx];
            RStep(w.pages, r) == r.(pc := Returned, cursor := r.cursor + FRAME_HEAD_SIZE + |rec.data|,
                                    idx := r.idx + 1, out := r.out + [rec])
  {
    CommittedFrame(w, r);
    assert Rec(r.pc.nano, r.pc.got) == w.log[r.page][r.idx];
  }

  lemma ReaderReturnsOk(w: Writer, r: Reader)
    requires DiskOk(w.pages, w.log) && RInv(w, r) && r.pc.LoadByte? && |r.pc.got| == r.pc.len
    ensures RInv(w, RStep(w.pages, r))
  {
    hide Flat, Off, FrameAt, FramesAt, PageOk, Evolves, Anchored, DiskOk, Delivered, RStep;
    ReaderReturns(w, r);
    NextOffset(w.log[r.page], r.idx);
    FrameDelivered(w, r, RStep(w.pages, r));
  }

  /** The reader's half: each single load keeps the reader's invariant. */
  lemma ReaderStepOk(w: Writer, r: Reader)
    requires DiskOk(w.pages, w.log) && RInv(w, r)
    ensures RInv(w, RStep(w.pages, r))
  {
    if r.pc.LoadByte? && |r.pc.got| == r.pc.len {
      ReaderReturnsOk(w, r);
    } else if r.pc == LoadTail(Finish) && r.cursor >= w.pages[r.page].tail {
      ReaderHops(w, r);
    } else {
      ReaderLooks(w, r);
    }
  }

  lemma ReaderLooks(w: Writer, r: Reader)
    requires DiskOk(w.pages, w.log) && RInv(w, r)
    requires !(r.pc.LoadByte? && |r.pc.got| == r.pc.len)
    requires !(r.pc == LoadTail(Finish) && r.cursor >= w.pages[r.page].tail)
    ensures RInv(w, RStep(w.pages, r))
  {
    hide Delivered, Flat, FrameAt, FramesAt, LoadFrame, PageOk;
    if r.pc.TryOpen? || r.pc.Stat? || r.pc.CheckVersion? || r.pc.CheckSize? {
      ReaderOpens(w, r);
      SamePosition(w, r, RStep(w.pages, r));
    } else if InLoad(r.pc) {
      ReaderLoads(w, r);
    } else {
      if r.pc.LoadTail? {
        CursorBeforeTail(w, r);
      }
      SamePosition(w, r, RStep(w.pages, r));
    }
  }

  lemma ReaderLoads(w: Writer, r: Reader)
    requires DiskOk(w.pages, w.log) && RInv(w, r) && InLoad(r.pc) && !(r.pc.LoadByte? && |r.pc.got| == r.pc.len)
    ensures RInv(w, RStep(w.pages, r))
  {
    hide Flat, Off, FrameAt, FramesAt, PageOk, Evolves, Anchored, DiskOk, Delivered, LoadFrame;
    CommittedFrame(w, r);
    LoadFrameOk(w.pages[r.page].body, r, w.log[r.page][r.idx]);
    SamePosition(w, r, RStep(w.pages, r));
  }

  // ---------------------------------------------------------------- whole runs

  predicate Inv(s: Sys) {
    WInv(s.w) && RInv(s.w, s.r)
  }

  lemma StartInv(s: Sys)
    requires Start(s)
    ensures Inv(s)
  {
    hide FrameAt, FramesAt;
    if s.r.open {
      FlatNext(s.w.log, s.r.page);
    } else if Anchored(s.w, s.r.page0) {
      FlatTake(s.w.log, s.r.page0);
    }
  }

  lemma StepInv(s: Sys, pageSize: nat, e: Event)
    requires Inv(s) && pageSize >= PAGE_HEAD_SIZE + FRAME_HEAD_SIZE
    ensures Inv(Step(s, pageSize, e)) && Evolves(s.w, Step(s, pageSize, e).w)
  {
    hide RStep, WStep, Call, Discard, ReadCall, LastProgress, DiskOk, RPcOk, Delivered, Evolves;
    match e {
      case WriterCall(mode, rec) => CallOk(s.w, mode, rec); ReaderKept(s.w, Call(s.w, mode, rec), s.r);
      case WriterDiscard => DiscardOk(s.w); ReaderKept(s.w, Discard(s.w), s.r);
      case WriterStore(now) =>
        WriterGuarantee(s.w, pageSize, now);
        ReaderKept(s.w, WStep(s.w, pageSize, now), s.r);
      case ReaderCall => CallKept(s.w, s.r); SameDisk(s.w, s.w);
      case ReaderLoad => ReaderStepOk(s.w, s.r); SameDisk(s.w, s.w);
    }
  }

  lemma {:induction false} RunInv(s: Sys, pageSize: nat, es: seq<Event>)
    requires Start(s) && pageSize >= PAGE_HEAD_SIZE + FRAME_HEAD_SIZE
    ensures Inv(Run(s, pageSize, es))
  {
    if es == [] {
      StartInv(s);
    } else {
      RunInv(s, pageSize, es[..|es| - 1]);
      StepInv(Run(s, pageSize, es[..|es| - 1]), pageSize, es[|es| - 1]);
    }
  }

  /** `out` is the stretch of the committed frames that begins at frame idx0 of page page0. */
  predicate StretchFrom(log: seq<seq<Rec>>, page0: nat, idx0: nat, out: seq<Rec>) {
    out != [] ==>
      page0 <= |log| && Pos(log, page0, idx0) + |out| <= |Flat(log)|
      && out == Flat(log)[Pos(log, page0, idx0)..Pos(log, page0, idx0) + |out|]
  }

  lemma DeliveredStretch(w: Writer, r: Reader)
    requires Delivered(w, r)
    ensures StretchFrom(w.log, r.page0, r.idx0, r.out)
  {
  }

  /** Safety over every interleaving: what the reader has been given is one contiguous stretch of the
      committed frames, beginning where it was positioned, and no frame is ever found badly formatted. */
  lemma ContiguousDelivery(s: Sys, pageSize: nat, es: seq<Event>)
    requires Start(s) && pageSize >= PAGE_HEAD_SIZE + FRAME_HEAD_SIZE
    ensures Run(s, pageSize, es).r.pc != BadFormat
    ensures StretchFrom(Run(s, pageSize, es).w.log, s.r.page0, s.r.idx0, Run(s, pageSize, es).r.out)
  {
    RunInv(s, pageSize, es);
    RunStart(s, pageSize, es);
    DeliveredStretch(Run(s, pageSize, es).w, Run(s, pageSize, es).r);
  }

  lemma ReaderStart(pages: seq<Page>, r: Reader)
    ensures RStep(pages, r).page0 == r.page0 && RStep(pages, r).idx0 == r.idx0
  {
  }

  lemma {:induction false} RunStart(s: Sys, pageSize: nat, es: seq<Event>)
    ensures Run(s, pageSize, es).r.page0 == s.r.page0 && Run(s, pageSize, es).r.idx0 == s.r.idx0
  {
    if es != [] {
      var t := Run(s, pageSize, es[..|es| - 1]);
      RunStart(s, pageSize, es[..|es| - 1]);
      ReaderStart(t.w.pages, t.r);
      assert Step(t, pageSize, es[|es| - 1]).r in {t.r, ReadCall(t.r), RStep(t.w.pages, t.r)};
    }
  }

  /** What has been committed stays committed, at the same place in the log, and so does what was read. */
  lemma {:induction false} CommittedForever(s: Sys, pageSize: nat, es: seq<Event>, more: seq<Event>)
    requires Start(s) && pageSize >= PAGE_HEAD_SIZE + FRAME_HEAD_SIZE
    ensures Flat(Run(s, pageSize, es).w.log) <= Flat(Run(s, pageSize, es + more).w.log)
  {
    hide Flat, DiskOk, LastProgress, RInv, Step, Start, Evolves;
    if more == [] {
      assert es + more == es;
    } else {
      var before := es + more[..|more| - 1];
      CommittedForever(s, pageSize, es, more[..|more| - 1]);
      assert (es + more)[..|es + more| - 1] == before;
      RunInv(s, pageSize, before);
      var t := Run(s, pageSize, before);
      StepInv(t, pageSize, more[|more| - 1]);
      CommittedGrows(t.w, Step(t, pageSize, more[|more| - 1]).w);
    }
  }
}
