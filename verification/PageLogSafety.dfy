/** Safety of the paged frame log over all interleavings of the writer's stores with a reader's loads. */
module PageLogSafety {
  import opened Bytes
  import opened PageLog

  // ---------------------------------------------------------------- laying out frames

  lemma OffSnoc(fs: seq<Rec>, r: Rec)
    ensures Off(fs + [r]) == Off(fs) + FRAME_HEAD_SIZE + |r.data|
  {
    assert (fs + [r])[..|fs|] == fs;
  }

  lemma {:induction false} OffMonotone(fs: seq<Rec>, i: nat)
    requires i < |fs|
    ensures Off(fs[..i]) + FRAME_HEAD_SIZE + |fs[i].data| <= Off(fs)
  {
    if i + 1 < |fs| {
      OffMonotone(fs[..|fs| - 1], i);
      assert fs[..|fs| - 1][..i] == fs[..i];
    }
  }

  lemma {:induction false} OffInjective(fs: seq<Rec>, i: nat)
    requires i <= |fs|
    ensures Off(fs[..i]) <= Off(fs) && (Off(fs[..i]) == Off(fs) ==> i == |fs|)
  {
    if i < |fs| {
      OffMonotone(fs, i);
    } else {
      assert fs[..i] == fs;
    }
  }

  lemma SliceKept(b: seq<byte>, b': seq<byte>, limit: nat, i: nat, j: nat)
    requires limit <= |b| && limit <= |b'| && b[..limit] == b'[..limit] && i <= j <= limit
    ensures b[i..j] == b'[i..j]
  {
    assert b[i..j] == b[..limit][i..j];
    assert b'[i..j] == b'[..limit][i..j];
  }

  /** Bytes before a frame's end are all that the frame depends on. */
  lemma FrameAtKept(b: seq<byte>, b': seq<byte>, o: nat, r: Rec, limit: nat)
    requires |b| == |b'| && limit <= |b| && b[..limit] == b'[..limit]
    requires FrameAt(b, o, r) && o + FRAME_HEAD_SIZE + |r.data| <= limit
    ensures FrameAt(b', o, r)
  {
    SliceKept(b, b', limit, o, o + 4);
    SliceKept(b, b', limit, o + 4, o + 8);
    SliceKept(b, b', limit, o + 8, o + 16);
    SliceKept(b, b', limit, o + FRAME_HEAD_SIZE, o + FRAME_HEAD_SIZE + |r.data|);
  }

  lemma FramesAtKept(b: seq<byte>, b': seq<byte>, fs: seq<Rec>)
    requires |b| == |b'| && Off(fs) <= |b| && b[..Off(fs)] == b'[..Off(fs)] && FramesAt(b, fs)
    ensures FramesAt(b', fs)
  {
    forall i | 0 <= i < |fs| ensures FrameAt(b', Off(fs[..i]), fs[i]) {
      OffMonotone(fs, i);
      FrameAtKept(b, b', Off(fs[..i]), fs[i], Off(fs));
    }
  }

  lemma FramesAtSnoc(b: seq<byte>, fs: seq<Rec>, r: Rec)
    requires FramesAt(b, fs) && FrameAt(b, Off(fs), r)
    ensures FramesAt(b, fs + [r])
  {
    forall i | 0 <= i < |fs| + 1 ensures FrameAt(b, Off((fs + [r])[..i]), (fs + [r])[i]) {
      assert (fs + [r])[..i] == fs[..i];
      if i == |fs| {
        assert fs[..i] == fs;
      }
    }
  }

  // ---------------------------------------------------------------- the writer's guarantee

  /** What the writer may have done to one page between two moments. */
  predicate PageEvolves(pg: Page, fs: seq<Rec>, pg': Page, fs': seq<Rec>) {
    && fs <= fs'
    && (pg.fileSize != 0 ==> pg'.fileSize == pg.fileSize)
    && (Published(pg) ==> Published(pg') && |pg.body| == |pg'.body| && Off(fs) <= |pg.body|
                          && pg.body[..Off(fs)] == pg'.body[..Off(fs)])
    && (Frozen(pg) ==> pg' == pg && fs' == fs)
  }

  /** What the writer may have done to all pages: pages are only appended, frames only added. */
  predicate Evolves(w: Writer, w': Writer) {
    && |w.pages| == |w.log| && |w'.pages| == |w'.log|
    && |w.pages| <= |w'.pages|
    && (forall p | 0 <= p < |w.pages| :: PageEvolves(w.pages[p], w.log[p], w'.pages[p], w'.log[p]))
  }

  /** The facts about a page being filled on which the next store relies. */
  predicate Filling(pg: Page, r: Rec) {
    Published(pg) && pg.status == Writing && Fits(pg, r) && |r.data| < UINT32_LIMIT && r.nano < Pow256(8)
  }

  predicate HasData(pg: Page, r: Rec, k: nat) {
    && k <= |r.data| && pg.tail + FRAME_HEAD_SIZE + |r.data| <= |pg.body|
    && pg.body[pg.tail + FRAME_HEAD_SIZE..pg.tail + FRAME_HEAD_SIZE + k] == r.data[..k]
  }

  predicate HasWord(pg: Page, o: nat, n: nat, v: nat) {
    pg.tail + o + n <= |pg.body| && FromLE(pg.body[pg.tail + o..pg.tail + o + n]) == v
  }

  /** What has been stored of the frame at the tail when the writer stands at pc. */
  predicate FrameProgress(pg: Page, pc: WPc)
    requires InFrame(pc)
  {
    && Filling(pg, pc.rec)
    && match pc
       case Data(mode, r, k) => k < |r.data| && HasData(pg, r, k) && (mode == Prefetch ==> HasWord(pg, 4, 4, |r.data|))
       case Len(mode, r) => mode == Write ==> HasData(pg, r, |r.data|)
       case Magic(r) => HasData(pg, r, |r.data|) && HasWord(pg, 4, 4, |r.data|)
       case Nano(r) => HasData(pg, r, |r.data|) && HasWord(pg, 4, 4, |r.data|) && HasWord(pg, 0, 4, FRAME_HEAD_MAGIC)
       case Last(r) => FrameAt(pg.body, pg.tail, r)
       case Tail(r) => FrameAt(pg.body, pg.tail, r)
  }

  /** What the head of a page holds while the writer creates or closes it. */
  predicate HeadProgress(pg: Page, pc: WPc)
    requires !InFrame(pc) && pc != Idle && !pc.Open?
  {
    if pc.StopNano? || pc.SetFinish? then Published(pg) && pg.status == Writing
    else
      && pg.version == 0
      && (pc.Truncate? ==> pg.fileSize == 0 && pg.status == Writing)
      && (!pc.Truncate? ==> pg.fileSize >= PAGE_HEAD_SIZE + FRAME_HEAD_SIZE)
      && (!pc.Truncate? && !pc.SetWriting? ==> pg.status == Writing)
      && (!pc.Truncate? && !pc.SetWriting? && !pc.SetSize? ==> pg.size == pg.fileSize)
      && (pc.StartNano? || pc.ClearStop? || pc.SetReserved? || pc.SetVersion? ==> pg.tail == PAGE_HEAD_SIZE)
  }

  /** The page on which the writer works is as far as its program counter says. */
  predicate LastProgress(pg: Page, pc: WPc) {
    if pc == Idle then Published(pg) && pg.status == Writing
    else if pc.Open? then Frozen(pg)
    else if InFrame(pc) then FrameProgress(pg, pc)
    else HeadProgress(pg, pc)
  }

  predicate WInv(w: Writer) {
    && DiskOk(w.pages, w.log)
    && if w.pages == [] then w.pc.Open? else LastProgress(LastPage(w), w.pc)
  }

  // ---------------------------------------------------------------- one store, seen on its page

  /** A store changes the bytes it covers and no others. */
  lemma SpliceSlices(body: seq<byte>, o: nat, b: seq<byte>, i: nat, j: nat)
    requires o + |b| <= |body| && i <= j <= |body| && (j <= o || o + |b| <= i)
    ensures Splice(body, o, b)[i..j] == body[i..j] && Splice(body, o, b)[o..o + |b|] == b
  {
  }

  lemma HasDataNext(pg: Page, r: Rec, k: nat)
    requires HasData(pg, r, k) && k < |r.data|
    ensures HasData(pg.(body := Splice(pg.body, pg.tail + FRAME_HEAD_SIZE + k, [r.data[k]])), r, k + 1)
  {
    var o := pg.tail + FRAME_HEAD_SIZE;
    var body' := Splice(pg.body, o + k, [r.data[k]]);
    SpliceSlices(pg.body, o + k, [r.data[k]], o, o + k);
    assert body'[o..o + k + 1] == body'[o..o + k] + body'[o + k..o + k + 1];
    assert r.data[..k + 1] == r.data[..k] + [r.data[k]];
  }

  lemma DataProgress(pg: Page, mode: Mode, r: Rec, k: nat)
    requires FrameProgress(pg, Data(mode, r, k))
    ensures var (pg', pc) := StoreFrame(pg, Data(mode, r, k)); InFrame(pc) && FrameProgress(pg', pc)
  {
    hide HasData, Splice, FrameAt;
    HasDataNext(pg, r, k);
    SpliceSlices(pg.body, pg.tail + FRAME_HEAD_SIZE + k, [r.data[k]], pg.tail + 4, pg.tail + 8);
  }

  lemma LenProgress(pg: Page, mode: Mode, r: Rec)
    requires FrameProgress(pg, Len(mode, r)) && pg.tail + FRAME_HEAD_SIZE + |r.data| <= |pg.body|
    ensures var (pg', pc) := StoreFrame(pg, Len(mode, r)); FrameProgress(pg', pc)
  {
    hide Splice, FrameAt, LE, FromLE;
    var o := pg.tail + FRAME_HEAD_SIZE;
    SpliceSlices(pg.body, pg.tail + 4, LE(|r.data|, 4), o, o + |r.data|);
    PowerValues();
    LERoundTrip(|r.data|, 4);
    assert r.data[..0] == [];
  }

  lemma MagicProgress(pg: Page, r: Rec)
    requires FrameProgress(pg, Magic(r))
    ensures var (pg', pc) := StoreFrame(pg, Magic(r)); FrameProgress(pg', pc)
  {
    hide Splice, FrameAt, LE, FromLE;
    var o := pg.tail + FRAME_HEAD_SIZE;
    SpliceSlices(pg.body, pg.tail, LE(FRAME_HEAD_MAGIC, 4), o, o + |r.data|);
    SpliceSlices(pg.body, pg.tail, LE(FRAME_HEAD_MAGIC, 4), pg.tail + 4, pg.tail + 8);
    PowerValues();
    LERoundTrip(FRAME_HEAD_MAGIC, 4);
  }

  lemma NanoProgress(pg: Page, r: Rec)
    requires FrameProgress(pg, Nano(r))
    ensures var (pg', pc) := StoreFrame(pg, Nano(r)); FrameProgress(pg', pc)
  {
    hide Splice, LE, FromLE;
    var o := pg.tail + FRAME_HEAD_SIZE;
    SpliceSlices(pg.body, pg.tail + 8, LE(r.nano, 8), o, o + |r.data|);
    SpliceSlices(pg.body, pg.tail + 8, LE(r.nano, 8), pg.tail, pg.tail + 4);
    SpliceSlices(pg.body, pg.tail + 8, LE(r.nano, 8), pg.tail + 4, pg.tail + 8);
    LERoundTrip(r.nano, 8);
    assert r.data[..|r.data|] == r.data;
  }

  /** Every store of a frame brings it one step closer. */
  lemma StoreFrameProgress(pg: Page, pc: WPc)
    requires InFrame(pc) && FrameProgress(pg, pc) && |pg.body| == pg.fileSize && pg.tail >= PAGE_HEAD_SIZE
    ensures !pc.Tail? ==> InFrame(StoreFrame(pg, pc).1) && FrameProgress(StoreFrame(pg, pc).0, StoreFrame(pg, pc).1)
  {
    match pc {
      case Data(mode, r, k) =>
        DataProgress(pg, mode, r, k);
      case Len(mode, r) => LenProgress(pg, mode, r);
      case Magic(r) => MagicProgress(pg, r);
      case Nano(r) => NanoProgress(pg, r);
      case Last(_) =>
      case Tail(_) =>
    }
  }

  /** Between two moments only bytes from the tail on, and last_nano, have changed. */
  predicate OnlyPastTail(pg: Page, pg': Page) {
    && pg'.(body := pg.body, lastNano := pg.lastNano) == pg
    && |pg'.body| == |pg.body| && pg.tail <= |pg.body|
    && pg'.body[..pg.tail] == pg.body[..pg.tail]
  }

  lemma StoreFramePastTail(pg: Page, pc: WPc)
    requires InFrame(pc) && !pc.Tail? && pg.tail + FRAME_HEAD_SIZE + |pc.rec.data| <= |pg.body|
    ensures OnlyPastTail(pg, StoreFrame(pg, pc).0)
  {
  }

  /** A store past the tail of a published page leaves every committed frame in place. */
  lemma PastTailOk(pg: Page, fs: seq<Rec>, pg': Page)
    requires PageOk(pg, fs) && Published(pg) && pg.status == Writing && OnlyPastTail(pg, pg')
    ensures PageOk(pg', fs) && PageEvolves(pg, fs, pg', fs)
  {
    FramesAtKept(pg.body, pg'.body, fs);
  }

  /** No store of a frame touches a committed frame. */
  lemma StoreFrameKeeps(pg: Page, fs: seq<Rec>, pc: WPc)
    requires PageOk(pg, fs) && InFrame(pc) && Filling(pg, pc.rec) && !pc.Tail?
    ensures PageOk(StoreFrame(pg, pc).0, fs) && PageEvolves(pg, fs, StoreFrame(pg, pc).0, fs)
  {
    StoreFramePastTail(pg, pc);
    PastTailOk(pg, fs, StoreFrame(pg, pc).0);
  }

  /** The store of `tail` commits the whole frame. */
  lemma StoreTailCommits(pg: Page, fs: seq<Rec>, r: Rec)
    requires PageOk(pg, fs) && FrameProgress(pg, Tail(r))
    ensures var pg' := StoreFrame(pg, Tail(r)).0;
            PageOk(pg', fs + [r]) && PageEvolves(pg, fs, pg', fs + [r]) && LastProgress(pg', Idle)
  {
    OffSnoc(fs, r);
    FramesAtSnoc(pg.body, fs, r);
  }

  lemma BeginOk(pg: Page, mode: Mode, r: Rec)
    requires Filling(pg, r) && |pg.body| == pg.fileSize
    ensures mode == Write ==> LastProgress(pg, AfterData(Write, r, 0))
    ensures LastProgress(pg, Len(Prefetch, r))
  {
    assert r.data[..0] == [];
  }

  lemma StoreHeadOk(pg: Page, fs: seq<Rec>, pc: WPc, pageSize: nat, now: int)
    requires PageOk(pg, fs) && pageSize >= PAGE_HEAD_SIZE + FRAME_HEAD_SIZE
    requires !InFrame(pc) && pc != Idle && !pc.Open? && HeadProgress(pg, pc)
    ensures var (pg', pc') := StoreHead(pg, pc, pageSize, now);
            PageOk(pg', fs) && PageEvolves(pg, fs, pg', fs) && LastProgress(pg', pc')
  {
    var (pg', _) := StoreHead(pg, pc, pageSize, now);
    assert pg'.body == pg.body || pc.Truncate?;
  }

  // ---------------------------------------------------------------- one store, seen on the disk

  /** Replacing the last page by one that is still right keeps the disk right. */
  lemma OnLastDisk(w: Writer, pg: Page, fs: seq<Rec>, pc: WPc)
    requires DiskOk(w.pages, w.log) && w.pages != []
    requires PageOk(pg, fs)
    ensures DiskOk(OnLast(w, pg, fs, pc).pages, OnLast(w, pg, fs, pc).log)
  {
    hide PageOk, Published;
  }

  lemma OnLastEvolves(w: Writer, pg: Page, fs: seq<Rec>, pc: WPc)
    requires DiskOk(w.pages, w.log) && w.pages != []
    requires PageEvolves(LastPage(w), LastLog(w), pg, fs)
    ensures Evolves(w, OnLast(w, pg, fs, pc))
  {
    hide PageOk, PageEvolves, Published;
    var w' := OnLast(w, pg, fs, pc);
    forall p | 0 <= p < |w.pages| - 1 ensures PageEvolves(w.pages[p], w.log[p], w'.pages[p], w'.log[p]) {
      FrozenEvolves(w.pages[p], w.log[p]);
    }
  }

  lemma FrozenEvolves(pg: Page, fs: seq<Rec>)
    requires PageOk(pg, fs)
    ensures PageEvolves(pg, fs, pg, fs)
  {
    hide FramesAt;
  }

  /** A store that is right for the last page is right for the disk. */
  lemma OnLastGuarantee(w: Writer, pg: Page, added: seq<Rec>, pc: WPc)
    requires WInv(w) && w.pages != [] && LastProgress(pg, pc)
    requires PageOk(pg, LastLog(w) + added) && PageEvolves(LastPage(w), LastLog(w), pg, LastLog(w) + added)
    ensures var w' := OnLast(w, pg, LastLog(w) + added, pc);
            WInv(w') && Evolves(w, w') && Flat(w'.log) == Flat(w.log) + added
  {
    hide PageOk, PageEvolves, Evolves, LastProgress, Flat;
    OnLastDisk(w, pg, LastLog(w) + added, pc);
    OnLastEvolves(w, pg, LastLog(w) + added, pc);
    FlatOnLast(w.log, added);
  }

  lemma SameDisk(w: Writer, w': Writer)
    requires DiskOk(w.pages, w.log) && w'.pages == w.pages && w'.log == w.log
    ensures Evolves(w, w')
  {
    hide PageOk, PageEvolves;
    forall p | 0 <= p < |w.pages| ensures PageEvolves(w.pages[p], w.log[p], w'.pages[p], w'.log[p]) {
      FrozenEvolves(w.pages[p], w.log[p]);
    }
  }

  /** Creating the file of the next page. */
  lemma CreateFile(w: Writer)
    requires WInv(w) && w.pc.Open?
    ensures var w' := Writer(w.pages + [NewFile], w.log + [[]], Truncate); WInv(w') && Evolves(w, w')
  {
    hide FramesAt, PageEvolves;
    var w' := Writer(w.pages + [NewFile], w.log + [[]], Truncate);
    forall p | 0 <= p < |w.pages|
      ensures Frozen(w.pages[p]) && PageEvolves(w.pages[p], w.log[p], w'.pages[p], w'.log[p])
    {
      FrozenEvolves(w.pages[p], w.log[p]);
    }
    assert PageOk(NewFile, []);
  }

  lemma FlatOnLast(log: seq<seq<Rec>>, fs: seq<Rec>)
    requires log != []
    ensures Flat(log[|log| - 1 := log[|log| - 1] + fs]) == Flat(log) + fs
  {
    var log' := log[|log| - 1 := log[|log| - 1] + fs];
    assert log'[..|log| - 1] == log[..|log| - 1];
    assert Flat(log[..|log| - 1]) + (log[|log| - 1] + fs) == Flat(log) + fs;
  }

  lemma FrameGuarantee(w: Writer)
    requires WInv(w) && w.pages != [] && InFrame(w.pc)
    ensures var w' := WStep(w, 0, 0); WInv(w') && Evolves(w, w')
    ensures Flat(WStep(w, 0, 0).log) == if w.pc.Tail? then Flat(w.log) + [w.pc.rec] else Flat(w.log)
  {
    var pg, fs := LastPage(w), LastLog(w);
    assert PageOk(pg, fs);
    if w.pc.Tail? {
      StoreTailCommits(pg, fs, w.pc.rec);
      OnLastGuarantee(w, StoreFrame(pg, w.pc).0, [w.pc.rec], Idle);
    } else {
      StoreFrameProgress(pg, w.pc);
      StoreFrameKeeps(pg, fs, w.pc);
      assert fs + [] == fs;
      OnLastGuarantee(w, StoreFrame(pg, w.pc).0, [], StoreFrame(pg, w.pc).1);
    }
  }

  lemma HeadGuarantee(w: Writer, pageSize: nat, now: int)
    requires WInv(w) && w.pages != [] && pageSize >= PAGE_HEAD_SIZE + FRAME_HEAD_SIZE
    requires w.pc != Idle && !w.pc.Open? && !InFrame(w.pc)
    ensures var w' := WStep(w, pageSize, now); WInv(w') && Evolves(w, w') && Flat(w'.log) == Flat(w.log)
  {
    assert PageOk(LastPage(w), LastLog(w));
    StoreHeadOk(LastPage(w), LastLog(w), w.pc, pageSize, now);
    assert LastLog(w) + [] == LastLog(w);
    OnLastGuarantee(w, StoreHead(LastPage(w), w.pc, pageSize, now).0, [], StoreHead(LastPage(w), w.pc, pageSize, now).1);
  }

  /** The writer's guarantee: every single store keeps its invariant, keeps every committed frame and
      every closed page, and commits nothing, except that the store of `tail` commits its frame. */
  lemma WriterGuarantee(w: Writer, pageSize: nat, now: int)
    requires WInv(w) && pageSize >= PAGE_HEAD_SIZE + FRAME_HEAD_SIZE
    ensures var w' := WStep(w, pageSize, now); WInv(w') && Evolves(w, w')
    ensures Flat(WStep(w, pageSize, now).log) == if w.pc.Tail? then Flat(w.log) + [w.pc.rec] else Flat(w.log)
  {
    if w.pc == Idle {
      SameDisk(w, w);
    } else if w.pc.Open? {
      CreateFile(w);
      assert (w.log + [[]])[..|w.log|] == w.log;
    } else if InFrame(w.pc) {
      FrameGuarantee(w);
      assert WStep(w, pageSize, now) == WStep(w, 0, 0);
    } else {
      HeadGuarantee(w, pageSize, now);
    }
  }

  lemma CallOk(w: Writer, mode: Mode, r: Rec)
    requires WInv(w)
    ensures WInv(Call(w, mode, r)) && Evolves(w, Call(w, mode, r)) && Call(w, mode, r).log == w.log
  {
    hide PageEvolves, FramesAt, FrameAt, HasData, HasWord;
    SameDisk(w, Call(w, mode, r));
    if w.pages != [] && w.pc == Idle && Fits(LastPage(w), r) && Call(w, mode, r) != w {
      assert PageOk(LastPage(w), LastLog(w));
      BeginOk(LastPage(w), mode, r);
    }
  }

  lemma DiscardOk(w: Writer)
    requires WInv(w)
    ensures WInv(Discard(w)) && Evolves(w, Discard(w)) && Discard(w).log == w.log
  {
    hide PageEvolves, FramesAt, FrameAt, HasData, HasWord;
    SameDisk(w, Discard(w));
  }
}
