/** The writer as the program it is: methods that perform, one assignment at a time, the stores of the
    machine of PageLog, and what each call achieves. */
module PageLogWriter {
  import opened Bytes
  import opened PageLog
  import opened PageLogSafety

  // ---------------------------------------------------------------- the writer alone

  lemma WRunNext(w: Writer, pageSize: nat, es: seq<Event>, e: Event)
    ensures WRun(w, pageSize, es + [e]) == WRun(WRun(w, pageSize, es), pageSize, [e])
  {
    assert (es + [e])[..|es|] == es;
    assert [e][..0] == [];
  }

  lemma PageEvolvesTransitive(a: Page, fa: seq<Rec>, b: Page, fb: seq<Rec>, c: Page, fc: seq<Rec>)
    requires PageEvolves(a, fa, b, fb) && PageEvolves(b, fb, c, fc)
    ensures PageEvolves(a, fa, c, fc)
  {
    if Published(a) {
      OffInjective(fb, |fa|);
      assert fb[..|fa|] == fa;
      assert b.body[..Off(fa)] == b.body[..Off(fb)][..Off(fa)] == c.body[..Off(fa)];
    }
  }

  lemma EvolvesTransitive(a: Writer, b: Writer, c: Writer)
    requires Evolves(a, b) && Evolves(b, c)
    ensures Evolves(a, c)
  {
    forall p | 0 <= p < |a.pages| ensures PageEvolves(a.pages[p], a.log[p], c.pages[p], c.log[p]) {
      PageEvolvesTransitive(a.pages[p], a.log[p], b.pages[p], b.log[p], c.pages[p], c.log[p]);
    }
  }

  lemma WEventOk(w: Writer, pageSize: nat, e: Event)
    requires WInv(w) && pageSize >= PAGE_HEAD_SIZE + FRAME_HEAD_SIZE
    ensures WInv(WRun(w, pageSize, [e])) && Evolves(w, WRun(w, pageSize, [e]))
  {
    assert [e][..0] == [];
    match e {
      case WriterCall(mode, rec) => CallOk(w, mode, rec);
      case WriterDiscard => DiscardOk(w);
      case WriterStore(now) => WriterGuarantee(w, pageSize, now);
      case _ => SameDisk(w, w);
    }
  }

  /** Over any run of the writer, pages are only appended, closed pages are frozen, committed frames
      stay where they are, and frames tile every published page up to its tail. */
  lemma {:induction false} WRunOk(w: Writer, pageSize: nat, es: seq<Event>)
    requires WInv(w) && pageSize >= PAGE_HEAD_SIZE + FRAME_HEAD_SIZE
    ensures WInv(WRun(w, pageSize, es)) && Evolves(w, WRun(w, pageSize, es))
  {
    hide *;
    if es == [] {
      WRunNothing(w, pageSize);
    } else {
      var init, e := es[..|es| - 1], es[|es| - 1];
      WRunOk(w, pageSize, init);
      WEventOk(WRun(w, pageSize, init), pageSize, e);
      WRunNext(w, pageSize, init, e);
      assert es == init + [e];
      EvolvesTransitive(w, WRun(w, pageSize, init), WRun(w, pageSize, es));
    }
  }

  lemma WRunNothing(w: Writer, pageSize: nat)
    requires WInv(w)
    ensures WRun(w, pageSize, []) == w && Evolves(w, w)
  {
    SameDisk(w, w);
  }

  // ---------------------------------------------------------------- stopping and starting again

  /** The stores of `createNextPage`, during which the last page has no version yet. */
  predicate Creating(pc: WPc) {
    pc.Truncate? || pc.SetWriting? || pc.SetSize? || pc.SetTail? || pc.StartNano? || pc.ClearStop?
    || pc.SetReserved? || pc.SetVersion?
  }

  datatype Restart = InitFails | Started(w: Writer)

  /** What `init` finds when the writer stopped at any store and a new one takes over the pages. */
  function Init(w: Writer, pageSize: nat): Restart
    requires w.pages != [] ==> w.log != []
  {
    if w.pages == [] then Started(w.(pc := Open))
    else if LastPage(w).fileSize < PAGE_HEAD_SIZE then
      var pg := LastPage(w).(fileSize := pageSize, body := seq(pageSize, i => 0));
      Started(OnLast(w, pg, LastLog(w), if pg.status == Finish then Open else Idle))
    else if !(LastPage(w).version == PAGE_HEAD_VER_1 && LastPage(w).size == LastPage(w).fileSize) then InitFails
    else Started(w.(pc := if LastPage(w).status == Finish then Open else Idle))
  }

  lemma PublishedUnlessCreating(w: Writer)
    requires WInv(w) && !Creating(w.pc) && w.pages != []
    ensures Published(LastPage(w)) && (LastPage(w).status == Finish <==> w.pc.Open?)
  {
  }

  lemma RestartKeeps(w: Writer, pageSize: nat)
    requires WInv(w) && !Creating(w.pc)
    ensures Init(w, pageSize).Started?
    ensures Init(w, pageSize).w == w.(pc := if w.pages == [] || LastPage(w).status == Finish then Open else Idle)
    ensures WInv(Init(w, pageSize).w)
  {
    assert DiskOk(w.pages, w.log);
    if w.pages != [] {
      PublishedUnlessCreating(w);
    }
    hide DiskOk, FrameProgress, HeadProgress, PageOk;
  }

  lemma RestartLosesPage(w: Writer, pageSize: nat)
    requires WInv(w) && Creating(w.pc)
    ensures w.pages != []
    ensures if w.pc.Truncate? then
              Init(w, pageSize).Started? && Init(w, pageSize).w.pc == Idle && Init(w, pageSize).w.pages != []
              && !Published(LastPage(Init(w, pageSize).w))
            else Init(w, pageSize) == InitFails
  {
    assert HeadProgress(LastPage(w), w.pc);
    assert LastPage(w).version == 0;
  }

  /** `init` after a stop resumes with exactly the committed frames if and only if the writer was not
      creating a page; otherwise it goes on with a page that no reader accepts, if that page's file has no size
      yet, and fails if it has. */
  lemma RestartAfterStop(w: Writer, pageSize: nat)
    requires WInv(w)
    ensures !Creating(w.pc) <==>
            var s := Init(w, pageSize); s.Started? && WInv(s.w) && s.w.log == w.log && s.w.pages == w.pages
    ensures Creating(w.pc) ==>
              var s := Init(w, pageSize);
              if w.pc.Truncate? then s.Started? && s.w.pc == Idle && s.w.pages != [] && !Published(LastPage(s.w))
              else s == InitFails
  {
    if Creating(w.pc) {
      RestartLosesPage(w, pageSize);
    } else {
      RestartKeeps(w, pageSize);
    }
  }

  /** Such stops can happen: the very first stores of a writer on an empty directory are of that kind. */
  lemma CreatingReached(pageSize: nat)
    ensures var w := Writer([], [], Open);
      WInv(w) && Creating(WRun(w, pageSize, [WriterStore(0)]).pc) && WRun(w, pageSize, [WriterStore(0)]).pc.Truncate? &&
      WRun(w, pageSize, [WriterStore(0), WriterStore(0)]).pc == SetWriting && Creating(SetWriting)
  {
    var w, es := Writer([], [], Open), [WriterStore(0), WriterStore(0)];
    WRunStore(w, pageSize, 0);
    WRunNext(w, pageSize, [WriterStore(0)], WriterStore(0));
    WRunStore(WStep(w, pageSize, 0), pageSize, 0);
    assert es == [WriterStore(0)] + [WriterStore(0)];
  }

  // ---------------------------------------------------------------- the program

  /** The machine's next store turns the last page into pg and goes on at next. */
  predicate IsNextStore(w: Writer, pageSize: nat, pg: Page, next: WPc, now: int) {
    w.pages != [] && w.pc != Idle && !w.pc.Open? &&
    if InFrame(w.pc) then
      LastPage(w).tail + FRAME_HEAD_SIZE + |w.pc.rec.data| <= |LastPage(w).body|
      && StoreFrame(LastPage(w), w.pc) == (pg, next)
    else StoreHead(LastPage(w), w.pc, pageSize, now) == (pg, next)
  }

  lemma NextStore(w: Writer, pageSize: nat, pg: Page, next: WPc, now: int)
    requires |w.pages| == |w.log| && IsNextStore(w, pageSize, pg, next, now)
    ensures var n, w' := |w.pages| - 1, WStep(w, pageSize, now);
            w'.pages == w.pages[n := pg] && w'.pc == next
            && w'.log == if w.pc.Tail? then w.log[n := w.log[n] + [w.pc.rec]] else w.log
  {
    hide StoreFrame, StoreHead;
    assert LastLog(w) + [] == LastLog(w);
    assert w.log[|w.log| - 1 := LastLog(w)] == w.log;
  }

  lemma WRunStore(w: Writer, pageSize: nat, now: int)
    ensures WRun(w, pageSize, [WriterStore(now)]) == WStep(w, pageSize, now)
  {
    hide WStep;
    assert [WriterStore(now)][..0] == [];
  }

  lemma WRunCall(w: Writer, pageSize: nat, e: Event)
    requires e.WriterCall?
    ensures WRun(w, pageSize, [e]) == Call(w, e.mode, e.rec)
  {
    hide Call;
    assert [e][..0] == [];
  }

  /** The test before `write` tries again, on unsigned 64-bit numbers. */
  predicate RetryGuard(len: nat, size: nat) {
    len <= (size + 0x1_0000_0000_0000_0000 - PAGE_HEAD_SIZE - FRAME_HEAD_SIZE) % 0x1_0000_0000_0000_0000
  }

  /** The test lets exactly the frames through that an empty page can hold, if and only if a page has
      room for the two heads; on a smaller page size it lets every frame through, over and over. */
  lemma RetryGuardExact(size: nat)
    requires size < UINT32_LIMIT
    ensures (forall len: nat | len < UINT32_LIMIT ::
               RetryGuard(len, size) <==> PAGE_HEAD_SIZE + FRAME_HEAD_SIZE + len <= size)
            <==> size >= PAGE_HEAD_SIZE + FRAME_HEAD_SIZE
    ensures size < PAGE_HEAD_SIZE + FRAME_HEAD_SIZE ==>
              forall len: nat | len < UINT32_LIMIT :: RetryGuard(len, size)
  {
    if size < PAGE_HEAD_SIZE + FRAME_HEAD_SIZE {
      assert RetryGuard(0, size);
    }
  }

  function InitPc(pages: seq<Page>): WPc {
    if pages == [] || pages[|pages| - 1].status == Finish then Open else Idle
  }

  lemma LastBody(w: Writer)
    requires WInv(w) && w.pages != []
    ensures |LastPage(w).body| == LastPage(w).fileSize && |w.log| == |w.pages|
  {
    hide LastProgress, FramesAt;
    assert PageOk(LastPage(w), LastLog(w));
  }

  lemma LastPublished(w: Writer)
    requires WInv(w) && w.pages != [] && (w.pc == Idle || w.pc == Open)
    ensures Published(LastPage(w))
  {
    hide DiskOk;
    assert LastProgress(LastPage(w), w.pc);
  }

  /** On a page that can hold the two heads, the test is that the frame fits an empty page. */
  lemma RetryFits(len: nat, size: nat)
    requires size < UINT32_LIMIT && len < UINT32_LIMIT && size >= PAGE_HEAD_SIZE + FRAME_HEAD_SIZE
    ensures RetryGuard(len, size) <==> PAGE_HEAD_SIZE + FRAME_HEAD_SIZE + len <= size
  {}

  /** The page files, shared by the writer and its readers. */
  class Disk {
    var pages: seq<Page>
    ghost var log: seq<seq<Rec>>

    constructor ()
      ensures pages == [] && log == []
    {
      pages, log := [], [];
    }
  }

  class RawIOWriter {
    const disk: Disk
    const pageSize: nat
    var pageNum: int
    var prefetchTail: nat
    /** Where the machine stands, and the run of the machine that the program has performed so far. */
    ghost var pc: WPc
    ghost var origin: Writer
    ghost var history: seq<Event>

    ghost function View(): Writer
      reads this`pc, disk
    {
      Writer(disk.pages, disk.log, pc)
    }

    /** The program's state is that of the machine after the run `history`. */
    ghost predicate Valid()
      reads this`pc, this`origin, this`history, disk
    {
      && pageSize >= PAGE_HEAD_SIZE + FRAME_HEAD_SIZE
      && WInv(View())
      && View() == WRun(origin, pageSize, history)
    }

    /** The last page is mapped. */
    ghost predicate Mapped()
      reads this`pageNum, disk
    {
      disk.pages != [] && pageNum == |disk.pages| - 1
    }

    /** Nothing is forgotten: the run so far is only continued. */
    twostate predicate Continues()
      reads this
    {
      origin == old(origin) && old(history) <= history
    }

    function Buf(): Page
      requires disk.pages != [] && pageNum == |disk.pages| - 1
      reads this`pageNum, disk
    {
      disk.pages[pageNum]
    }

    constructor (disk: Disk, pageSize: nat)
      requires pageSize >= PAGE_HEAD_SIZE + FRAME_HEAD_SIZE
      requires WInv(Writer(disk.pages, disk.log, InitPc(disk.pages)))
      ensures Valid() && this.disk == disk && this.pageSize == pageSize && pc == InitPc(disk.pages)
    {
      this.disk, this.pageSize := disk, pageSize;
      pageNum, prefetchTail := -1, 0;
      pc := InitPc(disk.pages);
      origin := Writer(disk.pages, disk.log, InitPc(disk.pages));
      history := [];
    }

    /** `init`: maps the last page, or creates one when there is none or the last is closed. */
    method Init(now: int) returns (ok: bool)
      requires Valid() && pc == InitPc(disk.pages)
      modifies this, disk
      ensures ok && Valid() && Mapped() && Continues() && pc == Idle
      ensures Flat(disk.log) == old(Flat(disk.log)) && old(disk.pages) <= disk.pages
      ensures |disk.pages| == old(|disk.pages|) + (if old(pc) == Open then 1 else 0)
    {
      hide WInv, WRun, WStep, Call, Flat, PageLog.Published, RawIOWriter.Valid, RawIOWriter.View;
      pageNum := |disk.pages| - 1;
      var needCreate := true;
      if pageNum >= 0 {
        LastIsPublished();
        if !PageLog.Published(Buf()) {
          return false;
        }
        needCreate := Buf().status == Finish;
      }
      if needCreate {
        FlatEmptyPage(disk.log);
        CreateNextPage(now);
      }
      return true;
    }

    lemma LastIsPublished()
      requires Valid() && disk.pages != [] && (pc == Idle || pc == Open)
      ensures PageLog.Published(disk.pages[|disk.pages| - 1])
    {
      hide WInv, WRun;
      LastPublished(View());
    }

    /** One store through the mapped page; it must be the machine's next one. */
    method Store(pg: Page, ghost next: WPc, now: int)
      requires Valid() && Mapped() && IsNextStore(View(), pageSize, pg, next, now)
      modifies this`pc, this`history, disk
      ensures Valid() && Mapped() && Continues() && disk.pages == old(disk.pages)[pageNum := pg] && pc == next
      ensures disk.log == if old(pc.Tail?) then old(disk.log)[pageNum := old(disk.log[pageNum] + [pc.rec])] else old(disk.log)
    {
      hide WInv, WRun, WStep, IsNextStore;
      ghost var w := View();
      StoreIsStep(w, pg, next, now);
      disk.pages := disk.pages[pageNum := pg];
      disk.log := WStep(w, pageSize, now).log;
      pc := next;
      history := history + [WriterStore(now)];
    }

    lemma StoreIsStep(w: Writer, pg: Page, next: WPc, now: int)
      requires Valid() && Mapped() && w == View() && IsNextStore(w, pageSize, pg, next, now)
      ensures var w' := WStep(w, pageSize, now);
              WInv(w') && w' == WRun(origin, pageSize, history + [WriterStore(now)])
              && w'.pages == w.pages[pageNum := pg] && w'.pc == next && |w.log| == |w.pages|
              && w'.log == if pc.Tail? then w.log[pageNum := w.log[pageNum] + [pc.rec]] else w.log
    {
      hide WInv, WStep, WRun, IsNextStore;
      LastBody(w);
      WEventOk(w, pageSize, WriterStore(now));
      WRunNext(origin, pageSize, history, WriterStore(now));
      WRunStore(w, pageSize, now);
      NextStore(w, pageSize, pg, next, now);
    }

    /** A call of the machine: no memory is touched yet. */
    ghost method Enter(e: Event)
      requires Valid() && e.WriterCall?
      modifies this`pc, this`history
      ensures Valid() && Continues() && View() == Call(old(View()), e.mode, e.rec)
    {
      hide WInv, WRun, WStep;
      ghost var w := View();
      WEventOk(w, pageSize, e);
      WRunNext(origin, pageSize, history, e);
      WRunCall(w, pageSize, e);
      pc := Call(w, e.mode, e.rec).pc;
      history := history + [e];
      assert [e][..0] == [];
    }

    /** `load` of a page number that has no file yet: the file is created and given its size. */
    method LoadNew(now: int)
      requires Valid() && pc == Open && pageNum == |disk.pages| - 1
      modifies this, disk
      ensures Valid() && Continues() && pc == SetWriting && pageNum == |disk.pages| - 2
      ensures disk.pages == old(disk.pages) + [NewFile.(fileSize := pageSize, body := seq(pageSize, i => 0))]
      ensures disk.log == old(disk.log) + [[]] && prefetchTail == old(prefetchTail)
    {
      hide WInv, WRun, WStep, Call, StoreFrame;
      OpenFile(now);
      pageNum := pageNum + 1;
      Store(Buf().(fileSize := pageSize, body := seq(pageSize, i => 0)), SetWriting, now);
      pageNum := pageNum - 1;
    }

    method OpenFile(now: int)
      requires Valid() && pc == Open
      modifies this`pc, this`history, disk
      ensures Valid() && Continues() && pc == Truncate
      ensures disk.pages == old(disk.pages) + [NewFile] && disk.log == old(disk.log) + [[]]
    {
      hide WInv, WRun;
      ghost var w := View();
      WEventOk(w, pageSize, WriterStore(now));
      WRunNext(origin, pageSize, history, WriterStore(now));
      WRunStore(w, pageSize, now);
      disk.pages := disk.pages + [NewFile];
      disk.log := disk.log + [[]];
      pc := Truncate;
      history := history + [WriterStore(now)];
    }

    /** Maps the next page and fills in its head, `version` last. */
    method CreateNextPage(now: int)
      requires Valid() && pc == Open && pageNum == |disk.pages| - 1
      modifies this, disk
      ensures Valid() && Mapped() && Continues() && pc == Idle
      ensures |disk.pages| == old(|disk.pages|) + 1 && Buf().tail == PAGE_HEAD_SIZE && Buf().fileSize == pageSize
      ensures old(disk.pages) <= disk.pages
      ensures disk.log == old(disk.log) + [[]] && prefetchTail == old(prefetchTail)
    {
      hide WInv, WRun, WStep, Call, StoreFrame, Splice, LE;
      LoadNew(now);
      pageNum := pageNum + 1;
      FillHead(now);
      Store(Buf().(stopNano := -1), SetReserved, now);
      Store(Buf().(reserved := 0), SetVersion, now);
      Store(Buf().(version := PAGE_HEAD_VER_1), Idle, now);
    }

    method FillHead(now: int)
      requires Valid() && Mapped() && pc == SetWriting
      modifies this`pc, this`history, disk
      ensures Valid() && Mapped() && Continues() && pc == ClearStop && disk.log == old(disk.log)
      ensures disk.pages == old(disk.pages)[pageNum :=
                old(Buf()).(status := Writing, size := old(Buf().fileSize), tail := PAGE_HEAD_SIZE, startNano := now)]
    {
      hide WInv, WRun, WStep, Call, StoreFrame, Splice, LE;
      Store(Buf().(status := Writing), SetSize, now);
      Store(Buf().(size := Buf().fileSize), SetTail, now);
      FillTail(now);
    }

    method FillTail(now: int)
      requires Valid() && Mapped() && pc == SetTail
      modifies this`pc, this`history, disk
      ensures Valid() && Mapped() && Continues() && pc == ClearStop && disk.log == old(disk.log)
      ensures disk.pages == old(disk.pages)[pageNum := old(Buf()).(tail := PAGE_HEAD_SIZE, startNano := now)]
    {
      hide WInv, WRun, WStep, Call, StoreFrame, Splice, LE;
      Store(Buf().(tail := PAGE_HEAD_SIZE), StartNano, now);
      Store(Buf().(startNano := now), ClearStop, now);
    }

    /** Closes the mapped page and creates the next one. */
    method TurnPage(now: int)
      requires Valid() && Mapped() && pc == StopNano
      modifies this, disk
      ensures Valid() && Mapped() && Continues() && pc == Idle && prefetchTail == old(prefetchTail)
      ensures |disk.pages| == old(|disk.pages|) + 1 && Buf().tail == PAGE_HEAD_SIZE && Buf().fileSize == pageSize
      ensures disk.log == old(disk.log) + [[]]
    {
      hide WInv, WRun, WStep, Call, StoreFrame, Splice, LE;
      Store(Buf().(stopNano := now), SetFinish, now);
      Store(Buf().(status := Finish), Open, now);
      CreateNextPage(now);
    }

    /** memcpy of the payload, a byte at a time. */
    method CopyData(ghost mode: Mode, data: seq<byte>, ghost r: Rec)
      requires Valid() && Mapped() && pc == AfterData(mode, r, 0) && r.data == data && Fits(Buf(), r)
      modifies this`pc, this`history, disk
      ensures Valid() && Mapped() && Continues() && pc == AfterData(mode, r, |data|)
      ensures |disk.pages| == old(|disk.pages|) && disk.log == old(disk.log) && Buf().tail == old(Buf().tail)
      ensures Buf().fileSize == old(Buf().fileSize)
    {
      hide WInv, WRun, WStep, Call;
      var k := 0;
      while k < |data|
        invariant 0 <= k <= |data| && Valid() && Mapped() && Continues() && pc == AfterData(mode, r, k)
        invariant |disk.pages| == old(|disk.pages|) && disk.log == old(disk.log) && Buf().tail == old(Buf().tail)
        invariant Buf().fileSize == old(Buf().fileSize)
      {
        BodySize();
        Store(Buf().(body := Splice(Buf().body, Buf().tail + FRAME_HEAD_SIZE + k, [data[k]])), AfterData(mode, r, k + 1), 0);
        k := k + 1;
      }
    }

    lemma BodySize()
      requires Valid() && Mapped()
      ensures |Buf().body| == Buf().fileSize && |disk.log| == |disk.pages|
    {
      hide WInv, WRun, Call, WStep;
      LastBody(View());
    }

    /** The stores that `write` and `commit` share: magic, nano, last_nano and, last of all, tail. */
    method Publish(tail: nat, now: nat, ghost r: Rec)
      requires Valid() && Mapped() && pc == Magic(r) && r.nano == now && Fits(Buf(), r)
      requires tail == Buf().tail + FRAME_HEAD_SIZE + |r.data|
      modifies this`pc, this`history, disk
      ensures Valid() && Mapped() && Continues() && pc == Idle
      ensures |disk.pages| == old(|disk.pages|) && Buf().tail == tail
      ensures Flat(disk.log) == old(Flat(disk.log)) + [r]
    {
      hide WInv, WRun, WStep, Call, Flat;
      PutMagicNano(now, r);
      BodySize();
      Store(Buf().(lastNano := now), PageLog.Tail(r), 0);
      FlatOnLast(disk.log, [r]);
      Store(Buf().(tail := tail), Idle, 0);
    }

    method PutMagicNano(now: nat, ghost r: Rec)
      requires Valid() && Mapped() && pc == Magic(r) && r.nano == now && Fits(Buf(), r)
      modifies this`pc, this`history, disk
      ensures Valid() && Mapped() && Continues() && pc == Last(r) && Fits(Buf(), r)
      ensures |disk.pages| == old(|disk.pages|) && Buf().tail == old(Buf().tail) && disk.log == old(disk.log)
    {
      hide WInv, WRun, WStep, Call, Flat;
      BodySize();
      Store(Buf().(body := Splice(Buf().body, Buf().tail, LE(FRAME_HEAD_MAGIC, 4))), Nano(r), 0);
      Store(Buf().(body := Splice(Buf().body, Buf().tail + 8, LE(now, 8))), Last(r), 0);
    }

    /** The path of `write` on a page that has room. */
    method AppendHere(data: seq<byte>, tail: nat, now: nat, ghost r: Rec)
      requires Valid() && Mapped() && pc == AfterData(PageLog.Write, r, 0) && r == Rec(now, data) && Fits(Buf(), r)
      requires tail == Buf().tail + FRAME_HEAD_SIZE + |data|
      modifies this`pc, this`history, disk
      ensures Valid() && Mapped() && Continues() && pc == Idle && |disk.pages| == old(|disk.pages|)
      ensures Flat(disk.log) == old(Flat(disk.log)) + [r]
    {
      hide WInv, WRun, WStep, Flat, RawIOWriter.Valid, RawIOWriter.View;
      CopyData(PageLog.Write, data, r);
      PutLen(PageLog.Write, |data|, r);
      Publish(tail, now, r);
    }

    /** `write`: appends a frame, on a new page when the mapped one has no room. It succeeds exactly
        when the frame fits the mapped page or an empty one, and it creates at most one page. */
    method Write(data: seq<byte>, now: nat) returns (ok: bool)
      requires Valid() && Mapped() && pc == Idle && now < Pow256(8)
      requires |data| + FRAME_HEAD_SIZE + Buf().fileSize < UINT32_LIMIT && |data| + FRAME_HEAD_SIZE + pageSize < UINT32_LIMIT
      modifies this, disk
      ensures Valid() && Mapped() && Continues() && pc == Idle
      ensures ok <==> old(Fits(Buf(), Rec(now, data))) || PAGE_HEAD_SIZE + FRAME_HEAD_SIZE + |data| <= pageSize
      ensures Flat(disk.log) == old(Flat(disk.log)) + (if ok then [Rec(now, data)] else [])
      ensures |disk.pages| == old(|disk.pages|) + (if old(Fits(Buf(), Rec(now, data))) then 0 else 1)
      decreases !Fits(Buf(), Rec(now, data))
    {
      hide WInv, WRun, WStep, StoreFrame, StoreHead, Flat, RetryGuard;
      ghost var r := Rec(now, data);
      Enter(WriterCall(PageLog.Write, r));
      var tail := Buf().tail + FRAME_HEAD_SIZE + |data|;
      if tail <= Buf().fileSize {
        AppendHere(data, tail, now, r);
        return true;
      } else {
        TurnPage(now);
        FlatEmptyPage(disk.log[..|disk.log| - 1]);
        RetryFits(|data|, Buf().fileSize);
        if RetryGuard(|data|, Buf().fileSize) {
          ok := Write(data, now);
          return;
        }
      }
      return false;
    }

    /** `prefetch`: reserves a frame of len bytes, to be filled by the caller. The ghost r foretells what
        the caller fills in and when it commits. */
    method Prefetch(len: nat, now: int, ghost r: Rec) returns (ok: bool)
      requires Valid() && Mapped() && pc == Idle && |r.data| == len && r.nano < Pow256(8)
      requires len + FRAME_HEAD_SIZE + Buf().fileSize < UINT32_LIMIT && len + FRAME_HEAD_SIZE + pageSize < UINT32_LIMIT
      modifies this, disk
      ensures Valid() && Mapped() && Continues()
      ensures ok <==> old(Fits(Buf(), r)) || PAGE_HEAD_SIZE + FRAME_HEAD_SIZE + len <= pageSize
      ensures ok ==> pc == AfterData(PageLog.Prefetch, r, 0) && Fits(Buf(), r)
                     && prefetchTail == Buf().tail + FRAME_HEAD_SIZE + len
      ensures !ok ==> pc == Idle
      ensures Flat(disk.log) == old(Flat(disk.log))
    {
      hide WInv, WRun, WStep, StoreFrame, StoreHead, Flat;
      ok := Reserve(len, now, r);
      if !ok {
        TurnPage(now);
        FlatEmptyPage(disk.log[..|disk.log| - 1]);
        prefetchTail := Buf().tail + FRAME_HEAD_SIZE + len;
        if prefetchTail <= Buf().fileSize {
          ok := Reserve(len, now, r);
        }
      }
    }

    /** The length goes in when the mapped page has room; otherwise the page is to be closed. */
    method Reserve(len: nat, now: int, ghost r: Rec) returns (ok: bool)
      requires Valid() && Mapped() && pc == Idle && |r.data| == len && r.nano < Pow256(8)
      requires len + FRAME_HEAD_SIZE + Buf().fileSize < UINT32_LIMIT
      modifies this`pc, this`history, this`prefetchTail, disk
      ensures Valid() && Mapped() && Continues() && ok == old(Fits(Buf(), r))
      ensures ok ==> pc == AfterData(PageLog.Prefetch, r, 0) && Fits(Buf(), r)
                     && prefetchTail == Buf().tail + FRAME_HEAD_SIZE + len
      ensures !ok ==> pc == StopNano && disk.pages == old(disk.pages)
      ensures disk.log == old(disk.log) && |disk.pages| == old(|disk.pages|)
    {
      hide WInv, WRun, WStep, StoreFrame, StoreHead, Flat;
      Enter(WriterCall(PageLog.Prefetch, r));
      prefetchTail := Buf().tail + FRAME_HEAD_SIZE + len;
      ok := prefetchTail <= Buf().fileSize;
      if ok {
        PutLen(PageLog.Prefetch, len, r);
      }
    }

    /** `commit`, after the caller has filled the reserved frame. */
    method Commit(now: nat, ghost r: Rec)
      requires Valid() && Mapped() && pc == Magic(r) && r.nano == now && Fits(Buf(), r)
      requires prefetchTail == Buf().tail + FRAME_HEAD_SIZE + |r.data|
      modifies this`pc, this`history, disk
      ensures Valid() && Mapped() && Continues() && pc == Idle
      ensures Flat(disk.log) == old(Flat(disk.log)) + [r]
    {
      Publish(prefetchTail, now, r);
    }

    method PutLen(ghost mode: Mode, len: nat, ghost r: Rec)
      requires Valid() && Mapped() && pc == Len(mode, r) && |r.data| == len && Fits(Buf(), r)
      modifies this`pc, this`history, disk
      ensures Valid() && Mapped() && Continues()
      ensures pc == if mode == PageLog.Write then Magic(r) else AfterData(PageLog.Prefetch, r, 0)
      ensures |disk.pages| == old(|disk.pages|) && disk.log == old(disk.log) && Buf().tail == old(Buf().tail)
      ensures Buf().fileSize == old(Buf().fileSize)
    {
      hide WInv, WRun, WStep, Call;
      BodySize();
      Store(Buf().(body := Splice(Buf().body, Buf().tail + 4, LE(len, 4))),
            if mode == PageLog.Write then Magic(r) else AfterData(PageLog.Prefetch, r, 0), 0);
    }
  }

  lemma FlatEmptyPage(log: seq<seq<Rec>>)
    ensures Flat(log + [[]]) == Flat(log)
  {
    assert (log + [[]])[..|log|] == log;
  }
}
