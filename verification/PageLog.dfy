/** The paged frame log: what is in a page file, one writer and one reader, one memory access per step. */
module PageLog {
  import opened Bytes

  const PAGE_HEAD_SIZE: nat := 45
  const FRAME_HEAD_SIZE: nat := 20
  const PAGE_HEAD_VER_1: nat := 1
  const FRAME_HEAD_MAGIC: nat := 0x20180423
  const UINT32_LIMIT: nat := 0x1_0000_0000

  datatype Status = Writing | Finish

  /** A page file. `fileSize` is what stat reports; the head fields are those of the mapped head,
      and `body` is the mapped memory, in which frames are laid out from offset PAGE_HEAD_SIZE on. */
  datatype Page = Page(
    fileSize: nat, status: Status, version: nat, size: nat, tail: nat,
    startNano: int, stopNano: int, lastNano: nat, reserved: int, body: seq<byte>)

  /** A committed frame: the time it was stored and its payload. */
  datatype Rec = Rec(nano: nat, data: seq<byte>)

  const NewFile: Page := Page(0, Writing, 0, 0, 0, 0, 0, 0, 0, [])

  /** Offset just past frames laid out back to back. */
  function Off(fs: seq<Rec>): (o: nat)
    ensures o >= PAGE_HEAD_SIZE
  {
    if fs == [] then PAGE_HEAD_SIZE
    else Off(fs[..|fs| - 1]) + FRAME_HEAD_SIZE + |fs[|fs| - 1].data|
  }

  /** The bytes at offset o are exactly frame r. */
  predicate FrameAt(body: seq<byte>, o: nat, r: Rec) {
    && o + FRAME_HEAD_SIZE + |r.data| <= |body|
    && FromLE(body[o..o + 4]) == FRAME_HEAD_MAGIC
    && FromLE(body[o + 4..o + 8]) == |r.data|
    && FromLE(body[o + 8..o + 16]) == r.nano
    && body[o + FRAME_HEAD_SIZE..o + FRAME_HEAD_SIZE + |r.data|] == r.data
  }

  /** The frames fs tile the body from the end of the head on. */
  predicate FramesAt(body: seq<byte>, fs: seq<Rec>) {
    forall i | 0 <= i < |fs| :: FrameAt(body, Off(fs[..i]), fs[i])
  }

  /** A reader's acceptance test of a page: large enough, versioned, and of the size it says. */
  predicate Published(pg: Page) {
    pg.fileSize >= PAGE_HEAD_SIZE && pg.version == PAGE_HEAD_VER_1 && pg.size == pg.fileSize
  }

  predicate Frozen(pg: Page) {
    Published(pg) && pg.status == Finish
  }

  /** A page holds exactly the frames fs as committed. */
  predicate PageOk(pg: Page, fs: seq<Rec>) {
    && |pg.body| == pg.fileSize
    && (pg.version == PAGE_HEAD_VER_1 ==> Published(pg))
    && (Published(pg) ==> pg.tail == Off(fs) && pg.tail <= pg.fileSize && FramesAt(pg.body, fs))
    && (!Published(pg) ==> fs == [])
  }

  predicate DiskOk(pages: seq<Page>, log: seq<seq<Rec>>) {
    && |pages| == |log|
    && (forall p | 0 <= p < |pages| :: PageOk(pages[p], log[p]))
    && (forall p | 0 <= p < |pages| - 1 :: Frozen(pages[p]))
  }

  /** All committed frames, page after page. */
  function Flat(log: seq<seq<Rec>>): seq<Rec> {
    if log == [] then [] else Flat(log[..|log| - 1]) + log[|log| - 1]
  }

  // ---------------------------------------------------------------- the writer

  /** `write` copies the payload and then stores its length; `prefetch` stores the length and leaves
      the payload to the caller, who ends with `commit`. */
  datatype Mode = Write | Prefetch

  /** The store the writer executes next. */
  datatype WPc =
    | Idle
    | Data(mode: Mode, rec: Rec, k: nat)
    | Len(mode: Mode, rec: Rec)
    | Magic(rec: Rec)
    | Nano(rec: Rec)
    | Last(rec: Rec)
    | Tail(rec: Rec)
    | StopNano
    | SetFinish
    | Open
    | Truncate
    | SetWriting
    | SetSize
    | SetTail
    | StartNano
    | ClearStop
    | SetReserved
    | SetVersion

  /** What one writer shares with its readers, and where it stands. */
  datatype Writer = Writer(pages: seq<Page>, log: seq<seq<Rec>>, pc: WPc)

  function Splice(body: seq<byte>, o: nat, b: seq<byte>): (r: seq<byte>)
    requires o + |b| <= |body|
    ensures |r| == |body|
  {
    seq(|body|, i requires 0 <= i < |body| => if o <= i < o + |b| then b[i - o] else body[i])
  }

  function LastPage(w: Writer): Page
    requires w.pages != []
  {
    w.pages[|w.pages| - 1]
  }

  /** The frames committed to the last page. */
  function LastLog(w: Writer): seq<Rec>
    requires w.log != []
  {
    w.log[|w.log| - 1]
  }

  function OnLast(w: Writer, pg: Page, fs: seq<Rec>, pc: WPc): Writer
    requires w.pages != [] && w.log != []
  {
    Writer(w.pages[|w.pages| - 1 := pg], w.log[|w.log| - 1 := fs], pc)
  }

  function Fits(pg: Page, r: Rec): bool {
    pg.tail + FRAME_HEAD_SIZE + |r.data| <= pg.fileSize
  }

  /** Once k bytes of the payload are in place. */
  function AfterData(mode: Mode, r: Rec, k: nat): WPc {
    if k < |r.data| then Data(mode, r, k) else if mode == Write then Len(Write, r) else Magic(r)
  }

  /** A call of `write` or of `prefetch`; when the frame does not fit, the page is closed and the next
      one created, and it is for the caller to try again. No call lets tail + 20 + len leave 32 bits. */
  function Call(w: Writer, mode: Mode, r: Rec): Writer {
    if w.pc != Idle || w.pages == []
       || |r.data| + FRAME_HEAD_SIZE + LastPage(w).fileSize >= UINT32_LIMIT || r.nano >= Pow256(8) then w
    else if Fits(LastPage(w), r) then w.(pc := if mode == Write then AfterData(Write, r, 0) else Len(Prefetch, r))
    else w.(pc := StopNano)
  }

  /** Giving up a frame before its `tail` is stored: a prefetched frame never committed, or a writer
      that stops there and is started again. */
  function Discard(w: Writer): Writer {
    if InFrame(w.pc) then w.(pc := Idle) else w
  }

  predicate InFrame(pc: WPc) {
    pc.Data? || pc.Len? || pc.Magic? || pc.Nano? || pc.Last? || pc.Tail?
  }

  /** The stores of one frame: the page after the store at pc, and the store that follows. The last
      one, of `tail`, publishes the frame. */
  function StoreFrame(pg: Page, pc: WPc): (Page, WPc)
    requires InFrame(pc)
    requires pg.tail + FRAME_HEAD_SIZE + |pc.rec.data| <= |pg.body|
  {
    var r, o := pc.rec, pg.tail;
    match pc
    case Data(mode, _, k) =>
      if k < |r.data| then
        (pg.(body := Splice(pg.body, o + FRAME_HEAD_SIZE + k, [r.data[k]])), AfterData(mode, r, k + 1))
      else (pg, AfterData(mode, r, k))
    case Len(mode, _) =>
      (pg.(body := Splice(pg.body, o + 4, LE(|r.data|, 4))),
       if mode == Write then Magic(r) else AfterData(Prefetch, r, 0))
    case Magic(_) => (pg.(body := Splice(pg.body, o, LE(FRAME_HEAD_MAGIC, 4))), Nano(r))
    case Nano(_) => (pg.(body := Splice(pg.body, o + 8, LE(r.nano, 8))), Last(r))
    case Last(_) => (pg.(lastNano := r.nano), Tail(r))
    case Tail(_) => (pg.(tail := o + FRAME_HEAD_SIZE + |r.data|), Idle)
  }

  /** The stores that close the last page and create the next one; `version` comes last. */
  function StoreHead(pg: Page, pc: WPc, pageSize: nat, now: int): (Page, WPc)
    requires !InFrame(pc) && pc != Idle && !pc.Open?
  {
    match pc
    case StopNano => (pg.(stopNano := now), SetFinish)
    case SetFinish => (pg.(status := Finish), Open)
    case Truncate => (pg.(fileSize := pageSize, body := seq(pageSize, i => 0)), SetWriting)
    case SetWriting => (pg.(status := Writing), SetSize)
    case SetSize => (pg.(size := pg.fileSize), SetTail)
    case SetTail => (pg.(tail := PAGE_HEAD_SIZE), StartNano)
    case StartNano => (pg.(startNano := now), ClearStop)
    case ClearStop => (pg.(stopNano := -1), SetReserved)
    case SetReserved => (pg.(reserved := 0), SetVersion)
    case SetVersion => (pg.(version := PAGE_HEAD_VER_1), Idle)
  }

  /** The one store the writer is about to execute. */
  function WStep(w: Writer, pageSize: nat, now: int): Writer {
    if w.pc == Idle then w
    else if w.pc.Open? then
      Writer(w.pages + [NewFile], w.log + [[]], Truncate)
    else if w.pages == [] || w.log == [] then w
    else if InFrame(w.pc) then
      if LastPage(w).tail + FRAME_HEAD_SIZE + |w.pc.rec.data| > |LastPage(w).body| then w
      else
        var (pg, pc) := StoreFrame(LastPage(w), w.pc);
        OnLast(w, pg, LastLog(w) + (if w.pc.Tail? then [w.pc.rec] else []), pc)
    else
      var (pg, pc) := StoreHead(LastPage(w), w.pc, pageSize, now);
      OnLast(w, pg, LastLog(w), pc)
  }

  // ---------------------------------------------------------------- the reader

  /** The load the reader executes next; Returned means that its last call has ended. */
  datatype RPc =
    | Returned
    | TryOpen
    | Stat
    | CheckVersion(size: nat)
    | CheckSize(size: nat)
    | LoadStatus
    | LoadTail(status: Status)
    | LoadMagic
    | LoadLen
    | LoadNano(len: nat)
    | LoadByte(len: nat, nano: nat, got: seq<byte>)
    | BadFormat

  /** `page`, `open` and `cursor` are page_num_, fd_ >= 0 and cursor_. `idx` counts the frames of the
      current page passed so far, and (page0, idx0) is where the reader was positioned at first. */
  datatype Reader = Reader(
    pc: RPc, open: bool, page: nat, cursor: nat, idx: nat, page0: nat, idx0: nat, out: seq<Rec>)

  /** A call of `read`. The caller reads the payload through the pointer it is given, a byte at a time. */
  function ReadCall(r: Reader): Reader {
    if r.pc != Returned then r
    else r.(pc := if r.open then LoadStatus else TryOpen)
  }

  /** A failed load leaves the reader without a page, and `read` returns null. */
  function Fail(r: Reader): Reader {
    r.(pc := Returned, open := false)
  }

  predicate InLoad(pc: RPc) {
    pc.LoadMagic? || pc.LoadLen? || pc.LoadNano? || pc.LoadByte?
  }

  /** The loads of one frame at the cursor. */
  function LoadFrame(body: seq<byte>, r: Reader): Reader
    requires InLoad(r.pc)
  {
    var o := r.cursor;
    if o + FRAME_HEAD_SIZE > |body| then r.(pc := BadFormat)
    else match r.pc
      case LoadMagic => r.(pc := if FromLE(body[o..o + 4]) == FRAME_HEAD_MAGIC then LoadLen else BadFormat)
      case LoadLen => r.(pc := LoadNano(FromLE(body[o + 4..o + 8])))
      case LoadNano(len) => r.(pc := LoadByte(len, FromLE(body[o + 8..o + 16]), []))
      case LoadByte(len, nano, got) =>
        if |got| == len then
          r.(pc := Returned, cursor := o + FRAME_HEAD_SIZE + len, idx := r.idx + 1, out := r.out + [Rec(nano, got)])
        else if o + FRAME_HEAD_SIZE + |got| >= |body| then r.(pc := BadFormat)
        else r.(pc := LoadByte(len, nano, got + [body[o + FRAME_HEAD_SIZE + |got|]]))
  }

  /** The one load the reader is about to execute. */
  function RStep(pages: seq<Page>, r: Reader): Reader {
    if r.pc == Returned || r.pc == BadFormat then r
    else if r.page >= |pages| then Fail(r)
    else if InLoad(r.pc) then LoadFrame(pages[r.page].body, r)
    else
      var pg := pages[r.page];
      match r.pc
      case TryOpen => r.(pc := Stat)
      case Stat => if pg.fileSize < PAGE_HEAD_SIZE then Fail(r) else r.(pc := CheckVersion(pg.fileSize))
      case CheckVersion(sz) => if pg.version == PAGE_HEAD_VER_1 then r.(pc := CheckSize(sz)) else Fail(r)
      case CheckSize(sz) =>
        if pg.size == sz then r.(pc := LoadStatus, open := true, cursor := PAGE_HEAD_SIZE, idx := 0)
        else Fail(r)
      case LoadStatus => r.(pc := LoadTail(pg.status))
      case LoadTail(st) =>
        if r.cursor < pg.tail then r.(pc := LoadMagic)
        else if st == Finish then r.(pc := TryOpen, open := false, page := r.page + 1, idx := 0)
        else r.(pc := Returned)
  }

  // ---------------------------------------------------------------- the system

  datatype Event =
    | WriterCall(mode: Mode, rec: Rec)
    | WriterDiscard
    | WriterStore(now: int)
    | ReaderCall
    | ReaderLoad

  datatype Sys = Sys(w: Writer, r: Reader)

  /** Any interleaving of single writer stores and single reader loads is a list of events. */
  function Step(s: Sys, pageSize: nat, e: Event): Sys {
    match e
    case WriterCall(mode, rec) => s.(w := Call(s.w, mode, rec))
    case WriterDiscard => s.(w := Discard(s.w))
    case WriterStore(now) => s.(w := WStep(s.w, pageSize, now))
    case ReaderCall => s.(r := ReadCall(s.r))
    case ReaderLoad => s.(r := RStep(s.w.pages, s.r))
  }

  /** A run of one party alone: a list of the writer's calls and stores. */
  function WRun(w: Writer, pageSize: nat, es: seq<Event>): Writer {
    if es == [] then w
    else
      var w' := WRun(w, pageSize, es[..|es| - 1]);
      match es[|es| - 1]
      case WriterCall(mode, rec) => Call(w', mode, rec)
      case WriterDiscard => Discard(w')
      case WriterStore(now) => WStep(w', pageSize, now)
      case _ => w'
  }

  function Run(s: Sys, pageSize: nat, es: seq<Event>): Sys {
    if es == [] then s else Step(Run(s, pageSize, es[..|es| - 1]), pageSize, es[|es| - 1])
  }

  /** The writer has been positioned by `init` and no reader call is under way. */
  predicate Start(s: Sys) {
    && DiskOk(s.w.pages, s.w.log)
    && (if s.w.pc == Idle then s.w.pages != [] && Published(LastPage(s.w)) && LastPage(s.w).status == Writing
        else s.w.pc == Open && (s.w.pages == [] || Frozen(LastPage(s.w))))
    && s.r.pc == Returned && s.r.out == []
    && s.r.page == s.r.page0 && s.r.idx == s.r.idx0
    && (if s.r.open then
          && s.r.page < |s.w.pages| && Published(s.w.pages[s.r.page])
          && s.r.idx <= |s.w.log[s.r.page]| && s.r.cursor == Off(s.w.log[s.r.page][..s.r.idx])
        else s.r.idx == 0)
  }
}
