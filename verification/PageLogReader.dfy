/** The reader on pages that are not being written: nothing committed is withheld, and the reader as
    the program it is, with its two ways of positioning. */
module PageLogReader {
  import opened Bytes
  import opened PageLog
  import opened PageLogSafety
  import opened PageLogReaderSafety
  import opened PageLogWriter

  function Rank(pc: RPc): nat {
    match pc
    case TryOpen => 9
    case Stat => 8
    case CheckVersion(_) => 7
    case CheckSize(_) => 6
    case LoadStatus => 5
    case LoadTail(_) => 4
    case LoadMagic => 3
    case LoadLen => 2
    case LoadNano(_) => 1
    case _ => 0
  }

  function BytesLeft(pages: seq<Page>, r: Reader): nat {
    if r.page < |pages| && r.pc.LoadByte? && |r.pc.got| <= |pages[r.page].body|
    then |pages[r.page].body| - |r.pc.got| else 0
  }

  /** The reader's loads up to the end of its call, while nobody writes. */
  function Settle(pages: seq<Page>, r: Reader): Reader
    decreases if r.page <= |pages| then |pages| - r.page else 0, Rank(r.pc), BytesLeft(pages, r)
  {
    if r.pc == Returned || r.pc == BadFormat || r.page >= |pages| then
      (if r.pc == Returned || r.pc == BadFormat then r else Fail(r))
    else if RStep(pages, r).pc == Returned || RStep(pages, r).pc == BadFormat then RStep(pages, r)
    else Settle(pages, RStep(pages, r))
  }

  /** The committed frames the reader has yet to deliver. */
  function Rest(w: Writer, page: nat, idx: nat): seq<Rec>
    requires page <= |w.log| && Pos(w.log, page, idx) <= |Flat(w.log)|
  {
    Flat(w.log)[Pos(w.log, page, idx)..]
  }

  function Head<T>(s: seq<T>): seq<T> {
    if s == [] then [] else [s[0]]
  }

  lemma RestAt(w: Writer, page: nat, idx: nat)
    requires page < |w.log| && idx < |w.log[page]|
    ensures Pos(w.log, page, idx) < |Flat(w.log)|
    ensures Rest(w, page, idx) == [w.log[page][idx]] + Rest(w, page, idx + 1)
  {
    FlatAt(w.log, page, idx);
  }

  lemma RestHop(w: Writer, page: nat)
    requires page < |w.log|
    ensures Pos(w.log, page, |w.log[page]|) == Pos(w.log, page + 1, 0) <= |Flat(w.log)|
  {
    FlatNext(w.log, page);
    FlatTake(w.log, page + 1);
  }

  lemma RestEnd(w: Writer, page: nat, idx: nat)
    requires DiskOk(w.pages, w.log)
    requires (page == |w.log| && idx == 0) || (page == |w.log| - 1 && idx == |w.log[page]|)
    ensures Pos(w.log, page, idx) == |Flat(w.log)|
  {
    if page < |w.log| {
      FlatNext(w.log, page);
    }
    assert w.log[..|w.log|] == w.log;
  }

  /** The reader has not sampled a status that is out of date. */
  predicate Fresh(pages: seq<Page>, r: Reader) {
    r.pc.LoadTail? ==> r.page < |pages| && r.pc.status == pages[r.page].status
  }

  /** A call that is under way returns the next committed frame, or nothing when there is none. */
  lemma {:induction false} SettleDelivers(w: Writer, r: Reader)
    requires DiskOk(w.pages, w.log) && RInv(w, r) && Fresh(w.pages, r)
    requires Anchored(w, r.page0) && r.pc != Returned
    ensures Settle(w.pages, r).pc == Returned && RInv(w, Settle(w.pages, r))
    ensures Settle(w.pages, r).out == r.out + Head(Rest(w, r.page, r.idx))
    decreases if r.page <= |w.pages| then |w.pages| - r.page else 0, Rank(r.pc), BytesLeft(w.pages, r)
  {
    hide DiskOk, RInv, Published, Flat;
    ReaderStepOk(w, r);
    if r.page >= |w.pages| {
      GivesUp(w, r);
    } else if !Published(w.pages[r.page]) {
      Unopened(w, r);
      if RStep(w.pages, r).pc != Returned {
        SettleDelivers(w, RStep(w.pages, r));
      }
    } else if r.pc.LoadByte? && |r.pc.got| == r.pc.len {
      Delivers(w, r);
    } else if r.pc.LoadTail? && r.cursor >= w.pages[r.page].tail {
      LoadTailPlace(w, r);
      EndOfPage(w, r);
      if r.pc.status == Finish {
        SettleDelivers(w, RStep(w.pages, r));
      }
    } else {
      StepsOn(w, r);
      SettleDelivers(w, RStep(w.pages, r));
    }
  }

  lemma LoadTailPlace(w: Writer, r: Reader)
    requires RInv(w, r) && r.pc.LoadTail? && Anchored(w, r.page0)
    ensures OnPage(w, r) && Pos(w.log, r.page, r.idx) <= |Flat(w.log)|
  {
  }

  lemma GivesUp(w: Writer, r: Reader)
    requires DiskOk(w.pages, w.log) && RInv(w, r) && Anchored(w, r.page0) && r.page >= |w.pages| && r.pc != Returned
    ensures r.pc != BadFormat && Rest(w, r.page, r.idx) == [] && RInv(w, Fail(r))
  {
    hide Flat, Off, FramesAt, FrameAt, PageOk, Published;
    assert r.page == |w.log| && r.idx == 0;
    RestEnd(w, r.page, r.idx);
  }

  /** The last page may have been left without a version: the reader does not get in, and there is nothing in it. */
  lemma Unopened(w: Writer, r: Reader)
    requires DiskOk(w.pages, w.log) && RInv(w, r) && Anchored(w, r.page0) && r.page < |w.pages| && !Published(w.pages[r.page])
    requires r.pc != Returned
    ensures Pos(w.log, r.page, r.idx) <= |Flat(w.log)| && Rest(w, r.page, r.idx) == []
    ensures var r' := RStep(w.pages, r);
      r'.pc != BadFormat && r' == r.(pc := r'.pc, open := r'.open) && !r'.pc.LoadTail? &&
      (r'.pc != Returned ==> Rank(r'.pc) < Rank(r.pc) && BytesLeft(w.pages, r') == 0)
  {
    hide Flat, Off, FramesAt, FrameAt;
    assert PageOk(w.pages[r.page], w.log[r.page]);
    assert r.page == |w.log| - 1 && r.idx == 0;
    RestEnd(w, r.page, r.idx);
  }

  lemma Delivers(w: Writer, r: Reader)
    requires DiskOk(w.pages, w.log) && RInv(w, r) && Anchored(w, r.page0)
    requires r.pc.LoadByte? && |r.pc.got| == r.pc.len
    ensures r.page < |w.pages| && RStep(w.pages, r).pc == Returned
    ensures RStep(w.pages, r).out == r.out + Head(Rest(w, r.page, r.idx))
  {
    hide DiskOk, Flat, Off, FrameAt, RStep;
    ReaderReturns(w, r);
    RestAt(w, r.page, r.idx);
  }

  lemma PageDone(w: Writer, r: Reader)
    requires DiskOk(w.pages, w.log) && OnPage(w, r) && r.cursor >= w.pages[r.page].tail
    ensures r.idx == |w.log[r.page]|
    ensures w.pages[r.page].status == Writing ==> r.page == |w.log| - 1
  {
    CursorBeforeTail(w, r);
    hide Off;
    assert r.page < |w.pages| - 1 ==> Frozen(w.pages[r.page]);
  }

  lemma TailLoaded(pages: seq<Page>, r: Reader)
    requires r.page < |pages| && r.pc.LoadTail? && r.cursor >= pages[r.page].tail
    ensures RStep(pages, r) == if r.pc.status == Finish
                               then r.(pc := TryOpen, open := false, page := r.page + 1, idx := 0)
                               else r.(pc := Returned)
  {
  }

  lemma EndOfPage(w: Writer, r: Reader)
    requires DiskOk(w.pages, w.log) && OnPage(w, r) && Fresh(w.pages, r)
    requires r.pc.LoadTail? && r.cursor >= w.pages[r.page].tail
    requires Pos(w.log, r.page, r.idx) <= |Flat(w.log)|
    ensures r.pc.status == Writing ==>
              RStep(w.pages, r) == r.(pc := Returned) && Rest(w, r.page, r.idx) == []
    ensures r.pc.status == Finish ==>
              RStep(w.pages, r) == r.(pc := TryOpen, open := false, page := r.page + 1, idx := 0)
              && r.page < |w.log|
              && Pos(w.log, r.page + 1, 0) <= |Flat(w.log)| && Rest(w, r.page + 1, 0) == Rest(w, r.page, r.idx)
  {
    PageDone(w, r);
    TailLoaded(w.pages, r);
    hide DiskOk, Published, Flat, Off, RStep;
    RestHop(w, r.page);
    if r.pc.status == Writing {
      RestEnd(w, r.page, r.idx);
    }
  }

  lemma StepsOn(w: Writer, r: Reader)
    requires DiskOk(w.pages, w.log) && RInv(w, r) && r.page < |w.pages| && Published(w.pages[r.page]) && Fresh(w.pages, r)
    requires r.pc != Returned && !(r.pc.LoadByte? && |r.pc.got| == r.pc.len)
    requires !(r.pc.LoadTail? && r.cursor >= w.pages[r.page].tail)
    ensures var r' := RStep(w.pages, r);
            r'.pc != Returned && r'.pc != BadFormat && r'.page == r.page && r'.out == r.out && r'.page0 == r.page0
            && r'.idx == r.idx && Fresh(w.pages, r')
  {
    hide DiskOk, Flat, Off, FrameAt, LoadFrame, Delivered;
    if InLoad(r.pc) {
      CommittedFrame(w, r);
      LoadFrameOk(w.pages[r.page].body, r, w.log[r.page][r.idx]);
    }
  }

  /** On pages that are not being written, every call of `read` returns the next committed frame, and
      null only when all of them have been delivered: nothing is withheld. */
  lemma ReadDeliversNext(w: Writer, r: Reader)
    requires DiskOk(w.pages, w.log) && RInv(w, r)
    requires Anchored(w, r.page0) && r.pc == Returned
    ensures Settle(w.pages, ReadCall(r)).pc == Returned && RInv(w, Settle(w.pages, ReadCall(r)))
    ensures Settle(w.pages, ReadCall(r)).out == r.out + Head(Rest(w, r.page, r.idx))
  {
    ReadCallOk(w, r);
    hide *;
    SettleDelivers(w, ReadCall(r));
  }

  lemma ReadCallOk(w: Writer, r: Reader)
    requires RInv(w, r) && r.pc == Returned
    ensures RInv(w, ReadCall(r)) && Fresh(w.pages, ReadCall(r)) && ReadCall(r) == r.(pc := ReadCall(r).pc)
    ensures ReadCall(r).pc != Returned
  {
  }
}
