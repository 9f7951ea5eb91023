/** The reader as the program it is, on pages that are not being written: reading and positioning. */
module PageLogSeek {
  import opened Bytes
  import opened Options
  import opened PageLog
  import opened PageLogSafety
  import opened PageLogReaderSafety
  import opened PageLogWriter
  import opened PageLogReader
  import opened PageLogTimes

  /** What is left once the leading frames older than t are skipped. */
  function DropBefore(fs: seq<Rec>, t: int): (r: seq<Rec>)
    ensures r != [] ==> r[0].nano >= t
  {
    if fs == [] || fs[0].nano >= t then fs else DropBefore(fs[1..], t)
  }

  lemma {:induction false} DropAllBefore(a: seq<Rec>, b: seq<Rec>, t: int)
    requires forall i | 0 <= i < |a| :: a[i].nano < t
    ensures DropBefore(a + b, t) == DropBefore(b, t)
  {
    if a == [] {
      assert a + b == b;
    } else {
      assert (a + b)[1..] == a[1..] + b;
      DropAllBefore(a[1..], b, t);
    }
  }

  lemma RestSplit(w: Writer, page: nat, idx: nat)
    requires page < |w.log| && idx <= |w.log[page]|
    ensures Pos(w.log, page, idx) <= |Flat(w.log)| && Pos(w.log, page + 1, 0) <= |Flat(w.log)|
    ensures Rest(w, page, idx) == w.log[page][idx..] + Rest(w, page + 1, 0)
  {
    hide Flat;
    FlatNext(w.log, page);
    FlatTake(w.log, page + 1);
    var a, b := Flat(w.log[..page]), w.log[page];
    assert Flat(w.log[..page + 1]) == a + b;
    Middle(Flat(w.log), a, b, idx);
  }

  lemma Middle<T>(s: seq<T>, a: seq<T>, b: seq<T>, i: nat)
    requires |a| + |b| <= |s| && s[..|a| + |b|] == a + b && i <= |b|
    ensures s[|a| + i..] == b[i..] + s[|a| + |b|..]
  {
    assert s == a + b + s[|a| + |b|..];
  }

  /** A page whose last frame is older than t has nothing to offer. */
  lemma AllBefore(w: Writer, page: nat, t: int)
    requires page < |w.log| == |w.pages| && TimesOk(w.pages[page], w.log[page]) && w.pages[page].lastNano < t
    ensures Pos(w.log, page, 0) <= |Flat(w.log)| && Pos(w.log, page + 1, 0) <= |Flat(w.log)|
    ensures DropBefore(Rest(w, page, 0), t) == DropBefore(Rest(w, page + 1, 0), t)
  {
    hide Flat, Torn;
    RestSplit(w, page, 0);
    var fs := w.log[page];
    assert fs[0..] == fs;
    assert forall i | 0 <= i < |fs| :: fs[i].nano <= fs[|fs| - 1].nano;
    DropAllBefore(fs, Rest(w, page + 1, 0), t);
  }

  /** Every frame of the later pages is at least as late as what the head of this page carries. */
  lemma {:induction false} LaterFrames(pages: seq<Page>, log: seq<seq<Rec>>, page: nat, n: nat, t: int)
    requires |pages| == |log| && page < n <= |log| && PagesInOrder(pages, log) && pages[page].lastNano >= t
    ensures |Flat(log[..page + 1])| <= |Flat(log[..n])|
    ensures forall i | |Flat(log[..page + 1])| <= i < |Flat(log[..n])| :: Flat(log[..n])[i].nano >= t
  {
    hide PagesInOrder;
    if n > page + 1 {
      LaterFrames(pages, log, page, n - 1, t);
      assert log[..n][..n - 1] == log[..n - 1];
      LaterPage(pages, log, page, n - 1, t);
    }
  }

  lemma LaterPage(pages: seq<Page>, log: seq<seq<Rec>>, p: nat, q: nat, t: int)
    requires |pages| == |log| && p < q < |log| && PagesInOrder(pages, log) && pages[p].lastNano >= t
    ensures forall i | 0 <= i < |log[q]| :: log[q][i].nano >= t
  {}

  /** At the end of a page whose head carries a time that is late enough, all that is left is. */
  lemma LateBehind(w: Writer, page: nat, t: int)
    requires page < |w.log| == |w.pages| && PagesInOrder(w.pages, w.log) && w.pages[page].lastNano >= t
    ensures Pos(w.log, page + 1, 0) <= |Flat(w.log)|
    ensures DropBefore(Rest(w, page + 1, 0), t) == Rest(w, page + 1, 0)
  {
    hide PagesInOrder, Flat;
    LaterFrames(w.pages, w.log, page, |w.log|, t);
    assert w.log[..|w.log|] == w.log;
  }

  class RawIOReader {
    const disk: Disk
    var open: bool
    var pageNum: nat
    var cursor: nat
    /** How many frames of the current page are behind the cursor. */
    ghost var idx: nat

    ghost function W(): Writer
      reads disk
    {
      Writer(disk.pages, disk.log, Idle)
    }

    ghost function View(): Reader
      reads this
    {
      Reader(Returned, open, pageNum, cursor, idx, pageNum, idx, [])
    }

    ghost predicate Valid()
      reads this, disk
    {
      && DiskOk(disk.pages, disk.log) && |disk.pages| == |disk.log|
      && (open ==> pageNum < |disk.pages| && idx <= |disk.log[pageNum]|)
      && (if open then OnPage(W(), View()) else idx == 0)
    }

    /** The committed frames that `read` has yet to return. */
    ghost function Remaining(): seq<Rec>
      reads this, disk
      requires Valid()
    {
      if pageNum > |disk.log| then [] else PlaceOk(); Rest(W(), pageNum, idx)
    }

    lemma PlaceOk()
      requires Valid() && pageNum <= |disk.log|
      ensures Pos(disk.log, pageNum, idx) <= |Flat(disk.log)|
    {
      if open {
        RestSplit(W(), pageNum, idx);
      } else {
        FlatTake(disk.log, pageNum);
      }
    }

    /** The committed frames of a page and of those behind it. */
    ghost function From(page: nat): seq<Rec>
      reads this, disk
      requires Valid()
    {
      if page >= |disk.log| then [] else RestSplit(W(), page, 0); Rest(W(), page, 0)
    }

    constructor (disk: Disk)
      requires DiskOk(disk.pages, disk.log)
      ensures Valid() && !open && this.disk == disk && pageNum == 0
    {
      this.disk := disk;
      open, pageNum, cursor, idx := false, 0, 0, 0;
    }

    /** Maps page num, with the cursor at its first frame. */
    method Load(num: nat) returns (ok: bool)
      requires Valid() && !open && num == pageNum
      modifies this
      ensures Valid() && ok == open && pageNum == num && idx == 0
      ensures ok <==> num < |disk.pages| && Published(disk.pages[num])
      ensures Remaining() == old(Remaining())
    {
      if num >= |disk.pages| {
        return false;
      }
      var pg := disk.pages[num];
      if pg.fileSize < PAGE_HEAD_SIZE || pg.version != PAGE_HEAD_VER_1 || pg.size != pg.fileSize {
        return false;
      }
      cursor := PAGE_HEAD_SIZE;
      open := true;
      assert disk.log[num][..0] == [];
      return true;
    }

    lemma AtCursor()
      requires Valid() && open
      ensures cursor < disk.pages[pageNum].tail <==> idx < |disk.log[pageNum]|
      ensures idx < |disk.log[pageNum]| ==> FrameAt(disk.pages[pageNum].body, cursor, disk.log[pageNum][idx])
      ensures idx == |disk.log[pageNum]| && disk.pages[pageNum].status == Writing ==> pageNum == |disk.pages| - 1
    {
      CursorBeforeTail(W(), View());
      if idx < |disk.log[pageNum]| {
        CommittedFrame(W(), View());
      }
      assert pageNum < |disk.pages| - 1 ==> Frozen(disk.pages[pageNum]);
    }

    /** Nothing is left once the last page is exhausted, or there is no page, or only one that has no version yet. */
    lemma NoneLeft()
      requires Valid()
      requires if open then pageNum == |disk.log| - 1 && idx == |disk.log[pageNum]|
               else pageNum >= |disk.log| || !Published(disk.pages[pageNum])
      ensures Remaining() == [] && From(pageNum + 1) == []
    {
      if !open && pageNum < |disk.log| {
        assert PageOk(disk.pages[pageNum], disk.log[pageNum]);
        assert pageNum == |disk.log| - 1;
      }
      if pageNum <= |disk.log| {
        RestEnd(W(), pageNum, idx);
      }
    }

    /** What is in the page at the cursor. */
    lemma FrameWords()
      requires Valid() && open && idx < |disk.log[pageNum]|
      ensures cursor + FRAME_HEAD_SIZE <= |disk.pages[pageNum].body|
      ensures FromLE(disk.pages[pageNum].body[cursor..cursor + 4]) == FRAME_HEAD_MAGIC
      ensures FromLE(disk.pages[pageNum].body[cursor + 4..cursor + 8]) == |disk.log[pageNum][idx].data|
      ensures FromLE(disk.pages[pageNum].body[cursor + 8..cursor + 16]) == disk.log[pageNum][idx].nano
      ensures cursor + FRAME_HEAD_SIZE + |disk.log[pageNum][idx].data| <= |disk.pages[pageNum].body|
      ensures disk.pages[pageNum].body[cursor + FRAME_HEAD_SIZE..cursor + FRAME_HEAD_SIZE + |disk.log[pageNum][idx].data|]
              == disk.log[pageNum][idx].data
      ensures Remaining() != [] && Remaining()[0] == disk.log[pageNum][idx]
    {
      hide DiskOk, Flat, Off, OnPage;
      AtCursor();
      RestAt(W(), pageNum, idx);
    }

    /** Returns the frame at the cursor and steps over it. The format check of the source is the
        assertion: on a committed frame it cannot fail. */
    method TakeFrame() returns (r: Rec)
      requires Valid() && open && idx < |disk.log[pageNum]|
      modifies this`cursor, this`idx
      ensures Valid() && old(Remaining()) == [r] + Remaining() && r == disk.log[pageNum][old(idx)]
      ensures idx == old(idx) + 1 && cursor == old(cursor) + FRAME_HEAD_SIZE + |r.data|
    {
      hide DiskOk, Flat, Off, Published, FrameAt;
      FrameWords();
      RestAt(W(), pageNum, idx);
      NextOffset(disk.log[pageNum], idx);
      var body := disk.pages[pageNum].body;
      assert FromLE(body[cursor..cursor + 4]) == FRAME_HEAD_MAGIC;
      var len := FromLE(body[cursor + 4..cursor + 8]);
      var data := cursor + FRAME_HEAD_SIZE;
      r := Rec(FromLE(body[cursor + 8..cursor + 16]), body[data..data + len]);
      cursor := data + len;
      idx := idx + 1;
    }

    /** `unload(); ++page_num_` at the end of a closed page. */
    method LeavePage()
      requires Valid() && open && idx == |disk.log[pageNum]|
      modifies this
      ensures Valid() && !open && idx == 0 && pageNum == old(pageNum) + 1
      ensures Remaining() == old(Remaining())
    {
      hide DiskOk, Flat, Off, Published;
      RestHop(W(), pageNum);
      open := false;
      pageNum := pageNum + 1;
      idx := 0;
    }

    /** `read`: returns the next committed frame, or nothing when there is none. */
    method Read() returns (res: Option<Rec>)
      requires Valid()
      modifies this
      ensures Valid()
      ensures res == if old(Remaining()) == [] then None else Some(old(Remaining())[0])
      ensures Remaining() == if old(Remaining()) == [] then [] else old(Remaining())[1..]
      decreases if pageNum <= |disk.pages| then |disk.pages| - pageNum else 0, !open
    {
      hide DiskOk, Flat, Off, OnPage, FrameAt;
      if open {
        AtCursor();
        var status := disk.pages[pageNum].status;
        if cursor < disk.pages[pageNum].tail {
          var r := TakeFrame();
          return Some(r);
        } else if status == Finish {
          LeavePage();
          var ok := Load(pageNum);
          if ok {
            res := Read();
            return;
          }
        }
      } else {
        var ok := Load(pageNum);
        if ok {
          res := Read();
          return;
        }
      }
      NoneLeft();
      return None;
    }

    /** `getCurFrame`: the frame that `read` would return, without stepping over it. */
    method GetCurFrame() returns (res: Option<Rec>)
      requires Valid()
      modifies this
      ensures Valid() && Remaining() == old(Remaining())
      ensures res == if Remaining() == [] then None else Some(Remaining()[0])
      decreases if pageNum <= |disk.pages| then |disk.pages| - pageNum else 0, !open
    {
      hide DiskOk, Flat, Off, OnPage, FrameAt;
      if open {
        AtCursor();
        var status := disk.pages[pageNum].status;
        if cursor < disk.pages[pageNum].tail {
          var cursor0, idx0 := cursor, idx;
          var r := TakeFrame();
          cursor, idx := cursor0, idx0;
          return Some(r);
        } else if status == Finish {
          LeavePage();
          var ok := Load(pageNum);
          if ok {
            res := GetCurFrame();
            return;
          }
        }
      } else {
        var ok := Load(pageNum);
        if ok {
          res := GetCurFrame();
          return;
        }
      }
      NoneLeft();
      return None;
    }

    /** `passPage`: goes to the next page if the current one is closed, or to the current one if none is mapped. */
    method PassPage() returns (ok: bool)
      requires Valid()
      modifies this
      ensures Valid()
      ensures !old(open) ==> pageNum == old(pageNum) && ok == open &&
                             (ok <==> pageNum < |disk.pages| && Published(disk.pages[pageNum]))
      ensures old(open) && disk.pages[old(pageNum)].status == Writing ==>
                !ok && open && pageNum == old(pageNum) && idx == old(idx) && cursor == old(cursor)
      ensures old(open) && disk.pages[old(pageNum)].status == Finish ==>
                pageNum == old(pageNum) + 1 && ok == open && idx == 0 &&
                (ok <==> pageNum < |disk.pages| && Published(disk.pages[pageNum]))
    {
      if !open {
        ok := Load(pageNum);
        return;
      } else if disk.pages[pageNum].status == Finish {
        open := false;
        pageNum := pageNum + 1;
        idx := 0;
        ok := Load(pageNum);
        return;
      }
      return false;
    }

    /** `cursor_ = buf_ + tail`. */
    method ToTail()
      requires Valid() && open
      modifies this`cursor, this`idx
      ensures Valid() && idx == |disk.log[pageNum]| && cursor == disk.pages[pageNum].tail
    {
      assert PageOk(disk.pages[pageNum], disk.log[pageNum]);
      cursor := disk.pages[pageNum].tail;
      idx := |disk.log[pageNum]|;
      assert disk.log[pageNum][..idx] == disk.log[pageNum];
    }

    lemma AtLastPage()
      requires Valid() && open && disk.pages[pageNum].status == Writing
      ensures pageNum == |disk.log| - 1 && Pos(disk.log, pageNum + 1, 0) <= |Flat(disk.log)|
      ensures Rest(W(), pageNum + 1, 0) == []
    {
      assert pageNum < |disk.pages| - 1 ==> Frozen(disk.pages[pageNum]);
      RestEnd(W(), pageNum + 1, 0);
    }

    /** The frame loop of `seekTime`: it stops at a frame of this page, or at the torn one behind them, with the
        time that the page head carries. No unsigned time stamp is below 0, so that time 0 reads nothing. */
    method SkipBefore(nano: int)
      requires Valid() && open && idx == 0 && nano >= 0 && AllTimesOk(disk.pages, disk.log)
      requires disk.pages[pageNum].lastNano >= nano
      modifies this`cursor, this`idx
      ensures Valid() && Remaining() == DropBefore(old(Remaining()), nano)
    {
      hide DiskOk, Flat, Off, OnPage, FrameAt, AllTimesOk;
      if nano == 0 {
        return;
      }
      HeadWords(nano);
      while FromLE(disk.pages[pageNum].body[cursor + 8..cursor + 16]) < nano
        invariant Valid() && cursor + FRAME_HEAD_SIZE <= |disk.pages[pageNum].body|
        invariant FromLE(disk.pages[pageNum].body[cursor + 8..cursor + 16]) < nano ==> idx < |disk.log[pageNum]|
        invariant idx < |disk.log[pageNum]| ==>
                    FromLE(disk.pages[pageNum].body[cursor + 8..cursor + 16]) == disk.log[pageNum][idx].nano
        invariant DropBefore(Remaining(), nano) == DropBefore(old(Remaining()), nano)
        decreases |disk.log[pageNum]| - idx
      {
        FrameWords();
        ghost var r := TakeFrame();
        HeadWords(nano);
      }
      LateFromHere(nano);
    }

    /** There is a frame head at the cursor: of the next frame, or of a torn one that is late enough. */
    lemma HeadWords(nano: int)
      requires Valid() && open && 0 < nano <= disk.pages[pageNum].lastNano && AllTimesOk(disk.pages, disk.log)
      requires idx > 0 ==> disk.log[pageNum][idx - 1].nano < nano
      ensures cursor + FRAME_HEAD_SIZE <= |disk.pages[pageNum].body|
      ensures idx < |disk.log[pageNum]| ==>
                FromLE(disk.pages[pageNum].body[cursor + 8..cursor + 16]) == disk.log[pageNum][idx].nano
      ensures FromLE(disk.pages[pageNum].body[cursor + 8..cursor + 16]) < nano ==> idx < |disk.log[pageNum]|
    {
      hide Flat, Off, OnPage, FrameAt, PagesInOrder;
      assert TimesOk(disk.pages[pageNum], disk.log[pageNum]);
      if idx < |disk.log[pageNum]| {
        FrameWords();
      } else {
        AtTail();
      }
    }

    lemma AtTail()
      requires Valid() && open && idx == |disk.log[pageNum]|
      ensures cursor == disk.pages[pageNum].tail
    {
      assert disk.log[pageNum][..idx] == disk.log[pageNum];
      assert PageOk(disk.pages[pageNum], disk.log[pageNum]);
    }

    /** At a frame that is late enough, or behind all frames of a page that promises one, nothing is left to skip. */
    lemma LateFromHere(nano: int)
      requires Valid() && open && nano <= disk.pages[pageNum].lastNano && AllTimesOk(disk.pages, disk.log)
      requires idx < |disk.log[pageNum]| ==> disk.log[pageNum][idx].nano >= nano
      ensures DropBefore(Remaining(), nano) == Remaining()
    {
      hide DiskOk, Flat, Off, OnPage, FrameAt, PagesInOrder;
      if idx < |disk.log[pageNum]| {
        FrameWords();
      } else {
        RestHop(W(), pageNum);
        LateBehind(W(), pageNum, nano);
      }
    }

    /** On a page whose head carries an early time there is nothing to stop at. */
    lemma NothingLate(nano: int)
      requires Valid() && open && idx == 0 && AllTimesOk(disk.pages, disk.log) && disk.pages[pageNum].lastNano < nano
      ensures DropBefore(Remaining(), nano) == DropBefore(From(pageNum + 1), nano)
    {
      hide DiskOk, Flat, DropBefore, TimesOk, PagesInOrder, OnPage;
      AllBefore(W(), pageNum, nano);
      if pageNum + 1 == |disk.log| {
        RestEnd(W(), pageNum + 1, 0);
        assert Rest(W(), pageNum + 1, 0) == [];
      }
    }

    /** The page loop of `seekTime`: stops at the first page that promises a frame at or after nano. */
    method FindPage(nano: int) returns (found: bool)
      requires Valid() && open && idx == 0 && AllTimesOk(disk.pages, disk.log)
      modifies this
      ensures Valid() && DropBefore(Remaining(), nano) == DropBefore(old(Remaining()), nano)
      ensures found ==> open && idx == 0 && disk.pages[pageNum].lastNano >= nano
      ensures !found ==> Remaining() == []
    {
      hide DiskOk, Flat, Off, OnPage, FrameAt, DropBefore, AllTimesOk, Pos;
      while disk.pages[pageNum].lastNano < nano
        invariant Valid() && open && idx == 0
        invariant DropBefore(Remaining(), nano) == DropBefore(old(Remaining()), nano)
        decreases |disk.pages| - pageNum
      {
        NothingLate(nano);
        var ok := PassPage();
        if !ok {
          if open {
            AtLastPage();
            ToTail();
          }
          NoneLeft();
          return false;
        }
      }
      return true;
    }

    /** `seekTime`, from a freshly mapped page: a negative time skips the rest of the page, any other
        time skips exactly the frames before it. */
    method SeekTime(nano: int)
      requires Valid() && open && idx == 0 && AllTimesOk(disk.pages, disk.log)
      modifies this
      ensures Valid()
      ensures nano < 0 ==> open && pageNum == old(pageNum) && idx == |disk.log[pageNum]|
      ensures nano >= 0 ==> Remaining() == DropBefore(old(Remaining()), nano)
    {
      hide DiskOk, Flat, Off, OnPage, FrameAt;
      if nano < 0 {
        ToTail();
        return;
      }
      var found := FindPage(nano);
      if found {
        SkipBefore(nano);
      }
    }

    lemma AtPageEnd(p: nat)
      requires Valid() && open && pageNum == p && idx == |disk.log[p]|
      ensures Remaining() == From(p + 1)
    {
      RestHop(W(), p);
      if p + 1 == |disk.log| {
        RestEnd(W(), p, idx);
      }
    }

    /** That is, page after page. */
    lemma FromNext(page: nat)
      requires Valid() && page < |disk.log|
      ensures From(page) == disk.log[page] + From(page + 1)
    {
      RestSplit(W(), page, 0);
      assert disk.log[page][0..] == disk.log[page];
      if page + 1 == |disk.log| { RestEnd(W(), page + 1, 0); }
    }

    /** What is on the last page, if there is one, and behind it nothing. */
    lemma FromLast(page: nat)
      requires Valid()
      ensures |disk.pages| == |disk.log|
      ensures page + 1 == |disk.log| ==> From(page) == disk.log[page]
      ensures page >= |disk.log| ==> From(page) == []
    {
      if page + 1 == |disk.log| {
        RestSplit(W(), page, 0);
        RestEnd(W(), page + 1, 0);
        assert disk.log[page][0..] == disk.log[page];
      }
    }

    /** `init` with a start page and a start time: the next frame read is the first one at or after that time from that
        page on; with a negative time, the first one stored behind that page. Without a start page it is the latest one:
        with a negative time, nothing that is there is read, and otherwise what is late enough on the latest page. */
    method Init(fromPage: int, nano: int)
      requires Valid() && AllTimesOk(disk.pages, disk.log)
      modifies this
      ensures Valid() && |disk.log| == |disk.pages|
      ensures fromPage >= 0 && nano >= 0 ==> Remaining() == DropBefore(From(fromPage), nano)
      ensures fromPage >= 0 && nano < 0 ==> Remaining() == From(fromPage + 1)
      ensures fromPage < 0 && nano >= 0 ==>
                Remaining() == if disk.log == [] then [] else DropBefore(disk.log[|disk.log| - 1], nano)
      ensures fromPage < 0 && nano < 0 ==> Remaining() == []
      ensures fromPage >= |disk.pages| ==> !open
    {
      hide DiskOk, Flat, Off, OnPage, FrameAt, AllTimesOk;
      open, idx := false, 0;
      pageNum := if fromPage >= 0 then fromPage else if |disk.pages| == 0 then 0 else |disk.pages| - 1;
      FromLast(pageNum);
      FromLast(pageNum + 1);
      var ok := Load(pageNum);
      if ok {
        ghost var p := pageNum;
        SeekTime(nano);
        if nano < 0 {
          AtPageEnd(p);
        }
      } else {
        NoneLeft();
      }
    }
  }
}
