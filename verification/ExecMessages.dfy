/**
 * What messages, looks and exits do to the orders and to the books of an execution order, said without the code's own
 * steps.
 */
module ExecMessages {
  import opened ExecModel
  import opened ExecSafety
  import opened ExecHeld

  // ---------------------------------------------------------------- what a message says

  /** The order a message is about, before and after. */
  predicate Booked(o: Track, t: Track, msg: Rtn) {
    && t.owner == o.owner && t.price == o.price && t.vol == o.vol && t.cxling == o.cxling
    && t.traded == o.traded + (if msg.kind == Execution then msg.vol else 0)
    && (t.acked <==> o.acked || msg.kind == Accepted || msg.kind == Execution)
    && (t.live <==> o.live && msg.kind != Canceled && msg.kind != Rejected && t.traded < t.vol)
  }

  /** The order is over: it leaves its slot. */
  predicate Frees(o: Track, msg: Rtn) {
    msg.kind == Canceled || (msg.kind == Execution && o.traded + msg.vol == o.vol)
  }

  /** The last counted order was cancelled while something is wanted and left. */
  predicate Resends(e: Exec, msg: Rtn) {
    msg.kind == Canceled && e.size == 1 && e.best > 0 && e.total > 0
  }

  /** The volume that is sent again: what was wanted, or what is left if that is less. */
  predicate Again(e: Exec, v: int) {
    v <= e.best && v <= e.total && (v == e.best || v == e.total)
  }

  /** What a message does to the counters of the execution order that holds its order; v is what was sent again. */
  predicate CountersAfter(e: Exec, x: Exec, o: Track, msg: Rtn, v: int) {
    && x.ordering == e.ordering && x.exited == e.exited && x.best == e.best && x.bestPrice == e.bestPrice
    && x.total == e.total - (if msg.kind == Execution then msg.vol else 0)
    && x.placed == e.placed - (if msg.kind == Execution || msg.kind == Canceled then msg.vol else 0) + v
    && x.size == e.size - (if Frees(o, msg) then 1 else 0) + (if Resends(e, msg) then 1 else 0)
  }

  /**
   * And to its slots: the order's own one is cleared when it is over, the first one takes the answer to what was sent
   * again.
   */
  predicate SlotsLeft(e: Exec, x: Exec, o: Track, msg: Rtn, answer: int) {
    && |x.slots| == |e.slots|
    && forall k | 0 <= k < |e.slots| ::
         x.slots[k] == if k == 0 && Resends(e, msg) then answer
                       else if e.slots[k] == msg.id && Frees(o, msg) then -1 else e.slots[k]
  }

  /** The orders on record behind a message: its own one is booked, the others are as they were. */
  predicate Recorded(tracks: seq<Track>, t: seq<Track>, msg: Rtn)
    requires msg.id < |tracks|
  {
    && |tracks| <= |t| && Booked(tracks[msg.id], t[msg.id], msg)
    && forall k | 0 <= k < |tracks| && k != msg.id :: t[k] == tracks[k]
  }

  // ---------------------------------------------------------------- what a message does

  lemma MessageRecorded(tracks: seq<Track>, msg: Rtn, n: nat)
    requires msg.id < |tracks| && LegalFor(tracks[msg.id], msg) && TracksOk(tracks, n)
    ensures Recorded(tracks, After(tracks, msg), msg) && |After(tracks, msg)| == |tracks|
  {
    assert TrackOk(tracks[msg.id], n);
  }

  lemma OwnerOf(s: Sys, id: nat)
    requires SysOk(s) && id < |s.tracks|
    ensures s.tracks[id].owner < |s.execs|
  {
    hide TracksOk, ExecOk;
    OwnerIn(s.tracks, id, |s.execs|);
  }

  /** The holder of an order is the execution order that sent it, if the order is in one of its slots. */
  lemma HolderIs(s: Sys, id: nat)
    requires SysOk(s) && id < |s.tracks|
    ensures s.tracks[id].owner < |s.execs|
    ensures var o := s.tracks[id].owner;
      Holder(s.execs, id, 0) == if id in s.execs[o].slots then o else |s.execs|
  {
    hide SysOk, ExecOk;
    OwnerOf(s, id);
    var o, h := s.tracks[id].owner, Holder(s.execs, id, 0);
    if h < |s.execs| {
      ExecFine(s, h);
      OwnerHolds(s.tracks, s.execs[h], s.requested[h], h, SlotOf(s.execs[h].slots, id));
    } else {
      NotHeld(s.execs[o].slots, id);
    }
  }

  lemma NotHeld(slots: seq<int>, id: int)
    requires SlotOf(slots, id) == |slots|
    ensures id !in slots
  {}

  /** An order is in one slot at most. */
  lemma OneSlot(tracks: seq<Track>, e: Exec, requested: int, i: nat, id: nat, k: nat)
    requires ExecOk(tracks, e, requested, i) && k < |e.slots| && e.slots[k] == id
    ensures |e.slots| == MAX_OUTSTANDING_ORDERS && forall j | 0 <= j < |e.slots| && j != k :: e.slots[j] != id
  {}

  /** What a message does where its order is held. */
  predicate HeldMessage(s: Sys, t: Sys, msg: Rtn, reply: int, o: nat)
    requires msg.id < |s.tracks| && o < |s.execs|
  {
    && OthersSame(s, t, o)
    && var e, x := s.execs[o], t.execs[o];
    if Resends(e, msg) && reply >= 0 then
      && |t.tracks| == |s.tracks| + 1
      && var v := t.tracks[|s.tracks|].vol;
      t.tracks[|s.tracks|] == Track(o, e.bestPrice, v, 0, true, false, false) && Again(e, v) &&
      CountersAfter(e, x, s.tracks[msg.id], msg, v) && SlotsLeft(e, x, s.tracks[msg.id], msg, |s.tracks|)
    else
      && |t.tracks| == |s.tracks|
      && CountersAfter(e, x, s.tracks[msg.id], msg, 0) && SlotsLeft(e, x, s.tracks[msg.id], msg, reply)
  }

  /**
   * What a legal message about any order does, from any state that a run can reach. Its order's record is brought up to date
   * and no other one changes. If the order is in a slot of the execution order that sent it, that one's counters and slots
   * follow, and exactly when the last counted order was cancelled with something wanted and left, and the reply is no
   * refusal, one more order is on record: at the wanted price, for what was wanted or what is left if that is less.
   * If it is in no slot any more, nothing else happens.
   */
  lemma MessageDoes(s: Sys, msg: Rtn, reply: int)
    requires SysOk(s) && Shape(s) && msg.id < |s.tracks| && LegalFor(s.tracks[msg.id], msg)
    ensures var t, o := OnRtn(s, msg, reply), s.tracks[msg.id].owner;
      o < |s.execs| && Recorded(s.tracks, t.tracks, msg) && t.requested == s.requested &&
      if msg.id in s.execs[o].slots then HeldMessage(s, t, msg, reply, o)
      else t.execs == s.execs && |t.tracks| == |s.tracks|
  {
    hide SysOk, TracksOk, ExecOk, LegalFor, Recorded, HeldMessage, Tracked;
    HolderIs(s, msg.id);
    TracksFine(s);
    MessageRecorded(s.tracks, msg, |s.execs|);
    var o := s.tracks[msg.id].owner;
    if msg.id in s.execs[o].slots {
      ExecFine(s, o);
      OneSlot(s.tracks, s.execs[o], s.requested[o], o, msg.id, SlotOf(s.execs[o].slots, msg.id));
      match msg.kind
      case Canceled => CancelDoes(s, msg, reply, o);
      case _ => FillDoes(s, msg, reply, o);
    }
  }

  lemma FillDoes(s: Sys, msg: Rtn, reply: int, o: nat)
    requires Shape(s) && msg.id < |s.tracks| && msg.kind != Canceled
    requires o == Holder(s.execs, msg.id, 0) < |s.execs|
    requires forall j | 0 <= j < |s.execs[o].slots| && j != SlotOf(s.execs[o].slots, msg.id) :: s.execs[o].slots[j] != msg.id
    requires Recorded(s.tracks, After(s.tracks, msg), msg) && |After(s.tracks, msg)| == |s.tracks|
    ensures var t := OnRtn(s, msg, reply);
      HeldMessage(s, t, msg, reply, o) && Recorded(s.tracks, t.tracks, msg) && t.requested == s.requested
  {}

  /** The branches of a cancel. */
  lemma CancelDoes(s: Sys, msg: Rtn, reply: int, o: nat)
    requires SysOk(s) && Shape(s) && msg.id < |s.tracks| && LegalFor(s.tracks[msg.id], msg) && msg.kind == Canceled
    requires o == Holder(s.execs, msg.id, 0) < |s.execs|
    requires forall j | 0 <= j < |s.execs[o].slots| && j != SlotOf(s.execs[o].slots, msg.id) :: s.execs[o].slots[j] != msg.id
    requires Recorded(s.tracks, After(s.tracks, msg), msg) && |After(s.tracks, msg)| == |s.tracks|
    ensures var t := OnRtn(s, msg, reply);
      HeldMessage(s, t, msg, reply, o) && Recorded(s.tracks, t.tracks, msg) && t.requested == s.requested
  {
    RtnCanceled(s, msg, reply, o);
    hide SysOk, TracksOk, ExecOk, LegalFor, Tracked, OnRtn, Holder, SlotOf, HeldMessage, After, OnCanceled;
    TracksFine(s);
    ExecFine(s, o);
    var k := SlotOf(s.execs[o].slots, msg.id);
    CanceledOk(s.tracks, msg, s.execs[o], s.requested[o], o, k, |s.execs|);
    assert s.execs[o].slots[k] == msg.id;
    CanceledBooks(s, After(s.tracks, msg), msg, reply, o, k);
    CanceledRecord(s, After(s.tracks, msg), msg, reply, o, k);
  }

  lemma CanceledBooks(s: Sys, tracks: seq<Track>, msg: Rtn, reply: int, o: nat, k: nat)
    requires o < |s.execs| && k < |s.execs[o].slots| == MAX_OUTSTANDING_ORDERS && msg.id < |s.tracks| == |tracks|
    requires msg.kind == Canceled && !s.execs[o].exited && s.execs[o].slots[k] == msg.id
    requires forall j | 0 <= j < |s.execs[o].slots| && j != k :: s.execs[o].slots[j] != msg.id
    ensures HeldMessage(s, OnCanceled(s.(tracks := tracks), o, k, msg.vol, reply), msg, reply, o)
  {}

  lemma CanceledRecord(s: Sys, tracks: seq<Track>, msg: Rtn, reply: int, o: nat, k: nat)
    requires o < |s.execs| && k < |s.execs[o].slots| == MAX_OUTSTANDING_ORDERS && msg.id < |s.tracks| == |tracks|
    requires Recorded(s.tracks, tracks, msg)
    ensures var t := OnCanceled(s.(tracks := tracks), o, k, msg.vol, reply);
      Recorded(s.tracks, t.tracks, msg) && t.requested == s.requested
  {
    hide Booked;
  }

  /** The order record behind a new order: all the earlier ones are as they were. */
  lemma MessageSends(s: Sys, msg: Rtn, reply: int)
    requires SysOk(s) && Shape(s) && msg.id < |s.tracks| && LegalFor(s.tracks[msg.id], msg)
    ensures var t, o := OnRtn(s, msg, reply), s.tracks[msg.id].owner;
      o < |s.execs| && |t.tracks| >= |s.tracks| &&
      (|t.tracks| == |s.tracks| + 1 <==> reply >= 0 && msg.id in s.execs[o].slots && Resends(s.execs[o], msg)) &&
      (|t.tracks| != |s.tracks| ==>
        exists v :: Again(s.execs[o], v) &&
                    t.tracks[|s.tracks|..] == [Track(o, s.execs[o].bestPrice, v, 0, true, false, false)])
  {
    hide SysOk, LegalFor, OnRtn, Recorded, Again, Resends;
    MessageDoes(s, msg, reply);
    var t, o := OnRtn(s, msg, reply), s.tracks[msg.id].owner;
    if |t.tracks| != |s.tracks| {
      var v := t.tracks[|s.tracks|].vol;
      assert Again(s.execs[o], v) && t.tracks[|s.tracks|..] == [Track(o, s.execs[o].bestPrice, v, 0, true, false, false)];
    }
  }

  // ---------------------------------------------------------------- cancel requests

  /** The trade helper can ask for this order to be cancelled. */
  predicate Cancellable(t: Track) {
    t.acked && t.live
  }

  /** Order id stands in a slot from k on. */
  predicate StandsIn(slots: seq<int>, id: nat, k: nat) {
    exists m :: k <= m < |slots| && slots[m] == id
  }

  /** Cancel requests go out for exactly the orders in these slots, away from this price, that can be cancelled. */
  lemma {:induction false} CancelRequests(tracks: seq<Track>, slots: seq<int>, price: int, k: nat, status: int, id: nat)
    requires k <= |slots| && id < |tracks|
    ensures var t := CancelFrom(tracks, slots, price, k, status).0;
      |t| == |tracks| && t[id] == tracks[id].(cxling := tracks[id].cxling ||
        (StandsIn(slots, id, k) && tracks[id].price != price && Cancellable(tracks[id])))
    decreases |slots| - k
  {
    if k < |slots| {
      assert StandsIn(slots, id, k) <==> slots[k] == id || StandsIn(slots, id, k + 1);
      if 0 <= slots[k] < |tracks| && tracks[slots[k]].price != price {
        var d := DeleteOrder(tracks, slots[k]);
        CancelRequests(d.0, slots, price, k + 1, d.1, id);
      } else {
        CancelRequests(tracks, slots, price, k + 1, status, id);
      }
    }
  }

  lemma {:induction false} ExitRequests(tracks: seq<Track>, slots: seq<int>, k: nat, id: nat)
    requires k <= |slots| && id < |tracks|
    ensures var t := ExitCancels(tracks, slots, k);
      |t| == |tracks| && t[id] == tracks[id].(cxling := tracks[id].cxling || (StandsIn(slots, id, k) && Cancellable(tracks[id])))
    decreases |slots| - k
  {
    if k < |slots| {
      assert StandsIn(slots, id, k) <==> slots[k] == id || StandsIn(slots, id, k + 1);
      ExitRequests(if slots[k] != -1 then DeleteOrder(tracks, slots[k]).0 else tracks, slots, k + 1, id);
    }
  }

  /**
   * Nothing but the cancel marks has changed, and those are new for exactly the held orders that can be cancelled and
   * for which P is said.
   */
  predicate Requested(tracks: seq<Track>, t: seq<Track>, slots: seq<int>, away: bool, price: int) {
    && |tracks| <= |t|
    && forall id | 0 <= id < |tracks| :: t[id] == tracks[id].(cxling := tracks[id].cxling ||
         (id in slots && Cancellable(tracks[id]) && (away ==> tracks[id].price != price)))
  }

  /** An exit that is due: the execution order is not finished, its end has passed, and something is left. */
  predicate Due(e: Exec, expired: bool) {
    e.ordering && expired && e.total > 0
  }

  /** What an exit does: cancel requests for all that is held, nothing held or left any more, and no order from then on. */
  lemma ExitDoes(s: Sys, i: nat, expired: bool)
    requires i < |s.execs| && |s.execs[i].slots| == MAX_OUTSTANDING_ORDERS
    ensures var e, t := s.execs[i], Leave(s, i, expired);
      if Due(e, expired) then
        OthersSame(s, t, i) && t.requested == s.requested &&
        |t.tracks| == |s.tracks| && Requested(s.tracks, t.tracks, e.slots, false, 0) &&
        !t.execs[i].ordering && t.execs[i].total == 0 && t.execs[i].size == 0 && t.execs[i].placed == e.placed &&
        (forall k | 0 <= k < |t.execs[i].slots| :: t.execs[i].slots[k] == -1) &&
        (t.execs[i].exited <==> e.exited || exists k :: 0 <= k < |e.slots| && e.slots[k] != -1)
      else t == s
  {
    hide ExitCancels, DeleteOrder;
    var e := s.execs[i];
    ExitFlags(s.tracks, e.slots, 0);
    forall id | 0 <= id < |s.tracks|
      ensures ExitCancels(s.tracks, e.slots, 0)[id] ==
              s.tracks[id].(cxling := s.tracks[id].cxling || (id in e.slots && Cancellable(s.tracks[id])))
    {
      ExitRequests(s.tracks, e.slots, 0, id);
    }
  }

  // ---------------------------------------------------------------- looks

  /** The best volume: all that is left when it is late, else what the models say or what is left if that is less. */
  predicate BestFound(total: int, best: int, q: Quote) {
    if q.late then best == total else best <= q.vol && best <= total && (best == q.vol || best == total)
  }

  /** The answer to a sent order is kept in the first slot that holds no positive id. */
  predicate AnswerKept(slots: seq<int>, x: seq<int>, answer: int) {
    exists k :: 0 <= k < |slots| && slots[k] <= 0 && (forall j | 0 <= j < k :: slots[j] > 0) && x == slots[k := answer]
  }

  /**
   * From s to t, execution order i was looked at with this price for the best one. Cancel requests went out for exactly the
   * held orders away from it that can be cancelled. If none is away from it, fewer than six are counted and more is wanted
   * than placed, the difference was sent at that price, and the answer, an id or a refusal, was kept and counted.
   */
  predicate LookedAt(s: Sys, t: Sys, i: nat, price: int, reply: int)
    requires i < |s.execs|
  {
    && OthersSame(s, t, i) && t.requested == s.requested && Requested(s.tracks, t.tracks, s.execs[i].slots, true, price)
    && var e, x := s.execs[i], t.execs[i];
    var v := x.best - e.placed;
    && x.bestPrice == price && x.total == e.total && x.ordering == e.ordering && x.exited == e.exited
    && if AtPrice(s.tracks, e.slots, price, 0) && v > 0 && e.size < MAX_OUTSTANDING_ORDERS then
         x.size == e.size + 1 && AnswerKept(e.slots, x.slots, if reply < 0 then reply else |s.tracks|) &&
         if reply < 0 then x.placed == e.placed && t.tracks == s.tracks
         else x.placed == e.placed + v && t.tracks == s.tracks + [Track(i, price, v, 0, true, false, false)]
       else x.size == e.size && x.slots == e.slots && x.placed == e.placed && |t.tracks| == |s.tracks|
  }

  /** What a look at an unfinished execution order does, from any state that a run can reach. */
  lemma LookDoes(s: Sys, i: nat, q: Quote, reply: int)
    requires SysOk(s) && i < |s.execs| && s.execs[i].ordering
    ensures |s.execs[i].slots| == MAX_OUTSTANDING_ORDERS
    ensures var t := Look(s, i, q, reply);
      LookedAt(s, t, i, q.price, reply) && BestFound(s.execs[i].total, t.execs[i].best, q)
  {
    hide SysOk, TracksOk, CancelFrom, FreeSlot, AtPrice, Exposure, Rests, Occupied, FlagsOnly, Requested, Place;
    ExecFine(s, i);
    var e := BestOf(s.execs[i], q);
    assert ExecOk(s.tracks, e, s.requested[i], i);
    PlaceDoes(s.(execs := s.execs[i := e]), i, reply, s.requested[i]);
  }

  lemma PlaceDoes(s: Sys, i: nat, reply: int, requested: int)
    requires i < |s.execs| && s.execs[i].ordering && ExecOk(s.tracks, s.execs[i], requested, i)
    ensures |s.execs[i].slots| == MAX_OUTSTANDING_ORDERS
    ensures var t := Place(s, i, reply);
      LookedAt(s, t, i, s.execs[i].bestPrice, reply) && t.execs[i].best == s.execs[i].best
  {
    hide CancelFrom, FreeSlot, AtPrice, Exposure, Rests, Occupied, Requested;
    var e := s.execs[i];
    CancelFlags(s.tracks, e.slots, e.bestPrice, 0, 1);
    LookRequests(s.tracks, e, i, e.bestPrice);
    ScanStops(e.slots);
    if e.size == 0 {
      NoneAtHand(s.tracks, e, requested, i);
      NothingPlaced(s.tracks, e, requested, i);
      assert e.slots[0] <= 0;
    } else if e.size < MAX_OUTSTANDING_ORDERS {
      ScanInBounds(s.tracks, e, requested, i);
    }
  }

  /**
   * What opening an execution order does: the others are left alone, and the best volume, if there is any, is sent at
   * once.
   */
  lemma OpenDoes(s: Sys, requested: int, q: Quote, reply: int)
    requires SysOk(s) && Shape(s)
    ensures var t, n := Step(s, Open(requested, q, reply)), |s.execs|;
      && |t.execs| == n + 1 && t.execs[..n] == s.execs && t.requested == s.requested + [requested]
      && var x := t.execs[n];
      && BestFound(requested, x.best, q) && x.bestPrice == q.price && x.total == requested && x.ordering && !x.exited
      && |x.slots| == MAX_OUTSTANDING_ORDERS && (forall k | 0 < k < |x.slots| :: x.slots[k] == -1)
      && if x.best > 0 then
           x.size == 1 && x.slots[0] == (if reply < 0 then reply else |s.tracks|) &&
           if reply < 0 then x.placed == 0 && t.tracks == s.tracks
           else x.placed == x.best && t.tracks == s.tracks + [Track(n, q.price, x.best, 0, true, false, false)]
         else x.size == 0 && x.slots[0] == -1 && x.placed == 0 && t.tracks == s.tracks
  {
    hide SysOk, Look, Requested;
    EnteredOk(s, requested);
    var s1, n := Entered(s, requested), |s.execs|;
    LookDoes(s1, n, q, reply);
    var t := Look(s1, n, q, reply);
    assert t.execs[..n] == s.execs;
    assert EMPTY_SLOTS[0] == -1;
    if |t.tracks| == |s.tracks| {
      NoRequests(s.tracks, t.tracks, q.price);
    }
  }

  lemma NoRequests(tracks: seq<Track>, t: seq<Track>, price: int)
    requires Requested(tracks, t, EMPTY_SLOTS, true, price) && |t| == |tracks|
    ensures t == tracks
  {}

  lemma NothingPlaced(tracks: seq<Track>, e: Exec, requested: int, i: nat)
    requires ExecOk(tracks, e, requested, i) && e.ordering && e.size == 0
    ensures e.placed == 0
  {
    hide Exposure;
    NoneOccupied(tracks, e.slots, |e.slots|);
  }

  /** Also when nothing is held, and the look asks nobody. */
  lemma LookRequests(tracks: seq<Track>, e: Exec, i: nat, price: int)
    ensures Requested(tracks, CancelFrom(tracks, e.slots, price, 0, 1).0, e.slots, true, price)
    ensures AtPrice(tracks, e.slots, price, 0) ==> forall t | tracks <= t :: Requested(tracks, t, e.slots, true, price)
  {
    hide CancelFrom, DeleteOrder;
    var t := CancelFrom(tracks, e.slots, price, 0, 1).0;
    forall id | 0 <= id < |tracks|
      ensures |t| == |tracks| && t[id] == tracks[id].(cxling := tracks[id].cxling ||
        (id in e.slots && Cancellable(tracks[id]) && tracks[id].price != price))
    {
      CancelRequests(tracks, e.slots, price, 0, 1, id);
    }
    CancelFlags(tracks, e.slots, price, 0, 1);
  }
}
