/** Which live orders an execution order still finds in its slots. */
module ExecHeld {
  import opened ExecModel
  import opened ExecSafety

  // ---------------------------------------------------------------- slots that are in order

  /** The orders in the slots all rest at one price. */
  predicate OnePrice(tracks: seq<Track>, slots: seq<int>) {
    forall j, k | 0 <= j < |slots| && 0 <= k < |slots| && 0 <= slots[j] < |tracks| && 0 <= slots[k] < |tracks| ::
      tracks[slots[j]].price == tracks[slots[k]].price
  }

  /** One price, order 0 in no slot but the first, and every other live order of execution order i in some slot. */
  predicate Tidy(tracks: seq<Track>, slots: seq<int>, i: nat) {
    && OnePrice(tracks, slots)
    && (forall k | 0 < k < |slots| :: slots[k] != 0)
    && forall id | 1 <= id < |tracks| && tracks[id].live && tracks[id].owner == i :: id in slots
  }

  predicate AllTidy(s: Sys) {
    forall i | 0 <= i < |s.execs| && s.execs[i].ordering :: Tidy(s.tracks, s.execs[i].slots, i)
  }

  /** No order changes its price or comes back to life, and none was sent for execution order i. */
  predicate Kept(t: seq<Track>, t': seq<Track>, i: nat) {
    && |t| <= |t'|
    && (forall k | 0 <= k < |t| :: t'[k].price == t[k].price && t'[k].owner == t[k].owner && (t'[k].live ==> t[k].live))
    && (forall k | |t| <= k < |t'| :: t'[k].owner != i)
  }

  predicate Known(tracks: seq<Track>, slots: seq<int>) {
    forall k | 0 <= k < |slots| :: slots[k] < |tracks|
  }

  lemma TidyKept(t: seq<Track>, t': seq<Track>, slots: seq<int>, i: nat)
    requires Tidy(t, slots, i) && Kept(t, t', i) && Known(t, slots)
    ensures Tidy(t', slots, i)
  {}

  lemma TidySent(tracks: seq<Track>, slots: seq<int>, i: nat, k: nat, t: Track)
    requires Tidy(tracks, slots, i) && Known(tracks, slots) && AtPrice(tracks, slots, t.price, 0)
    requires k < |slots| && slots[k] <= 0 && (tracks == [] ==> k == 0)
    ensures Tidy(tracks + [t], slots[k := |tracks|], i)
  {
    TidyIds(tracks, slots, i, k, |tracks|);
    assert slots[k := |tracks|][k] == |tracks|;
  }

  /** Writing over a slot that holds no order but perhaps order 0 takes no other order out. */
  lemma TidyIds(tracks: seq<Track>, slots: seq<int>, i: nat, k: nat, id: int)
    requires Tidy(tracks, slots, i) && k < |slots| && (slots[k] <= 0 || (slots[k] < |tracks| && !tracks[slots[k]].live))
    ensures forall o | 1 <= o < |tracks| && tracks[o].live && tracks[o].owner == i :: o in slots[k := id]
  {
    forall o | 1 <= o < |tracks| && tracks[o].live && tracks[o].owner == i ensures o in slots[k := id] {
      var m :| 0 <= m < |slots| && slots[m] == o;
      assert slots[k := id][m] == o;
    }
  }

  /** A refused order, or an order that is over and leaves its slot. */
  lemma TidyGone(tracks: seq<Track>, slots: seq<int>, i: nat, k: nat, id: int)
    requires Tidy(tracks, slots, i) && k < |slots| && (slots[k] <= 0 || (slots[k] < |tracks| && !tracks[slots[k]].live)) && id < 0
    ensures Tidy(tracks, slots[k := id], i)
  {
    TidyIds(tracks, slots, i, k, id);
  }

  // ---------------------------------------------------------------- what the steps do to the slots

  /** The slot in which the answer is kept. */
  function Target(e: Exec): nat { if e.size == 0 then 0 else FreeSlot(e.slots) }

  /** Execution order i of s has had an order sent and its answer kept in slot k of slots. */
  predicate SlotTaken(s: Sys, t: Sys, i: nat, slots: seq<int>, k: nat, price: int)
    requires i < |s.execs|
  {
    && i < |t.execs| && k < |slots| && |t.execs[i].slots| == |slots| && t.execs[i].slots == slots[k := t.execs[i].slots[k]]
    && if t.execs[i].slots[k] < 0 then FlagsOnly(s.tracks, t.tracks)
       else t.execs[i].slots[k] == |s.tracks| && |t.tracks| == |s.tracks| + 1 && t.tracks[|s.tracks|].price == price
            && t.tracks[|s.tracks|].owner == i && t.tracks[..|s.tracks|] == s.tracks
  }

  predicate OthersSame(s: Sys, t: Sys, i: nat) {
    |t.execs| == |s.execs| && forall j | 0 <= j < |s.execs| && j != i :: t.execs[j] == s.execs[j]
  }

  lemma SendTakes(s: Sys, i: nat, k: nat, vol: int, reply: int)
    requires i < |s.execs| && k < |s.execs[i].slots|
    ensures var t := SendInto(s, i, k, vol, reply);
      OthersSame(s, t, i) && t.execs[i].ordering == s.execs[i].ordering &&
      SlotTaken(s, t, i, s.execs[i].slots, k, s.execs[i].bestPrice)
  {}

  lemma PlaceSlots(s: Sys, i: nat, reply: int)
    requires SysOk(s) && i < |s.execs| && s.execs[i].ordering
    ensures |s.execs[i].slots| == MAX_OUTSTANDING_ORDERS
    ensures var e, t := s.execs[i], Place(s, i, reply);
      OthersSame(s, t, i) && t.execs[i].ordering &&
      if Tries(s.tracks, e) then
        Target(e) < |e.slots| && e.slots[Target(e)] <= 0 && AtPrice(s.tracks, e.slots, e.bestPrice, 0)
        && (s.tracks == [] ==> Target(e) == 0) && SlotTaken(s, t, i, e.slots, Target(e), e.bestPrice)
      else t.execs == s.execs && FlagsOnly(s.tracks, t.tracks)
  {
    hide CancelFrom, AtPrice, Exposure, Rests, Occupied, TracksOk;
    var e := s.execs[i];
    assert ExecOk(s.tracks, e, s.requested[i], i);
    CancelFlags(s.tracks, e.slots, e.bestPrice, 0, 1);
    if e.size == 0 {
      NoneAtHand(s.tracks, e, s.requested[i], i);
    } else if e.size < MAX_OUTSTANDING_ORDERS {
      ScanInBounds(s.tracks, e, s.requested[i], i);
      ScanStops(e.slots);
    }
  }

  predicate NoneHeld(slots: seq<int>) {
    forall k | 0 <= k < |slots| :: slots[k] < 0
  }

  lemma NoneAtHand(tracks: seq<Track>, e: Exec, requested: int, i: nat)
    requires ExecOk(tracks, e, requested, i) && e.ordering && e.size == 0
    ensures |e.slots| == MAX_OUTSTANDING_ORDERS && NoneHeld(e.slots)
    ensures AtPrice(tracks, e.slots, e.bestPrice, 0)
  {
    hide Exposure, Rests, Occupied;
    NoneOccupied(tracks, e.slots, |e.slots|);
  }

  lemma SlotsKnown(s: Sys, i: nat)
    requires SysOk(s) && i < |s.execs|
    ensures Known(s.tracks, s.execs[i].slots) && |s.execs[i].slots| == MAX_OUTSTANDING_ORDERS
  {
    hide CountersOk, Exposure;
    assert ExecOk(s.tracks, s.execs[i], s.requested[i], i);
  }

  /** A slot is taken: that execution order's slots stay in order, and nobody else is concerned. */
  lemma TakenTidy(s: Sys, t: Sys, i: nat, slots: seq<int>, k: nat, price: int, j: nat)
    requires i < |s.execs| && j < |s.execs| && SlotTaken(s, t, i, slots, k, price) && OthersSame(s, t, i)
    requires Known(s.tracks, slots) && slots[k] <= 0 && (s.tracks == [] ==> k == 0) && AtPrice(s.tracks, slots, price, 0)
    requires if j == i then Tidy(s.tracks, slots, i) else Tidy(s.tracks, s.execs[j].slots, j) && Known(s.tracks, s.execs[j].slots)
    ensures Tidy(t.tracks, t.execs[j].slots, j)
  {
    hide Tidy, AtPrice;
    if j != i {
      TidyKept(s.tracks, t.tracks, s.execs[j].slots, j);
    } else if t.execs[i].slots[k] < 0 {
      TidyKept(s.tracks, t.tracks, slots, i);
      TidyGone(t.tracks, slots, i, k, t.execs[i].slots[k]);
    } else {
      TidySent(s.tracks, slots, i, k, t.tracks[|s.tracks|]);
      assert t.tracks == s.tracks + [t.tracks[|s.tracks|]];
    }
  }

  lemma PlaceTidy(s: Sys, i: nat, reply: int)
    requires SysOk(s) && AllTidy(s) && i < |s.execs| && s.execs[i].ordering
    ensures |s.execs[i].slots| == MAX_OUTSTANDING_ORDERS && AllTidy(Place(s, i, reply))
  {
    hide SysOk, Tidy, Tries, Place, SlotTaken, AtPrice, FlagsOnly, Known;
    PlaceSlots(s, i, reply);
    var e, t := s.execs[i], Place(s, i, reply);
    forall j | 0 <= j < |t.execs| && t.execs[j].ordering ensures Tidy(t.tracks, t.execs[j].slots, j) {
      SlotsKnown(s, i);
      SlotsKnown(s, j);
      if Tries(s.tracks, e) {
        TakenTidy(s, t, i, e.slots, Target(e), e.bestPrice, j);
      } else {
        FlagsKept(s.tracks, t.tracks, j);
        TidyKept(s.tracks, t.tracks, s.execs[j].slots, j);
      }
    }
  }

  lemma FlagsKept(t: seq<Track>, t': seq<Track>, i: nat)
    requires FlagsOnly(t, t')
    ensures Kept(t, t', i)
  {}

  // ---------------------------------------------------------------- messages

  /** What a message about a live order leaves in the slots of the execution order that sent it. */
  predicate SlotsAfter(s: Sys, t: Sys, msg: Rtn, o: nat)
    requires msg.id < |s.tracks| && o < |s.execs|
  {
    o < |t.execs| &&
    var slots, tracks := s.execs[o].slots, After(s.tracks, msg);
    var k := SlotOf(slots, msg.id);
    (t.execs[o].slots == slots && t.tracks == tracks) ||
    (k < |slots| && !tracks[msg.id].live &&
     ((t.execs[o].slots == slots[k := -1] && t.tracks == tracks) ||
      (NoneHeld(slots[k := -1]) &&
       SlotTaken(s.(tracks := tracks), t, o, slots[k := -1], 0, s.execs[o].bestPrice))))
  }

  lemma RtnSlots(s: Sys, msg: Rtn, reply: int)
    requires SysOk(s) && Shape(s) && msg.id < |s.tracks| && LegalFor(s.tracks[msg.id], msg)
    ensures var t, o := OnRtn(s, msg, reply), s.tracks[msg.id].owner;
      o < |s.execs| && OthersSame(s, t, o) && SlotsAfter(s, t, msg, o) && (t.execs[o].ordering <==> s.execs[o].ordering)
  {
    hide SysOk, TracksOk, ExecOk, SlotsAfter, Tracked;
    var o, h := s.tracks[msg.id].owner, Holder(s.execs, msg.id, 0);
    assert o < |s.execs| by {
      TracksFine(s);
      OwnerIn(s.tracks, msg.id, |s.execs|);
    }
    if h == |s.execs| {
      SlotsSame(s, OnRtn(s, msg, reply), msg, o);
    } else {
      var k := SlotOf(s.execs[h].slots, msg.id);
      ExecFine(s, h);
      OwnerHolds(s.tracks, s.execs[h], s.requested[h], h, k);
      match msg.kind {
        case Execution => FillSlots(s, msg, reply, h);
        case Canceled => CanceledSlots(s, msg, reply, h);
        case _ => SlotsSame(s, OnRtn(s, msg, reply), msg, o);
      }
    }
  }

  lemma TracksFine(s: Sys)
    requires SysOk(s)
    ensures TracksOk(s.tracks, |s.execs|) && |s.requested| == |s.execs|
  {}

  lemma ExecFine(s: Sys, i: nat)
    requires SysOk(s) && i < |s.execs|
    ensures |s.requested| == |s.execs| && ExecOk(s.tracks, s.execs[i], s.requested[i], i)
  {
    hide ExecOk;
  }

  lemma SlotsSame(s: Sys, t: Sys, msg: Rtn, o: nat)
    requires msg.id < |s.tracks| && o < |s.execs| && t.execs == s.execs && t.tracks == After(s.tracks, msg)
    ensures SlotsAfter(s, t, msg, o)
  {}

  lemma FillSlots(s: Sys, msg: Rtn, reply: int, h: nat)
    requires Shape(s) && msg.id < |s.tracks| && LegalFor(s.tracks[msg.id], msg) && msg.kind == Execution
    requires h == Holder(s.execs, msg.id, 0) < |s.execs|
    ensures var t := OnRtn(s, msg, reply);
      OthersSame(s, t, h) && SlotsAfter(s, t, msg, h) && (t.execs[h].ordering <==> s.execs[h].ordering)
  {}

  lemma RtnCanceled(s: Sys, msg: Rtn, reply: int, h: nat)
    requires Shape(s) && msg.id < |s.tracks| && msg.kind == Canceled && h == Holder(s.execs, msg.id, 0) < |s.execs|
    ensures SlotOf(s.execs[h].slots, msg.id) < |s.execs[h].slots| == MAX_OUTSTANDING_ORDERS
    ensures OnRtn(s, msg, reply) ==
            OnCanceled(s.(tracks := After(s.tracks, msg)), h, SlotOf(s.execs[h].slots, msg.id), msg.vol, reply)
  {}

  lemma TakenFrom(s: Sys, s1: Sys, t: Sys, i: nat, slots: seq<int>, price: int)
    requires i < |s.execs| == |s1.execs| && SlotTaken(s1, t, i, slots, 0, price)
    ensures SlotTaken(s.(tracks := s1.tracks), t, i, slots, 0, price)
  {}

  lemma CanceledSlots(s: Sys, msg: Rtn, reply: int, h: nat)
    requires SysOk(s) && Shape(s) && msg.id < |s.tracks| && LegalFor(s.tracks[msg.id], msg) && msg.kind == Canceled
    requires h == Holder(s.execs, msg.id, 0) < |s.execs|
    ensures var t := OnRtn(s, msg, reply);
      OthersSame(s, t, h) && SlotsAfter(s, t, msg, h) && (t.execs[h].ordering <==> s.execs[h].ordering)
  {
    RtnCanceled(s, msg, reply, h);
    hide SysOk, Shape, TracksOk, ExecOk, LegalFor, Exposure, Rests, Occupied, AtPrice, OnRtn, Tracked, Holder;
    var eo, k := s.execs[h], SlotOf(s.execs[h].slots, msg.id);
    TracksFine(s);
    ExecFine(s, h);
    CanceledOk(s.tracks, msg, eo, s.requested[h], h, k, |s.execs|);
    var e := Vacate(eo.(placed := eo.placed - msg.vol), k);
    var s1 := s.(tracks := After(s.tracks, msg), execs := s.execs[h := e]);
    hide SendInto, SlotTaken;
    if e.size == 0 {
      NoneAtHand(s1.tracks, e, s.requested[h], h);
      if e.best > 0 && e.total > 0 {
        var vol := if e.best < e.total then e.best else e.total;
        SendTakes(s1, h, 0, vol, reply);
        TakenFrom(s, s1, SendInto(s1, h, 0, vol, reply), h, e.slots, e.bestPrice);
      }
    }
  }

  lemma AfterKept(tracks: seq<Track>, msg: Rtn, i: nat)
    requires msg.id < |tracks|
    ensures Kept(tracks, After(tracks, msg), i)
  {}

  lemma OwnTidy(s: Sys, t: Sys, msg: Rtn, o: nat)
    requires msg.id < |s.tracks| && o < |s.execs| && OthersSame(s, t, o) && SlotsAfter(s, t, msg, o)
    requires Tidy(s.tracks, s.execs[o].slots, o) && Known(s.tracks, s.execs[o].slots)
    ensures Tidy(t.tracks, t.execs[o].slots, o)
  {
    hide Tidy, Tracked, SlotTaken;
    var slots, tracks := s.execs[o].slots, After(s.tracks, msg);
    var k := SlotOf(slots, msg.id);
    AfterKept(s.tracks, msg, o);
    TidyKept(s.tracks, tracks, slots, o);
    if k < |slots| && !tracks[msg.id].live {
      TidyGone(tracks, slots, o, k, -1);
      var w := slots[k := -1];
      if NoneHeld(w) {
        var s1 := s.(tracks := tracks);
        if SlotTaken(s1, t, o, w, 0, s.execs[o].bestPrice) {
          TakenTidy(s1, t, o, w, 0, s.execs[o].bestPrice, o);
        }
      }
    }
  }

  lemma RtnTidy(s: Sys, msg: Rtn, reply: int)
    requires SysOk(s) && Shape(s) && AllTidy(s) && msg.id < |s.tracks| && LegalFor(s.tracks[msg.id], msg)
    ensures AllTidy(OnRtn(s, msg, reply))
  {
    hide SysOk, Shape, Tidy, OnRtn, LegalFor, Known, SlotsAfter, Kept;
    RtnSlots(s, msg, reply);
    var t, o := OnRtn(s, msg, reply), s.tracks[msg.id].owner;
    forall j | 0 <= j < |t.execs| && t.execs[j].ordering ensures Tidy(t.tracks, t.execs[j].slots, j) {
      SlotsKnown(s, j);
      if j == o {
        OwnTidy(s, t, msg, o);
      } else {
        OthersKept(s, t, msg, o, j);
        TidyKept(s.tracks, t.tracks, s.execs[j].slots, j);
      }
    }
  }

  lemma OthersKept(s: Sys, t: Sys, msg: Rtn, o: nat, j: nat)
    requires msg.id < |s.tracks| && o < |s.execs| && SlotsAfter(s, t, msg, o) && j != o
    ensures Kept(s.tracks, t.tracks, j)
  {
    hide Tracked;
    AfterKept(s.tracks, msg, j);
    var tracks := After(s.tracks, msg);
    if t.tracks != tracks {
      TakenKept(s.(tracks := tracks), t, o, s.execs[o].slots[SlotOf(s.execs[o].slots, msg.id) := -1], s.execs[o].bestPrice, j);
    }
  }

  lemma TakenKept(s: Sys, t: Sys, i: nat, slots: seq<int>, price: int, j: nat)
    requires i < |s.execs| && SlotTaken(s, t, i, slots, 0, price) && j != i
    ensures Kept(s.tracks, t.tracks, j)
  {
    assert forall k | 0 <= k < |s.tracks| && t.tracks[..|s.tracks|] == s.tracks :: t.tracks[k] == t.tracks[..|s.tracks|][k];
  }

  // ---------------------------------------------------------------- every run

  lemma EnteredTidy(s: Sys, requested: int)
    requires SysOk(s) && AllTidy(s)
    ensures AllTidy(Entered(s, requested))
  {
    hide Tidy, ExecOk;
    var t := Entered(s, requested);
    forall j | 0 <= j < |t.execs| && t.execs[j].ordering ensures Tidy(t.tracks, t.execs[j].slots, j) {
      if j == |s.execs| {
        NewTidy(s);
      } else {
        assert t.execs[j] == s.execs[j];
      }
    }
  }

  lemma NewTidy(s: Sys)
    requires SysOk(s)
    ensures Tidy(s.tracks, EMPTY_SLOTS, |s.execs|)
  {
    hide ExecOk;
    forall id | 0 <= id < |s.tracks| ensures s.tracks[id].owner != |s.execs| {
      OwnerIn(s.tracks, id, |s.execs|);
    }
  }

  lemma LookTidy(s: Sys, i: nat, q: Quote, reply: int)
    requires SysOk(s) && AllTidy(s) && i < |s.execs| && s.execs[i].ordering
    ensures |s.execs[i].slots| == MAX_OUTSTANDING_ORDERS && AllTidy(Look(s, i, q, reply))
  {
    hide SysOk, Tidy, Place;
    BestOk(s, i, q);
    PlaceTidy(s.(execs := s.execs[i := BestOf(s.execs[i], q)]), i, reply);
  }

  lemma BestOk(s: Sys, i: nat, q: Quote)
    requires SysOk(s) && i < |s.execs|
    ensures |s.execs[i].slots| == MAX_OUTSTANDING_ORDERS && SysOk(s.(execs := s.execs[i := BestOf(s.execs[i], q)]))
  {
    hide TracksOk, Exposure, Rests, Occupied;
    ExecFine(s, i);
    var e := BestOf(s.execs[i], q);
    assert ExecOk(s.tracks, e, s.requested[i], i);
    SameSelf(s.tracks);
    OneOk(s, i, e, s.tracks);
  }

  lemma LeaveTidy(s: Sys, i: nat, expired: bool)
    requires SysOk(s) && Shape(s) && AllTidy(s) && i < |s.execs|
    ensures AllTidy(Leave(s, i, expired))
  {
    hide SysOk, Tidy, FlagsOnly, ExitCancels, Known;
    var t := Leave(s, i, expired);
    forall j | 0 <= j < |t.execs| && t.execs[j].ordering ensures Tidy(t.tracks, t.execs[j].slots, j) {
      ExitFlags(s.tracks, s.execs[i].slots, 0);
      SlotsKnown(s, j);
      FlagsKept(s.tracks, ExitCancels(s.tracks, s.execs[i].slots, 0), j);
      assert t.execs[j] == s.execs[j];
      if t.tracks != s.tracks {
        TidyKept(s.tracks, t.tracks, s.execs[j].slots, j);
      }
    }
  }

  lemma StepTidy(s: Sys, e: Event)
    requires SysOk(s) && Shape(s) && AllTidy(s)
    ensures AllTidy(Step(s, e))
  {
    hide SysOk, AllTidy, Look, OnRtn, Leave;
    match e
    case Open(requested, q, reply) =>
      EnteredOk(s, requested);
      EnteredTidy(s, requested);
      LookTidy(Entered(s, requested), |s.execs|, q, reply);
    case Tick(i, q, reply) => if i < |s.execs| && s.execs[i].ordering { LookTidy(s, i, q, reply); }
    case Return(msg, reply) => if Legal(s, e) { RtnTidy(s, msg, reply); }
    case Exit(i, expired) => if i < |s.execs| { LeaveTidy(s, i, expired); }
  }

  /**
   * Over every run: one price in the slots, and every live order but order 0 in a slot of the execution order that sent
   * it.
   */
  lemma {:induction false} RunTidy(s: Sys, es: seq<Event>)
    requires SysOk(s) && Shape(s) && AllTidy(s)
    ensures SysOk(Run(s, es)) && Shape(Run(s, es)) && AllTidy(Run(s, es))
    decreases |es|
  {
    hide SysOk, Shape, AllTidy, Step;
    if es != [] {
      StepOk(s, es[0]);
      StepTidy(s, es[0]);
      ShapeOf(Step(s, es[0]));
      RunTidy(Step(s, es[0]), es[1..]);
    }
  }

  // ---------------------------------------------------------------- the order with id 0

  /** The execution order that sent order 0 finds it in its slots. */
  predicate ZeroHeld(s: Sys) {
    |s.tracks| > 0 && s.tracks[0].owner < |s.execs| && 0 in s.execs[s.tracks[0].owner].slots
  }

  /** Order 0 is live, and its execution order still places orders. */
  predicate ZeroLive(s: Sys) {
    |s.tracks| > 0 && s.tracks[0].live && s.tracks[0].owner < |s.execs| && s.execs[s.tracks[0].owner].ordering
  }

  /** The look at which the slot of order 0, which the scan takes for a free one, gets the answer to another send. */
  predicate Overwrites(s: Sys, e: Event) {
    && ZeroHeld(s) && e.Tick? && e.i == s.tracks[0].owner && s.execs[e.i].ordering
    && Tries(s.tracks, BestOf(s.execs[e.i], e.q))
  }

  predicate OverwrittenIn(s: Sys, es: seq<Event>)
    requires Shape(s)
    decreases |es|
  {
    es != [] && (Overwrites(s, es[0]) || (StepShape(s, es[0]); OverwrittenIn(Step(s, es[0]), es[1..])))
  }

  /** Where order 0 can be. */
  lemma ZeroFirst(tracks: seq<Track>, slots: seq<int>, i: nat)
    requires Tidy(tracks, slots, i) && |slots| > 0
    ensures 0 in slots <==> slots[0] == 0
    ensures slots[0] == 0 ==> FreeSlot(slots) == 0
  {}

  /** A slot is taken: slot 0 in which order 0 stands, or another one, or none had it before. */
  lemma TakenZero(s: Sys, t: Sys, i: nat, slots: seq<int>, k: nat, price: int)
    requires i < |s.execs| && SlotTaken(s, t, i, slots, k, price) && |s.tracks| > 0
    ensures 0 in t.execs[i].slots <==> exists m :: 0 <= m < |slots| && m != k && slots[m] == 0
  {
    if m :| 0 <= m < |slots| && m != k && slots[m] == 0 {
      assert t.execs[i].slots[m] == 0;
    }
  }

  lemma PlaceZero(s: Sys, i: nat, reply: int)
    requires SysOk(s) && AllTidy(s) && i < |s.execs| && s.execs[i].ordering && |s.tracks| > 0
    ensures |s.execs[i].slots| == MAX_OUTSTANDING_ORDERS
    ensures 0 in Place(s, i, reply).execs[i].slots <==> 0 in s.execs[i].slots && !Tries(s.tracks, s.execs[i])
  {
    hide SysOk, Place, Tries, AtPrice, FlagsOnly, FreeSlot;
    PlaceSlots(s, i, reply);
    ZeroFirst(s.tracks, s.execs[i].slots, i);
    if Tries(s.tracks, s.execs[i]) {
      TakenZero(s, Place(s, i, reply), i, s.execs[i].slots, Target(s.execs[i]), s.execs[i].bestPrice);
    }
  }

  /** The very first order goes into the first slot. */
  lemma PlaceFirst(s: Sys, i: nat, reply: int)
    requires SysOk(s) && i < |s.execs| && s.execs[i].ordering && s.tracks == []
    ensures |s.execs[i].slots| == MAX_OUTSTANDING_ORDERS
    ensures |Place(s, i, reply).tracks| > 0 ==> ZeroHeld(Place(s, i, reply)) && Place(s, i, reply).tracks[0].owner == i
  {
    hide SysOk, Place, Tries, AtPrice, FreeSlot;
    PlaceSlots(s, i, reply);
  }

  lemma LookZero(s: Sys, i: nat, q: Quote, reply: int)
    requires SysOk(s) && AllTidy(s) && i < |s.execs| && s.execs[i].ordering
    ensures |s.execs[i].slots| == MAX_OUTSTANDING_ORDERS
    ensures var t := Look(s, i, q, reply);
      OthersSame(s, t, i) && (if |s.tracks| > 0 then
        0 in t.execs[i].slots <==> 0 in s.execs[i].slots && !Tries(s.tracks, BestOf(s.execs[i], q))
      else |t.tracks| > 0 ==> ZeroHeld(t) && t.tracks[0].owner == i)
  {
    hide SysOk, Place, Tries, Tidy;
    BestOk(s, i, q);
    var s1 := s.(execs := s.execs[i := BestOf(s.execs[i], q)]);
    assert AllTidy(s1);
    PlaceSlots(s1, i, reply);
    if |s.tracks| > 0 { PlaceZero(s1, i, reply); } else { PlaceFirst(s1, i, reply); }
  }

  lemma RtnZero(s: Sys, msg: Rtn, reply: int)
    requires SysOk(s) && Shape(s) && msg.id < |s.tracks| && LegalFor(s.tracks[msg.id], msg)
    requires s.tracks[0].owner < |s.execs| && OnRtn(s, msg, reply).tracks[0].live
    ensures var t, i := OnRtn(s, msg, reply), s.tracks[0].owner;
      i < |t.execs| && (0 in t.execs[i].slots <==> 0 in s.execs[i].slots) && t.tracks[0].owner == i
  {
    hide SysOk, Shape, OnRtn, LegalFor, Tracked, TracksOk;
    var t, o, i := OnRtn(s, msg, reply), s.tracks[msg.id].owner, s.tracks[0].owner;
    RtnSlots(s, msg, reply);
    AfterKept(s.tracks, msg, i);
    if o == i {
      var slots, tracks := s.execs[o].slots, After(s.tracks, msg);
      var k := SlotOf(slots, msg.id);
      assert SlotsAfter(s, t, msg, o);
      if t.execs[o].slots != slots {
        assert k < |slots| && !tracks[msg.id].live;
        if t.tracks == tracks && t.execs[o].slots == slots[k := -1] {
          assert msg.id != 0;
          ZeroStays(slots, k);
        } else {
          TakenZero(s.(tracks := tracks), t, o, slots[k := -1], 0, s.execs[o].bestPrice);
          assert t.tracks[0] == t.tracks[..|tracks|][0];
          ZeroStays(slots, k);
        }
      }
    }
  }

  lemma ZeroStays(slots: seq<int>, k: nat)
    requires k < |slots| && slots[k] != 0
    ensures 0 in slots[k := -1] <==> 0 in slots
  {
    if 0 in slots {
      var m :| 0 <= m < |slots| && slots[m] == 0;
      assert slots[k := -1][m] == 0;
    }
  }

  /** The owner's view of one event, once order 0 is on record. */
  lemma StepZero(s: Sys, e: Event)
    requires SysOk(s) && Shape(s) && AllTidy(s) && ZeroLive(Step(s, e)) && |s.tracks| > 0
    ensures ZeroLive(s) && (ZeroHeld(Step(s, e)) <==> ZeroHeld(s) && !Overwrites(s, e))
  {
    hide SysOk, Look, OnRtn, Leave, Tries, AllTidy, Tidy;
    var t, o := Step(s, e), s.tracks[0].owner;
    TracksFine(s);
    OwnerIn(s.tracks, 0, |s.execs|);
    StepOwners(s, e);
    match e
    case Open(requested, q, reply) =>
      EnteredOk(s, requested);
      EnteredTidy(s, requested);
      LookZero(Entered(s, requested), |s.execs|, q, reply);
      LookLives(Entered(s, requested), |s.execs|, q, reply);
    case Tick(i, q, reply) =>
      if i < |s.execs| && s.execs[i].ordering {
        LookZero(s, i, q, reply);
        LookLives(s, i, q, reply);
      }
    case Return(msg, reply) =>
      if Legal(s, e) {
        RtnZero(s, msg, reply);
        RtnLives(s, msg, reply);
      }
    case Exit(i, expired) => if i < |s.execs| { LeaveLives(s, i, expired); }
  }

  lemma LookLives(s: Sys, i: nat, q: Quote, reply: int)
    requires SysOk(s) && i < |s.execs| && s.execs[i].ordering && |s.tracks| > 0
    ensures |s.execs[i].slots| == MAX_OUTSTANDING_ORDERS
    ensures var t := Look(s, i, q, reply); |t.tracks| > 0 && t.tracks[0].live == s.tracks[0].live
  {
    hide SysOk, CancelFrom, FreeSlot;
    BestOk(s, i, q);
    CancelFlags(s.tracks, s.execs[i].slots, q.price, 0, 1);
  }

  lemma RtnLives(s: Sys, msg: Rtn, reply: int)
    requires SysOk(s) && Shape(s) && msg.id < |s.tracks| && LegalFor(s.tracks[msg.id], msg)
    ensures var t := OnRtn(s, msg, reply); |t.tracks| > 0 && (t.tracks[0].live ==> s.tracks[0].live)
    ensures forall j | 0 <= j < |OnRtn(s, msg, reply).execs| && j < |s.execs| ::
              OnRtn(s, msg, reply).execs[j].ordering == s.execs[j].ordering
  {
    hide SysOk, LegalFor, OnRtn, Shape, SlotTaken;
    RtnSlots(s, msg, reply);
    var t, o := OnRtn(s, msg, reply), s.tracks[msg.id].owner;
    if t.tracks != After(s.tracks, msg) {
      var w := s.execs[o].slots[SlotOf(s.execs[o].slots, msg.id) := -1];
      TakenFirst(s.(tracks := After(s.tracks, msg)), t, o, w, s.execs[o].bestPrice);
    }
  }

  lemma TakenFirst(s: Sys, t: Sys, i: nat, slots: seq<int>, price: int)
    requires i < |s.execs| && |s.tracks| > 0 && SlotTaken(s, t, i, slots, 0, price)
    ensures |t.tracks| > 0 && t.tracks[0].live == s.tracks[0].live
  {
    assert t.tracks[..|s.tracks|] == s.tracks ==> t.tracks[0] == t.tracks[..|s.tracks|][0];
  }

  lemma LeaveLives(s: Sys, i: nat, expired: bool)
    requires SysOk(s) && Shape(s) && i < |s.execs|
    ensures var t := Leave(s, i, expired);
      FlagsOnly(s.tracks, t.tracks) && OthersSame(s, t, i) && (t.execs[i].ordering ==> t.execs[i] == s.execs[i])
  {
    hide SysOk, ExitCancels;
    ExitFlags(s.tracks, s.execs[i].slots, 0);
  }

  /** An event before any order was sent. */
  lemma FirstZero(s: Sys, e: Event)
    requires SysOk(s) && Shape(s) && AllTidy(s) && s.tracks == [] && |Step(s, e).tracks| > 0
    ensures ZeroHeld(Step(s, e))
  {
    hide SysOk, Look, OnRtn, Tries, AllTidy, Tidy;
    match e
    case Open(requested, q, reply) =>
      EnteredOk(s, requested);
      EnteredTidy(s, requested);
      LookZero(Entered(s, requested), |s.execs|, q, reply);
    case Tick(i, q, reply) => if i < |s.execs| && s.execs[i].ordering { LookZero(s, i, q, reply); }
    case Return(msg, reply) =>
    case Exit(i, expired) => if i < |s.execs| { LeaveLives(s, i, expired); }
  }

  /** Over a run from any sound state, order 0 stays where it is until it is written over. */
  lemma {:induction false} RunZero(s: Sys, es: seq<Event>)
    requires SysOk(s) && Shape(s) && AllTidy(s) && ZeroLive(Run(s, es))
    ensures |s.tracks| > 0 ==> ZeroLive(s)
    ensures ZeroHeld(Run(s, es)) <==> (s.tracks == [] || ZeroHeld(s)) && !OverwrittenIn(s, es)
    decreases |es|
  {
    hide SysOk, Shape, AllTidy, Step, ZeroLive, ZeroHeld;
    if es == [] {
      assert |s.tracks| > 0 by { LiveOnRecord(s); }
    } else {
      var s1 := Step(s, es[0]);
      StepOk(s, es[0]);
      StepTidy(s, es[0]);
      ShapeOf(s1);
      RunZero(s1, es[1..]);
      if |s.tracks| > 0 {
        StepOwners(s, es[0]);
        StepZero(s, es[0]);
      } else {
        NoneOverwritten(s, es[0]);
        if |s1.tracks| > 0 { FirstZero(s, es[0]); }
      }
    }
  }

  lemma LiveOnRecord(s: Sys)
    requires ZeroLive(s)
    ensures |s.tracks| > 0
  {}

  lemma NoneOverwritten(s: Sys, e: Event)
    requires s.tracks == []
    ensures !Overwrites(s, e)
  {}

  /**
   * After any run, a live order whose execution order still places orders stands in one of that one's slots, unless it is
   * order 0 and a look came to send another order while it stood there, whether the answer was an order or a refusal.
   */
  lemma HeldExactly(es: seq<Event>, id: nat)
    requires id < |Run(START, es).tracks| && Run(START, es).tracks[id].live
    requires Run(START, es).tracks[id].owner < |Run(START, es).execs|
    requires Run(START, es).execs[Run(START, es).tracks[id].owner].ordering
    ensures var t := Run(START, es);
      id in t.execs[t.tracks[id].owner].slots <==> id >= 1 || !OverwrittenIn(START, es)
  {
    hide SysOk, Tidy, Step, Run;
    StartOk();
    RunTidy(START, es);
    var t := Run(START, es);
    if id >= 1 {
      assert Tidy(t.tracks, t.execs[t.tracks[id].owner].slots, t.tracks[id].owner);
      TidyHolds(t.tracks, t.execs[t.tracks[id].owner].slots, id);
    } else {
      RunZero(START, es);
    }
  }

  lemma TidyHolds(tracks: seq<Track>, slots: seq<int>, id: nat)
    requires 1 <= id < |tracks| && tracks[id].live && Tidy(tracks, slots, tracks[id].owner)
    ensures id in slots
  {}

  /** It happens: the next order at the same price takes the slot, and the first is live and held nowhere. */
  lemma IdZeroOverwritten()
    ensures var s := Run(START, [Open(10, Quote(100, 1, false), 0), Tick(0, Quote(100, 2, false), 0)]);
      |s.tracks| == 2 && s.tracks[0].live && s.tracks[0].owner == 0 && s.tracks[1].live &&
      |s.execs| == 1 && s.execs[0].size == 2 && s.execs[0].slots == [1, -1, -1, -1, -1, -1]
  {
    hide Step;
    var o, t := Open(10, Quote(100, 1, false), 0), Tick(0, Quote(100, 2, false), 0);
    var s1 := Step(START, o);
    FirstSent();
    var s2 := Step(s1, t);
    SecondSent(s1);
    assert [o, t][1..] == [t] && [t][1..] == [];
    assert Run(s2, []) == s2 && Run(s1, [t]) == s2;
  }

  /** One order for one lot, with id 0. */
  predicate OneSent(s: Sys) {
    && s.tracks == [Track(0, 100, 1, 0, true, false, false)] && |s.execs| == 1 && |s.requested| == 1
    && s.execs[0] == Exec([0, -1, -1, -1, -1, -1], 1, 1, 10, true, 1, 100, false)
  }

  lemma FirstSent()
    ensures Shape(Step(START, Open(10, Quote(100, 1, false), 0))) && OneSent(Step(START, Open(10, Quote(100, 1, false), 0)))
  {}

  lemma SecondSent(s: Sys)
    requires OneSent(s) && Shape(s)
    ensures var t := Step(s, Tick(0, Quote(100, 2, false), 0));
      Shape(t) && |t.tracks| == 2 && t.tracks[0] == s.tracks[0] && t.tracks[1].live &&
      |t.execs| == 1 && t.execs[0].size == 2 && t.execs[0].slots == [1, -1, -1, -1, -1, -1]
  {
    hide CancelFrom;
    var q := Quote(100, 2, false);
    CancelFlags(s.tracks, s.execs[0].slots, 100, 0, 1);
    assert AtPrice(s.tracks, s.execs[0].slots, 100, 0);
  }
}
