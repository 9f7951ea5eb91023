/** When an execution order that has not exited is at its end all the same. */
module ExecStuck {
  import opened ExecModel
  import opened ExecSafety
  import opened ExecHeld

  /** A slot about which no message will come: a refusal, or an order that is over. */
  predicate Over(tracks: seq<Track>, id: int) {
    id < 0 || (id < |tracks| && !tracks[id].live)
  }

  /**
   * No order in the slots is live, and either none is counted and nothing is left to do, or some are counted, and those
   * are six or have placed all that is left.
   */
  predicate Stuck(s: Sys, i: nat) {
    && i < |s.execs| && |s.execs[i].slots| == MAX_OUTSTANDING_ORDERS
    && (forall k | 0 <= k < |s.execs[i].slots| :: Over(s.tracks, s.execs[i].slots[k]))
    && var e := s.execs[i];
       if e.size == 0 then e.total <= 0 else e.size == MAX_OUTSTANDING_ORDERS || e.placed >= e.total
  }

  predicate NoneSent(s: Sys, s': Sys, i: nat) {
    |s.tracks| <= |s'.tracks| && forall k | |s.tracks| <= k < |s'.tracks| :: s'.tracks[k].owner != i
  }

  /** What is over stays over, and execution order i is as it was but for the price it would ask for. */
  predicate StillStuck(s: Sys, s': Sys, i: nat)
    requires i < |s.execs|
  {
    && i < |s'.execs| && s'.execs[i].(best := s.execs[i].best, bestPrice := s.execs[i].bestPrice) == s.execs[i]
    && NoneSent(s, s', i) && forall k | 0 <= k < |s.tracks| :: !s.tracks[k].live ==> !s'.tracks[k].live
  }

  lemma LookStuck(s: Sys, j: nat, q: Quote, reply: int, i: nat)
    requires SysOk(s) && Stuck(s, i) && j < |s.execs| && |s.execs[j].slots| == MAX_OUTSTANDING_ORDERS
    ensures StillStuck(s, Look(s, j, q, reply), i)
  {
    hide CancelFrom, FreeSlot, SysOk;
    var e := BestOf(s.execs[j], q);
    CancelFlags(s.tracks, e.slots, e.bestPrice, 0, 1);
  }

  lemma RtnStuck(s: Sys, msg: Rtn, reply: int, i: nat)
    requires SysOk(s) && Shape(s) && Stuck(s, i) && msg.id < |s.tracks| && LegalFor(s.tracks[msg.id], msg)
    ensures StillStuck(s, OnRtn(s, msg, reply), i)
  {
    hide SysOk;
    NotHeld(s, msg.id, i);
  }

  /** No slot of a stuck execution order holds a live order. */
  lemma NotHeld(s: Sys, id: nat, i: nat)
    requires Stuck(s, i) && id < |s.tracks| && s.tracks[id].live
    ensures SlotOf(s.execs[i].slots, id) == |s.execs[i].slots|
  {
    var k := SlotOf(s.execs[i].slots, id);
    assert k < |s.execs[i].slots| ==> Over(s.tracks, s.execs[i].slots[k]);
  }

  lemma StepStuck(s: Sys, e: Event, i: nat)
    requires SysOk(s) && Shape(s) && Stuck(s, i)
    ensures var t := Step(s, e); (i < |t.execs| && !t.execs[i].ordering && NoneSent(s, t, i)) || StillStuck(s, t, i)
  {
    hide SysOk, Look, OnRtn, ExitCancels;
    match e
    case Open(requested, q, reply) =>
      EnteredOk(s, requested);
      assert Stuck(Entered(s, requested), i);
      LookStuck(Entered(s, requested), |s.execs|, q, reply, i);
    case Tick(j, q, reply) => if j < |s.execs| { LookStuck(s, j, q, reply, i); }
    case Return(msg, reply) => if Legal(s, e) { RtnStuck(s, msg, reply, i); }
    case Exit(j, expired) => if j < |s.execs| { ExitFlags(s.tracks, s.execs[j].slots, 0); }
  }

  lemma StuckKept(s: Sys, t: Sys, i: nat)
    requires Stuck(s, i) && StillStuck(s, t, i)
    ensures Stuck(t, i)
  {
    forall k | 0 <= k < |t.execs[i].slots| ensures Over(t.tracks, t.execs[i].slots[k]) {
      assert Over(s.tracks, s.execs[i].slots[k]);
    }
  }

  /**
   * For a stuck execution order that has not exited, nothing changes but the price it would ask for, whatever happens, until
   * the time is over; and no order is sent for it, before or after that.
   */
  lemma {:induction false} StuckForGood(s: Sys, es: seq<Event>, i: nat)
    requires SysOk(s) && Shape(s) && Stuck(s, i)
    ensures var t := Run(s, es);
      i < |t.execs| && NoneSent(s, t, i) &&
      (t.execs[i].ordering ==> Stuck(t, i) && t.execs[i].total == s.execs[i].total && t.execs[i].slots == s.execs[i].slots)
    decreases |es|
  {
    hide SysOk, Step, Over;
    if es != [] {
      var s1, t := Step(s, es[0]), Run(s, es);
      StepOk(s, es[0]);
      ShapeOf(s1);
      StepStuck(s, es[0], i);
      if StillStuck(s, s1, i) {
        StuckKept(s, s1, i);
        StuckForGood(s1, es[1..], i);
      } else {
        NothingAfterExit(s1, es[1..], i);
      }
      RunOwners(s1, es[1..]);
      forall k | |s.tracks| <= k < |t.tracks| ensures t.tracks[k].owner != i {
        if k < |s1.tracks| { assert t.tracks[k].owner == s1.tracks[k].owner; }
      }
    }
  }

  // ---------------------------------------------------------------- and otherwise not

  /** A look at the price of what is at hand comes to a send, if there is something to do that is not placed. */
  lemma Chance(s: Sys, i: nat) returns (q: Quote)
    requires SysOk(s) && AllTidy(s) && i < |s.execs| && s.execs[i].ordering && s.execs[i].total > 0
    requires s.execs[i].size == 0 || (s.execs[i].placed < s.execs[i].total && s.execs[i].size < MAX_OUTSTANDING_ORDERS)
    ensures Tries(s.tracks, BestOf(s.execs[i], q))
  {
    hide SysOk;
    var e := s.execs[i];
    if k :| 0 <= k < |e.slots| && 0 <= e.slots[k] < |s.tracks| {
      q := Quote(s.tracks[e.slots[k]].price, e.total, false);
    } else {
      q := Quote(0, e.total, false);
    }
    assert Tidy(s.tracks, e.slots, i);
  }

  lemma ChanceTaken(s: Sys, i: nat) returns (e: Event)
    requires SysOk(s) && Shape(s) && AllTidy(s) && i < |s.execs| && s.execs[i].ordering && s.execs[i].total > 0
    requires s.execs[i].size == 0 || (s.execs[i].placed < s.execs[i].total && s.execs[i].size < MAX_OUTSTANDING_ORDERS)
    ensures !NoneSent(s, Step(s, e), i)
  {
    hide SysOk, AllTidy, Tries, Look;
    var q := Chance(s, i);
    LookSends(s, i, q, 0);
    e := Tick(i, q, 0);
    assert Step(s, e).tracks[|s.tracks|].owner == i;
  }

  /** Whoever holds an order is the execution order that sent it. */
  lemma HolderIs(s: Sys, i: nat, k: nat)
    requires SysOk(s) && i < |s.execs| && k < |s.execs[i].slots| && s.execs[i].slots[k] >= 0
    ensures Holder(s.execs, s.execs[i].slots[k], 0) == i
    ensures SlotOf(s.execs[i].slots, s.execs[i].slots[k]) < |s.execs[i].slots|
  {
    hide SysOk, ExecOk;
    var id := s.execs[i].slots[k];
    var h := Holder(s.execs, id, 0);
    ExecFine(s, i);
    OwnerHolds(s.tracks, s.execs[i], s.requested[i], i, k);
    if h < |s.execs| {
      ExecFine(s, h);
      OwnerHolds(s.tracks, s.execs[h], s.requested[h], h, SlotOf(s.execs[h].slots, id));
    }
  }

  /** A live order at hand has something placed and something left to do. */
  lemma LivePlaced(tracks: seq<Track>, eo: Exec, requested: int, i: nat, k: nat, n: nat)
    requires ExecOk(tracks, eo, requested, i) && TracksOk(tracks, n) && eo.ordering && k < |eo.slots| && !Over(tracks, eo.slots[k])
    ensures 0 <= eo.slots[k] < |tracks| && tracks[eo.slots[k]].live && tracks[eo.slots[k]].owner == i
    ensures 1 <= tracks[eo.slots[k]].vol - tracks[eo.slots[k]].traded && 0 < eo.placed <= eo.total
    ensures eo.size <= MAX_OUTSTANDING_ORDERS
  {
    hide Exposure, Rests, Occupied;
    assert TrackOk(tracks[eo.slots[k]], n);
    RestsSlot(tracks, eo.slots, k, |eo.slots|, n);
  }

  /** The cancel of a live order at hand frees what it had not traded, or brings another order at once. */
  lemma CancelFrees(s: Sys, i: nat, k: nat) returns (e: Event)
    requires SysOk(s) && Shape(s) && i < |s.execs| && s.execs[i].ordering
    requires k < |s.execs[i].slots| && !Over(s.tracks, s.execs[i].slots[k])
    ensures |Step(s, e).execs| == |s.execs|
    ensures var t := Step(s, e); var x := t.execs[i];
      !NoneSent(s, t, i) || (x.ordering && x.total > 0 && x.placed < x.total && x.size < MAX_OUTSTANDING_ORDERS)
  {
    var eo, id := s.execs[i], s.execs[i].slots[k];
    TracksFine(s);
    ExecFine(s, i);
    LivePlaced(s.tracks, eo, s.requested[i], i, k, |s.execs|);
    HolderIs(s, i, k);
    var msg := Rtn(Canceled, id, s.tracks[id].vol - s.tracks[id].traded);
    e := Return(msg, 0);
    RtnCanceled(s, msg, 0, i);
    CanceledOk(s.tracks, msg, eo, s.requested[i], i, SlotOf(eo.slots, id), |s.execs|);
    hide SysOk, TracksOk, ExecOk, OnRtn, Tracked, Holder, SlotOf, Shape, NoneSent;
    CancelSends(s.(tracks := After(s.tracks, msg)), i, SlotOf(eo.slots, id), msg.vol);
    SentLater(s, s.(tracks := After(s.tracks, msg)), Step(s, e), i);
  }

  lemma CancelSends(s: Sys, i: nat, k: nat, vol: int)
    requires i < |s.execs| && k < |s.execs[i].slots| == MAX_OUTSTANDING_ORDERS && s.execs[i].ordering && !s.execs[i].exited
    requires 1 <= vol && 0 < s.execs[i].placed <= s.execs[i].total && s.execs[i].size <= MAX_OUTSTANDING_ORDERS
    ensures |OnCanceled(s, i, k, vol, 0).execs| == |s.execs|
    ensures var t := OnCanceled(s, i, k, vol, 0); var x := t.execs[i];
      !NoneSent(s, t, i) || (x.ordering && x.total > 0 && x.placed < x.total && x.size < MAX_OUTSTANDING_ORDERS)
  {
    var t := OnCanceled(s, i, k, vol, 0);
    assert |t.tracks| > |s.tracks| ==> t.tracks[|s.tracks|].owner == i;
  }

  lemma SentLater(s: Sys, s1: Sys, t: Sys, i: nat)
    requires |s.tracks| == |s1.tracks|
    ensures NoneSent(s, t, i) <==> NoneSent(s1, t, i)
  {}

  // ---------------------------------------------------------------- the exact condition

  /** Some course of events brings another order for execution order i. */
  ghost predicate MaySendAgain(s: Sys, i: nat)
    requires Shape(s)
  {
    exists es :: !NoneSent(s, Run(s, es), i)
  }

  lemma RunOne(s: Sys, e: Event)
    requires Shape(s)
    ensures Run(s, [e]) == Step(s, e)
  {
    hide Step;
    StepShape(s, e);
    assert [e][1..] == [];
    assert Run(Step(s, e), []) == Step(s, e);
  }

  lemma RunTwo(s: Sys, e: Event, f: Event)
    requires Shape(s)
    ensures Shape(Step(s, e)) && Run(s, [e, f]) == Step(Step(s, e), f)
  {
    hide Step;
    StepShape(s, e);
    assert [e, f][1..] == [f];
    RunOne(Step(s, e), f);
  }

  /** While one of the orders at hand is live, another can be sent: after its cancel, if not by it. */
  lemma LiveMaySend(s: Sys, i: nat, k: nat)
    requires SysOk(s) && Shape(s) && AllTidy(s) && i < |s.execs| && s.execs[i].ordering
    requires k < |s.execs[i].slots| && !Over(s.tracks, s.execs[i].slots[k])
    ensures MaySendAgain(s, i)
  {
    hide SysOk, Shape, AllTidy, Step, Over, Run;
    var e := CancelFrees(s, i, k);
    var t := Step(s, e);
    if !NoneSent(s, t, i) {
      RunOne(s, e);
      assert !NoneSent(s, Run(s, [e]), i);
    } else {
      StepOk(s, e);
      ShapeOf(t);
      StepTidy(s, e);
      var f := ChanceTaken(t, i);
      RunTwo(s, e, f);
      StepOwners(s, e);
      StepOwners(t, f);
      assert !NoneSent(s, Run(s, [e, f]), i);
    }
  }

  /**
   * From any sound state, some course of events brings another order if and only if the execution order places orders and
   * is not stuck.
   */
  lemma SendsUnlessStuck(s: Sys, i: nat)
    requires SysOk(s) && Shape(s) && AllTidy(s) && i < |s.execs|
    ensures MaySendAgain(s, i) <==> s.execs[i].ordering && !Stuck(s, i)
  {
    hide SysOk, AllTidy, Step, Run, Over, NoneSent;
    if !s.execs[i].ordering {
      forall es ensures NoneSent(s, Run(s, es), i) {
        NothingAfterExit(s, es, i);
        QuietNone(s, Run(s, es), i);
      }
    } else if Stuck(s, i) {
      forall es ensures NoneSent(s, Run(s, es), i) {
        StuckForGood(s, es, i);
      }
    } else if k :| 0 <= k < |s.execs[i].slots| && !Over(s.tracks, s.execs[i].slots[k]) {
      LiveMaySend(s, i, k);
    } else {
      NoneBelow(s, i);
      var e := ChanceTaken(s, i);
      RunOne(s, e);
      assert !NoneSent(s, Run(s, [e]), i);
    }
  }

  lemma QuietNone(s: Sys, t: Sys, i: nat)
    requires Quiet(s, t, i)
    ensures NoneSent(s, t, i)
  {}

  /** With nothing live at hand, what keeps an execution order from being stuck is the chance of a send. */
  lemma NoneBelow(s: Sys, i: nat)
    requires SysOk(s) && i < |s.execs| && s.execs[i].ordering && !Stuck(s, i) && |s.execs[i].slots| == MAX_OUTSTANDING_ORDERS
    requires forall k | 0 <= k < |s.execs[i].slots| :: Over(s.tracks, s.execs[i].slots[k])
    ensures var e := s.execs[i];
      e.total > 0 && (e.size == 0 || (e.placed < e.total && e.size < MAX_OUTSTANDING_ORDERS))
  {
    hide Exposure, Rests, Over;
    TracksFine(s);
    ExecFine(s, i);
    RestsSlot(s.tracks, s.execs[i].slots, 0, |s.execs[i].slots|, |s.execs|);
    assert Rest(s.tracks, s.execs[i].slots[0]) >= 0 by {
      RestPositive(s.tracks, s.execs[i].slots[0], |s.execs|);
    }
  }

  lemma RestPositive(tracks: seq<Track>, id: int, n: nat)
    requires TracksOk(tracks, n)
    ensures Rest(tracks, id) >= 0
  {
    if 0 <= id < |tracks| { assert TrackOk(tracks[id], n); }
  }

  /** So it is after every run. */
  lemma SendsExactly(before: seq<Event>, i: nat)
    requires i < |Run(START, before).execs|
    ensures var s := Run(START, before);
      Shape(s) && (MaySendAgain(s, i) <==> s.execs[i].ordering && !Stuck(s, i))
  {
    hide Run, Step, Stuck, AllTidy;
    StartOk();
    StartTidy();
    RunTidy(START, before);
    SendsUnlessStuck(Run(START, before), i);
  }

  lemma StartTidy()
    ensures AllTidy(START)
  {}

  // ---------------------------------------------------------------- how it comes to that

  /** A rejected order keeps its slot and its placed volume: one for all that is wanted is the end, with nothing traded. */
  lemma OneRejection()
    ensures var s := Run(START, [Open(10, Quote(100, 10, false), 0), Return(Rtn(Rejected, 0, 0), 0)]);
      |s.execs| == 1 && s.execs[0].ordering && s.execs[0].size == 1 && s.execs[0].placed == s.execs[0].total == 10
      && Executed(s.tracks, 0, |s.tracks|) == 0 && Stuck(s, 0)
  {
    hide Step;
    var o, r := Open(10, Quote(100, 10, false), 0), Return(Rtn(Rejected, 0, 0), 0);
    RunTwo(START, o, r);
    TenSent();
    TenRejected(Step(START, o));
  }

  /** One order for ten lots, with id 0. */
  predicate TenPlaced(s: Sys) {
    && s.tracks == [Track(0, 100, 10, 0, true, false, false)] && |s.execs| == 1 && |s.requested| == 1
    && s.execs[0] == Exec([0, -1, -1, -1, -1, -1], 1, 10, 10, true, 10, 100, false)
  }

  lemma TenSent()
    ensures TenPlaced(Step(START, Open(10, Quote(100, 10, false), 0)))
  {}

  lemma TenRejected(s: Sys)
    requires TenPlaced(s) && Shape(s)
    ensures var t := Step(s, Return(Rtn(Rejected, 0, 0), 0));
      t.execs == s.execs && t.tracks == [s.tracks[0].(live := false)]
      && Executed(t.tracks, 0, |t.tracks|) == 0 && Stuck(t, 0)
  {}

  lemma {:induction false} NothingToCancel(slots: seq<int>, price: int, k: nat)
    requires k <= |slots| && forall j | k <= j < |slots| :: slots[j] < 0
    ensures CancelFrom([], slots, price, k, 1) == ([], 1)
    decreases |slots| - k
  {
    if k < |slots| {
      NothingToCancel(slots, price, k + 1);
    }
  }

  /** An execution order for ten lots of which n attempts have been refused. */
  predicate AllRefused(s: Sys, n: nat) {
    && |s.execs| == 1 && s.requested == [10] && s.tracks == []
    && s.execs[0] == Exec([-1, -1, -1, -1, -1, -1], n, 0, 10, true, 1, 100, false)
  }

  lemma RefusedOnce(s: Sys, n: nat)
    requires AllRefused(s, n) && 1 <= n < MAX_OUTSTANDING_ORDERS
    ensures Shape(s) && AllRefused(Step(s, Tick(0, Quote(100, 1, false), -1)), n + 1)
  {
    hide CancelFrom;
    NothingToCancel(s.execs[0].slots, 100, 0);
    assert s.execs[0].slots[0 := -1] == s.execs[0].slots;
  }

  /** Six refused sends in a row bring it about too, with nothing sent and everything left to do. */
  lemma SixRefusals()
    ensures var t := Tick(0, Quote(100, 1, false), -1);
      var s := Run(START, [Open(10, Quote(100, 1, false), -1), t, t, t, t, t]); AllRefused(s, 6) && Stuck(s, 0)
  {
    hide Step;
    var q := Quote(100, 1, false);
    var t, o := Tick(0, q, -1), Open(10, q, -1);
    var s1 := Step(START, o);
    OpenRefused();
    RefusedOnce(s1, 1);
    var s2 := Step(s1, t);
    RefusedOnce(s2, 2);
    var s3 := Step(s2, t);
    RefusedOnce(s3, 3);
    var s4 := Step(s3, t);
    RefusedOnce(s4, 4);
    var s5 := Step(s4, t);
    RefusedOnce(s5, 5);
    var s6 := Step(s5, t);
    var es := [o, t, t, t, t, t];
    assert es[1..] == [t, t, t, t, t] && [t, t, t, t, t][1..] == [t, t, t, t] && [t, t, t, t][1..] == [t, t, t];
    assert [t, t, t][1..] == [t, t] && [t, t][1..] == [t] && [t][1..] == [];
    StepShape(s5, t);
    assert Run(s6, []) == s6 && Run(s5, [t]) == s6;
    assert Run(s4, [t, t]) == s6;
    assert Run(s3, [t, t, t]) == s6;
    assert Run(s2, [t, t, t, t]) == s6;
    assert Run(s1, [t, t, t, t, t]) == s6;
  }

  lemma OpenRefused()
    ensures AllRefused(Step(START, Open(10, Quote(100, 1, false), -1)), 1)
  {
    var s := Step(START, Open(10, Quote(100, 1, false), -1));
    assert |s.execs| == 1 && s.execs[0].slots == EMPTY_SLOTS[0 := -1] == EMPTY_SLOTS;
  }
}
