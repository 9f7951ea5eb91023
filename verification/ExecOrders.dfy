/** The order handling of `CLossModel`, changing its orders in place. */
module ExecOrders {
  import opened ExecMessages
  import opened ExecModel
  import opened ExecSafety

  class CLossModel {
    var execs: seq<Exec>
    var tracks: seq<Track>
    ghost var requested: seq<int>

    ghost function State(): Sys
      reads this
    {
      Sys(execs, requested, tracks)
    }

    ghost predicate Valid()
      reads this
    {
      Shape(State()) && SysOk(State())
    }

    constructor ()
      ensures Valid() && State() == START
    {
      execs, tracks, requested := [], [], [];
      new;
      StartOk();
    }

    /** `p_owner_->sendOrder` with the helper's reply, and the count of what is placed. */
    method SendOrder(i: nat, vol: int, reply: int) returns (ret: int)
      requires i < |execs|
      modifies this
      ensures (State(), ret) == Send(old(State()), i, vol, reply)
      ensures ret < 0 <==> reply < 0
      ensures ret < 0 ==> tracks == old(tracks) && execs == old(execs)
      ensures ret >= 0 ==> old(tracks) < tracks && |tracks| == ret + 1 && tracks[ret].live && tracks[ret].vol == vol
      ensures ret >= 0 ==> execs[i].placed == old(execs[i].placed) + vol && execs[i].slots == old(execs[i].slots)
    {
      if reply < 0 {
        return reply;
      }
      ret := |tracks|;
      tracks := tracks + [Track(i, execs[i].bestPrice, vol, 0, true, false, false)];
      execs := execs[i := execs[i].(placed := execs[i].placed + vol)];
    }

    method CancelOrder(id: int) returns (ret: int)
      modifies this`tracks
      ensures (tracks, ret) == DeleteOrder(old(tracks), id)
    {
      if 0 <= id < |tracks| && tracks[id].acked && tracks[id].live {
        tracks := tracks[id := tracks[id].(cxling := true)];
        return 0;
      }
      return -1;
    }

    method CancelOrderAPIStatus(i: nat, price: int) returns (status: int)
      requires i < |execs| && |execs[i].slots| == MAX_OUTSTANDING_ORDERS
      requires forall k | 0 <= k < |execs[i].slots| :: execs[i].slots[k] < |tracks|
      modifies this`tracks
      ensures (tracks, status) == CancelFrom(old(tracks), execs[i].slots, price, 0, 1)
    {
      status := 1;
      var count := 0;
      while count < MAX_OUTSTANDING_ORDERS
        invariant 0 <= count <= MAX_OUTSTANDING_ORDERS && |tracks| == |old(tracks)|
        invariant CancelFrom(old(tracks), execs[i].slots, price, 0, 1)
                  == CancelFrom(tracks, execs[i].slots, price, count, status)
      {
        if execs[i].slots[count] >= 0 {
          if tracks[execs[i].slots[count]].price != price {
            status := CancelOrder(execs[i].slots[count]);
          }
        }
        count := count + 1;
      }
    }

    method PlaceOrder(i: nat, reply: int)
      requires Valid() && i < |execs| && execs[i].ordering && execs[i].best <= execs[i].total
      modifies this
      ensures Valid() && State() == Place(old(State()), i, reply)
    {
      hide CancelFrom, ExecOk, SysOk, DeleteOrder;
      ghost var s := State();
      assert ExecOk(tracks, execs[i], requested[i], i) && PlaceReady(s, i) by {
        PlaceFacts(s, i);
      }
      PlaceOk(s, i, reply);
      PlaceShape(s, i, reply);
      if execs[i].size == 0 {
        if execs[i].best > 0 {
          var id := SendOrder(i, execs[i].best, reply);
          execs := execs[i := execs[i].(slots := execs[i].slots[0 := id], size := execs[i].size + 1)];
          assert State() == SendInto(s, i, 0, s.execs[i].best, reply);
        }
      } else {
        var status := CancelOrderAPIStatus(i, execs[i].bestPrice);
        if status == 1 && execs[i].best > execs[i].placed && execs[i].size < MAX_OUTSTANDING_ORDERS {
          ScanInBounds(s.tracks, s.execs[i], s.requested[i], i);
          SendIntoFree(i, execs[i].best - execs[i].placed, reply);
        }
      }
    }

    /** The order goes out first, then the scan finds a slot for its id. */
    method SendIntoFree(i: nat, vol: int, reply: int)
      requires i < |execs| && FreeSlot(execs[i].slots) < |execs[i].slots|
      modifies this
      ensures State() == SendInto(old(State()), i, FreeSlot(old(execs[i].slots)), vol, reply)
    {
      ghost var slots := execs[i].slots;
      var id := SendOrder(i, vol, reply);
      var k := 0;
      while execs[i].slots[k] > 0
        invariant 0 <= k < |slots|
        invariant FreeSlot(slots) == k + FreeSlot(slots[k..])
        decreases |slots| - k
      {
        assert slots[k..][1..] == slots[k + 1..];
        k := k + 1;
      }
      execs := execs[i := execs[i].(slots := execs[i].slots[k := id], size := execs[i].size + 1)];
    }

    /** One turn of the loop of `OnTick`. */
    method LookAt(i: nat, q: Quote, reply: int)
      requires Valid() && i < |execs| && execs[i].ordering
      modifies this
      ensures Valid() && State() == Look(old(State()), i, q, reply)
    {
      hide Place, ExecOk, SysOk;
      ghost var s := State();
      BestKeeps(s, i, q);
      execs := execs[i := BestOf(execs[i], q)];
      PlaceOrder(i, reply);
    }

    /** `OnTick`: every execution order that is not finished is looked at once. */
    method OnTick(qs: seq<Quote>, replies: seq<int>)
      requires Valid() && |qs| == |replies| == |execs|
      modifies this
      ensures Valid() && State() == Run(old(State()), Ticks(qs, replies, 0))
    {
      hide Look, SysOk;
      ghost var s := State();
      var i := 0;
      assert Run(s, []) == s;
      while i < |execs|
        invariant 0 <= i <= |execs| == |qs| && Valid()
        invariant Run(s, Ticks(qs, replies, 0)) == Run(State(), Ticks(qs, replies, i))
      {
        ghost var now := State();
        assert Ticks(qs, replies, i)[1..] == Ticks(qs, replies, i + 1);
        if execs[i].ordering {
          LookCount(now, i, qs[i], replies[i]);
          LookAt(i, qs[i], replies[i]);
        }
        assert State() == Step(now, Tick(i, qs[i], replies[i]));
        i := i + 1;
      }
    }

    /** `OnExecution`. */
    method OnExecution(size: int, q: Quote, reply: int) returns (id: nat)
      requires Valid()
      modifies this
      ensures Valid() && State() == Step(old(State()), Open(size, q, reply)) && id == |old(execs)|
    {
      hide Look, SysOk;
      ghost var s := State();
      id := |execs|;
      EnteredOk(s, size);
      ShapeOf(Entered(s, size));
      execs, requested := execs + [NewExec(size)], requested + [size];
      LookAt(id, q, reply);
    }

    /** `exitExecution`. */
    method ExitExecution(i: nat, expired: bool)
      requires Valid() && i < |execs|
      modifies this
      ensures Valid() && State() == Leave(old(State()), i, expired)
    {
      hide SysOk, ExitCancels, DeleteOrder;
      ghost var s := State();
      LeaveOk(s, i, expired);
      ShapeOf(Leave(s, i, expired));
      if execs[i].ordering && expired && execs[i].total > 0 {
        var eo := execs[i];
        ghost var slots := eo.slots;
        var count := 0;
        while count < MAX_OUTSTANDING_ORDERS
          invariant 0 <= count <= MAX_OUTSTANDING_ORDERS && execs == s.execs && requested == s.requested
          invariant |eo.slots| == |slots| == MAX_OUTSTANDING_ORDERS
          invariant eo == s.execs[i].(slots := eo.slots, exited := eo.exited)
          invariant forall k | 0 <= k < |slots| :: eo.slots[k] == if k < count then -1 else slots[k]
          invariant eo.exited <==> s.execs[i].exited || exists k | 0 <= k < count :: slots[k] != -1
          invariant ExitCancels(s.tracks, slots, 0) == ExitCancels(tracks, slots, count)
        {
          ExitTurn(tracks, slots, count);
          if eo.slots[count] != -1 {
            var status := CancelOrder(eo.slots[count]);
            eo := eo.(exited := true, slots := eo.slots[count := -1]);
          }
          count := count + 1;
        }
        assert eo.slots == EMPTY_SLOTS;
        SlotsChanged(slots);
        ExitEnd(tracks, slots);
        execs := execs[i := eo.(size := 0, total := 0, ordering := false)];
      }
    }

    /** `ProcessExit`. */
    method ProcessExit(expired: seq<bool>)
      requires Valid() && |expired| == |execs|
      modifies this
      ensures Valid() && State() == Run(old(State()), Exits(expired, 0))
    {
      hide Leave, SysOk;
      ghost var s := State();
      var i := 0;
      while i < |execs|
        invariant 0 <= i <= |execs| == |expired| && Valid()
        invariant Run(s, Exits(expired, 0)) == Run(State(), Exits(expired, i))
      {
        ghost var now := State();
        assert Exits(expired, i)[1..] == Exits(expired, i + 1);
        LeaveCount(now, i, expired[i]);
        ExitExecution(i, expired[i]);
        assert State() == Step(now, Exit(i, expired[i]));
        i := i + 1;
      }
      assert Run(State(), []) == State();
    }

    /** `getRtn` and `sys_on_rtn`. */
    method SysOnRtn(msg: Rtn, reply: int) returns (mine: bool)
      requires Valid() && msg.id < |tracks| && LegalFor(tracks[msg.id], msg)
      modifies this
      ensures Valid() && State() == OnRtn(old(State()), msg, reply)
      ensures Recorded(old(tracks), tracks, msg)
      ensures mine <==> msg.id in old(execs)[old(tracks)[msg.id].owner].slots
      ensures if mine then HeldMessage(old(State()), State(), msg, reply, old(tracks)[msg.id].owner)
              else execs == old(execs) && |tracks| == |old(tracks)|
    {
      hide SysOk, LegalFor, Tracked, OnFill, HeldMessage, Recorded;
      ghost var s := State();
      RtnOk(s, msg, reply);
      MessageDoes(s, msg, reply);
      HolderIs(s, msg.id);
      ShapeOf(OnRtn(s, msg, reply));
      tracks := tracks[msg.id := Tracked(tracks[msg.id], msg)];
      var h := 0;
      while h < |execs|
        invariant 0 <= h <= |execs| && execs == s.execs && requested == s.requested
        invariant tracks == s.tracks[msg.id := Tracked(s.tracks[msg.id], msg)]
        invariant Holder(execs, msg.id, 0) == Holder(execs, msg.id, h)
      {
        var eo := execs[h];
        var count := 0;
        while count < MAX_OUTSTANDING_ORDERS && eo.slots[count] != msg.id
          invariant 0 <= count <= MAX_OUTSTANDING_ORDERS
          invariant SlotOf(eo.slots, msg.id) == count + SlotOf(eo.slots[count..], msg.id)
        {
          assert eo.slots[count..][1..] == eo.slots[count + 1..];
          count := count + 1;
        }
        assert SlotOf(eo.slots, msg.id) == count;
        if count < MAX_OUTSTANDING_ORDERS {
          if msg.kind == Execution {
            var t := tracks[msg.id];
            execs := execs[h := OnFill(eo, count, msg.vol, t.vol == t.traded)];
          } else if msg.kind == Canceled {
            OnCancel(h, count, msg.vol, reply);
          }
          return true;
        }
        h := h + 1;
      }
      return false;
    }

    method OnCancel(h: nat, k: nat, vol: int, reply: int)
      requires h < |execs| && |execs[h].slots| == MAX_OUTSTANDING_ORDERS && k < MAX_OUTSTANDING_ORDERS
      modifies this
      ensures State() == OnCanceled(old(State()), h, k, vol, reply)
      ensures var e, n := old(execs)[h], |old(tracks)|;
        if !e.exited && e.size == 1 && e.best > 0 && e.total > 0 && reply >= 0 then
          |tracks| == n + 1 && tracks[..n] == old(tracks) && Again(e, tracks[n].vol) &&
          tracks[n] == Track(h, e.bestPrice, tracks[n].vol, 0, true, false, false)
        else tracks == old(tracks)
    {
      execs := execs[h := execs[h].(placed := execs[h].placed - vol)];
      if !execs[h].exited {
        execs := execs[h := execs[h].(slots := execs[h].slots[k := -1], size := execs[h].size - 1)];
        if execs[h].size == 0 && execs[h].best > 0 && execs[h].total > 0 {
          var id := SendOrder(h, if execs[h].best < execs[h].total then execs[h].best else execs[h].total, reply);
          execs := execs[h := execs[h].(slots := execs[h].slots[0 := id], size := execs[h].size + 1)];
        }
      }
    }
  }

  function Ticks(qs: seq<Quote>, replies: seq<int>, i: nat): seq<Event>
    requires |qs| == |replies| && i <= |qs|
  {
    seq(|qs| - i, k requires 0 <= k < |qs| - i => Tick(i + k, qs[i + k], replies[i + k]))
  }

  function Exits(expired: seq<bool>, i: nat): seq<Event>
    requires i <= |expired|
  {
    seq(|expired| - i, k requires 0 <= k < |expired| - i => Exit(i + k, expired[i + k]))
  }

  predicate PlaceReady(s: Sys, i: nat)
    requires i < |s.execs|
  {
    |s.execs[i].slots| == MAX_OUTSTANDING_ORDERS && forall k | 0 <= k < |s.execs[i].slots| :: s.execs[i].slots[k] < |s.tracks|
  }

  lemma PlaceFacts(s: Sys, i: nat)
    requires SysOk(s) && i < |s.execs|
    ensures ExecOk(s.tracks, s.execs[i], s.requested[i], i) && PlaceReady(s, i)
  {
    assert ExecOk(s.tracks, s.execs[i], s.requested[i], i);
  }

  lemma PlaceShape(s: Sys, i: nat, reply: int)
    requires Shape(s) && i < |s.execs|
    ensures Shape(Place(s, i, reply))
  {
    hide CancelFrom;
  }

  lemma BestKeeps(s: Sys, i: nat, q: Quote)
    requires Shape(s) && SysOk(s) && i < |s.execs|
    ensures Shape(s.(execs := s.execs[i := BestOf(s.execs[i], q)])) && SysOk(s.(execs := s.execs[i := BestOf(s.execs[i], q)]))
  {
    hide Exposure, Rests, Occupied, TracksOk, SameFor;
    var e := BestOf(s.execs[i], q);
    assert ExecOk(s.tracks, s.execs[i], s.requested[i], i);
    assert ExecOk(s.tracks, e, s.requested[i], i);
    SameSelf(s.tracks);
    OneOk(s, i, e, s.tracks);
  }

  lemma LookCount(s: Sys, i: nat, q: Quote, reply: int)
    requires Shape(s) && i < |s.execs|
    ensures |Look(s, i, q, reply).execs| == |s.execs|
  {
    hide CancelFrom;
  }

  lemma LeaveCount(s: Sys, i: nat, expired: bool)
    requires Shape(s) && i < |s.execs|
    ensures |Leave(s, i, expired).execs| == |s.execs|
  {}

  lemma ExitTurn(tracks: seq<Track>, slots: seq<int>, k: nat)
    requires k < |slots|
    ensures ExitCancels(tracks, slots, k) ==
            ExitCancels(if slots[k] != -1 then DeleteOrder(tracks, slots[k]).0 else tracks, slots, k + 1)
  {}

  lemma ExitEnd(tracks: seq<Track>, slots: seq<int>)
    ensures ExitCancels(tracks, slots, |slots|) == tracks
  {}

  lemma SlotsChanged(slots: seq<int>)
    requires |slots| == MAX_OUTSTANDING_ORDERS
    ensures slots != EMPTY_SLOTS <==> exists k | 0 <= k < |slots| :: slots[k] != -1
  {
    if forall k | 0 <= k < |slots| :: slots[k] == -1 {
      assert slots == EMPTY_SLOTS;
    }
  }
}
