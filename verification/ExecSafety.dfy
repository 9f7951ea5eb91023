/** No run of events makes an execution order trade more than it was asked to. */
module ExecSafety {
  import opened ExecModel

  // ---------------------------------------------------------------- counting

  /** What an order has traded or may still trade, if it was sent for execution order i. */
  function Share(t: Track, i: nat): int {
    if t.owner != i then 0 else if t.live then t.vol else t.traded
  }

  /** Executed plus live volume of execution order i among the first n orders. */
  function Exposure(tracks: seq<Track>, i: nat, n: nat): int
    requires n <= |tracks|
  {
    if n == 0 then 0 else Exposure(tracks, i, n - 1) + Share(tracks[n - 1], i)
  }

  function Executed(tracks: seq<Track>, i: nat, n: nat): int
    requires n <= |tracks|
  {
    if n == 0 then 0
    else Executed(tracks, i, n - 1) + if tracks[n - 1].owner == i then tracks[n - 1].traded else 0
  }

  /** What an order in a slot has not traded. */
  function Rest(tracks: seq<Track>, id: int): int {
    if 0 <= id < |tracks| then tracks[id].vol - tracks[id].traded else 0
  }

  function Rests(tracks: seq<Track>, slots: seq<int>, n: nat): int
    requires n <= |slots|
  {
    if n == 0 then 0 else Rests(tracks, slots, n - 1) + Rest(tracks, slots[n - 1])
  }

  function Occupied(slots: seq<int>, n: nat): nat
    requires n <= |slots|
  {
    if n == 0 then 0 else Occupied(slots, n - 1) + if slots[n - 1] >= 0 then 1 else 0
  }

  // ---------------------------------------------------------------- the invariant

  predicate TrackOk(t: Track, n: nat) {
    t.owner < n && 1 <= t.vol && 0 <= t.traded <= t.vol && (t.live ==> t.traded < t.vol)
  }

  predicate TracksOk(tracks: seq<Track>, n: nat) {
    forall k | 0 <= k < |tracks| :: TrackOk(tracks[k], n)
  }

  /** Slots hold this execution order's own orders, none of them twice. */
  predicate SlotsOk(tracks: seq<Track>, slots: seq<int>, i: nat) {
    && |slots| == MAX_OUTSTANDING_ORDERS
    && (forall k | 0 <= k < |slots| :: slots[k] < |tracks| && (slots[k] >= 0 ==> tracks[slots[k]].owner == i))
    && (forall j, k | 0 <= j < k < |slots| :: slots[j] >= 0 ==> slots[j] != slots[k])
  }

  function Max0(n: int): int { if n < 0 then 0 else n }

  /** The counters of an execution order that still places orders. */
  predicate CountersOk(tracks: seq<Track>, eo: Exec, requested: int, i: nat)
    requires |eo.slots| == MAX_OUTSTANDING_ORDERS
  {
    && !eo.exited
    && Occupied(eo.slots, |eo.slots|) <= eo.size <= MAX_OUTSTANDING_ORDERS
    && Rests(tracks, eo.slots, |eo.slots|) <= eo.placed <= Max0(eo.total)
    && (Occupied(eo.slots, |eo.slots|) == eo.size ==> Rests(tracks, eo.slots, |eo.slots|) == eo.placed)
    && Exposure(tracks, i, |tracks|) <= requested - eo.total + eo.placed
    && eo.total <= requested
  }

  predicate ExecOk(tracks: seq<Track>, eo: Exec, requested: int, i: nat) {
    && SlotsOk(tracks, eo.slots, i)
    && Exposure(tracks, i, |tracks|) <= Max0(requested)
    && if eo.ordering then CountersOk(tracks, eo, requested, i) else eo.slots == EMPTY_SLOTS && eo.size == 0
  }

  predicate SysOk(s: Sys) {
    && |s.requested| == |s.execs|
    && TracksOk(s.tracks, |s.execs|)
    && forall i | 0 <= i < |s.execs| :: ExecOk(s.tracks, s.execs[i], s.requested[i], i)
  }

  // ---------------------------------------------------------------- sums

  /** Changing one order changes the sum by what that order adds. */
  lemma {:induction false} ExposureUpdate(tracks: seq<Track>, i: nat, id: nat, t: Track, n: nat)
    requires id < |tracks| && n <= |tracks|
    ensures Exposure(tracks[id := t], i, n) ==
            Exposure(tracks, i, n) + if id < n then Share(t, i) - Share(tracks[id], i) else 0
  {
    if n > 0 {
      ExposureUpdate(tracks, i, id, t, n - 1);
    }
  }

  lemma {:induction false} ExposurePrefix(tracks: seq<Track>, i: nat, t: Track, n: nat)
    requires n <= |tracks|
    ensures Exposure(tracks + [t], i, n) == Exposure(tracks, i, n)
  {
    if n > 0 {
      ExposurePrefix(tracks, i, t, n - 1);
    }
  }

  lemma {:induction false} RestsUpdate(tracks: seq<Track>, slots: seq<int>, k: nat, id: int, n: nat)
    requires k < |slots| && n <= |slots|
    ensures Rests(tracks, slots[k := id], n) ==
            Rests(tracks, slots, n) + if k < n then Rest(tracks, id) - Rest(tracks, slots[k]) else 0
  {
    if n > 0 {
      RestsUpdate(tracks, slots, k, id, n - 1);
    }
  }

  lemma {:induction false} OccupiedUpdate(slots: seq<int>, k: nat, id: int, n: nat)
    requires k < |slots| && n <= |slots|
    ensures Occupied(slots[k := id], n) ==
            Occupied(slots, n) + if k < n then (if id >= 0 then 1 else 0) - (if slots[k] >= 0 then 1 else 0) else 0
  {
    if n > 0 {
      OccupiedUpdate(slots, k, id, n - 1);
    }
  }

  /** Slots whose orders have the same rest have the same sum. */
  lemma {:induction false} RestsSame(t: seq<Track>, t': seq<Track>, slots: seq<int>, n: nat)
    requires n <= |slots| && forall k | 0 <= k < n :: Rest(t, slots[k]) == Rest(t', slots[k])
    ensures Rests(t, slots, n) == Rests(t', slots, n)
  {
    if n > 0 {
      RestsSame(t, t', slots, n - 1);
    }
  }

  /** One of the slots changes its rest. */
  lemma {:induction false} RestsChange(t: seq<Track>, t': seq<Track>, slots: seq<int>, at: nat, n: nat)
    requires at < |slots| && n <= |slots|
    requires forall k | 0 <= k < n && k != at :: Rest(t, slots[k]) == Rest(t', slots[k])
    ensures Rests(t', slots, n) == Rests(t, slots, n) + if at < n then Rest(t', slots[at]) - Rest(t, slots[at]) else 0
  {
    if n > 0 {
      RestsChange(t, t', slots, at, n - 1);
    }
  }

  lemma {:induction false} RestsSlot(tracks: seq<Track>, slots: seq<int>, k: nat, n: nat, m: nat)
    requires TracksOk(tracks, m) && n <= |slots|
    ensures Rests(tracks, slots, n) >= if k < n then Rest(tracks, slots[k]) else 0
  {
    if n > 0 {
      RestsSlot(tracks, slots, k, n - 1, m);
    }
  }

  lemma {:induction false} OccupiedSlot(slots: seq<int>, k: nat, n: nat)
    requires k < n <= |slots| && slots[k] >= 0
    ensures Occupied(slots, n) >= 1
  {
    if k < n - 1 {
      OccupiedSlot(slots, k, n - 1);
    }
  }

  lemma {:induction false} NoneOccupied(tracks: seq<Track>, slots: seq<int>, n: nat)
    requires n <= |slots| && Occupied(slots, n) == 0
    ensures Rests(tracks, slots, n) == 0 && forall k | 0 <= k < n :: slots[k] < 0
  {
    if n > 0 {
      NoneOccupied(tracks, slots, n - 1);
    }
  }

  lemma {:induction false} AllOccupied(slots: seq<int>, n: nat)
    requires n <= |slots| && forall k | 0 <= k < n :: slots[k] >= 0
    ensures Occupied(slots, n) == n
  {
    if n > 0 {
      AllOccupied(slots, n - 1);
    }
  }

  lemma {:induction false} ScanStops(slots: seq<int>)
    ensures forall k | 0 <= k < FreeSlot(slots) :: slots[k] > 0
    ensures FreeSlot(slots) < |slots| ==> slots[FreeSlot(slots)] <= 0
  {
    if slots != [] && slots[0] > 0 {
      ScanStops(slots[1..]);
      assert forall k | 1 <= k < |slots| :: slots[k] == slots[1..][k - 1];
    }
  }

  /** With fewer than six orders counted, the free-slot scan ends at a slot. */
  lemma ScanInBounds(tracks: seq<Track>, eo: Exec, requested: int, i: nat)
    requires ExecOk(tracks, eo, requested, i) && eo.ordering && eo.size < MAX_OUTSTANDING_ORDERS
    ensures FreeSlot(eo.slots) < |eo.slots|
  {
    hide Exposure, Rests, Occupied;
    ScanStops(eo.slots);
    if FreeSlot(eo.slots) == |eo.slots| {
      AllOccupied(eo.slots, |eo.slots|);
    }
  }

  // ---------------------------------------------------------------- what does not concern an execution order

  /** Nothing that counts has changed for execution order j. */
  predicate SameFor(t: seq<Track>, t': seq<Track>, j: nat) {
    && |t| <= |t'|
    && (forall k | 0 <= k < |t| :: t'[k].owner == t[k].owner && (t[k].owner == j ==>
         t'[k].vol == t[k].vol && t'[k].traded == t[k].traded && t'[k].live == t[k].live))
    && (forall k | |t| <= k < |t'| :: t'[k].owner != j)
  }

  lemma {:induction false} ExposureSame(t: seq<Track>, t': seq<Track>, j: nat, n: nat)
    requires SameFor(t, t', j) && n <= |t'|
    ensures Exposure(t', j, n) == Exposure(t, j, if n <= |t| then n else |t|)
  {
    if n > 0 {
      ExposureSame(t, t', j, n - 1);
    }
  }

  lemma OthersOk(t: seq<Track>, t': seq<Track>, eo: Exec, requested: int, j: nat)
    requires ExecOk(t, eo, requested, j) && SameFor(t, t', j)
    ensures ExecOk(t', eo, requested, j)
  {
    hide Exposure, Rests, Occupied;
    ExposureSame(t, t', j, |t'|);
    RestsSame(t, t', eo.slots, |eo.slots|);
  }

  /** Only the mark that a cancel request went out has changed. */
  predicate FlagsOnly(t: seq<Track>, t': seq<Track>) {
    |t'| == |t| && forall k | 0 <= k < |t| :: t'[k] == t[k].(cxling := t'[k].cxling)
  }

  /** The orders in the slots from k on rest at this price. */
  predicate AtPrice(tracks: seq<Track>, slots: seq<int>, price: int, k: nat) {
    forall m | k <= m < |slots| && 0 <= slots[m] < |tracks| :: tracks[slots[m]].price == price
  }

  lemma {:induction false} CancelFlags(tracks: seq<Track>, slots: seq<int>, price: int, k: nat, status: int)
    requires k <= |slots|
    ensures FlagsOnly(tracks, CancelFrom(tracks, slots, price, k, status).0)
    ensures CancelFrom(tracks, slots, price, k, status).1 == 1 ==> AtPrice(tracks, slots, price, k)
    ensures CancelFrom(tracks, slots, price, k, status).1 == 1 ==>
              status == 1 && CancelFrom(tracks, slots, price, k, status).0 == tracks
    ensures AtPrice(tracks, slots, price, k) ==> CancelFrom(tracks, slots, price, k, status) == (tracks, status)
    decreases |slots| - k
  {
    if k < |slots| {
      if 0 <= slots[k] < |tracks| && tracks[slots[k]].price != price {
        var d := DeleteOrder(tracks, slots[k]);
        CancelFlags(d.0, slots, price, k + 1, d.1);
      } else {
        CancelFlags(tracks, slots, price, k + 1, status);
      }
    }
  }

  lemma {:induction false} ExitFlags(tracks: seq<Track>, slots: seq<int>, k: nat)
    requires k <= |slots|
    ensures FlagsOnly(tracks, ExitCancels(tracks, slots, k))
    decreases |slots| - k
  {
    if k < |slots| {
      ExitFlags(if slots[k] != -1 then DeleteOrder(tracks, slots[k]).0 else tracks, slots, k + 1);
    }
  }

  lemma FlagsOk(s: Sys, tracks: seq<Track>)
    requires SysOk(s) && FlagsOnly(s.tracks, tracks)
    ensures SysOk(s.(tracks := tracks))
  {
    hide ExecOk, TrackOk;
    forall k | 0 <= k < |tracks| ensures TrackOk(tracks[k], |s.execs|) {
      FlagOk(s.tracks[k], tracks[k], |s.execs|);
    }
    forall i | 0 <= i < |s.execs| ensures ExecOk(tracks, s.execs[i], s.requested[i], i) {
      OthersOk(s.tracks, tracks, s.execs[i], s.requested[i], i);
    }
  }

  lemma FlagOk(t: Track, t': Track, n: nat)
    requires TrackOk(t, n) && t' == t.(cxling := t'.cxling)
    ensures TrackOk(t', n)
  {}

  /** One execution order and its tracks change; the others are as before. */
  lemma OneOk(s: Sys, i: nat, eo: Exec, tracks: seq<Track>)
    requires SysOk(s) && i < |s.execs| && TracksOk(tracks, |s.execs|)
    requires forall j | 0 <= j < |s.execs| && j != i :: SameFor(s.tracks, tracks, j)
    requires ExecOk(tracks, eo, s.requested[i], i)
    ensures SysOk(s.(tracks := tracks, execs := s.execs[i := eo]))
  {
    hide ExecOk, TracksOk, SameFor;
    forall j | 0 <= j < |s.execs| && j != i ensures ExecOk(tracks, s.execs[j], s.requested[j], j) {
      OthersOk(s.tracks, tracks, s.execs[j], s.requested[j], j);
    }
  }

  // ---------------------------------------------------------------- sending

  predicate MaySend(eo: Exec, k: nat, vol: int) {
    && eo.ordering && k < |eo.slots| && eo.slots[k] <= 0
    && eo.size < MAX_OUTSTANDING_ORDERS && vol >= 1 && eo.placed + vol <= eo.total
  }

  lemma SendIntoOk(s: Sys, i: nat, k: nat, vol: int, reply: int)
    requires SysOk(s) && i < |s.execs| && MaySend(s.execs[i], k, vol)
    ensures SysOk(SendInto(s, i, k, vol, reply))
  {
    hide ExecOk, TracksOk, SameFor, FreeSlot;
    var eo := s.execs[i];
    assert ExecOk(s.tracks, eo, s.requested[i], i);
    if reply < 0 {
      RefusedOk(s.tracks, eo, s.requested[i], i, k, reply, |s.execs|);
      var e := eo.(slots := eo.slots[k := reply], size := eo.size + 1);
      SameSelf(s.tracks);
      OneOk(s, i, e, s.tracks);
      assert SendInto(s, i, k, vol, reply) == s.(tracks := s.tracks, execs := s.execs[i := e]);
    } else {
      var t := Track(i, eo.bestPrice, vol, 0, true, false, false);
      var e := eo.(placed := eo.placed + vol, slots := eo.slots[k := |s.tracks|], size := eo.size + 1);
      SentOk(s.tracks, eo, s.requested[i], i, k, t, |s.execs|);
      SentElsewhere(s.tracks, t, |s.execs|);
      OneOk(s, i, e, s.tracks + [t]);
      assert SendInto(s, i, k, vol, reply) == s.(tracks := s.tracks + [t], execs := s.execs[i := e]);
    }
  }

  lemma SameSelf(tracks: seq<Track>)
    ensures forall j: nat :: SameFor(tracks, tracks, j)
  {}

  lemma SentElsewhere(tracks: seq<Track>, t: Track, n: nat)
    requires TracksOk(tracks, n) && TrackOk(t, n)
    ensures TracksOk(tracks + [t], n)
    ensures forall j: nat | j != t.owner :: SameFor(tracks, tracks + [t], j)
  {}

  lemma RefusedOk(tracks: seq<Track>, eo: Exec, requested: int, i: nat, k: nat, reply: int, n: nat)
    requires TracksOk(tracks, n)
    requires ExecOk(tracks, eo, requested, i) && eo.ordering && k < |eo.slots| && eo.slots[k] <= 0
    requires eo.size < MAX_OUTSTANDING_ORDERS && reply < 0
    ensures ExecOk(tracks, eo.(slots := eo.slots[k := reply], size := eo.size + 1), requested, i)
  {
    hide Exposure, Rests, Occupied;
    RestsUpdate(tracks, eo.slots, k, reply, |eo.slots|);
    OccupiedUpdate(eo.slots, k, reply, |eo.slots|);
  }

  lemma SentOk(tracks: seq<Track>, eo: Exec, requested: int, i: nat, k: nat, t: Track, n: nat)
    requires TracksOk(tracks, n)
    requires ExecOk(tracks, eo, requested, i) && MaySend(eo, k, t.vol) && t.owner == i && t.live && t.traded == 0
    ensures ExecOk(tracks + [t], eo.(placed := eo.placed + t.vol, slots := eo.slots[k := |tracks|], size := eo.size + 1),
                   requested, i)
  {
    hide Exposure, Rests, Occupied;
    var t', id := tracks + [t], |tracks|;
    assert Exposure(t', i, |t'|) == Exposure(tracks, i, |tracks|) + t.vol by {
      ExposureSent(tracks, i, t);
    }
    RestsSame(tracks, t', eo.slots, |eo.slots|);
    RestsUpdate(t', eo.slots, k, id, |eo.slots|);
    OccupiedUpdate(eo.slots, k, id, |eo.slots|);
  }

  lemma ExposureSent(tracks: seq<Track>, i: nat, t: Track)
    ensures Exposure(tracks + [t], i, |tracks| + 1) == Exposure(tracks, i, |tracks|) + Share(t, i)
  {
    ExposurePrefix(tracks, i, t, |tracks|);
  }

  // ---------------------------------------------------------------- looking, entering and leaving

  lemma PlaceOk(s: Sys, i: nat, reply: int)
    requires SysOk(s) && i < |s.execs| && s.execs[i].ordering && s.execs[i].best <= s.execs[i].total
    ensures |s.execs[i].slots| == MAX_OUTSTANDING_ORDERS && SysOk(Place(s, i, reply))
  {
    hide Exposure, Rests, Occupied, SendInto, CancelFrom, TracksOk, FreeSlot;
    var eo := s.execs[i];
    assert ExecOk(s.tracks, eo, s.requested[i], i);
    if eo.size == 0 {
      NoneOccupied(s.tracks, eo.slots, |eo.slots|);
      if eo.best > 0 {
        SendIntoOk(s, i, 0, eo.best, reply);
      }
    } else {
      CancelFlags(s.tracks, eo.slots, eo.bestPrice, 0, 1);
      var s1 := s.(tracks := CancelFrom(s.tracks, eo.slots, eo.bestPrice, 0, 1).0);
      FlagsOk(s, s1.tracks);
      if eo.best > eo.placed && eo.size < MAX_OUTSTANDING_ORDERS {
        ScanInBounds(s.tracks, eo, s.requested[i], i);
        ScanStops(eo.slots);
        SendIntoOk(s1, i, FreeSlot(eo.slots), eo.best - eo.placed, reply);
      }
    }
  }

  lemma LookOk(s: Sys, i: nat, q: Quote, reply: int)
    requires SysOk(s) && i < |s.execs| && s.execs[i].ordering
    ensures |s.execs[i].slots| == MAX_OUTSTANDING_ORDERS && SysOk(Look(s, i, q, reply))
  {
    hide Exposure, Rests, Occupied, Place, TracksOk, SameFor;
    var e := BestOf(s.execs[i], q);
    assert ExecOk(s.tracks, s.execs[i], s.requested[i], i);
    assert ExecOk(s.tracks, e, s.requested[i], i);
    SameSelf(s.tracks);
    OneOk(s, i, e, s.tracks);
    PlaceOk(s.(execs := s.execs[i := e]), i, reply);
  }

  lemma {:induction false} NothingOwned(tracks: seq<Track>, m: nat, n: nat)
    requires TracksOk(tracks, m) && n <= |tracks|
    ensures Exposure(tracks, m, n) == 0
  {
    if n > 0 {
      NothingOwned(tracks, m, n - 1);
    }
  }

  lemma {:induction false} EmptySlots(tracks: seq<Track>, n: nat)
    requires n <= |EMPTY_SLOTS|
    ensures Occupied(EMPTY_SLOTS, n) == 0 && Rests(tracks, EMPTY_SLOTS, n) == 0
  {
    if n > 0 {
      EmptySlots(tracks, n - 1);
    }
  }

  function Entered(s: Sys, requested: int): Sys {
    s.(execs := s.execs + [NewExec(requested)], requested := s.requested + [requested])
  }

  lemma EnteredOk(s: Sys, requested: int)
    requires SysOk(s)
    ensures SysOk(Entered(s, requested))
  {
    hide Exposure, Rests, Occupied;
    EmptySlots(s.tracks, MAX_OUTSTANDING_ORDERS);
    NothingOwned(s.tracks, |s.execs|, |s.tracks|);
    assert ExecOk(s.tracks, NewExec(requested), requested, |s.execs|);
    forall i | 0 <= i < |s.execs|
      ensures ExecOk(s.tracks, Entered(s, requested).execs[i], Entered(s, requested).requested[i], i)
    {
      assert ExecOk(s.tracks, s.execs[i], s.requested[i], i);
    }
  }

  lemma LeaveOk(s: Sys, i: nat, expired: bool)
    requires SysOk(s) && i < |s.execs|
    ensures |s.execs[i].slots| == MAX_OUTSTANDING_ORDERS && SysOk(Leave(s, i, expired))
  {
    hide Exposure, Rests, Occupied, ExitCancels, TracksOk, SameFor, FlagsOnly, SlotsOk;
    var eo := s.execs[i];
    assert ExecOk(s.tracks, eo, s.requested[i], i);
    assert |eo.slots| == MAX_OUTSTANDING_ORDERS by {
      SlotsLength(s.tracks, eo.slots, i);
    }
    if eo.ordering && expired && eo.total > 0 {
      var tracks := ExitCancels(s.tracks, eo.slots, 0);
      ExitFlags(s.tracks, eo.slots, 0);
      FlagsOk(s, tracks);
      var s1 := s.(tracks := tracks);
      var e := eo.(slots := EMPTY_SLOTS, size := 0, total := 0, ordering := false,
                   exited := eo.exited || eo.slots != EMPTY_SLOTS);
      assert ExecOk(tracks, eo, s.requested[i], i);
      EmptyOk(tracks, i);
      SameSelf(tracks);
      OneOk(s1, i, e, tracks);
      assert Leave(s, i, expired) == s1.(tracks := tracks, execs := s1.execs[i := e]);
    }
  }

  lemma SlotsLength(tracks: seq<Track>, slots: seq<int>, i: nat)
    requires SlotsOk(tracks, slots, i)
    ensures |slots| == MAX_OUTSTANDING_ORDERS
  {}

  lemma EmptyOk(tracks: seq<Track>, i: nat)
    ensures SlotsOk(tracks, EMPTY_SLOTS, i)
  {}

  // ---------------------------------------------------------------- messages

  /** A message about a live order, and what it does to that order. */
  predicate LegalFor(t: Track, msg: Rtn) {
    && t.live
    && (msg.kind == Execution ==> 1 <= msg.vol <= t.vol - t.traded)
    && (msg.kind == Canceled ==> msg.vol == t.vol - t.traded)
  }

  function After(tracks: seq<Track>, msg: Rtn): seq<Track>
    requires msg.id < |tracks|
  {
    tracks[msg.id := Tracked(tracks[msg.id], msg)]
  }

  lemma AfterTracks(tracks: seq<Track>, msg: Rtn, n: nat)
    requires msg.id < |tracks| && LegalFor(tracks[msg.id], msg) && TracksOk(tracks, n)
    ensures TracksOk(After(tracks, msg), n)
    ensures forall j: nat | j != tracks[msg.id].owner :: SameFor(tracks, After(tracks, msg), j)
  {
    assert TrackOk(tracks[msg.id], n);
  }

  /** An execution order that does not hold the order any more only sees its exposure shrink. */
  lemma UnheldOk(tracks: seq<Track>, msg: Rtn, eo: Exec, requested: int, i: nat, n: nat)
    requires msg.id < |tracks| && LegalFor(tracks[msg.id], msg) && TracksOk(tracks, n)
    requires ExecOk(tracks, eo, requested, i) && forall k | 0 <= k < |eo.slots| :: eo.slots[k] != msg.id
    ensures ExecOk(After(tracks, msg), eo, requested, i)
  {
    hide Exposure, Rests, Occupied;
    assert TrackOk(tracks[msg.id], n);
    var t' := After(tracks, msg);
    ExposureUpdate(tracks, i, msg.id, t'[msg.id], |tracks|);
    RestsSame(tracks, t', eo.slots, |eo.slots|);
  }

  /** Messages that leave the slots alone. */
  lemma HeldOk(tracks: seq<Track>, msg: Rtn, eo: Exec, requested: int, i: nat, n: nat)
    requires msg.id < |tracks| && LegalFor(tracks[msg.id], msg) && TracksOk(tracks, n)
    requires ExecOk(tracks, eo, requested, i) && (msg.kind == Accepted || msg.kind == Rejected)
    ensures ExecOk(After(tracks, msg), eo, requested, i)
  {
    hide Exposure, Rests, Occupied;
    assert TrackOk(tracks[msg.id], n);
    var t' := After(tracks, msg);
    ExposureUpdate(tracks, i, msg.id, t'[msg.id], |tracks|);
    RestsSame(tracks, t', eo.slots, |eo.slots|);
  }

  lemma FillOk(tracks: seq<Track>, msg: Rtn, eo: Exec, requested: int, i: nat, k: nat, n: nat)
    requires msg.id < |tracks| && LegalFor(tracks[msg.id], msg) && TracksOk(tracks, n) && msg.kind == Execution
    requires ExecOk(tracks, eo, requested, i) && k < |eo.slots| && eo.slots[k] == msg.id
    ensures var t := After(tracks, msg)[msg.id];
      ExecOk(After(tracks, msg), OnFill(eo, k, msg.vol, t.vol == t.traded), requested, i)
  {
    hide Exposure, Rests, Occupied;
    assert TrackOk(tracks[msg.id], n);
    var t' := After(tracks, msg);
    ExposureUpdate(tracks, i, msg.id, t'[msg.id], |tracks|);
    RestsChange(tracks, t', eo.slots, k, |eo.slots|);
    RestsSlot(tracks, eo.slots, k, |eo.slots|, n);
    OccupiedSlot(eo.slots, k, |eo.slots|);
    RestsUpdate(t', eo.slots, k, -1, |eo.slots|);
    OccupiedUpdate(eo.slots, k, -1, |eo.slots|);
  }

  /** The cancelled order leaves its slot; what it had not traded is free again. */
  lemma CanceledOk(tracks: seq<Track>, msg: Rtn, eo: Exec, requested: int, i: nat, k: nat, n: nat)
    requires msg.id < |tracks| && LegalFor(tracks[msg.id], msg) && TracksOk(tracks, n) && msg.kind == Canceled
    requires ExecOk(tracks, eo, requested, i) && k < |eo.slots| && eo.slots[k] == msg.id
    ensures eo.ordering && !eo.exited
    ensures ExecOk(After(tracks, msg), Vacate(eo.(placed := eo.placed - msg.vol), k), requested, i)
  {
    hide Exposure, Rests, Occupied;
    assert TrackOk(tracks[msg.id], n);
    var t' := After(tracks, msg);
    ExposureUpdate(tracks, i, msg.id, t'[msg.id], |tracks|);
    RestsSame(tracks, t', eo.slots, |eo.slots|);
    OccupiedSlot(eo.slots, k, |eo.slots|);
    RestsUpdate(t', eo.slots, k, -1, |eo.slots|);
    OccupiedUpdate(eo.slots, k, -1, |eo.slots|);
  }

  lemma ReorderOk(s: Sys, i: nat, reply: int)
    requires SysOk(s) && i < |s.execs| && s.execs[i].ordering
    requires s.execs[i].size == 0 && s.execs[i].best > 0 && s.execs[i].total > 0
    ensures |s.execs[i].slots| == MAX_OUTSTANDING_ORDERS
    ensures SysOk(SendInto(s, i, 0, if s.execs[i].best < s.execs[i].total then s.execs[i].best else s.execs[i].total, reply))
  {
    hide Exposure, Rests, Occupied, SendInto, TracksOk;
    var eo := s.execs[i];
    assert ExecOk(s.tracks, eo, s.requested[i], i);
    NoneOccupied(s.tracks, eo.slots, |eo.slots|);
    SendIntoOk(s, i, 0, if eo.best < eo.total then eo.best else eo.total, reply);
  }

  lemma ShapeOf(s: Sys)
    requires SysOk(s)
    ensures Shape(s)
  {
    hide Exposure, Rests, Occupied, TracksOk;
    forall i | 0 <= i < |s.execs| ensures |s.execs[i].slots| == MAX_OUTSTANDING_ORDERS {
      assert ExecOk(s.tracks, s.execs[i], s.requested[i], i);
    }
  }

  lemma OwnerHolds(tracks: seq<Track>, eo: Exec, requested: int, i: nat, k: nat)
    requires ExecOk(tracks, eo, requested, i) && k < |eo.slots| && 0 <= eo.slots[k]
    ensures eo.slots[k] < |tracks| && tracks[eo.slots[k]].owner == i
  {}

  lemma RtnOk(s: Sys, msg: Rtn, reply: int)
    requires SysOk(s) && Shape(s) && msg.id < |s.tracks| && LegalFor(s.tracks[msg.id], msg)
    ensures SysOk(OnRtn(s, msg, reply))
  {
    hide ExecOk, TracksOk, SameFor, SendInto, LegalFor, Tracked;
    var tracks := After(s.tracks, msg);
    var h := Holder(s.execs, msg.id, 0);
    AfterTracks(s.tracks, msg, |s.execs|);
    var o := s.tracks[msg.id].owner;
    assert o < |s.execs| by {
      OwnerIn(s.tracks, msg.id, |s.execs|);
    }
    if h == |s.execs| {
      assert SlotOf(s.execs[o].slots, msg.id) == |s.execs[o].slots|;
      UnheldOk(s.tracks, msg, s.execs[o], s.requested[o], o, |s.execs|);
      OneOk(s, o, s.execs[o], tracks);
      assert OnRtn(s, msg, reply) == s.(tracks := tracks, execs := s.execs[o := s.execs[o]]);
    } else {
      var k := SlotOf(s.execs[h].slots, msg.id);
      OwnerHolds(s.tracks, s.execs[h], s.requested[h], h, k);
      HeldRtnOk(s, msg, reply, h, k);
    }
  }

  lemma OwnerIn(tracks: seq<Track>, id: nat, n: nat)
    requires TracksOk(tracks, n) && id < |tracks|
    ensures tracks[id].owner < n
  {
    assert TrackOk(tracks[id], n);
  }

  lemma HeldRtnOk(s: Sys, msg: Rtn, reply: int, h: nat, k: nat)
    requires SysOk(s) && Shape(s) && msg.id < |s.tracks| && LegalFor(s.tracks[msg.id], msg)
    requires h == Holder(s.execs, msg.id, 0) < |s.execs| && k == SlotOf(s.execs[h].slots, msg.id)
    requires s.tracks[msg.id].owner == h
    ensures SysOk(OnRtn(s, msg, reply))
  {
    hide ExecOk, TracksOk, SameFor, SendInto, LegalFor, Tracked, OnFill;
    var tracks, eo := After(s.tracks, msg), s.execs[h];
    AfterTracks(s.tracks, msg, |s.execs|);
    match msg.kind
    case Execution =>
      var t := tracks[msg.id];
      FillOk(s.tracks, msg, eo, s.requested[h], h, k, |s.execs|);
      OneOk(s, h, OnFill(eo, k, msg.vol, t.vol == t.traded), tracks);
    case Canceled =>
      CanceledOk(s.tracks, msg, eo, s.requested[h], h, k, |s.execs|);
      var e := Vacate(eo.(placed := eo.placed - msg.vol), k);
      OneOk(s, h, e, tracks);
      var s1 := s.(tracks := tracks, execs := s.execs[h := e]);
      if e.size == 0 && e.best > 0 && e.total > 0 {
        ReorderOk(s1, h, reply);
      }
    case Accepted =>
      HeldOk(s.tracks, msg, eo, s.requested[h], h, |s.execs|);
      OneOk(s, h, eo, tracks);
      assert s.execs[h := eo] == s.execs;
    case Rejected =>
      HeldOk(s.tracks, msg, eo, s.requested[h], h, |s.execs|);
      OneOk(s, h, eo, tracks);
      assert s.execs[h := eo] == s.execs;
  }

  // ---------------------------------------------------------------- every run

  /** Every event keeps the invariant. */
  lemma StepOk(s: Sys, e: Event)
    requires SysOk(s)
    ensures Shape(s) && SysOk(Step(s, e))
  {
    hide SysOk, Look, OnRtn, Leave;
    ShapeOf(s);
    match e
    case Open(requested, q, reply) =>
      EnteredOk(s, requested);
      LookOk(Entered(s, requested), |s.execs|, q, reply);
    case Tick(i, q, reply) => if i < |s.execs| && s.execs[i].ordering { LookOk(s, i, q, reply); }
    case Return(msg, reply) => if Legal(s, e) { RtnOk(s, msg, reply); }
    case Exit(i, expired) => if i < |s.execs| { LeaveOk(s, i, expired); }
  }

  lemma {:induction false} RunOk(s: Sys, es: seq<Event>)
    requires SysOk(s)
    ensures Shape(s) && SysOk(Run(s, es))
    decreases |es|
  {
    hide SysOk, Step;
    ShapeOf(s);
    if es != [] {
      StepOk(s, es[0]);
      RunOk(Step(s, es[0]), es[1..]);
    }
  }

  lemma StartOk()
    ensures SysOk(START)
  {}

  lemma {:induction false} ExecutedWithin(tracks: seq<Track>, i: nat, n: nat, m: nat)
    requires TracksOk(tracks, m) && n <= |tracks|
    ensures 0 <= Executed(tracks, i, n) <= Exposure(tracks, i, n)
  {
    if n > 0 {
      ExecutedWithin(tracks, i, n - 1, m);
      assert TrackOk(tracks[n - 1], m);
    }
  }

  /**
   * After any run: what an execution order has traded, together with what its live orders may still trade,
   * is never more than it was asked for; its slots and counters stay in range.
   */
  lemma NeverOverExecutes(es: seq<Event>, i: nat)
    requires i < |Run(START, es).execs|
    ensures var s := Run(START, es);
      |s.requested| == |s.execs| &&
      0 <= Executed(s.tracks, i, |s.tracks|) <= Exposure(s.tracks, i, |s.tracks|) <= Max0(s.requested[i]) &&
      var eo := s.execs[i];
      |eo.slots| == MAX_OUTSTANDING_ORDERS && 0 <= Occupied(eo.slots, |eo.slots|) <= eo.size <= MAX_OUTSTANDING_ORDERS &&
      (eo.ordering ==> Rests(s.tracks, eo.slots, |eo.slots|) <= eo.placed <= Max0(eo.total)) &&
      (eo.ordering && eo.size < MAX_OUTSTANDING_ORDERS ==> FreeSlot(eo.slots) < |eo.slots|)
  {
    hide Exposure, Rests, Occupied, Executed, Run, TracksOk, FreeSlot;
    StartOk();
    RunOk(START, es);
    var s := Run(START, es);
    assert ExecOk(s.tracks, s.execs[i], s.requested[i], i);
    ExecutedWithin(s.tracks, i, |s.tracks|, |s.execs|);
    EmptySlots(s.tracks, MAX_OUTSTANDING_ORDERS);
    if s.execs[i].ordering && s.execs[i].size < MAX_OUTSTANDING_ORDERS {
      ScanInBounds(s.tracks, s.execs[i], s.requested[i], i);
    }
  }

  // ---------------------------------------------------------------- behind the end

  /** Execution order i is finished, and none of the orders sent since state s is its own. */
  predicate Quiet(s: Sys, s': Sys, i: nat) {
    && i < |s.execs| <= |s'.execs| && !s'.execs[i].ordering
    && |s.tracks| <= |s'.tracks| && forall k | |s.tracks| <= k < |s'.tracks| :: s'.tracks[k].owner != i
  }

  lemma PlaceQuiet(s: Sys, j: nat, reply: int, i: nat)
    requires j < |s.execs| && |s.execs[j].slots| == MAX_OUTSTANDING_ORDERS
    requires i < |s.execs| && i != j && !s.execs[i].ordering
    ensures Quiet(s, Place(s, j, reply), i)
  {
    hide CancelFrom, FreeSlot;
    CancelFlags(s.tracks, s.execs[j].slots, s.execs[j].bestPrice, 0, 1);
  }

  lemma RtnQuiet(s: Sys, msg: Rtn, reply: int, i: nat)
    requires SysOk(s) && Shape(s) && msg.id < |s.tracks| && LegalFor(s.tracks[msg.id], msg)
    requires i < |s.execs| && !s.execs[i].ordering
    ensures Quiet(s, OnRtn(s, msg, reply), i)
  {
    hide ExecOk, TracksOk, LegalFor, Tracked;
    var h := Holder(s.execs, msg.id, 0);
    if h < |s.execs| && msg.kind == Canceled {
      CanceledOk(s.tracks, msg, s.execs[h], s.requested[h], h, SlotOf(s.execs[h].slots, msg.id), |s.execs|);
    }
  }

  lemma LeaveQuiet(s: Sys, j: nat, expired: bool, i: nat)
    requires j < |s.execs| && |s.execs[j].slots| == MAX_OUTSTANDING_ORDERS
    requires i < |s.execs| && !s.execs[i].ordering
    ensures Quiet(s, Leave(s, j, expired), i)
  {
    hide ExitCancels;
    ExitFlags(s.tracks, s.execs[j].slots, 0);
  }

  lemma StepQuiet(s: Sys, e: Event, i: nat)
    requires SysOk(s) && Shape(s) && i < |s.execs| && !s.execs[i].ordering
    ensures Quiet(s, Step(s, e), i)
  {
    hide SysOk, Place, OnRtn, Leave;
    match e
    case Open(requested, q, reply) =>
      var s1 := Entered(s, requested);
      PlaceQuiet(s1.(execs := s1.execs[|s.execs| := BestOf(s1.execs[|s.execs|], q)]), |s.execs|, reply, i);
    case Tick(j, q, reply) =>
      if j < |s.execs| && s.execs[j].ordering {
        PlaceQuiet(s.(execs := s.execs[j := BestOf(s.execs[j], q)]), j, reply, i);
      }
    case Return(msg, reply) => if Legal(s, e) { RtnQuiet(s, msg, reply, i); }
    case Exit(j, expired) => if j < |s.execs| { LeaveQuiet(s, j, expired, i); }
  }

  /** Orders stay on record under the same owner. */
  predicate OwnersKept(t: seq<Track>, t': seq<Track>) {
    |t| <= |t'| && forall k | 0 <= k < |t| :: t'[k].owner == t[k].owner
  }

  lemma PlaceOwners(s: Sys, j: nat, reply: int)
    requires j < |s.execs| && |s.execs[j].slots| == MAX_OUTSTANDING_ORDERS
    ensures OwnersKept(s.tracks, Place(s, j, reply).tracks)
  {
    hide CancelFrom, FreeSlot;
    CancelFlags(s.tracks, s.execs[j].slots, s.execs[j].bestPrice, 0, 1);
  }

  lemma StepOwners(s: Sys, e: Event)
    requires Shape(s)
    ensures OwnersKept(s.tracks, Step(s, e).tracks)
  {
    hide Place, ExitCancels, Holder, SlotOf;
    match e
    case Open(requested, q, reply) =>
      var s1 := Entered(s, requested);
      PlaceOwners(s1.(execs := s1.execs[|s.execs| := BestOf(s1.execs[|s.execs|], q)]), |s.execs|, reply);
    case Tick(j, q, reply) =>
      if j < |s.execs| && s.execs[j].ordering {
        PlaceOwners(s.(execs := s.execs[j := BestOf(s.execs[j], q)]), j, reply);
      }
    case Return(msg, reply) =>
    case Exit(j, expired) =>
      if j < |s.execs| {
        ExitFlags(s.tracks, s.execs[j].slots, 0);
      }
  }

  /** After its exit an execution order sends nothing, whatever happens. */
  lemma {:induction false} NothingAfterExit(s: Sys, es: seq<Event>, i: nat)
    requires SysOk(s) && Shape(s) && i < |s.execs| && !s.execs[i].ordering
    ensures Quiet(s, Run(s, es), i)
    decreases |es|
  {
    hide SysOk, Step;
    if es != [] {
      var s1 := Step(s, es[0]);
      StepOk(s, es[0]);
      ShapeOf(s1);
      StepQuiet(s, es[0], i);
      NothingAfterExit(s1, es[1..], i);
      RunOwners(s1, es[1..]);
      var s2 := Run(s, es);
      forall k | |s.tracks| <= k < |s2.tracks| ensures s2.tracks[k].owner != i {
        if k < |s1.tracks| { assert s2.tracks[k].owner == s1.tracks[k].owner; }
      }
    }
  }

  /** Orders are never taken back from the record, nor handed to another execution order. */
  lemma {:induction false} RunOwners(s: Sys, es: seq<Event>)
    requires SysOk(s) && Shape(s)
    ensures OwnersKept(s.tracks, Run(s, es).tracks)
    decreases |es|
  {
    hide SysOk, Step;
    if es != [] {
      StepOk(s, es[0]);
      ShapeOf(Step(s, es[0]));
      StepOwners(s, es[0]);
      RunOwners(Step(s, es[0]), es[1..]);
    }
  }

  // ---------------------------------------------------------------- what the code does not do

  /**
   * cancelOrder answers 0 or -1, and the new order waits for a 1: a look that finds an order at another price sends
   * nothing.
   */
  lemma CancellingSendsNothing(s: Sys, i: nat, reply: int)
    requires SysOk(s) && i < |s.execs| && |s.execs[i].slots| == MAX_OUTSTANDING_ORDERS && s.execs[i].size != 0
    requires !AtPrice(s.tracks, s.execs[i].slots, s.execs[i].bestPrice, 0)
    ensures FlagsOnly(s.tracks, Place(s, i, reply).tracks) && Place(s, i, reply).execs == s.execs
  {
    hide CancelFrom, SysOk, AtPrice, SendInto;
    CancelFlags(s.tracks, s.execs[i].slots, s.execs[i].bestPrice, 0, 1);
  }

  /** When a look comes to `sendOrder`: nothing is at hand, or everything at hand is at price and there is more to do. */
  predicate Tries(tracks: seq<Track>, e: Exec) {
    if e.size == 0 then e.best > 0
    else AtPrice(tracks, e.slots, e.bestPrice, 0) && e.best > e.placed && e.size < MAX_OUTSTANDING_ORDERS
  }

  /** When a look sends an order: it tries to, and the reply is not a refusal. */
  predicate Sends(tracks: seq<Track>, e: Exec, reply: int) {
    reply >= 0 && Tries(tracks, e)
  }

  lemma LookSends(s: Sys, i: nat, q: Quote, reply: int)
    requires SysOk(s) && i < |s.execs| && |s.execs[i].slots| == MAX_OUTSTANDING_ORDERS && s.execs[i].ordering
    ensures var e, t := BestOf(s.execs[i], q), Look(s, i, q, reply);
      if Sends(s.tracks, e, reply) then
        t.tracks == s.tracks + [Track(i, e.bestPrice, if e.size == 0 then e.best else e.best - e.placed, 0, true, false, false)]
      else FlagsOnly(s.tracks, t.tracks)
  {
    hide CancelFrom, FreeSlot, AtPrice, Exposure, Rests, Occupied;
    var e := BestOf(s.execs[i], q);
    CancelFlags(s.tracks, e.slots, e.bestPrice, 0, 1);
    assert ExecOk(s.tracks, s.execs[i], s.requested[i], i);
    if e.size < MAX_OUTSTANDING_ORDERS {
      ScanInBounds(s.tracks, s.execs[i], s.requested[i], i);
    }
  }

  /** Refused orders are counted like sent ones: a look that finds six counted sends nothing. */
  lemma SixRefusalsLock(s: Sys, i: nat, q: Quote, reply: int)
    requires SysOk(s) && i < |s.execs| && |s.execs[i].slots| == MAX_OUTSTANDING_ORDERS
    requires s.execs[i].size == MAX_OUTSTANDING_ORDERS
    ensures FlagsOnly(s.tracks, Look(s, i, q, reply).tracks)
    ensures Look(s, i, q, reply).execs == s.execs[i := BestOf(s.execs[i], q)]
  {
    hide CancelFrom, SysOk, SendInto;
    var e := BestOf(s.execs[i], q);
    CancelFlags(s.tracks, e.slots, e.bestPrice, 0, 1);
  }
}
