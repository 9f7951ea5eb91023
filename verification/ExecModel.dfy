/** Execution orders and the exchange orders they place: one step for every call the strategy makes. */
module ExecModel {
  const MAX_OUTSTANDING_ORDERS := 6

  /** An order as the trade helper tracks it; `owner` is the execution order it was sent for. */
  datatype Track = Track(owner: nat, price: int, vol: int, traded: int, live: bool, acked: bool, cxling: bool)

  /** The fields of an execution order that its order handling uses; prices are in ticks. */
  datatype Exec = Exec(slots: seq<int>, size: int, placed: int, total: int, ordering: bool,
                       best: int, bestPrice: int, exited: bool)

  /** All execution orders, the size each was asked for, and all orders ever sent. */
  datatype Sys = Sys(execs: seq<Exec>, requested: seq<int>, tracks: seq<Track>)

  datatype Kind = Accepted | Execution | Canceled | Rejected

  datatype Rtn = Rtn(kind: Kind, id: nat, vol: int)

  /** What the statistical models and the clock feed into one look at an execution order. */
  datatype Quote = Quote(price: int, vol: int, late: bool)

  datatype Event =
    | Open(requested: int, q: Quote, reply: int)
    | Tick(i: nat, q: Quote, reply: int)
    | Return(msg: Rtn, reply: int)
    | Exit(i: nat, expired: bool)

  // ---------------------------------------------------------------- the trade helper

  /** `deleteOrder`: 0 when a cancel request goes out, -1 otherwise. */
  function DeleteOrder(tracks: seq<Track>, id: int): (r: (seq<Track>, int)) {
    if 0 <= id < |tracks| && tracks[id].acked && tracks[id].live then
      (tracks[id := tracks[id].(cxling := true)], 0)
    else (tracks, -1)
  }

  /** `getRtn`: the track of the order a message is about. */
  function Tracked(t: Track, msg: Rtn): Track {
    match msg.kind
    case Accepted => t.(acked := true)
    case Execution => t.(acked := true, traded := t.traded + msg.vol, live := t.live && t.traded + msg.vol < t.vol)
    case Canceled => t.(live := false)
    case Rejected => t.(live := false)
  }

  /** `sendOrder`: a negative reply is a refusal, and comes back as the order id. */
  function Send(s: Sys, i: nat, vol: int, reply: int): (r: (Sys, int))
    requires i < |s.execs|
  {
    if reply < 0 then (s, reply)
    else
      var eo := s.execs[i];
      (s.(tracks := s.tracks + [Track(i, eo.bestPrice, vol, 0, true, false, false)],
          execs := s.execs[i := eo.(placed := eo.placed + vol)]), |s.tracks|)
  }

  // ---------------------------------------------------------------- looking at one execution order

  /** `GetBestOrderPriceVolume`: never more than what is left. */
  function BestOf(eo: Exec, q: Quote): Exec {
    eo.(bestPrice := q.price, best := if q.late || q.vol > eo.total then eo.total else q.vol)
  }

  /** `CancelOrderAPIStatus` from slot k on: whoever rests at another price is to be cancelled. */
  function CancelFrom(tracks: seq<Track>, slots: seq<int>, price: int, k: nat, status: int): (r: (seq<Track>, int))
    requires k <= |slots|
    decreases |slots| - k
  {
    if k == |slots| then (tracks, status)
    else if 0 <= slots[k] < |tracks| && tracks[slots[k]].price != price then
      var d := DeleteOrder(tracks, slots[k]);
      CancelFrom(d.0, slots, price, k + 1, d.1)
    else CancelFrom(tracks, slots, price, k + 1, status)
  }

  /** The slot the free-slot scan stops at. */
  function FreeSlot(slots: seq<int>): (k: nat)
    ensures k <= |slots|
  {
    if slots == [] || slots[0] <= 0 then 0 else 1 + FreeSlot(slots[1..])
  }

  /** An order id goes into a slot, whatever it is. */
  function Occupy(s: Sys, i: nat, k: nat, id: int): Sys
    requires i < |s.execs| && k < |s.execs[i].slots|
  {
    var eo := s.execs[i];
    s.(execs := s.execs[i := eo.(slots := eo.slots[k := id], size := eo.size + 1)])
  }

  /** Sending an order and keeping its id in slot k. */
  function SendInto(s: Sys, i: nat, k: nat, vol: int, reply: int): Sys
    requires i < |s.execs| && k < |s.execs[i].slots|
  {
    var r := Send(s, i, vol, reply);
    Occupy(r.0, i, k, r.1)
  }

  /** `PlaceOrder`. */
  function Place(s: Sys, i: nat, reply: int): Sys
    requires i < |s.execs| && |s.execs[i].slots| == MAX_OUTSTANDING_ORDERS
  {
    var eo := s.execs[i];
    if eo.size == 0 then
      if eo.best > 0 then SendInto(s, i, 0, eo.best, reply) else s
    else
      var c := CancelFrom(s.tracks, eo.slots, eo.bestPrice, 0, 1);
      var s1 := s.(tracks := c.0);
      if c.1 == 1 && eo.best > eo.placed && eo.size < MAX_OUTSTANDING_ORDERS && FreeSlot(eo.slots) < |eo.slots| then
        SendInto(s1, i, FreeSlot(eo.slots), eo.best - eo.placed, reply)
      else s1
  }

  function Look(s: Sys, i: nat, q: Quote, reply: int): Sys
    requires i < |s.execs| && |s.execs[i].slots| == MAX_OUTSTANDING_ORDERS
  {
    Place(s.(execs := s.execs[i := BestOf(s.execs[i], q)]), i, reply)
  }

  // ---------------------------------------------------------------- messages

  function SlotOf(slots: seq<int>, id: int): (k: nat)
    ensures k <= |slots| && (k < |slots| ==> slots[k] == id) && forall j | 0 <= j < k :: slots[j] != id
  {
    if slots == [] || slots[0] == id then 0
    else assert forall j | 0 < j < |slots| :: slots[j] == slots[1..][j - 1]; 1 + SlotOf(slots[1..], id)
  }

  /** The first execution order from i on that holds the order id. */
  function Holder(execs: seq<Exec>, id: int, i: nat): (h: nat)
    requires i <= |execs|
    ensures i <= h <= |execs|
    ensures h < |execs| ==> SlotOf(execs[h].slots, id) < |execs[h].slots|
    ensures forall j | i <= j < h :: SlotOf(execs[j].slots, id) == |execs[j].slots|
    decreases |execs| - i
  {
    if i == |execs| || SlotOf(execs[i].slots, id) < |execs[i].slots| then i else Holder(execs, id, i + 1)
  }

  function Vacate(eo: Exec, k: nat): Exec
    requires k < |eo.slots|
  {
    eo.(slots := eo.slots[k := -1], size := eo.size - 1)
  }

  function OnFill(eo: Exec, k: nat, vol: int, full: bool): Exec
    requires k < |eo.slots|
  {
    var e := eo.(placed := eo.placed - vol, total := eo.total - vol);
    if full then Vacate(e, k) else e
  }

  function OnCanceled(s: Sys, i: nat, k: nat, vol: int, reply: int): Sys
    requires i < |s.execs| && |s.execs[i].slots| == MAX_OUTSTANDING_ORDERS && k < |s.execs[i].slots|
  {
    var eo := s.execs[i].(placed := s.execs[i].placed - vol);
    var e := if eo.exited then eo else Vacate(eo, k);
    var s1 := s.(execs := s.execs[i := e]);
    if !eo.exited && e.size == 0 && e.best > 0 && e.total > 0 then
      SendInto(s1, i, 0, if e.best < e.total then e.best else e.total, reply)
    else s1
  }

  /** `sys_on_rtn`, behind `getRtn`. */
  function OnRtn(s0: Sys, msg: Rtn, reply: int): Sys
    requires msg.id < |s0.tracks| && Shape(s0)
  {
    var s := s0.(tracks := s0.tracks[msg.id := Tracked(s0.tracks[msg.id], msg)]);
    var h := Holder(s.execs, msg.id, 0);
    if h == |s.execs| then s
    else
      var k := SlotOf(s.execs[h].slots, msg.id);
      match msg.kind
      case Execution =>
        var t := s.tracks[msg.id];
        s.(execs := s.execs[h := OnFill(s.execs[h], k, msg.vol, t.vol == t.traded)])
      case Canceled => OnCanceled(s, h, k, msg.vol, reply)
      case _ => s
  }

  predicate Shape(s: Sys) {
    |s.requested| == |s.execs| && forall i | 0 <= i < |s.execs| :: |s.execs[i].slots| == MAX_OUTSTANDING_ORDERS
  }

  // ---------------------------------------------------------------- opening and leaving

  const EMPTY_SLOTS: seq<int> := [-1, -1, -1, -1, -1, -1]

  function NewExec(total: int): Exec {
    Exec(EMPTY_SLOTS, 0, 0, total, true, 0, 0, false)
  }

  /** Cancel requests for whatever is in the slots. */
  function ExitCancels(tracks: seq<Track>, slots: seq<int>, k: nat): seq<Track>
    requires k <= |slots|
    decreases |slots| - k
  {
    if k == |slots| then tracks
    else ExitCancels(if slots[k] != -1 then DeleteOrder(tracks, slots[k]).0 else tracks, slots, k + 1)
  }

  /** `exitExecution`; `expired` says that more than a tenth of a second has passed since the end. */
  function Leave(s: Sys, i: nat, expired: bool): Sys
    requires i < |s.execs| && |s.execs[i].slots| == MAX_OUTSTANDING_ORDERS
  {
    var eo := s.execs[i];
    if eo.ordering && expired && eo.total > 0 then
      s.(tracks := ExitCancels(s.tracks, eo.slots, 0),
         execs := s.execs[i := eo.(slots := EMPTY_SLOTS, size := 0, total := 0, ordering := false,
                                   exited := eo.exited || eo.slots != EMPTY_SLOTS)])
    else s
  }

  // ---------------------------------------------------------------- runs

  /** What the helper can report: fills of live orders within what is left, and the end of live orders. */
  predicate Legal(s: Sys, e: Event) {
    match e
    case Return(msg, _) =>
      msg.id < |s.tracks| && s.tracks[msg.id].live &&
      (msg.kind == Execution ==> 1 <= msg.vol <= s.tracks[msg.id].vol - s.tracks[msg.id].traded) &&
      (msg.kind == Canceled ==> msg.vol == s.tracks[msg.id].vol - s.tracks[msg.id].traded)
    case _ => true
  }

  function Step(s: Sys, e: Event): Sys
    requires Shape(s)
  {
    match e
    case Open(requested, q, reply) =>
      Look(s.(execs := s.execs + [NewExec(requested)], requested := s.requested + [requested]), |s.execs|, q, reply)
    case Tick(i, q, reply) => if i < |s.execs| && s.execs[i].ordering then Look(s, i, q, reply) else s
    case Return(msg, reply) => if Legal(s, e) then OnRtn(s, msg, reply) else s
    case Exit(i, expired) => if i < |s.execs| then Leave(s, i, expired) else s
  }

  lemma LookShape(s: Sys, i: nat, q: Quote, reply: int)
    requires Shape(s) && i < |s.execs|
    ensures Shape(Look(s, i, q, reply))
  {
    hide CancelFrom;
  }

  lemma RtnShape(s: Sys, msg: Rtn, reply: int)
    requires Shape(s) && msg.id < |s.tracks|
    ensures Shape(OnRtn(s, msg, reply))
  {
    hide SlotOf, Holder, Tracked;
  }

  lemma StepShape(s: Sys, e: Event)
    requires Shape(s)
    ensures Shape(Step(s, e))
  {
    hide Look, OnRtn, ExitCancels;
    match e
    case Open(requested, q, reply) =>
      var s1 := s.(execs := s.execs + [NewExec(requested)], requested := s.requested + [requested]);
      assert Shape(s1);
      LookShape(s1, |s.execs|, q, reply);
    case Tick(i, q, reply) => if i < |s.execs| { LookShape(s, i, q, reply); }
    case Return(msg, reply) => if Legal(s, e) { RtnShape(s, msg, reply); }
    case Exit(i, expired) =>
  }

  function Run(s: Sys, es: seq<Event>): Sys
    requires Shape(s)
    decreases |es|
  {
    if es == [] then s
    else
      StepShape(s, es[0]);
      Run(Step(s, es[0]), es[1..])
  }

  const START := Sys([], [], [])
}
