/** The master's view of the order one vehicle is executing. */
module OrderLifecycle {
  import opened Common
  import opened Orders
  import opened MasterTypes
  import opened OrderMerge
  import opened OrderStitcher

  const PENDING_QUEUE_CAP := 8
  const MISMATCH_THRESHOLD := 3
  const MAX_HANDOVER_LAG_STATES := 5

  // ---- Telling a lagging vehicle from a lost one ----

  datatype Strikes = Strikes(mismatch: nat, lag: nat)

  datatype Tick = Tick(strikes: Strikes, cleared: bool)

  /** One State's order id against the active and the previous one. */
  function TickMismatch(s: Strikes, activeId: string, previousId: string, stateId: string): Tick {
    if activeId == "" || stateId == "" then Tick(s, false)
    else if stateId == activeId then Tick(Strikes(0, 0), false)
    else
      var handover := previousId != "" && stateId == previousId;
      var lag := if handover then s.lag + 1 else s.lag;
      if handover && lag <= MAX_HANDOVER_LAG_STATES then Tick(Strikes(s.mismatch, lag), false)
      else if s.mismatch + 1 >= MISMATCH_THRESHOLD then Tick(Strikes(0, 0), true)
      else Tick(Strikes(s.mismatch + 1, lag), false)
  }

  /** The State names another order, and as the previous order it has been tolerated five times already. */
  ghost predicate Complains(s: Strikes, activeId: string, previousId: string, stateId: string) {
    activeId != "" && stateId !in {"", activeId} && !(stateId == previousId && s.lag < 5)
  }

  lemma TickIsExact(s: Strikes, activeId: string, previousId: string, stateId: string)
    ensures var tick := TickMismatch(s, activeId, previousId, stateId);
            && (tick.cleared <==> Complains(s, activeId, previousId, stateId) && s.mismatch >= 2)
            && (tick.strikes.mismatch ==
                  if tick.cleared || (activeId != "" && stateId == activeId) then 0
                  else s.mismatch + if Complains(s, activeId, previousId, stateId) then 1 else 0)
            && (tick.strikes.lag ==
                  if tick.cleared || (activeId != "" && stateId == activeId) then 0
                  else s.lag + if activeId != "" && stateId != "" && stateId == previousId then 1 else 0)
  {
  }

  /** Whether some State of the run clears the tracking. */
  ghost predicate Clears(s: Strikes, activeId: string, previousId: string, stateIds: seq<string>)
    decreases |stateIds|
  {
    stateIds != [] &&
    var tick := TickMismatch(s, activeId, previousId, stateIds[0]);
    tick.cleared || Clears(tick.strikes, activeId, previousId, stateIds[1..])
  }

  /** The strikes after a run of States that do not clear the tracking. */
  function StrikesAfter(s: Strikes, activeId: string, previousId: string, stateIds: seq<string>): Strikes
    decreases |stateIds|
  {
    if stateIds == [] then s
    else StrikesAfter(TickMismatch(s, activeId, previousId, stateIds[0]).strikes, activeId, previousId, stateIds[1..])
  }

  /** One more State. */
  lemma {:induction false} OneMoreState(s: Strikes, activeId: string, previousId: string, stateIds: seq<string>, next: string)
    ensures var tick := TickMismatch(StrikesAfter(s, activeId, previousId, stateIds), activeId, previousId, next);
            && StrikesAfter(s, activeId, previousId, stateIds + [next]) == tick.strikes
            && (Clears(s, activeId, previousId, stateIds + [next]) <==> Clears(s, activeId, previousId, stateIds) || tick.cleared)
    decreases |stateIds|
  {
    var all := stateIds + [next];
    if stateIds == [] {
      assert all[1..] == [];
    } else {
      assert all[1..] == stateIds[1..] + [next];
      OneMoreState(TickMismatch(s, activeId, previousId, stateIds[0]).strikes, activeId, previousId, stateIds[1..], next);
    }
  }

  // ---- What clears the tracking, by counting ----

  /** The ids since the last one of the active order. */
  function Stretch(ids: seq<string>, activeId: string): seq<string> {
    if ids == [] || ids[|ids| - 1] == activeId then []
    else Stretch(ids[..|ids| - 1], activeId) + [ids[|ids| - 1]]
  }

  function Times(ids: seq<string>, id: string): nat {
    if ids == [] then 0 else Times(ids[..|ids| - 1], id) + if ids[|ids| - 1] == id then 1 else 0
  }

  /** How many are of a third order: neither empty nor one of the two. */
  function Strangers(ids: seq<string>, activeId: string, previousId: string): nat {
    if ids == [] then 0
    else Strangers(ids[..|ids| - 1], activeId, previousId) + if ids[|ids| - 1] in {"", activeId, previousId} then 0 else 1
  }

  /** Since the last State of the active order: States of a third order, and States of the previous one beyond the fifth. */
  function Complaints(ids: seq<string>, activeId: string, previousId: string): nat {
    var stretch := Stretch(ids, activeId);
    var lagging := if previousId == "" then 0 else Times(stretch, previousId);
    Strangers(stretch, activeId, previousId) + if lagging > 5 then lagging - 5 else 0
  }

  lemma StretchMore(ids: seq<string>, activeId: string, previousId: string, next: string)
    ensures Stretch(ids + [next], activeId) == if next == activeId then [] else Stretch(ids, activeId) + [next]
    ensures Times(ids + [next], previousId) == Times(ids, previousId) + if next == previousId then 1 else 0
    ensures Strangers(ids + [next], activeId, previousId)
         == Strangers(ids, activeId, previousId) + if next in {"", activeId, previousId} then 0 else 1
  {
    assert (ids + [next])[..|ids|] == ids;
  }

  /** The count after States that do not clear: complaints, and how often the previous order was reported. */
  ghost predicate Tallied(s: Strikes, ids: seq<string>, activeId: string, previousId: string) {
    && s.mismatch == Complaints(ids, activeId, previousId)
    && (previousId != "" ==> s.lag == Times(Stretch(ids, activeId), previousId))
    && (previousId == "" ==> s.lag == 0)
  }

  lemma TallyMore(s: Strikes, ids: seq<string>, activeId: string, previousId: string, next: string)
    requires activeId != "" && Tallied(s, ids, activeId, previousId) && s.mismatch < 3
    ensures var tick := TickMismatch(s, activeId, previousId, next);
            && (tick.cleared <==> Complaints(ids + [next], activeId, previousId) >= 3)
            && (!tick.cleared ==> Tallied(tick.strikes, ids + [next], activeId, previousId))
  {
    StretchMore(ids, activeId, previousId, next);
    StretchMore(Stretch(ids, activeId), activeId, previousId, next);
  }

  lemma {:induction false} CountingClears(activeId: string, previousId: string, ids: seq<string>)
    requires activeId != ""
    ensures var clears := Clears(Strikes(0, 0), activeId, previousId, ids);
            && (clears <==> exists n :: 0 <= n <= |ids| && Complaints(ids[..n], activeId, previousId) >= 3)
            && (!clears ==> Tallied(StrikesAfter(Strikes(0, 0), activeId, previousId, ids), ids, activeId, previousId))
    decreases |ids|
  {
    if ids != [] {
      var init, next := ids[..|ids| - 1], ids[|ids| - 1];
      assert ids == init + [next];
      CountingClears(activeId, previousId, init);
      OneMoreState(Strikes(0, 0), activeId, previousId, init, next);
      PrefixesMore(init, next, activeId, previousId);
      if !Clears(Strikes(0, 0), activeId, previousId, init) {
        assert init[..|init|] == init;
        TallyMore(StrikesAfter(Strikes(0, 0), activeId, previousId, init), init, activeId, previousId, next);
      }
    }
  }

  lemma PrefixesMore(init: seq<string>, next: string, activeId: string, previousId: string)
    ensures (exists n :: 0 <= n <= |init| + 1 && Complaints((init + [next])[..n], activeId, previousId) >= 3) <==>
            (exists n :: 0 <= n <= |init| && Complaints(init[..n], activeId, previousId) >= 3)
            || Complaints(init + [next], activeId, previousId) >= 3
  {
    var all := init + [next];
    assert all[..|init| + 1] == all && forall n :: 0 <= n <= |init| ==> all[..n] == init[..n];
  }

  /** From a fresh count, a run of States clears the tracking exactly if at some point the States of a third order since
      the last State of the active one, and those of the previous order beyond the first five, are three together. */
  lemma ClearsIffThreeComplaints(activeId: string, previousId: string, ids: seq<string>)
    requires activeId != ""
    ensures Clears(Strikes(0, 0), activeId, previousId, ids) <==>
            exists n :: 0 <= n <= |ids| && Complaints(ids[..n], activeId, previousId) >= 3
  {
    CountingClears(activeId, previousId, ids);
  }

  lemma {:induction false} FewComplaints(ids: seq<string>, activeId: string, previousId: string)
    requires forall i :: 0 <= i < |ids| ==> ids[i] in {"", activeId, previousId}
    ensures Strangers(Stretch(ids, activeId), activeId, previousId) == 0
    ensures Times(Stretch(ids, activeId), previousId) <= Times(ids, previousId)
    decreases |ids|
  {
    if ids != [] && ids[|ids| - 1] != activeId {
      var init, next := ids[..|ids| - 1], ids[|ids| - 1];
      FewComplaints(init, activeId, previousId);
      StretchMore(Stretch(init, activeId), activeId, previousId, next);
    }
  }

  lemma {:induction false} TimesOfPrefix(ids: seq<string>, n: nat, id: string)
    requires n <= |ids|
    ensures Times(ids[..n], id) <= Times(ids, id)
    decreases |ids|
  {
    if n == |ids| {
      assert ids[..n] == ids;
    } else {
      assert ids[..|ids| - 1][..n] == ids[..n];
      TimesOfPrefix(ids[..|ids| - 1], n, id);
    }
  }

  /** A vehicle that lags behind a handover is given seven States: reporting only the previous order, the active one
      or none, it is never cleared as long as the previous one is reported at most seven times. */
  lemma HandoverIsGraced(activeId: string, previousId: string, ids: seq<string>)
    requires activeId != "" && previousId != ""
    requires (forall i :: 0 <= i < |ids| ==> ids[i] in {"", activeId, previousId}) && Times(ids, previousId) <= 7
    ensures !Clears(Strikes(0, 0), activeId, previousId, ids)
  {
    ClearsIffThreeComplaints(activeId, previousId, ids);
    forall n | 0 <= n <= |ids| ensures Complaints(ids[..n], activeId, previousId) < 3 {
      FewComplaints(ids[..n], activeId, previousId);
      TimesOfPrefix(ids, n, previousId);
    }
  }

  /** States this far from clearing. */
  ghost function Patience(s: Strikes): int {
    (if s.lag < MAX_HANDOVER_LAG_STATES then MAX_HANDOVER_LAG_STATES - s.lag else 0) +
    (if s.mismatch < MISMATCH_THRESHOLD then MISMATCH_THRESHOLD - s.mismatch else 1)
  }

  /** A vehicle that keeps reporting other orders is given up after eight States at the latest,
      whatever ids it reports and however often it reported the previous order before. */
  lemma {:induction false} LostVehicleIsCleared(s: Strikes, activeId: string, previousId: string, stateIds: seq<string>)
    requires activeId != "" && Patience(s) <= |stateIds|
    requires forall i :: 0 <= i < |stateIds| ==> stateIds[i] != "" && stateIds[i] != activeId
    ensures Clears(s, activeId, previousId, stateIds)
    decreases |stateIds|
  {
    var tick := TickMismatch(s, activeId, previousId, stateIds[0]);
    if !tick.cleared {
      LostVehicleIsCleared(tick.strikes, activeId, previousId, stateIds[1..]);
    }
  }

  /** Only foreign order ids clear, and never fewer than three States. */
  lemma ClearingNeedsThree(s: Strikes, activeId: string, previousId: string, stateIds: seq<string>)
    requires Clears(s, activeId, previousId, stateIds) && s.mismatch == 0
    ensures MISMATCH_THRESHOLD <= |stateIds|
    ensures exists i :: 0 <= i < |stateIds| && stateIds[i] != "" && stateIds[i] != activeId
  {
    ClearingNeeds(s, activeId, previousId, stateIds);
  }

  lemma {:induction false} ClearingNeeds(s: Strikes, activeId: string, previousId: string, stateIds: seq<string>)
    requires Clears(s, activeId, previousId, stateIds) && s.mismatch < MISMATCH_THRESHOLD
    ensures MISMATCH_THRESHOLD - s.mismatch <= |stateIds|
    ensures exists i :: 0 <= i < |stateIds| && stateIds[i] != "" && stateIds[i] != activeId
    decreases |stateIds|
  {
    var tick := TickMismatch(s, activeId, previousId, stateIds[0]);
    if tick.cleared {
      assert stateIds[0] != activeId;
    } else {
      ClearingNeeds(tick.strikes, activeId, previousId, stateIds[1..]);
      var i :| 0 <= i < |stateIds[1..]| && stateIds[1..][i] != "" && stateIds[1..][i] != activeId;
      assert stateIds[i + 1] == stateIds[1..][i];
    }
  }

  // ---- The tracking as a value ----

  /** Everything the tracker remembers. */
  datatype Tracker = Tracker(
    activeOrder: Option<Order>,
    activeOrderId: string,
    activeOrderUpdateId: uint32,
    lastNodeSequenceId: uint32,
    stateOrderUpdateId: uint32,
    lastStateOrderId: string,
    lastStateHeaderId: uint32,
    haveStateBaseline: bool,
    previousOrderId: string,
    orderComplete: bool,
    needsMoreBase: bool,
    pending: seq<Pending>,
    strikes: Strikes)

  const NOTHING_TRACKED := Tracker(None, "", 0, 0, 0, "", 0, false, "", false, false, [], Strikes(0, 0))

  /** The id fields repeat the active order's. */
  ghost predicate Consistent(t: Tracker) {
    && t.activeOrderId == (if t.activeOrder.Some? then t.activeOrder.value.orderId else "")
    && t.activeOrderUpdateId == (if t.activeOrder.Some? then t.activeOrder.value.orderUpdateId else 0)
  }

  function ViewOf(t: Tracker): Snapshot {
    if t.activeOrder.None? then
      Snapshot(false, "", 0, [], [], t.lastNodeSequenceId, t.stateOrderUpdateId, t.lastStateOrderId, t.orderComplete)
    else
      Snapshot(true, t.activeOrderId, t.activeOrderUpdateId, t.activeOrder.value.nodes, t.activeOrder.value.edges,
               t.lastNodeSequenceId, t.stateOrderUpdateId, t.lastStateOrderId, t.orderComplete)
  }

  /** A published order is a newer update of the active one. */
  predicate Extends(t: Tracker, order: Order) {
    t.activeOrder.Some? && t.activeOrderId == order.orderId != "" && order.orderUpdateId > t.activeOrderUpdateId
  }

  /** A newer update of the active order is adopted merged, anything else as it is. */
  function Adopted(t: Tracker, order: Order, merged: Option<Order>): Order {
    if !Extends(t, order) then order
    else if merged.Some? then merged.value
    else
      match Combined(t.activeOrder.value, order, t.lastNodeSequenceId)
      case Merged(combined) => combined
      case Refused(_) => order
  }

  /** The tracking after an order was published. An update reopens the order, another order starts afresh. */
  function Recorded(t: Tracker, order: Order, merged: Option<Order>): Tracker {
    var route := Adopted(t, order, merged);
    var adopted := t.(activeOrder := Some(route), activeOrderId := route.orderId, activeOrderUpdateId := route.orderUpdateId);
    if Extends(t, order) then adopted.(orderComplete := false, needsMoreBase := false)
    else if t.activeOrderId == order.orderId != "" then adopted
    else adopted.(previousOrderId := t.activeOrderId, orderComplete := false, needsMoreBase := false, strikes := Strikes(0, 0))
  }

  /** A State older than the last one kept. */
  predicate Stale(haveBaseline: bool, lastHeaderId: uint32, state: State) {
    haveBaseline && state.headerId < lastHeaderId
  }

  /** The vehicle reports the end of the active order, nothing left to do. */
  predicate ReportsCompletion(t: Tracker, state: State) {
    && t.activeOrder.Some? && t.activeOrder.value.nodes != []
    && state.orderId == t.activeOrderId && state.orderUpdateId == t.activeOrderUpdateId
    && var last := t.activeOrder.value.nodes[|t.activeOrder.value.nodes| - 1];
       && state.lastNodeSequenceId == last.sequenceId && state.lastNodeId == last.nodeId
       && state.nodeStates == [] && state.edgeStates == [] && AllActionsTerminal(state.actionStates)
  }

  /** The vehicle stands at the last node of the order, with no node and no edge left to go and every action
      finished or failed. */
  ghost predicate StandsAtEnd(order: Order, state: State) {
    && order.nodes != []
    && state.lastNodeId == order.nodes[|order.nodes| - 1].nodeId
    && state.lastNodeSequenceId == order.nodes[|order.nodes| - 1].sequenceId
    && state.nodeStates == [] && state.edgeStates == []
    && (forall a :: a in state.actionStates ==> a in {FINISHED, FAILED})
  }

  lemma CompletionIsEnd(t: Tracker, state: State)
    ensures ReportsCompletion(t, state) <==>
            && t.activeOrder.Some? && state.orderId == t.activeOrderId && state.orderUpdateId == t.activeOrderUpdateId
            && StandsAtEnd(t.activeOrder.value, state)
  {
    var actions := state.actionStates;
    if forall a :: a in actions ==> a in {FINISHED, FAILED} {
      forall i | 0 <= i < |actions| ensures actions[i] == FINISHED || actions[i] == FAILED {
        assert actions[i] in actions;
      }
    }
  }

  function Mirrored(t: Tracker, state: State): Tracker {
    t.(lastStateHeaderId := state.headerId, haveStateBaseline := true,
       lastNodeSequenceId := state.lastNodeSequenceId, stateOrderUpdateId := state.orderUpdateId,
       lastStateOrderId := state.orderId,
       needsMoreBase := t.needsMoreBase || state.newBaseRequest == Some(true))
  }

  function TickOf(t: Tracker, state: State): Tick {
    TickMismatch(t.strikes, t.activeOrderId, t.previousOrderId, state.orderId)
  }

  /** The active order is given up, and with it everything that waits. */
  function Forgotten(t: Tracker): Tracker {
    t.(activeOrder := None, activeOrderId := "", activeOrderUpdateId := 0, pending := [],
       orderComplete := false, needsMoreBase := false)
  }

  /** What a State leads to: the tracking after it, the updates that may now be sent, those given up, the id of an
      order it completes, and whether it ends the tracking. */
  datatype Observation = Observation(
    tracker: Tracker, ready: seq<Order>, dropped: seq<Order>, completed: Option<string>, cleared: bool)

  function Observed(t: Tracker, state: State): Observation {
    if Stale(t.haveStateBaseline, t.lastStateHeaderId, state) then Observation(t, [], [], None, false)
    else if TickOf(t, state).cleared then
      Observation(Forgotten(Mirrored(t, state)).(strikes := TickOf(t, state).strikes), [], PendingOrders(t.pending), None, true)
    else
      var done := ReportsCompletion(t, state);
      var tracked := Mirrored(t, state).(strikes := TickOf(t, state).strikes, orderComplete := t.orderComplete || done);
      var d := DrainedBy(tracked);
      Observation(tracked.(pending := d.rest), d.ready, d.dropped,
                  if done && !t.orderComplete then Some(t.activeOrderId) else None, false)
  }

  function DrainedBy(t: Tracker): Drained {
    if t.activeOrder.Some? then Drain(t.pending, ViewOf(t)) else Drained([], [], t.pending)
  }

  /** Waiting updates after a State: the ready ones and then those that stay are in order, and none is lost or duplicated. */
  ghost predicate Kept(before: seq<Order>, ready: seq<Order>, dropped: seq<Order>, after: seq<Order>) {
    multiset(before) == multiset(ready) + multiset(dropped) + multiset(after) && InOrder(ready + after, before)
  }

  lemma NothingLeaves(waiting: seq<Order>)
    ensures Kept(waiting, [], [], waiting) && Kept(waiting, [], waiting, [])
  {
    InOrderSelf(waiting);
    assert [] + waiting == waiting;
  }

  lemma DrainKeeps(pending: seq<Pending>, snap: Snapshot)
    ensures var d := Drain(pending, snap); Kept(PendingOrders(pending), d.ready, d.dropped, PendingOrders(d.rest))
  {
    DrainConserves(pending, snap);
    DrainInOrder(pending, snap);
  }

  lemma ObservedKeeps(t: Tracker, state: State)
    ensures var o := Observed(t, state);
            Kept(PendingOrders(t.pending), o.ready, o.dropped, PendingOrders(o.tracker.pending))
  {
    var tracked := Mirrored(t, state).(strikes := TickOf(t, state).strikes, orderComplete := t.orderComplete || ReportsCompletion(t, state));
    NothingLeaves(PendingOrders(t.pending));
    DrainKeeps(t.pending, ViewOf(tracked));
    if !Stale(t.haveStateBaseline, t.lastStateHeaderId, state) && TickOf(t, state).cleared {
      assert PendingOrders(Observed(t, state).tracker.pending) == [];
    }
  }

  class OrderLifecycleManager {
    var activeOrder: Option<Order>
    var activeOrderId: string
    var activeOrderUpdateId: uint32
    var lastNodeSequenceId: uint32
    var stateOrderUpdateId: uint32
    var lastStateOrderId: string
    var lastStateHeaderId: uint32
    var haveStateBaseline: bool
    var previousOrderId: string
    var orderComplete: bool
    var needsMoreBase: bool
    var pending: seq<Pending>
    var strikes: Strikes

    function Value(): Tracker
      reads this
    {
      Tracker(activeOrder, activeOrderId, activeOrderUpdateId, lastNodeSequenceId, stateOrderUpdateId, lastStateOrderId,
              lastStateHeaderId, haveStateBaseline, previousOrderId, orderComplete, needsMoreBase, pending, strikes)
    }

    ghost function Waiting(): seq<Order>
      reads `pending
    {
      PendingOrders(pending)
    }

    constructor ()
      ensures Same(Value(), NOTHING_TRACKED)
    {
      activeOrder, activeOrderId, activeOrderUpdateId := None, "", 0;
      lastNodeSequenceId, stateOrderUpdateId, lastStateOrderId := 0, 0, "";
      lastStateHeaderId, haveStateBaseline := 0, false;
      previousOrderId, orderComplete, needsMoreBase := "", false, false;
      pending, strikes := [], Strikes(0, 0);
    }

    method Adopt(order: Order)
      modifies `activeOrder, `activeOrderId, `activeOrderUpdateId
      ensures activeOrder == Some(order) && activeOrderId == order.orderId && activeOrderUpdateId == order.orderUpdateId
    {
      activeOrder, activeOrderId, activeOrderUpdateId := Some(order), order.orderId, order.orderUpdateId;
    }

    /** A published order becomes the active one. */
    method RecordPublished(order: Order, merged: Option<Order>)
      modifies `activeOrder, `activeOrderId, `activeOrderUpdateId, `previousOrderId, `orderComplete, `needsMoreBase, `strikes
      ensures Same(Value(), Recorded(old(Value()), order, merged))
      ensures Consistent(Value())
      ensures order.orderId != old(activeOrderId) || old(activeOrderId) == "" ==>
                previousOrderId == old(activeOrderId) && !orderComplete && !needsMoreBase && strikes == Strikes(0, 0)
      ensures old(activeOrder).Some? && order.orderId == old(activeOrderId) != "" && order.orderUpdateId > old(activeOrderUpdateId) ==>
                !orderComplete && !needsMoreBase
    {
      var priorId := activeOrderId;
      var sameOrder := activeOrderId != "" && activeOrderId == order.orderId;
      if sameOrder && order.orderUpdateId > activeOrderUpdateId && activeOrder.Some? {
        if merged.Some? {
          Adopt(merged.value);
        } else {
          var combined := CombineOrder(activeOrder.value, order, lastNodeSequenceId);
          Adopt(if combined.Merged? then combined.order else order);
        }
        needsMoreBase, orderComplete := false, false;
      } else {
        Adopt(order);
        if !sameOrder {
          previousOrderId, orderComplete, needsMoreBase, strikes := priorId, false, false, Strikes(0, 0);
        }
      }
    }

    function View(): (snap: Snapshot)
      reads this
      ensures snap == ViewOf(Value())
    {
      if activeOrder.None? then
        Snapshot(false, "", 0, [], [], lastNodeSequenceId, stateOrderUpdateId, lastStateOrderId, orderComplete)
      else
        Snapshot(true, activeOrderId, activeOrderUpdateId, activeOrder.value.nodes, activeOrder.value.edges,
                 lastNodeSequenceId, stateOrderUpdateId, lastStateOrderId, orderComplete)
    }

    /** One State counted against the active order; true if that clears the tracking. */
    method CountMismatch(state: State) returns (cleared: bool)
      modifies `activeOrder, `activeOrderId, `activeOrderUpdateId, `pending, `orderComplete, `needsMoreBase, `strikes
      ensures cleared == TickOf(old(Value()), state).cleared
      ensures Same(Value(), (if cleared then Forgotten(old(Value())) else old(Value())).(strikes := TickOf(old(Value()), state).strikes))
      ensures cleared <==> Complains(old(strikes), old(activeOrderId), old(previousOrderId), state.orderId) && old(strikes).mismatch >= 2
      ensures !cleared && (old(activeOrderId) == "" || state.orderId != old(activeOrderId)) ==>
                strikes.mismatch ==
                old(strikes).mismatch + if Complains(old(strikes), old(activeOrderId), old(previousOrderId), state.orderId) then 1 else 0
    {
      TickIsExact(strikes, activeOrderId, previousOrderId, state.orderId);
      var tick := TickMismatch(strikes, activeOrderId, previousOrderId, state.orderId);
      strikes := tick.strikes;
      if tick.cleared {
        activeOrder, activeOrderId, activeOrderUpdateId := None, "", 0;
        pending, orderComplete, needsMoreBase := [], false, false;
      }
      return tick.cleared;
    }

    method MarkCompletion(state: State) returns (completed: Option<string>)
      modifies `orderComplete
      ensures orderComplete == (old(orderComplete) || ReportsCompletion(old(Value()), state))
      ensures completed == if orderComplete && !old(orderComplete) then Some(activeOrderId) else None
    {
      completed := None;
      if ReportsCompletion(Value(), state) {
        if !orderComplete {
          completed := Some(activeOrderId);
        }
        orderComplete := true;
      }
    }

    /** Apply a State; hand back the waiting updates that may now be sent, and the order id on the edge to completion. */
    method OnStateUpdate(state: State) returns (ready: seq<Order>, completed: Option<string>, ghost dropped: seq<Order>)
      modifies this
      ensures var o := Observed(old(Value()), state);
              Same(Value(), o.tracker) && ready == o.ready && dropped == o.dropped && completed == o.completed
      ensures previousOrderId == old(previousOrderId)
      ensures Kept(old(Waiting()), ready, dropped, Waiting())
      ensures Stale(old(haveStateBaseline), old(lastStateHeaderId), state) ==>
                unchanged(this) && ready == [] && completed == None
      ensures !Stale(old(haveStateBaseline), old(lastStateHeaderId), state) ==>
                haveStateBaseline && lastStateHeaderId == state.headerId && lastNodeSequenceId == state.lastNodeSequenceId
                && stateOrderUpdateId == state.orderUpdateId && lastStateOrderId == state.orderId
      ensures completed.Some? <==> !old(orderComplete) && orderComplete
      ensures completed.Some? <==>
                && !(old(haveStateBaseline) && state.headerId < old(lastStateHeaderId)) && !old(orderComplete)
                && old(activeOrder).Some? && state.orderId == old(activeOrderId) && state.orderUpdateId == old(activeOrderUpdateId)
                && StandsAtEnd(old(activeOrder).value, state)
      ensures completed.Some? ==> completed.value == old(activeOrderId)
      ensures !Stale(old(haveStateBaseline), old(lastStateHeaderId), state) ==>
                needsMoreBase == (!TickOf(old(Value()), state).cleared && (old(needsMoreBase) || state.newBaseRequest == Some(true)))
    {
      ObservedKeeps(Value(), state);
      CompletionIsEnd(Value(), state);
      if haveStateBaseline && state.headerId < lastStateHeaderId {
        return [], None, [];
      }
      ready, completed, dropped := ApplyState(state);
    }

    method ApplyState(state: State) returns (ready: seq<Order>, completed: Option<string>, ghost dropped: seq<Order>)
      requires !Stale(haveStateBaseline, lastStateHeaderId, state)
      modifies this
      ensures var o := Observed(old(Value()), state);
              Same(Value(), o.tracker) && ready == o.ready && dropped == o.dropped && completed == o.completed
    {
      MirrorState(state);
      var cleared := CountMismatch(state);
      if cleared {
        return [], None, old(Waiting());
      }
      completed := MarkCompletion(state);
      ready, dropped := DrainPending();
    }

    method MirrorState(state: State)
      modifies `lastStateHeaderId, `haveStateBaseline, `lastNodeSequenceId, `stateOrderUpdateId, `lastStateOrderId, `needsMoreBase
      ensures Same(Value(), Mirrored(old(Value()), state))
    {
      lastStateHeaderId, haveStateBaseline := state.headerId, true;
      lastNodeSequenceId, stateOrderUpdateId, lastStateOrderId := state.lastNodeSequenceId, state.orderUpdateId, state.orderId;
      if state.newBaseRequest == Some(true) {
        needsMoreBase := true;
      }
    }

    /** Send what may be sent of the waiting updates. */
    method DrainPending() returns (ready: seq<Order>, ghost dropped: seq<Order>)
      modifies `pending
      ensures Drained(ready, dropped, pending) == DrainedBy(old(Value()))
    {
      ready, dropped := [], [];
      if pending == [] || activeOrder.None? {
        return;
      }
      ready, dropped := DrainWith(View());
    }

    method DrainWith(view: Snapshot) returns (ready: seq<Order>, ghost dropped: seq<Order>)
      modifies `pending
      ensures Drained(ready, dropped, pending) == Drain(old(pending), view)
    {
      ready, dropped := [], [];
      var snap := view;
      ghost var all := Drain(pending, snap);
      assert Following([], [], all) == all;
      while pending != []
        invariant all == Following(ready, dropped, Drain(pending, snap))
        decreases |pending|
      {
        DrainTurn(pending, snap, ready, dropped);
        var head := pending[0];
        var decision := Decide(head.order, snap);
        if decision.QUEUE_PENDING? {
          if head.waits + 1 > PENDING_MAX_WAITS {
            pending, dropped := pending[1..], dropped + [head.order];
            continue;
          }
          pending := [head.(waits := head.waits + 1)] + pending[1..];
          return;
        }
        if decision != SEND_NOW {
          pending, dropped := pending[1..], dropped + [head.order];
          continue;
        }
        ready := ready + [head.order];
        snap := Advance(snap, head.order);
        pending := pending[1..];
      }
    }

    method EnqueuePendingUpdate(update: Order) returns (ok: bool)
      modifies `pending
      ensures ok <==> |old(pending)| < 8
      ensures pending == if ok then old(pending) + [Pending(update, 0)] else old(pending)
    {
      if |pending| >= PENDING_QUEUE_CAP {
        return false;
      }
      pending := pending + [Pending(update, 0)];
      return true;
    }

    /** Put unsent updates back in front, in order. */
    method RequeuePendingFront(updates: seq<Order>)
      modifies `pending
      ensures pending == Fresh(updates) + old(pending)
    {
      for i := |updates| downto 0
        invariant pending == Fresh(updates[i..]) + old(pending)
      {
        assert Fresh(updates[i..]) == [Pending(updates[i], 0)] + Fresh(updates[i + 1..]);
        pending := [Pending(updates[i], 0)] + pending;
      }
      assert updates[0..] == updates;
    }

    method Clear()
      modifies this
      ensures Same(Value(), NOTHING_TRACKED)
    {
      activeOrder, activeOrderId, activeOrderUpdateId := None, "", 0;
      lastNodeSequenceId, stateOrderUpdateId, lastStateOrderId := 0, 0, "";
      lastStateHeaderId, haveStateBaseline := 0, false;
      previousOrderId, orderComplete, needsMoreBase := "", false, false;
      pending, strikes := [], Strikes(0, 0);
    }

    method ClearPending()
      modifies `pending
      ensures pending == []
    {
      pending := [];
    }

    method ResetStateBaseline()
      modifies `lastStateHeaderId, `haveStateBaseline
      ensures !haveStateBaseline && lastStateHeaderId == 0
    {
      lastStateHeaderId, haveStateBaseline := 0, false;
    }
  }
}
