/** Exactly when an order goes out, waits or is refused, in the fields of the vehicle. */
module AgvSending {
  import opened Common
  import Lif
  import opened Orders
  import opened OrderInLayout
  import opened MasterTypes
  import OrderMerge
  import opened OrderStitcher
  import opened OrderLifecycle
  import opened OrderPublisher
  import opened AgvSpec
  import opened AgvEvents

  // ---- The conditions ----

  /** Online, available, in a mode under master control, localized, and neither paused nor stopped. */
  ghost predicate Ready(v: Vehicle) {
    && v.connectionStatus == ONLINE && v.operationalState == AVAILABLE && v.lastState.Some?
    && var state := v.lastState.value;
       && state.operatingMode in {AUTOMATIC, SEMIAUTOMATIC} && state.paused != Some(true) && state.eStop == NO_STOP
       && state.positionInitialized == Some(true)
  }

  /** These nodes have a last released one, and the vehicle is not beyond it unless their order is complete. */
  ghost predicate NotBeyond(t: Tracker, nodes: seq<OrderNode>) {
    exists k :: 0 <= k < |nodes| && nodes[k].released
      && (forall i :: k < i < |nodes| ==> !nodes[i].released)
      && (t.orderComplete || t.lastNodeSequenceId <= nodes[k].sequenceId)
  }

  /** With an order active, another one is due only once that is complete; an update of it only if it is newer, in time,
      and a State has confirmed the active order with its last update. */
  ghost predicate Due(t: Tracker, order: Order) {
    t.activeOrder.Some? ==>
      && order.nodes != []
      && if order.orderId != t.activeOrderId then t.orderComplete
         else
           && t.activeOrderUpdateId < order.orderUpdateId && NotBeyond(t, t.activeOrder.value.nodes)
           && t.lastStateOrderId == t.activeOrderId != "" && t.activeOrderUpdateId <= t.stateOrderUpdateId
  }

  /** A newer update of the active order that no State has cleared the way for yet. */
  ghost predicate Early(t: Tracker, order: Order) {
    && t.activeOrder.Some? && order.nodes != []
    && order.orderId == t.activeOrderId && t.activeOrderUpdateId < order.orderUpdateId
    && (|| t.lastStateOrderId == ""
        || (t.lastStateOrderId != t.activeOrderId && exists n :: n in t.activeOrder.value.nodes && n.released)
        || (t.lastStateOrderId == t.activeOrderId && NotBeyond(t, t.activeOrder.value.nodes) && t.stateOrderUpdateId < t.activeOrderUpdateId))
  }

  ghost predicate Updates(v: Vehicle, order: Order) {
    v.tracker.activeOrder.Some? && v.tracker.activeOrder.value.orderId == order.orderId
  }

  /** The order is valid; an update is, once it is merged into the active order where the vehicle stands. */
  ghost predicate HasRoute(v: Vehicle, order: Order)
    requires v.lastState.Some?
  {
    if Updates(v, order) then
      var merge := OrderMerge.Combined(v.tracker.activeOrder.value, order, v.lastState.value.lastNodeSequenceId);
      merge.Merged? && WellFormed(merge.order)
    else WellFormed(order)
  }

  ghost predicate Passes(v: Vehicle, order: Order, layout: Option<Lif.LIF>, verdicts: Verdicts) {
    && Ready(v) && order.orderId != "" && HasRoute(v, order)
    && verdicts.content && verdicts.limits && verdicts.capable && verdicts.brokerConnected
    && (Updates(v, order) || verdicts.reachable)
    && (layout.Some? ==> Integral(layout.value, order))
  }

  /** An order off the queue goes out: it is due, or was found so before it was queued, and passes every check. */
  ghost predicate MayLeave(v: Vehicle, queued: QueuedOrder, adapter: bool, layout: Option<Lif.LIF>, verdicts: Verdicts) {
    adapter && (queued.preStitched || Due(v.tracker, queued.order)) && Passes(v, queued.order, layout, verdicts)
  }

  /** It is set aside: it comes early, and fewer than eight wait. */
  ghost predicate MustStay(v: Vehicle, queued: QueuedOrder, adapter: bool) {
    adapter && !queued.preStitched && Early(v.tracker, queued.order) && |v.tracker.pending| < 8
  }

  ghost predicate Goes(v: Vehicle, move: Move)
    requires Takes(v, move)
  {
    MayLeave(v, v.orderQueue[0], move.adapter, move.layout, move.verdicts)
  }

  ghost predicate Waits(v: Vehicle, move: Move)
    requires Takes(v, move)
  {
    MustStay(v, v.orderQueue[0], move.adapter)
  }

  // ---- They decide ----

  lemma TimeIsSeen(t: Tracker, nodes: seq<OrderNode>, snap: Snapshot)
    requires snap.nodes == nodes && snap.orderComplete == t.orderComplete && snap.lastNodeSequenceId == t.lastNodeSequenceId
    ensures InTime(snap) <==> NotBeyond(t, nodes)
  {
  }

  lemma DueIsDecided(t: Tracker, order: Order)
    ensures Decide(order, ViewOf(t)) == SEND_NOW <==> Due(t, order)
    ensures Decide(order, ViewOf(t)).QUEUE_PENDING? <==> Early(t, order)
  {
    DecisionsAreExact(order, ViewOf(t));
    if t.activeOrder.Some? {
      TimeIsSeen(t, t.activeOrder.value.nodes, ViewOf(t));
    }
  }

  lemma PassingIsSendable(v: Vehicle, order: Order, layout: Option<Lif.LIF>, verdicts: Verdicts)
    ensures Sendable(ContextOf(v), order, ActiveOf(v.tracker), layout, verdicts) <==> Passes(v, order, layout, verdicts)
  {
    if v.lastState.Some? && Updates(v, order) {
      ZoneIgnored(v.tracker.activeOrder.value, None, order, v.lastState.value.lastNodeSequenceId);
    }
  }

  /** An order off the queue is sent, set aside or refused. */
  ghost function FateOf(v: Vehicle, queued: QueuedOrder, adapter: bool, layout: Option<Lif.LIF>, verdicts: Verdicts): OrderEvent {
    if MayLeave(v, queued, adapter, layout, verdicts) then Sent(queued.order)
    else if MustStay(v, queued, adapter) then Postponed(queued.order)
    else Refused([queued.order])
  }

  lemma FateIsExact(v: Vehicle, queued: QueuedOrder, adapter: bool, layout: Option<Lif.LIF>, verdicts: Verdicts)
    ensures Disposed(v, queued, adapter, Sendable(ContextOf(v), queued.order, ActiveOf(v.tracker), layout, verdicts)).log.orders
         == [FateOf(v, queued, adapter, layout, verdicts)]
  {
    DueIsDecided(v.tracker, queued.order);
    PassingIsSendable(v, queued.order, layout, verdicts);
  }

  lemma TakenIsDecided(v: Vehicle, move: Move)
    requires Takes(v, move)
    ensures Dispatches(v, move) <==> Goes(v, move)
    ensures SetsAside(v, move) <==> Waits(v, move)
  {
    DueIsDecided(v.tracker, v.orderQueue[0].order);
    PassingIsSendable(v, v.orderQueue[0].order, move.layout, move.verdicts);
  }

  /** The order a turn takes is sent exactly if it goes, set aside exactly if it waits, and refused otherwise. */
  lemma TurnIsExact(v: Vehicle, move: Move)
    requires move.ProcessorTurn?
    ensures Step(v, move).log.orders ==
            if !Takes(v, move) then []
            else
              var head := v.orderQueue[0].order;
              [Taken(head), if Goes(v, move) then Sent(head) else if Waits(v, move) then Postponed(head) else Refused([head])]
  {
    TurnLogs(v, move.adapter, move.layout, move.verdicts);
    if Takes(v, move) {
      TakenIsDecided(v, move);
    }
  }

  // ---- Over runs ----

  /** That turn of the run takes the order. */
  ghost predicate TakenAt(v: Vehicle, moves: seq<Move>, i: nat, order: Order) {
    i < |moves| && Takes(Run(v, moves[..i]).v, moves[i]) && Run(v, moves[..i]).v.orderQueue[0].order == order
  }

  /** In any run from any state, an order is sent exactly if some turn takes it and it goes. */
  lemma SentIff(v: Vehicle, moves: seq<Move>, order: Order)
    ensures Sent(order) in Run(v, moves).log.orders <==>
            exists i :: 0 <= i < |moves| && TakenAt(v, moves, i, order) && Goes(Run(v, moves[..i]).v, moves[i])
  {
    if Sent(order) in Run(v, moves).log.orders {
      var i := EntryOccurred(v, moves, Sent(order));
      TakenIsDecided(Run(v, moves[..i]).v, moves[i]);
      assert TakenAt(v, moves, i, order);
    }
    forall i | 0 <= i < |moves| && TakenAt(v, moves, i, order) && Goes(Run(v, moves[..i]).v, moves[i])
      ensures Sent(order) in Run(v, moves).log.orders
    {
      TurnIsExact(Run(v, moves[..i]).v, moves[i]);
      StepIsLogged(v, moves, i, Sent(order));
    }
  }

  /** And it is set aside exactly if some turn takes it and it waits. */
  lemma PostponedIff(v: Vehicle, moves: seq<Move>, order: Order)
    ensures Postponed(order) in Run(v, moves).log.orders <==>
            exists i :: 0 <= i < |moves| && TakenAt(v, moves, i, order) && Waits(Run(v, moves[..i]).v, moves[i])
  {
    if Postponed(order) in Run(v, moves).log.orders {
      var i := EntryOccurred(v, moves, Postponed(order));
      TakenIsDecided(Run(v, moves[..i]).v, moves[i]);
      assert TakenAt(v, moves, i, order);
    }
    forall i | 0 <= i < |moves| && TakenAt(v, moves, i, order) && Waits(Run(v, moves[..i]).v, moves[i])
      ensures Postponed(order) in Run(v, moves).log.orders
    {
      TurnIsExact(Run(v, moves[..i]).v, moves[i]);
      assert !Goes(Run(v, moves[..i]).v, moves[i]) by {
        EarlyIsNotDue(Run(v, moves[..i]).v.tracker, order);
      }
      StepIsLogged(v, moves, i, Postponed(order));
    }
  }

  lemma EarlyIsNotDue(t: Tracker, order: Order)
    requires Early(t, order)
    ensures !Due(t, order)
  {
    DueIsDecided(t, order);
  }

  /** While an order of another id is active and not complete, the order a turn takes is refused, unless it carries the
      stitch flag; with the flag it goes out exactly if it passes the checks. */
  lemma IncompleteOrderBlocksOthers(v: Vehicle, moves: seq<Move>, i: nat, order: Order)
    requires TakenAt(v, moves, i, order)
    requires var t := Run(v, moves[..i]).v.tracker; t.activeOrder.Some? && t.activeOrderId != order.orderId && !t.orderComplete
    ensures var w, move := Run(v, moves[..i]).v, moves[i];
            && (Sent(order) in Step(w, move).log.orders <==>
                  w.orderQueue[0].preStitched && move.adapter && Passes(w, order, move.layout, move.verdicts))
            && (!w.orderQueue[0].preStitched ==> Refused([order]) in Run(v, moves).log.orders)
  {
    var w, move := Run(v, moves[..i]).v, moves[i];
    TurnIsExact(w, move);
    if !w.orderQueue[0].preStitched {
      StepIsLogged(v, moves, i, Refused([order]));
    }
  }

  /** The order is the oldest in the queue of a vehicle that is online, available, in a mode under master control, localized
      and neither paused nor stopped; an update of the active order is newer than it and comes in time: the vehicle
      is not beyond the stitch point. */
  ghost predicate MaySend(v: Vehicle, order: Order) {
    && v.orderQueue != [] && v.orderQueue[0].order == order && order.orderId != ""
    && Ready(v)
    && (Updates(v, order) ==>
          var active := v.tracker.activeOrder.value;
          && active.orderUpdateId < order.orderUpdateId
          && (OrderMerge.Anchor(active).Some? ==> v.lastState.value.lastNodeSequenceId <= OrderMerge.Anchor(active).value.sequenceId))
  }

  lemma DispatchIsAllowed(v: Vehicle, move: Move)
    requires Dispatches(v, move)
    ensures MaySend(v, v.orderQueue[0].order)
  {
    if v.tracker.activeOrder.Some? {
      var active := v.tracker.activeOrder.value;
      assert OrderMerge.Anchor(active.(zoneSetId := None)) == OrderMerge.Anchor(active);
    }
  }

  /** In any run from any state, whenever an order was sent it was allowed to be. */
  lemma SentWhenAllowed(v: Vehicle, moves: seq<Move>, order: Order)
    requires Sent(order) in Run(v, moves).log.orders
    ensures exists i :: 0 <= i < |moves| && Dispatches(Run(v, moves[..i]).v, moves[i]) && MaySend(Run(v, moves[..i]).v, order)
  {
    var i := EntryOccurred(v, moves, Sent(order));
    DispatchIsAllowed(Run(v, moves[..i]).v, moves[i]);
  }

  // ---- Where the stitch flag comes from ----

  /** Every queued order with the flag had it before, or this State released it. */
  ghost predicate FlagsOnlyReleased(v: Vehicle, move: Move, w: Vehicle) {
    forall q :: q in w.orderQueue && q.preStitched ==> q in v.orderQueue || (Hears(v, move) && q.order in Fitting(v, move.msg))
  }

  lemma ClientFlagsNothing(v: Vehicle, call: ClientCall)
    ensures FlagsOnlyReleased(v, Client(call), ClientStep(v, call).v)
  {
  }

  lemma ShorterQueueFlagsNothing(v: Vehicle, move: Move, w: Vehicle)
    requires w.orderQueue == v.orderQueue || w.orderQueue == [] || (v.orderQueue != [] && w.orderQueue == v.orderQueue[1..])
    ensures FlagsOnlyReleased(v, move, w)
  {
  }

  lemma LifeFlagsNothing(v: Vehicle, event: LifeEvent)
    ensures var w := LifeStep(v, event).v; w.orderQueue == v.orderQueue || w.orderQueue == []
  {
    StopProcessorIsIdle(v);
  }

  lemma ConnectionFlagsNothing(v: Vehicle, status: ConnectionState, schemaOk: bool)
    ensures var w := HandleConnection(v, status, schemaOk).v; w.orderQueue == v.orderQueue || w.orderQueue == []
  {
    if schemaOk && status != ONLINE {
      OfflineFlagsNothing(v, status);
    }
  }

  lemma OfflineFlagsNothing(v: Vehicle, status: ConnectionState)
    requires status != ONLINE
    ensures var w := HandleConnection(v, status, true).v; w.orderQueue == v.orderQueue || w.orderQueue == []
  {
    OfflineIsIdle(v, status);
  }

  lemma StateFlagsReleased(v: Vehicle, msg: State, schemaOk: bool, now: int)
    ensures FlagsOnlyReleased(v, StateMessage(msg, schemaOk, now), HandleState(v, msg, schemaOk, now).v)
  {
    var move := StateMessage(msg, schemaOk, now);
    if Hears(v, move) {
      var tracked := Track(Cached(v, msg), Observed(v.tracker, msg)).v;
      assert tracked.orderQueue == v.orderQueue + Queued(Fitting(v, msg), true);
      assert forall q :: q in Queued(Fitting(v, msg), true) ==> q.order in Fitting(v, msg);
    }
  }

  lemma TurnFlagsNothing(v: Vehicle, adapter: bool, passes: bool)
    requires passes ==> HeadRoute(v).Some?
    ensures var w := Turn(v, adapter, passes).v;
            w.orderQueue == v.orderQueue || (v.orderQueue != [] && w.orderQueue == v.orderQueue[1..])
  {
    if v.inFlight.Some? {
      LandIsIdle(v);
    } else if v.processorRunning && v.instantActionsQueue == [] && v.orderQueue != [] {
      DisposalLeaves(Popped(v), v.orderQueue[0], adapter, passes);
    }
  }

  lemma StepFlagsReleased(v: Vehicle, move: Move)
    ensures FlagsOnlyReleased(v, move, Step(v, move).v)
  {
    match move
    case Client(call) => ClientFlagsNothing(v, call);
    case Life(event) =>
      LifeFlagsNothing(v, event);
      ShorterQueueFlagsNothing(v, move, Step(v, move).v);
    case ConnectionMessage(status, schemaOk) =>
      ConnectionFlagsNothing(v, status, schemaOk);
      ShorterQueueFlagsNothing(v, move, Step(v, move).v);
    case StateMessage(msg, schemaOk, now) => StateFlagsReleased(v, msg, schemaOk, now);
    case VisualizationMessage(headerId, schemaOk) => ShorterQueueFlagsNothing(v, move, Step(v, move).v);
    case ProcessorTurn(adapter, layout, verdicts) =>
      TurnFlagsNothing(v, adapter, HeadPasses(v, layout, verdicts));
      ShorterQueueFlagsNothing(v, move, Step(v, move).v);
  }

  lemma {:induction false} ReadyIsDue(pending: seq<Pending>, snap: Snapshot, order: Order)
    requires snap.hasActive && order in Drain(pending, snap).ready
    ensures if order.orderId == snap.orderId then snap.stateOrderId == snap.orderId else snap.orderComplete
  {
    DecisionsAreExact(pending[0].order, snap);
    if Decide(pending[0].order, snap) == SEND_NOW {
      if order != pending[0].order {
        assert order in Drain(pending[1..], Advance(snap, pending[0].order)).ready;
        ReadyIsDue(pending[1..], Advance(snap, pending[0].order), order);
      }
    } else {
      ReadyIsDue(pending[1..], snap, order);
    }
  }

  /** The State releases the order: one is active then, and the order is an update of it and the State reports it,
      or it is complete. */
  ghost predicate Releases(v: Vehicle, move: Move, order: Order) {
    && Hears(v, move) && order in Fitting(v, move.msg) && v.tracker.activeOrder.Some?
    && (order.orderId == v.tracker.activeOrderId ==> move.msg.orderId == v.tracker.activeOrderId)
    && (order.orderId != v.tracker.activeOrderId ==> Observed(v.tracker, move.msg).tracker.orderComplete)
  }

  lemma FittingIsReleased(v: Vehicle, move: Move, order: Order)
    requires Hears(v, move) && order in Fitting(v, move.msg)
    ensures Releases(v, move, order)
  {
    var seen := Observed(v.tracker, move.msg);
    assert order in seen.ready;
    var tracked := Mirrored(v.tracker, move.msg).(strikes := TickOf(v.tracker, move.msg).strikes,
                                                 orderComplete := v.tracker.orderComplete || ReportsCompletion(v.tracker, move.msg));
    ReadyIsDue(tracked.pending, ViewOf(tracked), order);
  }

  /** In any run from an empty queue, a queued order that carries the stitch flag was released by a State. */
  lemma {:induction false} FlaggedWasReleased(v: Vehicle, moves: seq<Move>, q: QueuedOrder) returns (j: nat)
    requires v.orderQueue == [] && q in Run(v, moves).v.orderQueue && q.preStitched
    ensures j < |moves| && Releases(Run(v, moves[..j]).v, moves[j], q.order)
    decreases |moves|
  {
    var n := |moves| - 1;
    var w := Run(v, moves[..n]).v;
    StepFlagsReleased(w, moves[n]);
    if q in w.orderQueue {
      j := FlaggedWasReleased(v, moves[..n], q);
      PrefixOfPrefix(moves, n, j);
    } else {
      j := n;
      FittingIsReleased(w, moves[n], q.order);
    }
  }
}
