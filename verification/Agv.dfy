/** One vehicle as the master sees it: outbound queues, connection and operational state, message gates.
    Every method does exactly what its namesake in `AgvSpec` says. */
module Agv {
  import opened Common
  import opened Orders
  import opened OrderInLayout
  import opened MasterTypes
  import opened OrderStitcher
  import opened OrderLifecycle
  import opened OrderPublisher
  import opened Spec = AgvSpec
  import opened AgvLedger
  import AgvSending
  import AgvStatus

  class AGV {
    const maxQueueSize: pos
    const dropOldest: bool
    const lifecycle: OrderLifecycleManager

    var orderQueue: seq<QueuedOrder>
    var instantActionsQueue: seq<InstantActions>
    var modeCancelledQueue: ModeCancelledQueue

    var connectionStatus: ConnectionState
    var operationalState: AGVState

    var lastState: Option<State>
    var lastStateHeaderId: uint32
    var haveStateBaseline: bool
    var lastVisualizationHeaderId: uint32
    var haveVisualizationBaseline: bool

    var heartbeatActive: bool
    var processorRunning: bool
    var parentAlive: bool

    /** What the queue processor holds between sending an order and recording it. */
    var inFlight: Option<Flight>

    function Value(): Vehicle
      reads this, lifecycle
    {
      Vehicle(maxQueueSize, dropOldest, orderQueue, instantActionsQueue, modeCancelledQueue, connectionStatus, operationalState,
              lastState, lastStateHeaderId, haveStateBaseline, lastVisualizationHeaderId, haveVisualizationBaseline,
              heartbeatActive, processorRunning, parentAlive, lifecycle.Value(), inFlight)
    }

    /** The vehicle ended up, and the events were, as `outcome` says. */
    ghost predicate Did(events: Log, outcome: Outcome)
      reads this, lifecycle
    {
      Same(Value(), outcome.v) && Same(events, outcome.log)
    }

    constructor (maxQueueSize: pos, dropOldest: bool, parentAlive: bool)
      ensures Value() == NewVehicle(maxQueueSize, dropOldest, parentAlive) && fresh(lifecycle)
    {
      this.maxQueueSize, this.dropOldest, this.parentAlive := maxQueueSize, dropOldest, parentAlive;
      lifecycle := new OrderLifecycleManager();
      orderQueue, instantActionsQueue, modeCancelledQueue := [], [], NOTHING_CANCELLED;
      connectionStatus, operationalState := OFFLINE, STATE_UNKNOWN;
      lastState, lastStateHeaderId, haveStateBaseline := None, 0, false;
      lastVisualizationHeaderId, haveVisualizationBaseline := 0, false;
      heartbeatActive, processorRunning, inFlight := false, false, None;
    }

    // ---- Queues ----

    /** A full queue refuses a drained update, and any order unless the oldest may be dropped. */
    method EnqueueOrder(order: Order, preStitched: bool) returns (ok: bool, ghost evicted: seq<OrderEvent>)
      modifies `orderQueue
      ensures ok <==> |old(orderQueue)| < maxQueueSize || (!preStitched && dropOldest)
      ensures orderQueue == if ok then Pushed(old(orderQueue), maxQueueSize, QueuedOrder(order, preStitched)) else old(orderQueue)
      ensures evicted == if ok && |old(orderQueue)| >= maxQueueSize then [Evicted(old(orderQueue)[0].order)] else []
    {
      evicted := [];
      if |orderQueue| >= maxQueueSize {
        if preStitched || !dropOldest {
          return false, [];
        }
        evicted := [Evicted(orderQueue[0].order)];
        orderQueue := orderQueue[1..];
      }
      orderQueue := orderQueue + [QueuedOrder(order, preStitched)];
      ok := true;
    }

    /** A client's order joins the queue behind everything accepted before it. */
    method SendOrder(order: Order) returns (ok: bool, ghost events: Log)
      modifies `orderQueue
      ensures Did(events, Spec.SendOrder(old(Value()), order))
      ensures ok <==> |old(orderQueue)| < maxQueueSize || dropOldest
      ensures ok && |old(orderQueue)| < maxQueueSize ==> OrderLine(Value()) == OrderLine(old(Value())) + [order]
    {
      ghost var evicted;
      ok, evicted := EnqueueOrder(order, false);
      events := if ok then QUIET.(orders := evicted + [Accepted(order)]) else QUIET;
    }

    method SendInstantActions(actions: InstantActions) returns (ok: bool, ghost events: Log)
      modifies `instantActionsQueue
      ensures Did(events, Spec.SendInstantActions(old(Value()), actions))
      ensures ok <==> |old(instantActionsQueue)| < maxQueueSize || dropOldest
      ensures ok && |old(instantActionsQueue)| < maxQueueSize ==> ActionLine(Value()) == ActionLine(old(Value())) + [actions]
    {
      ghost var evicted := [];
      if |instantActionsQueue| >= maxQueueSize {
        if !dropOldest {
          return false, QUIET;
        }
        evicted := [Dequeued(instantActionsQueue[0])];
        instantActionsQueue := instantActionsQueue[1..];
      }
      instantActionsQueue := instantActionsQueue + [actions];
      return true, QUIET.(actions := evicted + [Enqueued(actions)]);
    }

    // ---- Parking the queues while the vehicle is out of master control ----

    /** Leaving master control moves both queues into the buffer, replacing whatever was still in it. */
    method CaptureAndDrainOnLeaveMasterControl(from: OperatingMode, to: OperatingMode, now: int) returns (ghost events: Log)
      modifies `orderQueue, `instantActionsQueue, `modeCancelledQueue
      ensures Did(events, Capture(old(Value()), from, to, now))
      ensures old(modeCancelledQueue.orders) == [] ==> OrderLine(Value()) == OrderLine(old(Value()))
      ensures old(modeCancelledQueue.instantActions) == [] ==> ActionLine(Value()) == ActionLine(old(Value()))
    {
      events := QUIET.(orders := [Cleared(BUFFER, modeCancelledQueue.orders), Captured], actions := [Moved]);
      CaptureOrders();
      CaptureActions();
      modeCancelledQueue := modeCancelledQueue.(cancelledAt := Some(now), fromMode := Some(from), toMode := Some(to));
    }

    method CaptureOrders()
      modifies `orderQueue, `modeCancelledQueue
      ensures orderQueue == [] && modeCancelledQueue == old(modeCancelledQueue).(orders := OrdersOf(old(orderQueue)))
    {
      modeCancelledQueue := modeCancelledQueue.(orders := []);
      ghost var moved := 0;
      while orderQueue != []
        invariant moved <= |old(orderQueue)| && orderQueue == old(orderQueue)[moved..]
        invariant modeCancelledQueue == old(modeCancelledQueue).(orders := OrdersOf(old(orderQueue)[..moved]))
        decreases |orderQueue|
      {
        assert OrdersOf(old(orderQueue)[..moved + 1]) == OrdersOf(old(orderQueue)[..moved]) + [orderQueue[0].order];
        modeCancelledQueue := modeCancelledQueue.(orders := modeCancelledQueue.orders + [orderQueue[0].order]);
        orderQueue, moved := orderQueue[1..], moved + 1;
      }
    }

    method CaptureActions()
      modifies `instantActionsQueue, `modeCancelledQueue
      ensures instantActionsQueue == [] && modeCancelledQueue == old(modeCancelledQueue).(instantActions := old(instantActionsQueue))
    {
      modeCancelledQueue := modeCancelledQueue.(instantActions := []);
      ghost var moved := 0;
      while instantActionsQueue != []
        invariant moved <= |old(instantActionsQueue)| && instantActionsQueue == old(instantActionsQueue)[moved..]
        invariant modeCancelledQueue == old(modeCancelledQueue).(instantActions := old(instantActionsQueue)[..moved])
        decreases |instantActionsQueue|
      {
        modeCancelledQueue := modeCancelledQueue.(instantActions := modeCancelledQueue.instantActions + [instantActionsQueue[0]]);
        instantActionsQueue, moved := instantActionsQueue[1..], moved + 1;
      }
    }

    /** The buffer goes back in front of whatever was accepted meanwhile; its orders take the stitch decision again. */
    method ResumeModeCancelledQueue() returns (orders: nat, actions: nat, ghost events: Log)
      modifies `orderQueue, `instantActionsQueue, `modeCancelledQueue
      ensures Did(events, ResumeParked(old(Value())))
      ensures OrderLine(Value()) == OrderLine(old(Value())) && ActionLine(Value()) == ActionLine(old(Value()))
      ensures orders == |old(modeCancelledQueue.orders)| && actions == |old(modeCancelledQueue.instantActions)|
    {
      orders, actions := |modeCancelledQueue.orders|, |modeCancelledQueue.instantActions|;
      PrependOrders();
      PrependActions();
      modeCancelledQueue := NOTHING_CANCELLED;
      events := QUIET.(orders := [Restored], actions := [Moved]);
    }

    method PrependOrders()
      modifies `orderQueue
      ensures orderQueue == Queued(modeCancelledQueue.orders, false) + old(orderQueue)
      ensures OrdersOf(orderQueue) == modeCancelledQueue.orders + OrdersOf(old(orderQueue))
    {
      if modeCancelledQueue.orders == [] {
        return;
      }
      var reordered: seq<QueuedOrder> := [];
      for i := 0 to |modeCancelledQueue.orders|
        invariant reordered == Queued(modeCancelledQueue.orders, false)[..i]
      {
        reordered := reordered + [QueuedOrder(modeCancelledQueue.orders[i], false)];
      }
      while orderQueue != []
        invariant reordered + orderQueue == Queued(modeCancelledQueue.orders, false) + old(orderQueue)
        decreases |orderQueue|
      {
        reordered := reordered + [orderQueue[0]];
        orderQueue := orderQueue[1..];
      }
      orderQueue := reordered;
    }

    method PrependActions()
      modifies `instantActionsQueue
      ensures instantActionsQueue == modeCancelledQueue.instantActions + old(instantActionsQueue)
    {
      if modeCancelledQueue.instantActions == [] {
        return;
      }
      var reordered: seq<InstantActions> := [];
      for i := 0 to |modeCancelledQueue.instantActions|
        invariant reordered == modeCancelledQueue.instantActions[..i]
      {
        reordered := reordered + [modeCancelledQueue.instantActions[i]];
      }
      while instantActionsQueue != []
        invariant reordered + instantActionsQueue == modeCancelledQueue.instantActions + old(instantActionsQueue)
        decreases |instantActionsQueue|
      {
        reordered := reordered + [instantActionsQueue[0]];
        instantActionsQueue := instantActionsQueue[1..];
      }
      instantActionsQueue := reordered;
    }

    method DiscardModeCancelledQueue() returns (orders: nat, actions: nat, ghost events: Log)
      modifies `modeCancelledQueue
      ensures Did(events, DiscardParked(old(Value())))
      ensures orders == |old(modeCancelledQueue.orders)| && actions == |old(modeCancelledQueue.instantActions)|
    {
      orders, actions := |modeCancelledQueue.orders|, |modeCancelledQueue.instantActions|;
      events := QUIET.(orders := [Cleared(BUFFER, modeCancelledQueue.orders)]);
      modeCancelledQueue := NOTHING_CANCELLED;
    }

    method CancelPendingOrders() returns (ghost events: Log)
      modifies `orderQueue, `instantActionsQueue
      ensures Did(events, CancelPending(old(Value())))
    {
      events := QUIET.(orders := [Cleared(QUEUE, OrdersOf(orderQueue))], actions := [Moved]);
      orderQueue, instantActionsQueue := [], [];
    }

    // ---- Connection and operational state ----

    method SetConnectionStatus(status: ConnectionState)
      modifies `connectionStatus, `operationalState
      ensures connectionStatus == status
      ensures operationalState == if status == ONLINE then old(operationalState) else UNAVAILABLE
    {
      connectionStatus := status;
      if status == OFFLINE || status == CONNECTIONBROKEN {
        if operationalState != UNAVAILABLE {
          operationalState := UNAVAILABLE;
        }
      }
    }

    /** Losing the connection outranks silence. */
    method SetOperationalState(state: AGVState) returns (effective: AGVState)
      modifies `operationalState
      ensures effective == operationalState
      ensures operationalState == if state == STATE_UNKNOWN && old(operationalState) in {UNAVAILABLE, ERROR} then old(operationalState) else state
    {
      if state == STATE_UNKNOWN && (operationalState == UNAVAILABLE || operationalState == ERROR) {
        return operationalState;
      }
      if operationalState != state {
        operationalState := state;
      }
      return operationalState;
    }

    /** Silence is reported only when it takes effect. */
    method OnStateHeartbeatTimeout() returns (ghost events: Log)
      modifies `operationalState
      ensures Did(events, HeartbeatTimeout(old(Value())))
      ensures var latches := heartbeatActive && old(operationalState) in {STATE_UNKNOWN, AVAILABLE};
              && operationalState == (if latches then STATE_UNKNOWN else old(operationalState))
              && events.signals == if latches && parentAlive then [Timeout] else []
    {
      events := QUIET;
      if !heartbeatActive {
        return;
      }
      var effective := SetOperationalState(STATE_UNKNOWN);
      if effective != STATE_UNKNOWN {
        return;
      }
      if parentAlive {
        events := QUIET.(signals := [Timeout]);
      }
    }

    /** The processor's thread is joined, so the order it sent last is recorded first. */
    method StopQueueProcessor() returns (ghost events: Log)
      modifies `processorRunning, `inFlight, lifecycle
      ensures Did(events, StopProcessor(old(Value())))
      ensures !processorRunning && inFlight == None
    {
      events := RecordInFlight();
      processorRunning := false;
    }

    /** Stop and empty the queues; cached messages are kept. */
    method Stop() returns (ghost events: Log)
      modifies this, lifecycle
      ensures Did(events, Spec.Stop(old(Value())))
      ensures !heartbeatActive && !processorRunning && connectionStatus == OFFLINE && operationalState == STATE_UNKNOWN
      ensures orderQueue == [] && instantActionsQueue == [] && inFlight == None
      ensures modeCancelledQueue == old(modeCancelledQueue) && lastState == old(lastState)
    {
      ghost var recorded := StopQueueProcessor();
      heartbeatActive := false;
      connectionStatus, operationalState := OFFLINE, STATE_UNKNOWN;
      ghost var cancelled := CancelPendingOrders();
      events := Plus(Plus(recorded, QUIET.(signals := [Stopped])), cancelled);
    }

    /** Stop, and forget every cached message, the active order and the parked queue. */
    method Restart() returns (ghost events: Log)
      modifies this, lifecycle
      ensures Did(events, Spec.Restart(old(Value())))
    {
      ghost var stopped := Stop();
      ghost var forgotten := Forget();
      events := Plus(stopped, forgotten);
    }

    method Forget() returns (ghost events: Log)
      modifies this, lifecycle
      ensures Did(events, ForgetAll(old(Value())))
    {
      ForgetCachedMessages();
      ghost var untracked := Untrack();
      var orders, actions;
      ghost var discarded;
      orders, actions, discarded := DiscardModeCancelledQueue();
      events := Plus(untracked, discarded);
    }

    method ForgetCachedMessages()
      modifies `lastState, `lastStateHeaderId, `haveStateBaseline, `lastVisualizationHeaderId, `haveVisualizationBaseline
      ensures Same(Value(), ForgetMessages(old(Value())))
    {
      lastState, lastStateHeaderId, haveStateBaseline := None, 0, false;
      lastVisualizationHeaderId, haveVisualizationBaseline := 0, false;
    }

    method Untrack() returns (ghost events: Log)
      modifies lifecycle
      ensures Did(events, ForgetTracking(old(Value())))
    {
      events := QUIET.(orders := [Cleared(BACKLOG, lifecycle.Waiting())], gates := [Opened], tracking := [Abandoned]);
      lifecycle.Clear();
    }

    method Pause() returns (ghost events: Log)
      modifies this, lifecycle
      ensures Did(events, Spec.Pause(old(Value())))
      ensures !heartbeatActive && !processorRunning && connectionStatus == OFFLINE && operationalState == UNAVAILABLE
      ensures orderQueue == old(orderQueue) && instantActionsQueue == old(instantActionsQueue)
      ensures modeCancelledQueue == old(modeCancelledQueue) && lastState == old(lastState)
    {
      events := StopQueueProcessor();
      heartbeatActive := false;
      connectionStatus, operationalState := OFFLINE, UNAVAILABLE;
    }

    method Resume() returns (ghost events: Log)
      modifies `heartbeatActive, `processorRunning
      ensures Did(events, Spec.Resume(old(Value())))
    {
      heartbeatActive, processorRunning := true, true;
      events := QUIET;
    }

    /** The master is destroyed; it does not come back. */
    method LoseParent() returns (ghost events: Log)
      modifies `parentAlive
      ensures Did(events, Spec.LoseParent(old(Value())))
    {
      parentAlive := false;
      events := QUIET;
    }

    // ---- Message handlers ----

    /** The workers run exactly while the connection is up; a new connection opens the stale-message gates;
        the vehicle's last will drops all that waits. A malformed message changes nothing. */
    method HandleConnection(status: ConnectionState, schemaOk: bool) returns (ghost events: Log)
      modifies this, lifecycle
      ensures Did(events, Spec.HandleConnection(old(Value()), status, schemaOk))
      ensures !schemaOk ==> unchanged(this) && unchanged(lifecycle)
    {
      if !schemaOk {
        return QUIET;
      }
      if status == ONLINE {
        events := ConnectionUp();
      } else {
        events := ConnectionDown(status);
        if status == CONNECTIONBROKEN {
          ghost var dropped := DropWaiting();
          events := Plus(events, dropped);
        }
      }
    }

    /** Only the edge to online opens the gates. */
    method ConnectionUp() returns (ghost events: Log)
      modifies this, lifecycle
      ensures Did(events, GoOnline(old(Value())))
    {
      var previous := connectionStatus;
      SetConnectionStatus(ONLINE);
      heartbeatActive, processorRunning := true, true;
      if previous != ONLINE {
        events := OpenGates();
      } else {
        events := QUIET;
      }
    }

    method OpenGates() returns (ghost events: Log)
      modifies `haveStateBaseline, `haveVisualizationBaseline, lifecycle`lastStateHeaderId, lifecycle`haveStateBaseline
      ensures Did(events, Spec.OpenGates(old(Value())))
    {
      lifecycle.ResetStateBaseline();
      haveStateBaseline, haveVisualizationBaseline := false, false;
      events := QUIET.(gates := [Opened]);
    }

    /** A lost connection stops the workers and makes the vehicle unavailable, never silent. */
    method ConnectionDown(status: ConnectionState) returns (ghost events: Log)
      requires status != ONLINE
      modifies this, lifecycle
      ensures Did(events, GoOffline(old(Value()), status))
      ensures connectionStatus == status && !heartbeatActive && !processorRunning && operationalState == UNAVAILABLE
      ensures orderQueue == old(orderQueue) && instantActionsQueue == old(instantActionsQueue)
    {
      SetConnectionStatus(status);
      assert Same(Value(), WithConnection(old(Value()), status));
      events := StopQueueProcessor();
      heartbeatActive := false;
    }

    method DropWaiting() returns (ghost events: Log)
      modifies `orderQueue, `instantActionsQueue, lifecycle`pending
      ensures Did(events, DropOutbound(old(Value())))
      ensures orderQueue == [] && instantActionsQueue == [] && lifecycle.pending == []
    {
      ghost var cancelled := CancelPendingOrders();
      events := Plus(cancelled, QUIET.(orders := [Cleared(BACKLOG, lifecycle.Waiting())]));
      lifecycle.ClearPending();
    }

    method HandleVisualization(headerId: uint32, schemaOk: bool) returns (kept: bool, ghost events: Log)
      modifies `lastVisualizationHeaderId, `haveVisualizationBaseline
      ensures Did(events, Spec.HandleVisualization(old(Value()), headerId, schemaOk))
      ensures kept <==> schemaOk && (old(haveVisualizationBaseline) ==> old(lastVisualizationHeaderId) <= headerId)
    {
      if !schemaOk {
        return false, QUIET;
      }
      events := QUIET.(gates := [VisualizationSeen(headerId)]);
      if haveVisualizationBaseline && headerId < lastVisualizationHeaderId {
        return false, events;
      }
      lastVisualizationHeaderId, haveVisualizationBaseline := headerId, true;
      kept := true;
    }

    // ---- States ----

    /** The updates that fit are queued in order, the others go back in front of the waiting ones in order;
        no queued entry is evicted for them. */
    method EnqueueReady(ready: seq<Order>) returns (ghost events: Log)
      modifies `orderQueue, lifecycle`pending
      ensures Did(events, QueueReady(old(Value()), ready))
    {
      var i := QueuePrefix(ready);
      if i < |ready| {
        lifecycle.RequeuePendingFront(ready[i..]);
      } else {
        assert Fresh(ready[i..]) + lifecycle.pending == lifecycle.pending;
      }
      events := QUIET.(orders := [Released(ready[..i])]);
    }

    method QueuePrefix(ready: seq<Order>) returns (i: nat)
      modifies `orderQueue
      ensures i == Room(maxQueueSize, |old(orderQueue)|, |ready|)
      ensures orderQueue == old(orderQueue) + Queued(ready[..i], true)
      ensures |orderQueue| <= if i > 0 then maxQueueSize else |old(orderQueue)|
    {
      i := 0;
      while i < |ready|
        invariant i <= Room(maxQueueSize, |old(orderQueue)|, |ready|)
        invariant orderQueue == old(orderQueue) + Queued(ready[..i], true)
      {
        var ok;
        ghost var evicted;
        ok, evicted := EnqueueOrder(ready[i], true);
        if !ok {
          return;
        }
        assert Queued(ready[..i + 1], true) == Queued(ready[..i], true) + [QueuedOrder(ready[i], true)];
        i := i + 1;
      }
    }

    /** The tracker takes the State; what it releases is queued or put back, what it gives up is refused. */
    method TrackState(msg: State) returns (completed: Option<string>, ghost events: Log)
      modifies lifecycle, `orderQueue
      ensures Did(events, Track(old(Value()), Observed(old(lifecycle.Value()), msg)))
      ensures completed == Observed(old(lifecycle.Value()), msg).completed
    {
      ghost var seen := Observed(lifecycle.Value(), msg);
      var ready;
      ghost var dropped;
      ready, completed, dropped := lifecycle.OnStateUpdate(msg);
      ghost var queued := EnqueueReady(ready);
      events := Plus(QUIET.(orders := [Refused(dropped)], tracking := if seen.cleared then [Abandoned] else []), queued);
    }

    /** A malformed State changes nothing, a stale one only proves that the vehicle is alive;
        any other makes the vehicle available and is cached. */
    method HandleState(msg: State, schemaOk: bool, now: int) returns (completed: Option<string>, ghost events: Log)
      modifies this, lifecycle
      ensures Did(events, Spec.HandleState(old(Value()), msg, schemaOk, now))
      ensures !schemaOk || Stale(old(haveStateBaseline), old(lastStateHeaderId), msg) ==>
                unchanged(this) && unchanged(lifecycle) && completed == None
      ensures Captured in events.orders <==> AgvStatus.Leaves(old(Value()), StateMessage(msg, schemaOk, now))
      ensures AgvStatus.StatusFollows(old(Value()), StateMessage(msg, schemaOk, now), Value())
      ensures AgvStatus.BufferFollows(old(Value()), StateMessage(msg, schemaOk, now), Value())
      ensures events.signals == AgvStatus.SignalsOf(old(Value()), StateMessage(msg, schemaOk, now))
    {
      AgvStatus.StatusIsExact(Value(), StateMessage(msg, schemaOk, now));
      AgvStatus.CapturedIffLeaves(Value(), StateMessage(msg, schemaOk, now));
      if !schemaOk {
        return None, QUIET;
      }
      events := QUIET.(gates := [StateSeen(msg.headerId)]);
      if haveStateBaseline && msg.headerId < lastStateHeaderId {
        return None, events;
      }
      ghost var taken;
      completed, taken := TakeNewState(msg, now);
      events := Plus(events, taken);
    }

    /** Queues and buffer change hands only when the vehicle leaves master control. */
    method TakeNewState(msg: State, now: int) returns (completed: Option<string>, ghost events: Log)
      modifies this, lifecycle
      ensures Did(events, TakeState(old(Value()), msg, now))
      ensures completed == Observed(old(lifecycle.Value()), msg).completed
      ensures lastState == Some(msg) && operationalState == AVAILABLE
      ensures LeavesControl(old(lastState), msg) ==> orderQueue == [] && instantActionsQueue == []
      ensures !LeavesControl(old(lastState), msg) ==>
                && modeCancelledQueue == old(modeCancelledQueue) && instantActionsQueue == old(instantActionsQueue)
                && old(orderQueue) <= orderQueue
    {
      var before, previous := lastState, operationalState;
      ghost var tracked;
      completed, tracked := CacheState(msg);
      events := Plus(tracked, Recover(Value(), previous));
      if LeavesControl(before, msg) {
        ghost var captured := CaptureAndDrainOnLeaveMasterControl(before.value.operatingMode, msg.operatingMode, now);
        events := Plus(events, captured);
      }
    }

    method CacheState(msg: State) returns (completed: Option<string>, ghost events: Log)
      modifies this, lifecycle
      ensures Did(events, Track(Cached(old(Value()), msg), Observed(old(lifecycle.Value()), msg)))
      ensures completed == Observed(old(lifecycle.Value()), msg).completed
    {
      Cache(msg);
      completed, events := TrackState(msg);
    }

    method Cache(msg: State)
      modifies `lastState, `lastStateHeaderId, `haveStateBaseline, `operationalState
      ensures Same(Value(), Cached(old(Value()), msg))
    {
      lastState, lastStateHeaderId, haveStateBaseline := Some(msg), msg.headerId, true;
      var effective := SetOperationalState(AVAILABLE);
    }

    // ---- Sending ----

    function ContextNow(): Context
      reads `connectionStatus, `lastState, `operationalState
    {
      Context(connectionStatus, lastState, operationalState)
    }

    /** Decide on one order taken off the queue, check it and put it on the wire. */
    method PublishOrder(queued: QueuedOrder, adapter: bool, loaded: LoadedGraph, v: Verdicts) returns (ghost events: Log)
      requires loaded.TheGraph? ==> loaded.graph.Valid()
      modifies `inFlight, lifecycle`pending
      ensures Did(events, Disposed(old(Value()), queued, adapter, Sendable(old(ContextNow()), queued.order, ActiveOf(old(lifecycle.Value())), LayoutOf(loaded), v)))
      ensures events.orders == [AgvSending.FateOf(old(Value()), queued, adapter, LayoutOf(loaded), v)]
    {
      ghost var before := Value();
      events := DecideAndSend(queued, adapter, loaded, v);
      AgvSending.FateIsExact(before, queued, adapter, LayoutOf(loaded), v);
    }

    method DecideAndSend(queued: QueuedOrder, adapter: bool, loaded: LoadedGraph, v: Verdicts) returns (ghost events: Log)
      requires loaded.TheGraph? ==> loaded.graph.Valid()
      modifies `inFlight, lifecycle`pending
      ensures Did(events, Disposed(old(Value()), queued, adapter, Sendable(old(ContextNow()), queued.order, ActiveOf(old(lifecycle.Value())), LayoutOf(loaded), v)))
    {
      events := QUIET.(orders := [Refused([queued.order])]);
      var decision := if queued.preStitched then SEND_NOW else Decide(queued.order, lifecycle.View());
      if adapter && decision == SEND_NOW {
        var sent;
        ghost var dispatched;
        sent, dispatched := SendChecked(queued.order, loaded, v);
        events := if sent then dispatched else events;
      } else if adapter && decision.QUEUE_PENDING? {
        var ok := lifecycle.EnqueuePendingUpdate(queued.order);
        events := if ok then QUIET.(orders := [Postponed(queued.order)]) else events;
      }
    }

    method SendChecked(order: Order, loaded: LoadedGraph, v: Verdicts) returns (sent: bool, ghost events: Log)
      requires loaded.TheGraph? ==> loaded.graph.Valid()
      modifies `inFlight
      ensures sent <==> Sendable(ContextNow(), order, ActiveOf(lifecycle.Value()), LayoutOf(loaded), v)
      ensures sent ==> Did(events, Dispatched(old(Value()), order, RouteOf(ContextNow(), order, ActiveOf(lifecycle.Value())).value))
      ensures !sent ==> inFlight == old(inFlight)
    {
      events := QUIET;
      var merged;
      sent, merged := Publish(ContextNow(), order, ActiveOf(lifecycle.Value()), loaded, v);
      if sent {
        inFlight := Some(Flight(order, merged, ContextNow()));
        events := QUIET.(orders := [Sent(order)], tracking := [Published(if merged.Some? then merged.value else order)]);
      }
    }

    /** The order sent last becomes the active one. */
    method RecordInFlight() returns (ghost events: Log)
      modifies `inFlight, lifecycle
      ensures Did(events, Land(old(Value())))
    {
      events := QUIET;
      if inFlight.Some? {
        events := QUIET.(tracking := [Landed(lifecycle.Value(), inFlight.value)]);
        lifecycle.RecordPublished(inFlight.value.order, inFlight.value.merged);
        inFlight := None;
      }
    }

    /** One turn of the queue processor: record what was sent last, then instant actions, then the oldest order. */
    method ProcessOne(adapter: bool, loaded: LoadedGraph, v: Verdicts) returns (progressed: bool, ghost events: Log)
      requires loaded.TheGraph? ==> loaded.graph.Valid()
      modifies this, lifecycle
      ensures Did(events, Spec.ProcessOne(old(Value()), adapter, LayoutOf(loaded), v))
      ensures progressed <==> old(inFlight).Some? || (processorRunning && (old(instantActionsQueue) != [] || old(orderQueue) != []))
    {
      if inFlight.Some? {
        events := RecordInFlight();
        return true, events;
      }
      if !processorRunning || (orderQueue == [] && instantActionsQueue == []) {
        return false, QUIET;
      }
      if instantActionsQueue != [] {
        events := TakeActions();
      } else {
        events := TakeOrder(adapter, loaded, v);
      }
      progressed := true;
    }

    method TakeActions() returns (ghost events: Log)
      requires instantActionsQueue != []
      modifies `instantActionsQueue
      ensures Did(events, NextActions(old(Value())))
    {
      events := QUIET.(actions := [Dequeued(instantActionsQueue[0])]);
      instantActionsQueue := instantActionsQueue[1..];
    }

    method TakeOrder(adapter: bool, loaded: LoadedGraph, v: Verdicts) returns (ghost events: Log)
      requires loaded.TheGraph? ==> loaded.graph.Valid()
      requires orderQueue != []
      modifies this, lifecycle
      ensures Did(events, NextOrder(old(Value()), adapter, HeadPasses(old(Value()), LayoutOf(loaded), v)))
    {
      var head := orderQueue[0];
      orderQueue := orderQueue[1..];
      ghost var published := PublishOrder(head, adapter, loaded, v);
      events := Plus(QUIET.(orders := [Taken(head.order)]), published);
    }

    /** The processor runs until both queues are empty and everything sent is recorded: turn after turn of `ProcessOne`.
        Orders leave in the order they were queued. */
    method ProcessQueues(adapter: bool, loaded: LoadedGraph, verdicts: nat -> Verdicts) returns (ghost turns: seq<Move>, ghost events: Log)
      requires loaded.TheGraph? ==> loaded.graph.Valid()
      requires processorRunning
      modifies this, lifecycle
      ensures Did(events, Spec.Run(old(Value()), turns))
      ensures forall i :: 0 <= i < |turns| ==> turns[i] == ProcessorTurn(adapter, LayoutOf(loaded), verdicts(i))
      ensures orderQueue == [] && instantActionsQueue == [] && inFlight == None && processorRunning
      ensures Listed(LEFT, events.orders) == old(OrdersOf(orderQueue))
    {
      turns, events := TurnUntilIdle(adapter, loaded, verdicts);
      AllTaken(old(Value()), turns);
    }

    method TurnUntilIdle(adapter: bool, loaded: LoadedGraph, verdicts: nat -> Verdicts) returns (ghost turns: seq<Move>, ghost events: Log)
      requires loaded.TheGraph? ==> loaded.graph.Valid()
      requires processorRunning
      modifies this, lifecycle
      ensures Did(events, Spec.Run(old(Value()), turns))
      ensures forall i :: 0 <= i < |turns| ==> turns[i] == ProcessorTurn(adapter, LayoutOf(loaded), verdicts(i))
      ensures orderQueue == [] && instantActionsQueue == [] && inFlight == None && processorRunning
    {
      turns, events := [], QUIET;
      var turn := 0;
      while inFlight.Some? || orderQueue != [] || instantActionsQueue != []
        invariant turn == |turns| && processorRunning
        invariant Did(events, Spec.Run(old(Value()), turns))
        invariant forall i :: 0 <= i < |turns| ==> turns[i] == ProcessorTurn(adapter, LayoutOf(loaded), verdicts(i))
        decreases Work(Value())
      {
        ghost var more := Turn(adapter, loaded, verdicts(turn));
        ghost var move := ProcessorTurn(adapter, LayoutOf(loaded), verdicts(turn));
        RunMore(old(Value()), turns, move);
        turns, events := turns + [move], Plus(events, more);
        turn := turn + 1;
      }
    }

    method Turn(adapter: bool, loaded: LoadedGraph, v: Verdicts) returns (ghost events: Log)
      requires loaded.TheGraph? ==> loaded.graph.Valid()
      modifies this, lifecycle
      ensures Did(events, Spec.Step(old(Value()), ProcessorTurn(adapter, LayoutOf(loaded), v)))
      ensures Progresses(old(Value()), Value())
    {
      StepWorks(Value(), ProcessorTurn(adapter, LayoutOf(loaded), v));
      var progressed;
      progressed, events := ProcessOne(adapter, loaded, v);
    }

    // ---- Any run ----

    method ClientStep(call: ClientCall) returns (ghost events: Log)
      modifies this, lifecycle
      ensures Did(events, Spec.ClientStep(old(Value()), call))
    {
      match call {
        case SendAnOrder(order) => var ok; ok, events := SendOrder(order);
        case SendActions(actions) => var ok; ok, events := SendInstantActions(actions);
        case CancelQueued => events := CancelPendingOrders();
        case ResumeBuffer => var orders, actions; orders, actions, events := ResumeModeCancelledQueue();
        case DiscardBuffer => var orders, actions; orders, actions, events := DiscardModeCancelledQueue();
      }
    }

    method LifeStep(event: LifeEvent) returns (ghost events: Log)
      modifies this, lifecycle
      ensures Did(events, Spec.LifeStep(old(Value()), event))
    {
      match event {
        case StopAgv => events := Stop();
        case RestartAgv => events := Restart();
        case PauseAgv => events := Pause();
        case ResumeAgv => events := Resume();
        case SilenceNoticed => events := OnStateHeartbeatTimeout();
        case ParentGone => events := LoseParent();
      }
    }

    /** One step of anybody, in any state. */
    method Step(input: Input<LoadedGraph>) returns (ghost events: Log)
      requires Usable(input)
      modifies this, lifecycle
      ensures Did(events, Spec.Step(old(Value()), MoveOf(input)))
    {
      match input {
        case Client(call) => events := ClientStep(call);
        case Life(event) => events := LifeStep(event);
        case ConnectionMessage(status, schemaOk) => events := HandleConnection(status, schemaOk);
        case StateMessage(msg, schemaOk, now) => var completed; completed, events := HandleState(msg, schemaOk, now);
        case VisualizationMessage(headerId, schemaOk) => var kept; kept, events := HandleVisualization(headerId, schemaOk);
        case ProcessorTurn(adapter, loaded, v) => var progressed; progressed, events := ProcessOne(adapter, loaded, v);
      }
    }
  }

  /** A layout loaded at a turn is a valid graph. */
  ghost predicate Usable(input: Input<LoadedGraph>)
    reads if input.ProcessorTurn? && input.layout.TheGraph? then {input.layout.graph} else {}
  {
    input.ProcessorTurn? && input.layout.TheGraph? ==> input.layout.graph.Valid()
  }

  /** The step with the document of the loaded graph. */
  ghost function MoveOf(input: Input<LoadedGraph>): Move
    reads if input.ProcessorTurn? && input.layout.TheGraph? then {input.layout.graph} else {}
  {
    match input
    case Client(call) => Client(call)
    case Life(event) => Life(event)
    case ConnectionMessage(status, schemaOk) => ConnectionMessage(status, schemaOk)
    case StateMessage(msg, schemaOk, now) => StateMessage(msg, schemaOk, now)
    case VisualizationMessage(headerId, schemaOk) => VisualizationMessage(headerId, schemaOk)
    case ProcessorTurn(adapter, loaded, verdicts) => ProcessorTurn(adapter, LayoutOf(loaded), verdicts)
  }

  /** From a new vehicle on, any run of steps in any order does what the specification says. */
  method Run(maxQueueSize: pos, dropOldest: bool, parentAlive: bool, inputs: seq<Input<LoadedGraph>>)
    returns (agv: AGV, ghost moves: seq<Move>, ghost events: Log)
    requires forall i :: 0 <= i < |inputs| ==> Usable(inputs[i])
    ensures |moves| == |inputs| && forall i :: 0 <= i < |inputs| ==> moves[i] == MoveOf(inputs[i])
    ensures agv.Did(events, Spec.Run(NewVehicle(maxQueueSize, dropOldest, parentAlive), moves))
  {
    agv := new AGV(maxQueueSize, dropOldest, parentAlive);
    moves, events := [], QUIET;
    for n := 0 to |inputs|
      invariant fresh(agv) && fresh(agv.lifecycle)
      invariant |moves| == n && forall i :: 0 <= i < n ==> moves[i] == MoveOf(inputs[i])
      invariant agv.Did(events, Spec.Run(NewVehicle(maxQueueSize, dropOldest, parentAlive), moves))
    {
      ghost var more := agv.Step(inputs[n]);
      moves, events := moves + [MoveOf(inputs[n])], Plus(events, more);
    }
  }
}
