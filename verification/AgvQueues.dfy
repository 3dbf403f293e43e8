/** What each step does to the two live queues and to the gates, in the fields of the vehicle. */
module AgvQueues {
  import opened Orders
  import opened MasterTypes
  import opened OrderLifecycle
  import opened OrderPublisher
  import opened AgvSpec
  import opened AgvEvents
  import opened AgvStatus

  // ---- What is said ----

  /** A full queue loses its oldest entry to the one that joins. */
  function Joined<T>(queue: seq<T>, limit: pos, x: T): seq<T> {
    (if |queue| < limit then queue else queue[1..]) + [x]
  }

  /** The step empties both live queues. */
  ghost predicate EmptiesBoth(v: Vehicle, move: Move) {
    move == Client(CancelQueued) || move == Life(StopAgv) || move == Life(RestartAgv) || LastWill(move) || Leaves(v, move)
  }

  /** How many of the updates a State releases the queue has room for. */
  function Fits(v: Vehicle, ready: seq<Order>): nat {
    if |v.orderQueue| + |ready| <= v.maxQueueSize then |ready|
    else if v.maxQueueSize <= |v.orderQueue| then 0
    else v.maxQueueSize - |v.orderQueue|
  }

  /** Clients' orders join unflagged, and so do parked ones that come back, in front; updates a State releases join with the flag
      as far as there is room; the processor takes the oldest. */
  ghost predicate OrdersFollow(v: Vehicle, move: Move, w: Vehicle) {
    w.orderQueue ==
      if Admits(v, move) then Joined(v.orderQueue, v.maxQueueSize, QueuedOrder(move.call.order, false))
      else if move == Client(ResumeBuffer) then Queued(v.modeCancelledQueue.orders, false) + v.orderQueue
      else if EmptiesBoth(v, move) then []
      else if Received(v, move) then
        var ready := Observed(v.tracker, move.msg).ready;
        v.orderQueue + Queued(ready[..Fits(v, ready)], true)
      else if Takes(v, move) then v.orderQueue[1..]
      else v.orderQueue
  }

  ghost predicate AdmitsActions(v: Vehicle, move: Move) {
    move.Client? && move.call.SendActions? && (|v.instantActionsQueue| < v.maxQueueSize || v.dropOldest)
  }

  /** The processor takes the oldest instant action, before any order. */
  ghost predicate TakesActions(v: Vehicle, move: Move) {
    move.ProcessorTurn? && v.inFlight.None? && v.processorRunning && v.instantActionsQueue != []
  }

  ghost predicate ActionsFollow(v: Vehicle, move: Move, w: Vehicle) {
    w.instantActionsQueue ==
      if AdmitsActions(v, move) then Joined(v.instantActionsQueue, v.maxQueueSize, move.call.actions)
      else if move == Client(ResumeBuffer) then v.modeCancelledQueue.instantActions + v.instantActionsQueue
      else if EmptiesBoth(v, move) then []
      else if TakesActions(v, move) then v.instantActionsQueue[1..]
      else v.instantActionsQueue
  }

  /** The gates open on the edge to online and on a restart; every well-formed State or visualization is seen. */
  ghost function GatesOf(v: Vehicle, move: Move): seq<GateEvent> {
    if (Reconnects(move) && v.connectionStatus != ONLINE) || move == Life(RestartAgv) then [Opened]
    else if move.StateMessage? && move.schemaOk then [StateSeen(move.msg.headerId)]
    else if move.VisualizationMessage? && move.schemaOk then [VisualizationSeen(move.headerId)]
    else []
  }

  ghost predicate QueuesFollow(v: Vehicle, move: Move, o: Outcome) {
    OrdersFollow(v, move, o.v) && ActionsFollow(v, move, o.v) && o.log.gates == GatesOf(v, move)
  }

  // ---- It is so ----

  lemma ClientQueues(v: Vehicle, call: ClientCall)
    ensures QueuesFollow(v, Client(call), ClientStep(v, call))
  {
  }

  /** A step that neither adds nor empties anything. */
  lemma SameQueues(v: Vehicle, move: Move, o: Outcome)
    requires !move.Client? && !EmptiesBoth(v, move) && !Received(v, move) && !Takes(v, move) && !TakesActions(v, move)
    requires o.v.orderQueue == v.orderQueue && o.v.instantActionsQueue == v.instantActionsQueue && o.log.gates == GatesOf(v, move)
    ensures QueuesFollow(v, move, o)
  {
  }

  lemma EmptyQueues(v: Vehicle, move: Move, o: Outcome)
    requires !move.Client? && EmptiesBoth(v, move)
    requires o.v.orderQueue == [] && o.v.instantActionsQueue == [] && o.log.gates == GatesOf(v, move)
    ensures QueuesFollow(v, move, o)
  {
  }

  lemma StopQueues(v: Vehicle)
    ensures QueuesFollow(v, Life(StopAgv), AgvSpec.Stop(v))
  {
    StopProcessorFrame(v);
    EmptyQueues(v, Life(StopAgv), AgvSpec.Stop(v));
  }

  lemma RestartQueues(v: Vehicle)
    ensures QueuesFollow(v, Life(RestartAgv), Restart(v))
  {
    StopProcessorFrame(v);
    assert [] + ([Opened] + []) == [Opened];
    EmptyQueues(v, Life(RestartAgv), Restart(v));
  }

  lemma LifeQueues(v: Vehicle, event: LifeEvent)
    ensures QueuesFollow(v, Life(event), LifeStep(v, event))
  {
    if event == StopAgv {
      StopQueues(v);
    } else if event == RestartAgv {
      RestartQueues(v);
    } else {
      StopProcessorFrame(v);
      SameQueues(v, Life(event), LifeStep(v, event));
    }
  }

  lemma OfflineQueues(v: Vehicle, status: ConnectionState)
    ensures var o := GoOffline(v, status);
            o.v.orderQueue == v.orderQueue && o.v.instantActionsQueue == v.instantActionsQueue && o.log.gates == []
  {
    StopProcessorFrame(WithConnection(v, status));
  }

  lemma WillQueues(v: Vehicle)
    ensures QueuesFollow(v, ConnectionMessage(CONNECTIONBROKEN, true), HandleConnection(v, CONNECTIONBROKEN, true))
  {
    OfflineQueues(v, CONNECTIONBROKEN);
    OutboundFollows(GoOffline(v, CONNECTIONBROKEN).v);
    EmptyQueues(v, ConnectionMessage(CONNECTIONBROKEN, true), HandleConnection(v, CONNECTIONBROKEN, true));
  }

  lemma ConnectionQueues(v: Vehicle, status: ConnectionState, schemaOk: bool)
    ensures QueuesFollow(v, ConnectionMessage(status, schemaOk), HandleConnection(v, status, schemaOk))
  {
    if schemaOk && status == CONNECTIONBROKEN {
      WillQueues(v);
    } else {
      OfflineQueues(v, status);
      SameQueues(v, ConnectionMessage(status, schemaOk), HandleConnection(v, status, schemaOk));
    }
  }

  lemma TrackQueues(v: Vehicle, seen: Observation)
    ensures var o := Track(v, seen);
            && o.v.orderQueue == v.orderQueue + Queued(seen.ready[..Fits(v, seen.ready)], true)
            && o.v.instantActionsQueue == v.instantActionsQueue && o.log.gates == []
  {
  }

  lemma StateQueues(v: Vehicle, msg: State, schemaOk: bool, now: int)
    ensures QueuesFollow(v, StateMessage(msg, schemaOk, now), HandleState(v, msg, schemaOk, now))
  {
    var move, o := StateMessage(msg, schemaOk, now), HandleState(v, msg, schemaOk, now);
    if Received(v, move) {
      TrackQueues(Cached(v, msg), Observed(v.tracker, msg));
      ReceivedQueues(v, msg, now, Track(Cached(v, msg), Observed(v.tracker, msg)), o);
    } else {
      SameQueues(v, move, o);
    }
  }

  lemma ReceivedQueues(v: Vehicle, msg: State, now: int, tracked: Outcome, o: Outcome)
    requires var ready := Observed(v.tracker, msg).ready; tracked.v.orderQueue == v.orderQueue + Queued(ready[..Fits(v, ready)], true)
    requires Received(v, StateMessage(msg, true, now)) && tracked.v.instantActionsQueue == v.instantActionsQueue
    requires o.log.gates == [StateSeen(msg.headerId)]
    requires o.v == if LeavesControl(v.lastState, msg) then Capture(tracked.v, v.lastState.value.operatingMode, msg.operatingMode, now).v else tracked.v
    ensures QueuesFollow(v, StateMessage(msg, true, now), o)
  {
  }

  lemma DisposedKeepsActions(v: Vehicle, queued: QueuedOrder, adapter: bool, passes: bool)
    requires passes ==> RouteOf(ContextOf(v), queued.order, ActiveOf(v.tracker)).Some?
    ensures Disposed(v, queued, adapter, passes).v.instantActionsQueue == v.instantActionsQueue
  {
  }

  lemma NextOrderQueues(v: Vehicle, move: Move, passes: bool)
    requires Takes(v, move) && (passes ==> HeadRoute(v).Some?)
    ensures QueuesFollow(v, move, NextOrder(v, move.adapter, passes))
  {
    var disposed := Disposed(Popped(v), v.orderQueue[0], move.adapter, passes);
    NextOrderFrame(v, move.adapter, passes);
    DisposalLeaves(Popped(v), v.orderQueue[0], move.adapter, passes);
    DisposedKeepsActions(Popped(v), v.orderQueue[0], move.adapter, passes);
    TakingQueues(v, move, NextOrder(v, move.adapter, passes), disposed.v);
  }

  lemma NextActionsQueues(v: Vehicle, move: Move)
    requires TakesActions(v, move)
    ensures QueuesFollow(v, move, NextActions(v))
  {
  }

  lemma LandQueues(v: Vehicle, move: Move)
    requires move.ProcessorTurn? && v.inFlight.Some?
    ensures QueuesFollow(v, move, Land(v))
  {
    LandFrame(v);
    SameQueues(v, move, Land(v));
  }

  lemma TurnQueues(v: Vehicle, move: Move, passes: bool)
    requires move.ProcessorTurn? && (passes ==> HeadRoute(v).Some?)
    ensures QueuesFollow(v, move, Turn(v, move.adapter, passes))
  {
    if v.inFlight.Some? {
      LandQueues(v, move);
    } else if Takes(v, move) {
      NextOrderQueues(v, move, passes);
    } else if TakesActions(v, move) {
      NextActionsQueues(v, move);
    } else {
      SameQueues(v, move, Outcome(v, QUIET));
    }
  }

  lemma TakingQueues(v: Vehicle, move: Move, o: Outcome, w: Vehicle)
    requires Takes(v, move) && o.v == w && w.orderQueue == v.orderQueue[1..] && o.log.gates == []
    requires w.instantActionsQueue == v.instantActionsQueue
    ensures QueuesFollow(v, move, o)
  {
  }

  /** Every step changes the live queues, and opens or passes the gates, exactly so. */
  lemma QueuesAreExact(v: Vehicle, move: Move)
    ensures OrdersFollow(v, move, Step(v, move).v)
    ensures ActionsFollow(v, move, Step(v, move).v)
    ensures Step(v, move).log.gates == GatesOf(v, move)
  {
    match move
    case Client(call) => ClientQueues(v, call);
    case Life(event) => LifeQueues(v, event);
    case ConnectionMessage(status, schemaOk) => ConnectionQueues(v, status, schemaOk);
    case StateMessage(msg, schemaOk, now) => StateQueues(v, msg, schemaOk, now);
    case VisualizationMessage(headerId, schemaOk) => SameQueues(v, move, Step(v, move));
    case ProcessorTurn(adapter, layout, verdicts) => TurnQueues(v, move, HeadPasses(v, layout, verdicts));
  }
}
