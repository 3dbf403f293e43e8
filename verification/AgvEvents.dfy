/** Which step logs what about orders. */
module AgvEvents {
  import opened Common
  import Lif
  import opened Orders
  import opened MasterTypes
  import opened OrderStitcher
  import opened OrderLifecycle
  import opened OrderPublisher
  import opened AgvSpec

  // ---- The log of each step ----

  /** The same orders in the same places. */
  ghost predicate SameHoldings(v: Vehicle, w: Vehicle) {
    w.orderQueue == v.orderQueue && w.modeCancelledQueue.orders == v.modeCancelledQueue.orders
    && w.tracker.pending == v.tracker.pending
  }

  lemma LandIsIdle(v: Vehicle)
    ensures SameHoldings(v, Land(v).v) && Land(v).log.orders == []
  {
  }

  lemma StopProcessorIsIdle(v: Vehicle)
    ensures SameHoldings(v, StopProcessor(v).v) && StopProcessor(v).log.orders == []
  {
    LandIsIdle(v);
  }

  lemma OfflineIsIdle(v: Vehicle, status: ConnectionState)
    ensures SameHoldings(v, GoOffline(v, status).v) && GoOffline(v, status).log.orders == []
  {
    StopProcessorIsIdle(WithConnection(v, status));
  }

  /** The oldest order leaves the live queue. */
  function Popped(v: Vehicle): Vehicle
    requires v.orderQueue != []
  {
    v.(orderQueue := v.orderQueue[1..])
  }

  /** What becomes of an order off the queue. */
  lemma DisposalLeaves(v: Vehicle, queued: QueuedOrder, adapter: bool, passes: bool)
    requires passes ==> RouteOf(ContextOf(v), queued.order, ActiveOf(v.tracker)).Some?
    ensures var o := Disposed(v, queued, adapter, passes);
            && o.v.orderQueue == v.orderQueue && o.v.modeCancelledQueue == v.modeCancelledQueue
            && |o.log.orders| == 1
            && (o.log.orders[0] == Sent(queued.order) || o.log.orders[0] == Refused([queued.order]) || o.log.orders[0] == Postponed(queued.order))
            && o.v.tracker.pending == if o.log.orders[0].Postponed? then v.tracker.pending + [Pending(queued.order, 0)] else v.tracker.pending
  {
  }

  /** The step is a client's order that the queue takes. */
  ghost predicate Admits(v: Vehicle, move: Move) {
    move.Client? && move.call.SendAnOrder? && (|v.orderQueue| < v.maxQueueSize || v.dropOldest)
  }

  /** The step is a turn of the processor at which it takes the oldest order. */
  ghost predicate Takes(v: Vehicle, move: Move) {
    move.ProcessorTurn? && v.inFlight.None? && v.processorRunning && v.instantActionsQueue == [] && v.orderQueue != []
  }

  /** A turn at which the oldest order goes out. */
  ghost predicate Dispatches(v: Vehicle, move: Move) {
    Takes(v, move) && move.adapter && DecisionOn(v.tracker, v.orderQueue[0]) == SEND_NOW && HeadPasses(v, move.layout, move.verdicts)
  }

  /** A turn at which the oldest order is set aside until the vehicle has caught up. */
  ghost predicate SetsAside(v: Vehicle, move: Move) {
    Takes(v, move) && move.adapter && DecisionOn(v.tracker, v.orderQueue[0]).QUEUE_PENDING? && |v.tracker.pending| < PENDING_QUEUE_CAP
  }

  /** What becomes of the order that is taken. */
  ghost function Disposal(v: Vehicle, move: Move): OrderEvent
    requires Takes(v, move)
  {
    var head := v.orderQueue[0].order;
    if Dispatches(v, move) then Sent(head) else if SetsAside(v, move) then Postponed(head) else Refused([head])
  }

  /** A State that is neither malformed nor stale. */
  ghost predicate Hears(v: Vehicle, move: Move) {
    move.StateMessage? && move.schemaOk && !Stale(v.haveStateBaseline, v.lastStateHeaderId, move.msg)
  }

  /** The updates a State releases, as far as the queue has room. */
  function Fitting(v: Vehicle, msg: State): seq<Order> {
    var ready := Observed(v.tracker, msg).ready;
    ready[..Room(v.maxQueueSize, |v.orderQueue|, |ready|)]
  }

  /** The step empties that place. */
  ghost predicate Empties(v: Vehicle, move: Move, place: Spot) {
    match place
    case QUEUE => move == Client(CancelQueued) || move == Life(StopAgv) || move == Life(RestartAgv) || LastWill(move)
    case BUFFER => move == Client(DiscardBuffer) || move == Life(RestartAgv) || (Hears(v, move) && LeavesControl(v.lastState, move.msg))
    case BACKLOG => move == Life(RestartAgv) || LastWill(move)
  }

  ghost predicate LastWill(move: Move) {
    move == ConnectionMessage(CONNECTIONBROKEN, true)
  }

  function Held(v: Vehicle, place: Spot): seq<Order> {
    match place
    case QUEUE => OrdersOf(v.orderQueue)
    case BUFFER => v.modeCancelledQueue.orders
    case BACKLOG => PendingOrders(v.tracker.pending)
  }

  /** When an entry is logged, and for which orders. */
  ghost predicate Occurs(v: Vehicle, move: Move, e: OrderEvent) {
    match e
    case Accepted(order) => Admits(v, move) && order == move.call.order
    case Evicted(order) => Admits(v, move) && |v.orderQueue| >= v.maxQueueSize && order == v.orderQueue[0].order
    case Taken(order) => Takes(v, move) && order == v.orderQueue[0].order
    case Sent(order) => Dispatches(v, move) && order == v.orderQueue[0].order
    case Postponed(order) => SetsAside(v, move) && order == v.orderQueue[0].order
    case Refused(orders) =>
      || (Takes(v, move) && !Dispatches(v, move) && !SetsAside(v, move) && orders == [v.orderQueue[0].order])
      || (Hears(v, move) && orders == Observed(v.tracker, move.msg).dropped)
    case Released(orders) => Hears(v, move) && orders == Fitting(v, move.msg)
    case Captured => Hears(v, move) && LeavesControl(v.lastState, move.msg)
    case Restored => move == Client(ResumeBuffer)
    case Cleared(place, orders) => Empties(v, move, place) && orders == Held(v, place)
  }

  /** The log of the step holds exactly these entries. */
  ghost predicate LogsExactly(v: Vehicle, move: Move, events: seq<OrderEvent>) {
    forall e :: e in events <==> Occurs(v, move, e)
  }

  lemma SendLogs(v: Vehicle, order: Order)
    ensures AgvSpec.SendOrder(v, order).log.orders ==
            if |v.orderQueue| < v.maxQueueSize then [Accepted(order)]
            else if v.dropOldest then [Evicted(v.orderQueue[0].order), Accepted(order)]
            else []
  {
  }

  lemma StopLogs(v: Vehicle)
    ensures AgvSpec.Stop(v).log.orders == [Cleared(QUEUE, OrdersOf(v.orderQueue))]
    ensures AgvSpec.Stop(v).v.modeCancelledQueue == v.modeCancelledQueue && AgvSpec.Stop(v).v.tracker.pending == v.tracker.pending
  {
    StopProcessorIsIdle(v);
    StopProcessorFrame(v);
  }

  lemma RestartLogs(v: Vehicle)
    ensures AgvSpec.Restart(v).log.orders ==
            [Cleared(QUEUE, OrdersOf(v.orderQueue)), Cleared(BACKLOG, PendingOrders(v.tracker.pending)), Cleared(BUFFER, v.modeCancelledQueue.orders)]
  {
    StopLogs(v);
    var stopped := AgvSpec.Stop(v).v;
    assert ForgetAll(stopped).log.orders == [Cleared(BACKLOG, PendingOrders(stopped.tracker.pending)), Cleared(BUFFER, stopped.modeCancelledQueue.orders)];
  }

  lemma ConnectionLogs(v: Vehicle, status: ConnectionState, schemaOk: bool)
    ensures AgvSpec.HandleConnection(v, status, schemaOk).log.orders ==
            if schemaOk && status == CONNECTIONBROKEN then
              [Cleared(QUEUE, OrdersOf(v.orderQueue)), Cleared(BACKLOG, PendingOrders(v.tracker.pending))]
            else []
  {
    OfflineIsIdle(v, status);
  }

  lemma TrackLogs(v: Vehicle, seen: Observation)
    ensures var o := Track(v, seen);
            && o.log.orders == [Refused(seen.dropped), Released(seen.ready[..Room(v.maxQueueSize, |v.orderQueue|, |seen.ready|)])]
            && o.v.modeCancelledQueue == v.modeCancelledQueue
  {
  }

  lemma StateLogs(v: Vehicle, msg: State, schemaOk: bool, now: int)
    ensures AgvSpec.HandleState(v, msg, schemaOk, now).log.orders ==
            if !schemaOk || Stale(v.haveStateBaseline, v.lastStateHeaderId, msg) then []
            else [Refused(Observed(v.tracker, msg).dropped), Released(Fitting(v, msg))]
                 + if LeavesControl(v.lastState, msg) then [Cleared(BUFFER, v.modeCancelledQueue.orders), Captured] else []
  {
    TrackLogs(Cached(v, msg), Observed(v.tracker, msg));
  }

  lemma TurnLogs(v: Vehicle, adapter: bool, layout: Option<Lif.LIF>, verdicts: Verdicts)
    ensures var turn := ProcessorTurn(adapter, layout, verdicts);
            AgvSpec.Step(v, turn).log.orders ==
            if Takes(v, turn) then
              [Taken(v.orderQueue[0].order), Disposal(v, turn)]
            else []
  {
    if v.inFlight.Some? {
      LandIsIdle(v);
    }
  }

  lemma ClientLogsExactly(v: Vehicle, call: ClientCall)
    ensures LogsExactly(v, Client(call), AgvSpec.ClientStep(v, call).log.orders)
  {
    match call
    case SendAnOrder(order) => SendLogsExactly(v, order);
    case _ =>
  }

  lemma SendLogsExactly(v: Vehicle, order: Order)
    ensures LogsExactly(v, Client(SendAnOrder(order)), AgvSpec.SendOrder(v, order).log.orders)
  {
    SendLogs(v, order);
  }

  /** Steps at which nothing occurs. */
  lemma SilenceIsExact(v: Vehicle, move: Move)
    requires !Takes(v, move) && !Hears(v, move) && !LastWill(move) && !move.Client?
    requires move.Life? ==> move.event != StopAgv && move.event != RestartAgv
    ensures LogsExactly(v, move, [])
  {
  }

  lemma StopIsExact(v: Vehicle)
    ensures LogsExactly(v, Life(StopAgv), [Cleared(QUEUE, OrdersOf(v.orderQueue))])
  {
  }

  lemma RestartIsExact(v: Vehicle, events: seq<OrderEvent>)
    requires events == [Cleared(QUEUE, Held(v, QUEUE)), Cleared(BACKLOG, Held(v, BACKLOG)), Cleared(BUFFER, Held(v, BUFFER))]
    ensures LogsExactly(v, Life(RestartAgv), events)
  {
    assert forall place, orders :: Cleared(place, orders) in events <==> orders == Held(v, place);
  }

  lemma LifeLogsExactly(v: Vehicle, event: LifeEvent)
    ensures LogsExactly(v, Life(event), AgvSpec.LifeStep(v, event).log.orders)
  {
    match event
    case StopAgv =>
      StopLogs(v);
      StopIsExact(v);
    case RestartAgv =>
      RestartLogs(v);
      RestartIsExact(v, AgvSpec.Restart(v).log.orders);
    case PauseAgv =>
      StopProcessorIsIdle(v);
      SilenceIsExact(v, Life(event));
    case _ => SilenceIsExact(v, Life(event));
  }

  lemma ConnectionLogsExactly(v: Vehicle, status: ConnectionState, schemaOk: bool)
    ensures LogsExactly(v, ConnectionMessage(status, schemaOk), AgvSpec.HandleConnection(v, status, schemaOk).log.orders)
  {
    ConnectionLogs(v, status, schemaOk);
    if LastWill(ConnectionMessage(status, schemaOk)) {
      WillIsExact(v, ConnectionMessage(status, schemaOk), AgvSpec.HandleConnection(v, status, schemaOk).log.orders);
    } else {
      SilenceIsExact(v, ConnectionMessage(status, schemaOk));
    }
  }

  lemma WillIsExact(v: Vehicle, move: Move, events: seq<OrderEvent>)
    requires LastWill(move) && events == [Cleared(QUEUE, Held(v, QUEUE)), Cleared(BACKLOG, Held(v, BACKLOG))]
    ensures LogsExactly(v, move, events)
  {
    assert forall place, orders :: Cleared(place, orders) in events <==> place != BUFFER && orders == Held(v, place);
  }

  lemma StateLogsExactly(v: Vehicle, msg: State, schemaOk: bool, now: int)
    ensures LogsExactly(v, StateMessage(msg, schemaOk, now), AgvSpec.HandleState(v, msg, schemaOk, now).log.orders)
  {
    StateLogs(v, msg, schemaOk, now);
    HearingIsExact(v, StateMessage(msg, schemaOk, now), AgvSpec.HandleState(v, msg, schemaOk, now).log.orders);
  }

  lemma HearingIsExact(v: Vehicle, move: Move, events: seq<OrderEvent>)
    requires move.StateMessage?
    requires events ==
             if !Hears(v, move) then []
             else [Refused(Observed(v.tracker, move.msg).dropped), Released(Fitting(v, move.msg))]
                  + if LeavesControl(v.lastState, move.msg) then [Cleared(BUFFER, v.modeCancelledQueue.orders), Captured] else []
    ensures LogsExactly(v, move, events)
  {
    if Hears(v, move) {
      var refused, released := Refused(Observed(v.tracker, move.msg).dropped), Released(Fitting(v, move.msg));
      var rest := if LeavesControl(v.lastState, move.msg) then [Cleared(BUFFER, v.modeCancelledQueue.orders), Captured] else [];
      InPair(Cleared(BUFFER, v.modeCancelledQueue.orders), Captured);
      forall e ensures e in events <==> Occurs(v, move, e) {
        OccursAtState(v, move, e);
        InMore(refused, released, rest, e);
      }
    } else {
      SilenceIsExact(v, move);
    }
  }

  lemma InMore(a: OrderEvent, b: OrderEvent, rest: seq<OrderEvent>, e: OrderEvent)
    ensures e in [a, b] + rest <==> e == a || e == b || e in rest
  {
  }

  lemma OccursAtState(v: Vehicle, move: Move, e: OrderEvent)
    requires Hears(v, move)
    ensures Occurs(v, move, e) <==>
            || e == Refused(Observed(v.tracker, move.msg).dropped) || e == Released(Fitting(v, move.msg))
            || (LeavesControl(v.lastState, move.msg) && (e == Cleared(BUFFER, v.modeCancelledQueue.orders) || e == Captured))
  {
  }

  lemma TurnLogsExactly(v: Vehicle, move: Move)
    requires move.ProcessorTurn?
    ensures LogsExactly(v, move, AgvSpec.Step(v, move).log.orders)
  {
    TurnLogs(v, move.adapter, move.layout, move.verdicts);
    if Takes(v, move) {
      TakingIsExact(v, move, AgvSpec.Step(v, move).log.orders);
    } else {
      SilenceIsExact(v, move);
    }
  }

  lemma TakingIsExact(v: Vehicle, move: Move, events: seq<OrderEvent>)
    requires Takes(v, move) && events == [Taken(v.orderQueue[0].order), Disposal(v, move)]
    ensures LogsExactly(v, move, events)
  {
    InPair(Taken(v.orderQueue[0].order), Disposal(v, move));
    forall e ensures e in events <==> Occurs(v, move, e) {
      OccursAtTurn(v, move, e);
    }
  }

  lemma OccursAtTurn(v: Vehicle, move: Move, e: OrderEvent)
    requires Takes(v, move)
    ensures Occurs(v, move, e) <==> e == Taken(v.orderQueue[0].order) || e == Disposal(v, move)
  {
  }

  lemma InPair(e: OrderEvent, f: OrderEvent)
    ensures forall d :: d in [e, f] <==> d == e || d == f
  {
  }

  /** Every step logs exactly what occurs at it: orders are accepted only from clients, evicted only to make room for one,
      taken only by the processor and then sent, set aside or refused; released and given up only by States; the queue
      is captured exactly when the vehicle leaves master control, and each place is emptied exactly by the steps named. */
  lemma EventsAreExact(v: Vehicle, move: Move)
    ensures LogsExactly(v, move, AgvSpec.Step(v, move).log.orders)
  {
    match move
    case Client(call) => ClientLogsExactly(v, call);
    case Life(event) => LifeLogsExactly(v, event);
    case ConnectionMessage(status, schemaOk) => ConnectionLogsExactly(v, status, schemaOk);
    case StateMessage(msg, schemaOk, now) => StateLogsExactly(v, msg, schemaOk, now);
    case VisualizationMessage(headerId, schemaOk) => SilenceIsExact(v, move);
    case ProcessorTurn(adapter, layout, verdicts) => TurnLogsExactly(v, move);
  }

  // ---- Looking back from an entry ----

  /** Every entry in the log of a run occurred at some step of it. */
  lemma {:induction false} EntryOccurred(v: Vehicle, moves: seq<Move>, e: OrderEvent) returns (i: nat)
    requires e in Run(v, moves).log.orders
    ensures i < |moves| && Occurs(Run(v, moves[..i]).v, moves[i], e)
    decreases |moves|
  {
    var n := |moves| - 1;
    var before := Run(v, moves[..n]);
    if e in before.log.orders {
      i := EntryOccurred(v, moves[..n], e);
      PrefixOfPrefix(moves, n, i);
    } else {
      i := n;
      EventsAreExact(before.v, moves[n]);
    }
  }

  lemma {:induction false} StaysIn(logs: seq<seq<OrderEvent>>, n: nat, e: OrderEvent)
    requires n < |logs| && e in logs[n]
    requires forall k :: 0 <= k < |logs| - 1 ==> logs[k] <= logs[k + 1]
    ensures e in logs[|logs| - 1]
    decreases |logs| - n
  {
    if n < |logs| - 1 {
      InLonger(logs[n], [], logs[n + 1], e);
      StaysIn(logs, n + 1, e);
    }
  }

  /** The log after each number of steps. */
  ghost function LogsOf(v: Vehicle, moves: seq<Move>): (r: seq<seq<OrderEvent>>)
    ensures |r| == |moves| + 1
    ensures forall k :: 0 <= k < |r| ==> r[k] == Run(v, moves[..k]).log.orders
  {
    seq(|moves| + 1, k requires 0 <= k <= |moves| => Run(v, moves[..k]).log.orders)
  }

  lemma LogGrows(v: Vehicle, moves: seq<Move>, k: nat)
    requires k < |moves|
    ensures LogsOf(v, moves)[k + 1] == LogsOf(v, moves)[k] + Step(Run(v, moves[..k]).v, moves[k]).log.orders
  {
    RunStep(v, moves, k);
  }

  /** And what a step of the run logs is in the log of the run. */
  lemma StepIsLogged(v: Vehicle, moves: seq<Move>, i: nat, e: OrderEvent)
    requires i < |moves| && e in Step(Run(v, moves[..i]).v, moves[i]).log.orders
    ensures e in Run(v, moves).log.orders
  {
    LogGrows(v, moves, i);
    LastOfLogs(v, moves, i + 1, e);
  }

  lemma LastOfLogs(v: Vehicle, moves: seq<Move>, n: nat, e: OrderEvent)
    requires n <= |moves| && e in LogsOf(v, moves)[n]
    ensures e in Run(v, moves).log.orders
  {
    var logs := LogsOf(v, moves);
    forall k | 0 <= k < |logs| - 1 ensures logs[k] <= logs[k + 1] {
      LogGrows(v, moves, k);
    }
    StaysIn(logs, n, e);
    WholeRun(v, moves);
  }

  lemma InLonger(a: seq<OrderEvent>, b: seq<OrderEvent>, all: seq<OrderEvent>, e: OrderEvent)
    requires a + b <= all && (e in a || e in b)
    ensures e in all
  {
    if e in a {
      var k :| 0 <= k < |a| && a[k] == e;
      assert (a + b)[k] == e;
    } else {
      var k :| 0 <= k < |b| && b[k] == e;
      assert (a + b)[|a| + k] == e;
    }
  }
}
