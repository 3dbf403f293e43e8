/** What each step does to one vehicle as the master sees it: its whole state as a value, and a log of what happened. */
module AgvSpec {
  import opened Common
  import Lif
  import opened Orders
  import opened MasterTypes
  import opened OrderStitcher
  import opened OrderLifecycle
  import opened OrderPublisher

  // ---- The state ----

  /** A drained update carries `preStitched`, so that the stitch decision is not taken twice. */
  datatype QueuedOrder = QueuedOrder(order: Order, preStitched: bool)

  /** What was waiting to be sent when the vehicle left master control. */
  datatype ModeCancelledQueue = ModeCancelledQueue(
    orders: seq<Order>,
    instantActions: seq<InstantActions>,
    cancelledAt: Option<int>,
    fromMode: Option<OperatingMode>,
    toMode: Option<OperatingMode>)

  const NOTHING_CANCELLED := ModeCancelledQueue([], [], None, None, None)

  /** An order on the wire that the tracker has not recorded yet. */
  datatype Flight = Flight(order: Order, merged: Option<Order>, ctx: Context)

  /** A queue limit. */
  type pos = n: int | 0 < n witness 1

  datatype Vehicle = Vehicle(
    maxQueueSize: pos,
    dropOldest: bool,
    orderQueue: seq<QueuedOrder>,
    instantActionsQueue: seq<InstantActions>,
    modeCancelledQueue: ModeCancelledQueue,
    connectionStatus: ConnectionState,
    operationalState: AGVState,
    lastState: Option<State>,
    lastStateHeaderId: uint32,
    haveStateBaseline: bool,
    lastVisualizationHeaderId: uint32,
    haveVisualizationBaseline: bool,
    heartbeatActive: bool,
    processorRunning: bool,
    parentAlive: bool,
    tracker: Tracker,
    inFlight: Option<Flight>)

  function NewVehicle(maxQueueSize: pos, dropOldest: bool, parentAlive: bool): Vehicle {
    Vehicle(maxQueueSize, dropOldest, [], [], NOTHING_CANCELLED, OFFLINE, STATE_UNKNOWN, None, 0, false, 0, false,
            false, false, parentAlive, NOTHING_TRACKED, None)
  }

  function OrdersOf(queue: seq<QueuedOrder>): (r: seq<Order>)
    ensures |r| == |queue| && forall i :: 0 <= i < |r| ==> r[i] == queue[i].order
  {
    seq(|queue|, i requires 0 <= i < |queue| => queue[i].order)
  }

  function Queued(orders: seq<Order>, preStitched: bool): (r: seq<QueuedOrder>)
    ensures |r| == |orders| && forall i :: 0 <= i < |r| ==> r[i] == QueuedOrder(orders[i], preStitched)
  {
    seq(|orders|, i requires 0 <= i < |orders| => QueuedOrder(orders[i], preStitched))
  }

  /** The parked orders followed by the live queue. */
  function OrderLine(v: Vehicle): seq<Order> {
    v.modeCancelledQueue.orders + OrdersOf(v.orderQueue)
  }

  function ActionLine(v: Vehicle): seq<InstantActions> {
    v.modeCancelledQueue.instantActions + v.instantActionsQueue
  }

  // ---- The log ----

  datatype Spot = QUEUE | BUFFER | BACKLOG

  /** What happens to orders. */
  datatype OrderEvent =
    | Accepted(order: Order)
    | Released(orders: seq<Order>)
    | Evicted(order: Order)
    | Taken(order: Order)
    | Sent(order: Order)
    | Postponed(order: Order)
    | Refused(orders: seq<Order>)
    | Captured
    | Restored
    | Cleared(place: Spot, orders: seq<Order>)

  /** What happens to instant actions. */
  datatype ActionEvent =
    | Enqueued(actions: InstantActions)
    | Dequeued(actions: InstantActions)
    | Moved

  /** What the rest of the program is told about the vehicle's silence. */
  datatype Signal = Timeout | Resumed | Stopped

  /** What reaches the gates that drop stale messages. A State that is seen, stale or not, pokes the heartbeat listener. */
  datatype GateEvent =
    | Opened
    | StateSeen(headerId: uint32)
    | VisualizationSeen(headerId: uint32)

  /** What becomes of the active order: an order is published with the route it leads to; later it starts a new
      active order, or extends the active one, or is an update whose base was given up in the meantime. */
  datatype TrackEvent =
    | Published(route: Order)
    | Began(order: Order)
    | Extended(route: Order)
    | Orphaned(order: Order, route: Order)
    | Abandoned

  datatype Log = Log(
    orders: seq<OrderEvent>,
    actions: seq<ActionEvent>,
    signals: seq<Signal>,
    gates: seq<GateEvent>,
    tracking: seq<TrackEvent>)

  const QUIET := Log([], [], [], [], [])

  function Plus(a: Log, b: Log): Log {
    Log(a.orders + b.orders, a.actions + b.actions, a.signals + b.signals, a.gates + b.gates, a.tracking + b.tracking)
  }

  datatype Outcome = Outcome(v: Vehicle, log: Log)

  /** What follows `first`, with both logs. */
  function Then(first: Log, next: Outcome): Outcome {
    next.(log := Plus(first, next.log))
  }

  // ---- Queues ----

  /** The queue after a push, the oldest entry evicted first if it was full. */
  function Pushed<T>(queue: seq<T>, limit: pos, x: T): (r: seq<T>)
    ensures |r| <= if |queue| < limit then limit else |queue|
  {
    (if |queue| >= limit then queue[1..] else queue) + [x]
  }

  predicate Full<T>(queue: seq<T>, limit: pos) {
    |queue| >= limit
  }

  /** A client's order joins the queue; a full queue refuses it unless the oldest may be dropped. */
  function SendOrder(v: Vehicle, order: Order): Outcome {
    if Full(v.orderQueue, v.maxQueueSize) && !v.dropOldest then Outcome(v, QUIET)
    else
      Outcome(v.(orderQueue := Pushed(v.orderQueue, v.maxQueueSize, QueuedOrder(order, false))),
              QUIET.(orders := (if Full(v.orderQueue, v.maxQueueSize) then [Evicted(v.orderQueue[0].order)] else []) + [Accepted(order)]))
  }

  function SendInstantActions(v: Vehicle, actions: InstantActions): Outcome {
    if Full(v.instantActionsQueue, v.maxQueueSize) && !v.dropOldest then Outcome(v, QUIET)
    else
      Outcome(v.(instantActionsQueue := Pushed(v.instantActionsQueue, v.maxQueueSize, actions)),
              QUIET.(actions := (if Full(v.instantActionsQueue, v.maxQueueSize) then [Dequeued(v.instantActionsQueue[0])] else []) + [Enqueued(actions)]))
  }

  /** Both queues move into the buffer, replacing whatever was still in it. */
  function Capture(v: Vehicle, from: OperatingMode, to: OperatingMode, now: int): Outcome {
    Outcome(v.(orderQueue := [], instantActionsQueue := [],
               modeCancelledQueue := ModeCancelledQueue(OrdersOf(v.orderQueue), v.instantActionsQueue, Some(now), Some(from), Some(to))),
            QUIET.(orders := [Cleared(BUFFER, v.modeCancelledQueue.orders), Captured], actions := [Moved]))
  }

  /** The buffer goes back in front of whatever was accepted meanwhile; its orders take the stitch decision again. */
  function ResumeParked(v: Vehicle): Outcome {
    Outcome(v.(orderQueue := Queued(v.modeCancelledQueue.orders, false) + v.orderQueue,
               instantActionsQueue := ActionLine(v), modeCancelledQueue := NOTHING_CANCELLED),
            QUIET.(orders := [Restored], actions := [Moved]))
  }

  function DiscardParked(v: Vehicle): Outcome {
    Outcome(v.(modeCancelledQueue := NOTHING_CANCELLED),
            QUIET.(orders := [Cleared(BUFFER, v.modeCancelledQueue.orders)]))
  }

  function CancelPending(v: Vehicle): Outcome {
    Outcome(v.(orderQueue := [], instantActionsQueue := []),
            QUIET.(orders := [Cleared(QUEUE, OrdersOf(v.orderQueue))], actions := [Moved]))
  }

  // ---- Connection and operational state ----

  /** Losing the connection outranks silence. */
  function Effective(now: AGVState, requested: AGVState): AGVState {
    if requested == STATE_UNKNOWN && now in {UNAVAILABLE, ERROR} then now else requested
  }

  /** Silence is reported only while somebody watches, and only when it takes effect. */
  function HeartbeatTimeout(v: Vehicle): Outcome {
    if v.heartbeatActive && Effective(v.operationalState, STATE_UNKNOWN) == STATE_UNKNOWN then
      Outcome(v.(operationalState := STATE_UNKNOWN), QUIET.(signals := if v.parentAlive then [Timeout] else []))
    else Outcome(v, QUIET)
  }

  /** The tracker records the order in flight, if there is one. */
  function Land(v: Vehicle): Outcome {
    match v.inFlight
    case None => Outcome(v, QUIET)
    case Some(flight) =>
      Outcome(v.(tracker := Recorded(v.tracker, flight.order, flight.merged), inFlight := None),
              QUIET.(tracking := [Landed(v.tracker, flight)]))
  }

  function Landed(t: Tracker, flight: Flight): TrackEvent {
    if Extends(t, flight.order) then Extended(Adopted(t, flight.order, flight.merged))
    else if flight.merged.Some? then Orphaned(flight.order, flight.merged.value)
    else Began(flight.order)
  }

  /** The processor stops once it has recorded the order it sent last. */
  function StopProcessor(v: Vehicle): Outcome {
    var landed := Land(v);
    landed.(v := landed.v.(processorRunning := false))
  }

  function Halted(v: Vehicle, state: AGVState): Vehicle {
    v.(heartbeatActive := false, connectionStatus := OFFLINE, operationalState := state)
  }

  /** Stop and empty the queues; cached messages are kept. */
  function Stop(v: Vehicle): Outcome {
    var idle := StopProcessor(v);
    Then(Plus(idle.log, QUIET.(signals := [Stopped])), CancelPending(Halted(idle.v, STATE_UNKNOWN)))
  }

  function ForgetMessages(v: Vehicle): Vehicle {
    v.(lastState := None, lastStateHeaderId := 0, haveStateBaseline := false,
       lastVisualizationHeaderId := 0, haveVisualizationBaseline := false)
  }

  /** The order tracker is emptied. */
  function ForgetTracking(v: Vehicle): Outcome {
    Outcome(v.(tracker := NOTHING_TRACKED),
            QUIET.(orders := [Cleared(BACKLOG, PendingOrders(v.tracker.pending))], gates := [Opened], tracking := [Abandoned]))
  }

  function ForgetAll(v: Vehicle): Outcome {
    var untracked := ForgetTracking(ForgetMessages(v));
    Then(untracked.log, DiscardParked(untracked.v))
  }

  /** Stop, and forget every cached message, the active order and the parked queue. */
  function Restart(v: Vehicle): Outcome {
    var stopped := Stop(v);
    Then(stopped.log, ForgetAll(stopped.v))
  }

  /** Stop talking to the vehicle but keep everything. */
  function Pause(v: Vehicle): Outcome {
    var idle := StopProcessor(v);
    idle.(v := Halted(idle.v, UNAVAILABLE))
  }

  function Resume(v: Vehicle): Outcome {
    Outcome(v.(heartbeatActive := true, processorRunning := true), QUIET)
  }

  /** The master is destroyed; it does not come back. */
  function LoseParent(v: Vehicle): Outcome {
    Outcome(v.(parentAlive := false), QUIET)
  }

  // ---- Messages ----

  function WithConnection(v: Vehicle, status: ConnectionState): Vehicle {
    v.(connectionStatus := status, operationalState := if status == ONLINE then v.operationalState else UNAVAILABLE)
  }

  function OpenGates(v: Vehicle): Outcome {
    Outcome(v.(haveStateBaseline := false, haveVisualizationBaseline := false,
               tracker := v.tracker.(lastStateHeaderId := 0, haveStateBaseline := false)),
            QUIET.(gates := [Opened]))
  }

  /** On the edge to online the gates open, so that a restarted vehicle is heard again. */
  function GoOnline(v: Vehicle): Outcome {
    var running := WithConnection(v, ONLINE).(heartbeatActive := true, processorRunning := true);
    if v.connectionStatus == ONLINE then Outcome(running, QUIET) else OpenGates(running)
  }

  function GoOffline(v: Vehicle, status: ConnectionState): Outcome {
    var idle := StopProcessor(WithConnection(v, status));
    idle.(v := idle.v.(heartbeatActive := false))
  }

  /** The vehicle's last will: nothing that waits is sent any more. */
  function DropOutbound(v: Vehicle): Outcome {
    var emptied := CancelPending(v);
    Outcome(emptied.v.(tracker := v.tracker.(pending := [])),
            Plus(emptied.log, QUIET.(orders := [Cleared(BACKLOG, PendingOrders(v.tracker.pending))])))
  }

  /** A malformed message changes nothing. */
  function HandleConnection(v: Vehicle, status: ConnectionState, schemaOk: bool): Outcome {
    if !schemaOk then Outcome(v, QUIET)
    else if status == ONLINE then GoOnline(v)
    else if status == OFFLINE then GoOffline(v, status)
    else
      var offline := GoOffline(v, status);
      Then(offline.log, DropOutbound(offline.v))
  }

  function HandleVisualization(v: Vehicle, headerId: uint32, schemaOk: bool): Outcome {
    if !schemaOk then Outcome(v, QUIET)
    else if v.haveVisualizationBaseline && headerId < v.lastVisualizationHeaderId then
      Outcome(v, QUIET.(gates := [VisualizationSeen(headerId)]))
    else
      Outcome(v.(lastVisualizationHeaderId := headerId, haveVisualizationBaseline := true),
              QUIET.(gates := [VisualizationSeen(headerId)]))
  }

  // ---- States ----

  /** How many of `wanted` entries a queue of length `used` still takes. */
  function Room(limit: pos, used: nat, wanted: nat): (k: nat)
    ensures k <= wanted
    ensures k == wanted || limit <= used + k
    ensures k == 0 || used + k <= limit
  {
    if used >= limit then 0 else if wanted <= limit - used then wanted else limit - used
  }

  /** The vehicle was under master control and no longer is. */
  predicate LeavesControl(before: Option<State>, msg: State) {
    before.Some? && MasterInControl(before.value.operatingMode) && !MasterInControl(msg.operatingMode)
  }

  /** The updates that fit are queued in order, the others go back in front of the waiting ones in order;
      no queued entry is evicted for them. */
  function QueueReady(v: Vehicle, ready: seq<Order>): Outcome {
    var k := Room(v.maxQueueSize, |v.orderQueue|, |ready|);
    Outcome(v.(orderQueue := v.orderQueue + Queued(ready[..k], true),
               tracker := v.tracker.(pending := Fresh(ready[k..]) + v.tracker.pending)),
            QUIET.(orders := [Released(ready[..k])]))
  }

  /** The tracker takes the State; what it releases is queued, what it gives up is refused. */
  function Track(v: Vehicle, seen: Observation): Outcome {
    Then(QUIET.(orders := [Refused(seen.dropped)], tracking := if seen.cleared then [Abandoned] else []),
         QueueReady(v.(tracker := seen.tracker), seen.ready))
  }

  /** Recovery is reported once, on leaving silence. */
  function Recover(v: Vehicle, previous: AGVState): Log {
    QUIET.(signals := if previous == STATE_UNKNOWN && v.parentAlive then [Resumed] else [])
  }

  /** The State replaces the cached one, and the vehicle is available. */
  function Cached(v: Vehicle, msg: State): Vehicle {
    v.(lastState := Some(msg), lastStateHeaderId := msg.headerId, haveStateBaseline := true, operationalState := AVAILABLE)
  }

  /** A State that is not stale makes the vehicle available, releases waiting updates,
      and parks the queues if the vehicle leaves master control. */
  function TakeState(v: Vehicle, msg: State, now: int): Outcome {
    var tracked := Track(Cached(v, msg), Observed(v.tracker, msg));
    var log := Plus(tracked.log, Recover(v, v.operationalState));
    if LeavesControl(v.lastState, msg) then
      Then(log, Capture(tracked.v, v.lastState.value.operatingMode, msg.operatingMode, now))
    else Outcome(tracked.v, log)
  }

  /** A malformed State changes nothing, a stale one only proves that the vehicle is alive. */
  function HandleState(v: Vehicle, msg: State, schemaOk: bool, now: int): Outcome {
    if !schemaOk then Outcome(v, QUIET)
    else if Stale(v.haveStateBaseline, v.lastStateHeaderId, msg) then
      Outcome(v, QUIET.(gates := [StateSeen(msg.headerId)]))
    else Then(QUIET.(gates := [StateSeen(msg.headerId)]), TakeState(v, msg, now))
  }

  // ---- Sending ----

  function ContextOf(v: Vehicle): Context {
    Context(v.connectionStatus, v.lastState, v.operationalState)
  }

  /** The active order as the publisher rebuilds it, without its zone set. */
  function ActiveOf(t: Tracker): Option<Order> {
    if t.activeOrder.Some? then Some(t.activeOrder.value.(zoneSetId := None)) else None
  }

  function DecisionOn(t: Tracker, queued: QueuedOrder): Decision {
    if queued.preStitched then SEND_NOW else Decide(queued.order, ViewOf(t))
  }

  /** The order is on the wire, leading to `route`. */
  function Dispatched(v: Vehicle, order: Order, route: Order): Outcome {
    var merged := if IsUpdate(ActiveOf(v.tracker), order) then Some(route) else None;
    Outcome(v.(inFlight := Some(Flight(order, merged, ContextOf(v)))),
            QUIET.(orders := [Sent(order)], tracking := [Published(route)]))
  }

  /** One order taken off the queue is sent if its checks pass, or waits, or is refused. */
  function Disposed(v: Vehicle, queued: QueuedOrder, adapter: bool, passes: bool): Outcome
    requires passes ==> RouteOf(ContextOf(v), queued.order, ActiveOf(v.tracker)).Some?
  {
    var decision := DecisionOn(v.tracker, queued);
    if adapter && decision == SEND_NOW && passes then
      Dispatched(v, queued.order, RouteOf(ContextOf(v), queued.order, ActiveOf(v.tracker)).value)
    else if adapter && decision.QUEUE_PENDING? && |v.tracker.pending| < PENDING_QUEUE_CAP then
      Outcome(v.(tracker := v.tracker.(pending := v.tracker.pending + [Pending(queued.order, 0)])),
              QUIET.(orders := [Postponed(queued.order)]))
    else Outcome(v, QUIET.(orders := [Refused([queued.order])]))
  }

  function NextActions(v: Vehicle): Outcome
    requires v.instantActionsQueue != []
  {
    Outcome(v.(instantActionsQueue := v.instantActionsQueue[1..]), QUIET.(actions := [Dequeued(v.instantActionsQueue[0])]))
  }

  function NextOrder(v: Vehicle, adapter: bool, passes: bool): Outcome
    requires v.orderQueue != [] && (passes ==> HeadRoute(v).Some?)
  {
    Then(QUIET.(orders := [Taken(v.orderQueue[0].order)]),
         Disposed(v.(orderQueue := v.orderQueue[1..]), v.orderQueue[0], adapter, passes))
  }

  /** Where the oldest order leads, if it is sent now. */
  function HeadRoute(v: Vehicle): Option<Order> {
    if v.orderQueue == [] then None else RouteOf(ContextOf(v), v.orderQueue[0].order, ActiveOf(v.tracker))
  }

  /** One turn of the queue processor: record what was sent last, then instant actions, then the oldest order. */
  function Turn(v: Vehicle, adapter: bool, passes: bool): Outcome
    requires passes ==> HeadRoute(v).Some?
  {
    if v.inFlight.Some? then Land(v)
    else if !v.processorRunning then Outcome(v, QUIET)
    else if v.instantActionsQueue != [] then NextActions(v)
    else if v.orderQueue != [] then NextOrder(v, adapter, passes)
    else Outcome(v, QUIET)
  }

  /** The oldest order passes every check now. */
  ghost predicate HeadPasses(v: Vehicle, layout: Option<Lif.LIF>, verdicts: Verdicts) {
    v.orderQueue != [] && Sendable(ContextOf(v), v.orderQueue[0].order, ActiveOf(v.tracker), layout, verdicts)
  }

  ghost function ProcessOne(v: Vehicle, adapter: bool, layout: Option<Lif.LIF>, verdicts: Verdicts): Outcome {
    Turn(v, adapter, HeadPasses(v, layout, verdicts))
  }

  // ---- Steps and runs ----

  datatype ClientCall =
    | SendAnOrder(order: Order)
    | SendActions(actions: InstantActions)
    | CancelQueued
    | ResumeBuffer
    | DiscardBuffer

  datatype LifeEvent = StopAgv | RestartAgv | PauseAgv | ResumeAgv | SilenceNoticed | ParentGone

  /** One step of anybody; a turn of the queue processor sees the layout loaded at that moment. */
  datatype Input<+L> =
    | Client(call: ClientCall)
    | Life(event: LifeEvent)
    | ConnectionMessage(status: ConnectionState, schemaOk: bool)
    | StateMessage(msg: State, schemaOk: bool, now: int)
    | VisualizationMessage(headerId: uint32, schemaOk: bool)
    | ProcessorTurn(adapter: bool, layout: L, verdicts: Verdicts)

  type Move = Input<Option<Lif.LIF>>

  function ClientStep(v: Vehicle, call: ClientCall): Outcome {
    match call
    case SendAnOrder(order) => SendOrder(v, order)
    case SendActions(actions) => SendInstantActions(v, actions)
    case CancelQueued => CancelPending(v)
    case ResumeBuffer => ResumeParked(v)
    case DiscardBuffer => DiscardParked(v)
  }

  function LifeStep(v: Vehicle, event: LifeEvent): Outcome {
    match event
    case StopAgv => Stop(v)
    case RestartAgv => Restart(v)
    case PauseAgv => Pause(v)
    case ResumeAgv => Resume(v)
    case SilenceNoticed => HeartbeatTimeout(v)
    case ParentGone => LoseParent(v)
  }

  ghost function Step(v: Vehicle, move: Move): Outcome {
    match move
    case Client(call) => ClientStep(v, call)
    case Life(event) => LifeStep(v, event)
    case ConnectionMessage(status, schemaOk) => HandleConnection(v, status, schemaOk)
    case StateMessage(msg, schemaOk, now) => HandleState(v, msg, schemaOk, now)
    case VisualizationMessage(headerId, schemaOk) => HandleVisualization(v, headerId, schemaOk)
    case ProcessorTurn(adapter, layout, verdicts) => ProcessOne(v, adapter, layout, verdicts)
  }

  /** Any steps, one after the other. */
  ghost function Run(v: Vehicle, moves: seq<Move>): Outcome
    decreases |moves|
  {
    if moves == [] then Outcome(v, QUIET)
    else
      var before := Run(v, moves[..|moves| - 1]);
      Then(before.log, Step(before.v, moves[|moves| - 1]))
  }

  lemma RunMore(v: Vehicle, moves: seq<Move>, move: Move)
    ensures Run(v, moves + [move]) == Then(Run(v, moves).log, Step(Run(v, moves).v, move))
  {
    assert (moves + [move])[..|moves|] == moves;
  }

  lemma PrefixMore(moves: seq<Move>, n: nat)
    requires n < |moves|
    ensures moves[..n + 1] == moves[..n] + [moves[n]]
  {
  }

  lemma PrefixOfPrefix(moves: seq<Move>, n: nat, i: nat)
    requires i <= n <= |moves|
    ensures moves[..n][..i] == moves[..i] && (i < n ==> moves[..n][i] == moves[i])
  {
  }

  lemma WholeRun(v: Vehicle, moves: seq<Move>)
    ensures Run(v, moves[..|moves|]) == Run(v, moves)
  {
    assert moves[..|moves|] == moves;
  }

  /** One step of a run. */
  lemma RunStep(v: Vehicle, moves: seq<Move>, n: nat)
    requires n < |moves|
    ensures Run(v, moves[..n + 1]) == Then(Run(v, moves[..n]).log, Step(Run(v, moves[..n]).v, moves[n]))
  {
    PrefixMore(moves, n);
    RunMore(v, moves[..n], moves[n]);
  }

  /** How much the queue processor still has to do. */
  function Work(v: Vehicle): nat {
    2 * (|v.orderQueue| + |v.instantActionsQueue|) + if v.inFlight.Some? then 1 else 0
  }

  /** Every turn of a running processor gets something done, until nothing is left. */
  lemma TurnsWork(v: Vehicle, adapter: bool, passes: bool)
    requires passes ==> HeadRoute(v).Some?
    ensures Progresses(v, Turn(v, adapter, passes).v)
  {
    if v.inFlight.Some? {
      LandWorks(v);
    } else if v.processorRunning && v.instantActionsQueue == [] && v.orderQueue != [] {
      NextOrderWorks(v, adapter, passes);
    }
  }

  lemma LandWorks(v: Vehicle)
    requires v.inFlight.Some?
    ensures Progresses(v, Land(v).v)
  {
  }

  lemma NextOrderWorks(v: Vehicle, adapter: bool, passes: bool)
    requires v.inFlight.None? && v.processorRunning && v.orderQueue != [] && (passes ==> HeadRoute(v).Some?)
    ensures Progresses(v, NextOrder(v, adapter, passes).v)
  {
    DisposedWorks(v.(orderQueue := v.orderQueue[1..]), v.orderQueue[0], adapter, passes);
  }

  lemma StepWorks(v: Vehicle, move: Move)
    requires move.ProcessorTurn?
    ensures Progresses(v, Step(v, move).v)
  {
    TurnsWork(v, move.adapter, HeadPasses(v, move.layout, move.verdicts));
  }

  /** A running processor keeps running, with less to do if there was anything. */
  predicate Progresses(v: Vehicle, w: Vehicle) {
    w.processorRunning == v.processorRunning && if v.processorRunning && 0 < Work(v) then Work(w) < Work(v) else Work(w) <= Work(v)
  }

  lemma DisposedWorks(v: Vehicle, queued: QueuedOrder, adapter: bool, passes: bool)
    requires v.inFlight.None? && (passes ==> RouteOf(ContextOf(v), queued.order, ActiveOf(v.tracker)).Some?)
    ensures var w := Disposed(v, queued, adapter, passes).v;
            w.processorRunning == v.processorRunning && Work(w) <= Work(v) + 1
  {
  }

  // ---- What the processor leaves alone ----

  /** At most the processor's flag, the queues, the tracker and the order in flight differ,
      and the tracker's memory of States is the same. */
  ghost predicate ProcessorOnly(v: Vehicle, w: Vehicle) {
    && w == v.(processorRunning := w.processorRunning, orderQueue := w.orderQueue, instantActionsQueue := w.instantActionsQueue,
               tracker := w.tracker, inFlight := w.inFlight)
    && w.tracker.haveStateBaseline == v.tracker.haveStateBaseline && w.tracker.lastStateHeaderId == v.tracker.lastStateHeaderId
  }

  lemma RecordedKeepsStates(t: Tracker, order: Order, merged: Option<Order>)
    ensures var r := Recorded(t, order, merged);
            r.haveStateBaseline == t.haveStateBaseline && r.lastStateHeaderId == t.lastStateHeaderId && r.pending == t.pending
  {
  }

  lemma LandFrame(v: Vehicle)
    ensures ProcessorOnly(v, Land(v).v) && Land(v).log == QUIET.(tracking := Land(v).log.tracking)
  {
    if v.inFlight.Some? {
      RecordedKeepsStates(v.tracker, v.inFlight.value.order, v.inFlight.value.merged);
    }
  }

  lemma StopProcessorFrame(v: Vehicle)
    ensures var o := StopProcessor(v);
            && ProcessorOnly(v, o.v) && o.log == QUIET.(tracking := o.log.tracking)
            && o.v.orderQueue == v.orderQueue && o.v.instantActionsQueue == v.instantActionsQueue && o.v.tracker.pending == v.tracker.pending
  {
    LandFrame(v);
    if v.inFlight.Some? {
      RecordedKeepsStates(v.tracker, v.inFlight.value.order, v.inFlight.value.merged);
    }
  }

  lemma DisposedFrame(v: Vehicle, queued: QueuedOrder, adapter: bool, passes: bool)
    requires passes ==> RouteOf(ContextOf(v), queued.order, ActiveOf(v.tracker)).Some?
    ensures var o := Disposed(v, queued, adapter, passes);
            ProcessorOnly(v, o.v) && o.log == QUIET.(orders := o.log.orders, tracking := o.log.tracking)
  {
  }

  lemma TurnFrame(v: Vehicle, adapter: bool, passes: bool)
    requires passes ==> HeadRoute(v).Some?
    ensures var o := Turn(v, adapter, passes);
            ProcessorOnly(v, o.v) && o.log == QUIET.(orders := o.log.orders, actions := o.log.actions, tracking := o.log.tracking)
  {
    if v.inFlight.Some? {
      LandFrame(v);
    } else if v.processorRunning && v.instantActionsQueue == [] && v.orderQueue != [] {
      NextOrderFrame(v, adapter, passes);
    }
  }

  lemma NextOrderFrame(v: Vehicle, adapter: bool, passes: bool)
    requires v.orderQueue != [] && (passes ==> HeadRoute(v).Some?)
    ensures var o := NextOrder(v, adapter, passes);
            ProcessorOnly(v, o.v) && o.log == QUIET.(orders := o.log.orders, tracking := o.log.tracking)
  {
    DisposedFrame(v.(orderQueue := v.orderQueue[1..]), v.orderQueue[0], adapter, passes);
  }
}
