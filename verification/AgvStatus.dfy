/** What each step does to the vehicle's status and to the parked queue, in its fields; and when recovery is signalled. */
module AgvStatus {
  import opened Common
  import opened MasterTypes
  import opened OrderLifecycle
  import opened AgvSpec
  import opened AgvEvents

  // ---- Steps ----

  /** A State that is well-formed and not older than the newest. */
  ghost predicate Received(v: Vehicle, move: Move) {
    move.StateMessage? && move.schemaOk && !(v.haveStateBaseline && move.msg.headerId < v.lastStateHeaderId)
  }

  ghost predicate Reconnects(move: Move) {
    move == ConnectionMessage(ONLINE, true)
  }

  ghost predicate Disconnects(move: Move) {
    move == ConnectionMessage(OFFLINE, true) || move == ConnectionMessage(CONNECTIONBROKEN, true)
  }

  ghost predicate Halts(move: Move) {
    move == Life(StopAgv) || move == Life(RestartAgv) || move == Life(PauseAgv)
  }

  /** Silence is noticed, somebody watches, and no lost connection or error outranks it. */
  ghost predicate FallsSilent(v: Vehicle, move: Move) {
    move == Life(SilenceNoticed) && v.heartbeatActive && v.operationalState in {STATE_UNKNOWN, AVAILABLE}
  }

  /** The State takes the vehicle out of master control. */
  ghost predicate Leaves(v: Vehicle, move: Move) {
    && Received(v, move) && v.lastState.Some?
    && v.lastState.value.operatingMode in {AUTOMATIC, SEMIAUTOMATIC} && move.msg.operatingMode in {MANUAL, SERVICE, TEACHIN}
  }

  /** Whether something that runs goes on: from a reconnection or a resumption until the next halt or lost connection. */
  ghost predicate GoesOn(runs: bool, move: Move) {
    Reconnects(move) || move == Life(ResumeAgv) || (runs && !Halts(move) && !Disconnects(move))
  }

  /** A State makes the vehicle available, a lost connection or a pause unavailable, a stop, a restart or noticed silence
      unknown; the cached State is the last one kept, until a restart. */
  ghost predicate StatusFollows(v: Vehicle, move: Move, w: Vehicle) {
    && w.operationalState ==
         (if Received(v, move) then AVAILABLE
          else if Disconnects(move) || move == Life(PauseAgv) then UNAVAILABLE
          else if FallsSilent(v, move) || Halts(move) then STATE_UNKNOWN
          else v.operationalState)
    && w.connectionStatus ==
         (if move.ConnectionMessage? && move.schemaOk then move.status else if Halts(move) then OFFLINE else v.connectionStatus)
    && (w.heartbeatActive <==> GoesOn(v.heartbeatActive, move)) && (w.processorRunning <==> GoesOn(v.processorRunning, move))
    && (w.parentAlive <==> v.parentAlive && move != Life(ParentGone))
    && w.lastState == (if Received(v, move) then Some(move.msg) else if move == Life(RestartAgv) then None else v.lastState)
  }

  /** What is signalled: recovery at each State that ends a silence, silence whenever it is noticed in earnest
      (both only while there is somebody to tell), and every stop. */
  ghost function SignalsOf(v: Vehicle, move: Move): seq<Signal> {
    if Received(v, move) && v.operationalState == STATE_UNKNOWN && v.parentAlive then [Resumed]
    else if FallsSilent(v, move) && v.parentAlive then [Timeout]
    else if move == Life(StopAgv) || move == Life(RestartAgv) then [Stopped]
    else []
  }

  /** Leaving master control fills the buffer with all that was queued, what the same State released included, and with
      the two modes; resuming, discarding and restarting empty it; nothing else touches it. */
  ghost predicate BufferFollows(v: Vehicle, move: Move, w: Vehicle) {
    && w.modeCancelledQueue ==
         (if Leaves(v, move) then
            ModeCancelledQueue(OrdersOf(v.orderQueue) + Fitting(v, move.msg), v.instantActionsQueue, Some(move.now),
                               Some(v.lastState.value.operatingMode), Some(move.msg.operatingMode))
          else if move == Client(ResumeBuffer) || move == Client(DiscardBuffer) || move == Life(RestartAgv) then
            ModeCancelledQueue([], [], None, None, None)
          else v.modeCancelledQueue)
    && (Leaves(v, move) ==> w.orderQueue == [] && w.instantActionsQueue == [])
  }

  ghost predicate Follows(v: Vehicle, move: Move, o: Outcome) {
    StatusFollows(v, move, o.v) && o.log.signals == SignalsOf(v, move) && BufferFollows(v, move, o.v)
  }

  lemma ClientFollows(v: Vehicle, call: ClientCall)
    ensures Follows(v, Client(call), ClientStep(v, call))
  {
  }

  lemma StopFollows(v: Vehicle)
    ensures Follows(v, Life(StopAgv), AgvSpec.Stop(v))
  {
    StopProcessorFrame(v);
  }

  lemma RestartFollows(v: Vehicle)
    ensures Follows(v, Life(RestartAgv), Restart(v))
  {
    StopProcessorFrame(v);
  }

  lemma PauseFollows(v: Vehicle)
    ensures Follows(v, Life(PauseAgv), Pause(v))
  {
    StopProcessorFrame(v);
  }

  lemma SilenceFollows(v: Vehicle)
    ensures Follows(v, Life(SilenceNoticed), HeartbeatTimeout(v))
  {
  }

  lemma LifeFollows(v: Vehicle, event: LifeEvent)
    ensures Follows(v, Life(event), LifeStep(v, event))
  {
    match event
    case StopAgv => StopFollows(v);
    case RestartAgv => RestartFollows(v);
    case PauseAgv => PauseFollows(v);
    case SilenceNoticed => SilenceFollows(v);
    case ResumeAgv => assert Follows(v, Life(ResumeAgv), Resume(v));
    case ParentGone => assert Follows(v, Life(ParentGone), LoseParent(v));
  }

  lemma ConnectionFollows(v: Vehicle, status: ConnectionState, schemaOk: bool)
    ensures Follows(v, ConnectionMessage(status, schemaOk), HandleConnection(v, status, schemaOk))
  {
    if schemaOk && status == ONLINE {
      OnlineFollows(v);
    } else if schemaOk {
      OfflineFollows(v, status);
    }
  }

  lemma OnlineFollows(v: Vehicle)
    ensures Follows(v, ConnectionMessage(ONLINE, true), GoOnline(v))
  {
  }

  lemma OfflineFollows(v: Vehicle, status: ConnectionState)
    requires status != ONLINE
    ensures Follows(v, ConnectionMessage(status, true), HandleConnection(v, status, true))
  {
    var offline := GoOffline(v, status);
    StopProcessorFrame(WithConnection(v, status));
    var o := HandleConnection(v, status, true);
    OutboundFollows(offline.v);
    DisconnectionFollows(v, ConnectionMessage(status, true), o);
  }

  lemma OutboundFollows(v: Vehicle)
    ensures var o := DropOutbound(v);
            o.v == v.(orderQueue := [], instantActionsQueue := [], tracker := v.tracker.(pending := [])) && o.log.signals == []
  {
  }

  lemma DisconnectionFollows(v: Vehicle, move: Move, o: Outcome)
    requires Disconnects(move) && o.log.signals == [] && o.v.modeCancelledQueue == v.modeCancelledQueue
    requires o.v.operationalState == UNAVAILABLE && o.v.connectionStatus == move.status && o.v.lastState == v.lastState
    requires !o.v.heartbeatActive && !o.v.processorRunning && o.v.parentAlive == v.parentAlive
    ensures Follows(v, move, o)
  {
  }

  lemma TrackLeaves(v: Vehicle, seen: Observation)
    ensures var o := Track(v, seen);
            && o.log.signals == [] && o.v == v.(tracker := o.v.tracker, orderQueue := o.v.orderQueue)
            && OrdersOf(o.v.orderQueue) == OrdersOf(v.orderQueue) + seen.ready[..Room(v.maxQueueSize, |v.orderQueue|, |seen.ready|)]
  {
  }

  lemma StateFollows(v: Vehicle, msg: State, schemaOk: bool, now: int)
    ensures Follows(v, StateMessage(msg, schemaOk, now), HandleState(v, msg, schemaOk, now))
  {
    if schemaOk && !Stale(v.haveStateBaseline, v.lastStateHeaderId, msg) {
      TakenFollows(v, msg, now);
    } else {
      IgnoredFollows(v, StateMessage(msg, schemaOk, now), HandleState(v, msg, schemaOk, now));
    }
  }

  lemma IgnoredFollows(v: Vehicle, move: Move, o: Outcome)
    requires move.StateMessage? && !Received(v, move) && o.v == v && o.log.signals == []
    ensures Follows(v, move, o)
  {
  }

  lemma TakenFollows(v: Vehicle, msg: State, now: int)
    requires !Stale(v.haveStateBaseline, v.lastStateHeaderId, msg)
    ensures Follows(v, StateMessage(msg, true, now), TakeState(v, msg, now))
  {
    TrackLeaves(Cached(v, msg), Observed(v.tracker, msg));
    TrackedFollows(v, msg, now, Track(Cached(v, msg), Observed(v.tracker, msg)).v, TakeState(v, msg, now));
  }

  lemma TrackedFollows(v: Vehicle, msg: State, now: int, tracked: Vehicle, o: Outcome)
    requires !Stale(v.haveStateBaseline, v.lastStateHeaderId, msg)
    requires tracked == Cached(v, msg).(tracker := tracked.tracker, orderQueue := tracked.orderQueue)
    requires OrdersOf(tracked.orderQueue) == OrdersOf(v.orderQueue) + Fitting(v, msg)
    requires o.v == if LeavesControl(v.lastState, msg) then Capture(tracked, v.lastState.value.operatingMode, msg.operatingMode, now).v else tracked
    requires o.log.signals == if v.operationalState == STATE_UNKNOWN && v.parentAlive then [Resumed] else []
    ensures Follows(v, StateMessage(msg, true, now), o)
  {
  }

  lemma TurnFollows(v: Vehicle, move: Move, passes: bool)
    requires move.ProcessorTurn? && (passes ==> HeadRoute(v).Some?)
    ensures Follows(v, move, Turn(v, move.adapter, passes))
  {
    TurnFrame(v, move.adapter, passes);
    TurnsWork(v, move.adapter, passes);
    ProcessorFollows(v, move, Turn(v, move.adapter, passes));
  }

  lemma ProcessorFollows(v: Vehicle, move: Move, o: Outcome)
    requires move.ProcessorTurn? && o.log.signals == [] && ProcessorOnly(v, o.v) && o.v.processorRunning == v.processorRunning
    ensures Follows(v, move, o)
  {
  }

  /** Every step changes the status and the buffer, and signals, exactly so. */
  lemma StatusIsExact(v: Vehicle, move: Move)
    ensures StatusFollows(v, move, Step(v, move).v)
    ensures Step(v, move).log.signals == SignalsOf(v, move)
    ensures BufferFollows(v, move, Step(v, move).v)
  {
    match move
    case Client(call) => ClientFollows(v, call);
    case Life(event) => LifeFollows(v, event);
    case ConnectionMessage(status, schemaOk) => ConnectionFollows(v, status, schemaOk);
    case StateMessage(msg, schemaOk, now) => StateFollows(v, msg, schemaOk, now);
    case VisualizationMessage(headerId, schemaOk) =>
    case ProcessorTurn(adapter, layout, verdicts) => TurnFollows(v, move, HeadPasses(v, layout, verdicts));
  }

  /** The queues are captured exactly when a State that is kept takes the vehicle from a mode under master control to one
      that is not. */
  lemma CapturedIffLeaves(v: Vehicle, move: Move)
    ensures Captured in Step(v, move).log.orders <==> Leaves(v, move)
  {
    EventsAreExact(v, move);
    CaptureOccurs(v, move, Step(v, move).log.orders);
  }

  lemma CaptureOccurs(v: Vehicle, move: Move, events: seq<OrderEvent>)
    requires LogsExactly(v, move, events)
    ensures Captured in events <==> Leaves(v, move)
  {
    assert Captured in events <==> Occurs(v, move, Captured);
  }

  /** A restart forgets the active order and everything that waits or is parked or cached. */
  lemma RestartForgets(v: Vehicle)
    ensures var w := Step(v, Life(RestartAgv)).v;
            && w.orderQueue == [] && w.instantActionsQueue == [] && w.inFlight.None? && w.lastState.None?
            && w.modeCancelledQueue.orders == [] && w.modeCancelledQueue.instantActions == []
            && w.tracker.activeOrder.None? && w.tracker.pending == [] && !w.tracker.orderComplete && w.tracker.lastStateOrderId == ""
            && !w.haveStateBaseline && !w.tracker.haveStateBaseline && !w.haveVisualizationBaseline
  {
    StopProcessorFrame(v);
  }

  // ---- Runs ----

  /** How many steps of the run end a silence: the vehicle is unknown before and available after, with somebody to tell. */
  ghost function SilencesEnded(v: Vehicle, moves: seq<Move>): nat
    decreases |moves|
  {
    if moves == [] then 0
    else
      var init := moves[..|moves| - 1];
      SilencesEnded(v, init)
      + if Run(v, init).v.operationalState == STATE_UNKNOWN && Run(v, moves).v.operationalState == AVAILABLE && Run(v, init).v.parentAlive then 1
        else 0
  }

  function Count(signals: seq<Signal>, s: Signal): nat {
    if signals == [] then 0 else Count(signals[..|signals| - 1], s) + if signals[|signals| - 1] == s then 1 else 0
  }

  lemma CountMore(signals: seq<Signal>, more: seq<Signal>, s: Signal)
    requires |more| <= 1
    ensures Count(signals + more, s) == Count(signals, s) + if more != [] && more[0] == s then 1 else 0
  {
    if more == [] {
      assert signals + more == signals;
    } else {
      assert (signals + more)[..|signals|] == signals;
    }
  }

  /** In any run from any state, recovery is signalled once for each silence that ends. */
  lemma {:induction false} RecoveriesAreSignalled(v: Vehicle, moves: seq<Move>)
    ensures Count(Run(v, moves).log.signals, Resumed) == SilencesEnded(v, moves)
    decreases |moves|
  {
    if moves != [] {
      var init, last := moves[..|moves| - 1], moves[|moves| - 1];
      RecoveriesAreSignalled(v, init);
      StatusIsExact(Run(v, init).v, last);
      CountMore(Run(v, init).log.signals, SignalsOf(Run(v, init).v, last), Resumed);
    }
  }
}
