/** What the gates for stale messages and the reports of silence keep to, over any run of one vehicle. */
module AgvLaws {
  import opened Orders
  import opened MasterTypes
  import opened OrderLifecycle
  import opened AgvSpec

  // ---- Reports of silence ----

  /** Between two reports of recovery the vehicle was reported silent, or was stopped. */
  ghost predicate Alternates(signals: seq<Signal>) {
    forall i, j :: 0 <= i < j < |signals| && signals[i] == Resumed && signals[j] == Resumed ==>
      exists m :: i < m < j && signals[m] != Resumed
  }

  /** While the vehicle is silent and somebody listens, the last report was not a recovery. */
  ghost predicate Expectant(v: Vehicle, signals: seq<Signal>) {
    v.operationalState == STATE_UNKNOWN && v.parentAlive ==> signals == [] || signals[|signals| - 1] != Resumed
  }

  lemma AlternatesStep(signals: seq<Signal>, next: Signal)
    requires Alternates(signals)
    requires next == Resumed ==> signals == [] || signals[|signals| - 1] != Resumed
    ensures Alternates(signals + [next])
  {
    var all := signals + [next];
    forall i, j | 0 <= i < j < |all| && all[i] == Resumed && all[j] == Resumed
      ensures exists m :: i < m < j && all[m] != Resumed
    {
      if j < |signals| {
        var m :| i < m < j && signals[m] != Resumed;
        assert all[m] != Resumed;
      } else {
        assert all[j - 1] != Resumed;
      }
    }
  }

  /** What one step may report: nothing and no new silence; a silence or a stop; or a recovery that ends a silence. */
  ghost predicate Reports(v: Vehicle, o: Outcome) {
    || (o.log.signals == [] && (Silent(o.v) ==> Silent(v)))
    || o.log.signals == [Timeout]
    || o.log.signals == [Stopped]
    || (o.log.signals == [Resumed] && Silent(v) && !Silent(o.v))
  }

  /** The vehicle is silent, and there is somebody to tell. */
  ghost predicate Silent(v: Vehicle) {
    v.operationalState == STATE_UNKNOWN && v.parentAlive
  }

  lemma LifeReports(v: Vehicle, event: LifeEvent)
    ensures Reports(v, LifeStep(v, event))
  {
    StopProcessorFrame(v);
    match event
    case StopAgv =>
    case RestartAgv =>
    case PauseAgv =>
    case _ =>
  }

  lemma ConnectionReports(v: Vehicle, status: ConnectionState, schemaOk: bool)
    ensures Reports(v, HandleConnection(v, status, schemaOk))
  {
    StopProcessorFrame(WithConnection(v, status));
  }

  lemma TrackReportsNothing(v: Vehicle, seen: Observation)
    ensures var o := Track(v, seen);
            o.log.signals == [] && o.v.operationalState == v.operationalState && o.v.parentAlive == v.parentAlive
  {
  }

  lemma StateReports(v: Vehicle, msg: State, schemaOk: bool, now: int)
    ensures Reports(v, HandleState(v, msg, schemaOk, now))
  {
    TrackReportsNothing(Cached(v, msg), Observed(v.tracker, msg));
  }

  lemma TurnReports(v: Vehicle, adapter: bool, passes: bool)
    requires passes ==> HeadRoute(v).Some?
    ensures Reports(v, Turn(v, adapter, passes))
  {
    TurnFrame(v, adapter, passes);
  }

  lemma ClientReports(v: Vehicle, call: ClientCall)
    ensures Reports(v, ClientStep(v, call))
  {
  }

  lemma StepReports(v: Vehicle, move: Move)
    ensures Reports(v, Step(v, move))
  {
    match move
    case Client(call) => ClientReports(v, call);
    case Life(event) => LifeReports(v, event);
    case ConnectionMessage(status, schemaOk) => ConnectionReports(v, status, schemaOk);
    case StateMessage(msg, schemaOk, now) => StateReports(v, msg, schemaOk, now);
    case VisualizationMessage(headerId, schemaOk) =>
    case ProcessorTurn(adapter, layout, verdicts) => TurnReports(v, adapter, HeadPasses(v, layout, verdicts));
  }

  lemma {:induction false} SignalsAlternate(v: Vehicle, moves: seq<Move>)
    ensures Alternates(Run(v, moves).log.signals) && Expectant(Run(v, moves).v, Run(v, moves).log.signals)
    decreases |moves|
  {
    if moves != [] {
      var before := Run(v, moves[..|moves| - 1]);
      var step := Step(before.v, moves[|moves| - 1]);
      SignalsAlternate(v, moves[..|moves| - 1]);
      StepReports(before.v, moves[|moves| - 1]);
      SignalsGrow(before, step);
    }
  }

  lemma SignalsGrow(before: Outcome, step: Outcome)
    requires Alternates(before.log.signals) && Expectant(before.v, before.log.signals) && Reports(before.v, step)
    ensures var all := before.log.signals + step.log.signals; Alternates(all) && Expectant(step.v, all)
  {
    if step.log.signals == [] {
      assert before.log.signals + [] == before.log.signals;
    } else {
      AlternatesStep(before.log.signals, step.log.signals[0]);
    }
  }

  /** In any run from any state, two reports of recovery are separated by a report of silence or a stop. */
  lemma RecoveriesAreSeparated(v: Vehicle, moves: seq<Move>, i: nat, j: nat)
    requires i < j < |Run(v, moves).log.signals|
    requires Run(v, moves).log.signals[i] == Resumed && Run(v, moves).log.signals[j] == Resumed
    ensures exists m :: i < m < j && Run(v, moves).log.signals[m] in {Timeout, Stopped}
  {
    SignalsAlternate(v, moves);
    var signals := Run(v, moves).log.signals;
    var m :| i < m < j && signals[m] != Resumed;
    assert signals[m] in {Timeout, Stopped};
  }

  // ---- The gates that drop stale messages ----

  /** Header ids of the schema-valid States since the gates were last opened. */
  function StatesSeen(events: seq<GateEvent>): seq<uint32> {
    if events == [] then []
    else
      match events[|events| - 1]
      case Opened => []
      case StateSeen(id) => StatesSeen(events[..|events| - 1]) + [id]
      case VisualizationSeen(_) => StatesSeen(events[..|events| - 1])
  }

  function VisualizationsSeen(events: seq<GateEvent>): seq<uint32> {
    if events == [] then []
    else
      match events[|events| - 1]
      case Opened => []
      case StateSeen(_) => VisualizationsSeen(events[..|events| - 1])
      case VisualizationSeen(id) => VisualizationsSeen(events[..|events| - 1]) + [id]
  }

  /** `last` is the largest of the ids. */
  ghost predicate Newest(last: uint32, ids: seq<uint32>) {
    last in ids && forall id :: id in ids ==> id <= last
  }

  /** A gate that is shut holds the largest id seen since it was opened. */
  ghost predicate Gate(shut: bool, last: uint32, seen: seq<uint32>) {
    (shut <==> seen != []) && (shut ==> Newest(last, seen))
  }

  /** The cached State is the newest since the gate opened, and the order tracker's own gate agrees. */
  ghost predicate StateGate(v: Vehicle, seen: seq<uint32>) {
    && Gate(v.haveStateBaseline, v.lastStateHeaderId, seen)
    && (v.haveStateBaseline ==> v.lastState.Some? && v.lastState.value.headerId == v.lastStateHeaderId)
    && v.tracker.haveStateBaseline == v.haveStateBaseline
    && (v.haveStateBaseline ==> v.tracker.lastStateHeaderId == v.lastStateHeaderId)
  }

  ghost predicate GatesKeep(v: Vehicle, events: seq<GateEvent>) {
    StateGate(v, StatesSeen(events)) && Gate(v.haveVisualizationBaseline, v.lastVisualizationHeaderId, VisualizationsSeen(events))
  }

  /** The same gates with the same contents. */
  ghost predicate SameGates(v: Vehicle, w: Vehicle) {
    && w.haveStateBaseline == v.haveStateBaseline && w.lastStateHeaderId == v.lastStateHeaderId && w.lastState == v.lastState
    && w.haveVisualizationBaseline == v.haveVisualizationBaseline && w.lastVisualizationHeaderId == v.lastVisualizationHeaderId
    && w.tracker.haveStateBaseline == v.tracker.haveStateBaseline && w.tracker.lastStateHeaderId == v.tracker.lastStateHeaderId
  }

  ghost predicate AllOpen(v: Vehicle) {
    !v.haveStateBaseline && !v.haveVisualizationBaseline && !v.tracker.haveStateBaseline
  }

  lemma SeenMore(events: seq<GateEvent>, e: GateEvent)
    ensures StatesSeen(events + [e]) ==
            if e.Opened? then [] else StatesSeen(events) + if e.StateSeen? then [e.headerId] else []
    ensures VisualizationsSeen(events + [e]) ==
            if e.Opened? then [] else VisualizationsSeen(events) + if e.VisualizationSeen? then [e.headerId] else []
  {
    assert (events + [e])[..|events|] == events;
  }

  /** What one step does to the gates. */
  ghost predicate GateStep(v: Vehicle, o: Outcome) {
    || (o.log.gates == [] && SameGates(v, o.v))
    || (o.log.gates == [Opened] && AllOpen(o.v))
    || (|o.log.gates| == 1 && o.log.gates[0].StateSeen? && StateArrives(v, o.log.gates[0].headerId, o.v))
    || (|o.log.gates| == 1 && o.log.gates[0].VisualizationSeen? && VisualizationArrives(v, o.log.gates[0].headerId, o.v))
  }

  /** An older State leaves everything, any other is cached and shuts both gates for older ones;
      the tracker takes it exactly if its own gate lets it through. */
  ghost predicate StateArrives(v: Vehicle, id: uint32, w: Vehicle) {
    && w.haveVisualizationBaseline == v.haveVisualizationBaseline && w.lastVisualizationHeaderId == v.lastVisualizationHeaderId
    && if v.haveStateBaseline && id < v.lastStateHeaderId then SameGates(v, w)
       else
         && w.haveStateBaseline && w.lastStateHeaderId == id && w.lastState.Some? && w.lastState.value.headerId == id
         && w.tracker.haveStateBaseline
         && w.tracker.lastStateHeaderId ==
            if v.tracker.haveStateBaseline && id < v.tracker.lastStateHeaderId then v.tracker.lastStateHeaderId else id
  }

  ghost predicate VisualizationArrives(v: Vehicle, id: uint32, w: Vehicle) {
    && w.haveStateBaseline == v.haveStateBaseline && w.lastStateHeaderId == v.lastStateHeaderId && w.lastState == v.lastState
    && w.tracker == v.tracker
    && w.haveVisualizationBaseline
    && w.lastVisualizationHeaderId ==
       if v.haveVisualizationBaseline && id < v.lastVisualizationHeaderId then v.lastVisualizationHeaderId else id
  }

  lemma RestartOpens(v: Vehicle)
    ensures Restart(v).log.gates == [Opened] && AllOpen(Restart(v).v)
  {
    StopProcessorFrame(v);
    assert [] + ([Opened] + []) == [Opened];
  }

  lemma StopKeepsGates(v: Vehicle)
    ensures AgvSpec.Stop(v).log.gates == [] && SameGates(v, AgvSpec.Stop(v).v)
  {
    StopProcessorFrame(v);
  }

  lemma LifeGates(v: Vehicle, event: LifeEvent)
    ensures GateStep(v, LifeStep(v, event))
  {
    match event
    case StopAgv => StopKeepsGates(v);
    case RestartAgv => RestartOpens(v);
    case PauseAgv => StopProcessorFrame(v);
    case _ =>
  }

  lemma ConnectionGates(v: Vehicle, status: ConnectionState, schemaOk: bool)
    ensures GateStep(v, HandleConnection(v, status, schemaOk))
  {
    if schemaOk && status == ONLINE {
      OnlineGates(v);
    } else if schemaOk {
      OfflineKeepsGates(v, status);
      if status == CONNECTIONBROKEN {
        DropKeepsGates(GoOffline(v, status).v);
      }
    }
  }

  lemma OnlineGates(v: Vehicle)
    ensures GateStep(v, GoOnline(v))
  {
  }

  lemma OfflineKeepsGates(v: Vehicle, status: ConnectionState)
    requires status != ONLINE
    ensures SameGates(v, GoOffline(v, status).v) && GoOffline(v, status).log.gates == []
  {
    StopProcessorFrame(WithConnection(v, status));
  }

  lemma DropKeepsGates(v: Vehicle)
    ensures SameGates(v, DropOutbound(v).v) && DropOutbound(v).log.gates == []
  {
  }

  lemma TrackGates(v: Vehicle, seen: Observation)
    ensures var o := Track(v, seen);
            && o.log.gates == [] && o.v.lastState == v.lastState
            && o.v.haveStateBaseline == v.haveStateBaseline && o.v.lastStateHeaderId == v.lastStateHeaderId
            && o.v.haveVisualizationBaseline == v.haveVisualizationBaseline && o.v.lastVisualizationHeaderId == v.lastVisualizationHeaderId
            && o.v.tracker.haveStateBaseline == seen.tracker.haveStateBaseline
            && o.v.tracker.lastStateHeaderId == seen.tracker.lastStateHeaderId
  {
  }

  lemma ObservedGate(t: Tracker, msg: State)
    ensures Observed(t, msg).tracker.haveStateBaseline
    ensures Observed(t, msg).tracker.lastStateHeaderId ==
            if t.haveStateBaseline && msg.headerId < t.lastStateHeaderId then t.lastStateHeaderId else msg.headerId
  {
  }

  lemma StateGates(v: Vehicle, msg: State, now: int)
    requires !Stale(v.haveStateBaseline, v.lastStateHeaderId, msg)
    ensures StateArrives(v, msg.headerId, TakeState(v, msg, now).v) && TakeState(v, msg, now).log.gates == []
  {
    TrackGates(Cached(v, msg), Observed(v.tracker, msg));
    ObservedGate(v.tracker, msg);
  }

  lemma MessageGates(v: Vehicle, move: Move)
    requires move.StateMessage? || move.VisualizationMessage?
    ensures GateStep(v, Step(v, move))
  {
    if move.StateMessage? && !Stale(v.haveStateBaseline, v.lastStateHeaderId, move.msg) {
      StateGates(v, move.msg, move.now);
    }
  }

  lemma ClientGates(v: Vehicle, call: ClientCall)
    ensures GateStep(v, ClientStep(v, call))
  {
  }

  lemma TurnGates(v: Vehicle, adapter: bool, passes: bool)
    requires passes ==> HeadRoute(v).Some?
    ensures GateStep(v, Turn(v, adapter, passes))
  {
    TurnFrame(v, adapter, passes);
  }

  lemma StepGates(v: Vehicle, move: Move)
    ensures GateStep(v, Step(v, move))
  {
    match move
    case Client(call) => ClientGates(v, call);
    case Life(event) => LifeGates(v, event);
    case ConnectionMessage(status, schemaOk) => ConnectionGates(v, status, schemaOk);
    case StateMessage(msg, schemaOk, now) => MessageGates(v, move);
    case VisualizationMessage(headerId, schemaOk) => MessageGates(v, move);
    case ProcessorTurn(adapter, layout, verdicts) => TurnGates(v, adapter, HeadPasses(v, layout, verdicts));
  }

  lemma GateShuts(shut: bool, last: uint32, seen: seq<uint32>, id: uint32)
    requires Gate(shut, last, seen)
    ensures Gate(true, if shut && id < last then last else id, seen + [id])
  {
  }

  lemma GatesGrow(before: Outcome, step: Outcome)
    requires GatesKeep(before.v, before.log.gates) && GateStep(before.v, step)
    ensures GatesKeep(step.v, before.log.gates + step.log.gates)
  {
    if step.log.gates == [] {
      assert before.log.gates + [] == before.log.gates;
    } else {
      var e := step.log.gates[0];
      assert step.log.gates == [e];
      SeenMore(before.log.gates, e);
      if e.StateSeen? {
        GateShuts(before.v.haveStateBaseline, before.v.lastStateHeaderId, StatesSeen(before.log.gates), e.headerId);
      } else if e.VisualizationSeen? {
        GateShuts(before.v.haveVisualizationBaseline, before.v.lastVisualizationHeaderId, VisualizationsSeen(before.log.gates), e.headerId);
      }
    }
  }

  lemma {:induction false} GatesAreKept(v: Vehicle, moves: seq<Move>)
    requires AllOpen(v)
    ensures GatesKeep(Run(v, moves).v, Run(v, moves).log.gates)
    decreases |moves|
  {
    if moves != [] {
      var before := Run(v, moves[..|moves| - 1]);
      GatesAreKept(v, moves[..|moves| - 1]);
      StepGates(before.v, moves[|moves| - 1]);
      GatesGrow(before, Step(before.v, moves[|moves| - 1]));
    }
  }

  /** After any run from open gates, the cached State is the newest of all schema-valid States since the last
      reconnect or restart, and the order tracker has seen the same one last. */
  lemma CachedStateIsNewest(v: Vehicle, moves: seq<Move>)
    requires AllOpen(v) && StatesSeen(Run(v, moves).log.gates) != []
    ensures var run := Run(v, moves);
            var seen := StatesSeen(run.log.gates);
            && run.v.lastState.Some? && run.v.lastState.value.headerId in seen
            && (forall id :: id in seen ==> id <= run.v.lastState.value.headerId)
            && run.v.tracker.haveStateBaseline && run.v.tracker.lastStateHeaderId == run.v.lastState.value.headerId
  {
    GatesAreKept(v, moves);
  }
}
