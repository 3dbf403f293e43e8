/** When the master gives up the order of a vehicle that reports other orders, over any run. */
module AgvLost {
  import opened Orders
  import opened MasterTypes
  import opened OrderLifecycle
  import opened OrderPublisher
  import opened AgvSpec
  import opened AgvEvents

  /** A State that reaches the order tracker: neither malformed nor stale at either gate. */
  ghost predicate Heeds(v: Vehicle, move: Move) {
    Hears(v, move) && !Stale(v.tracker.haveStateBaseline, v.tracker.lastStateHeaderId, move.msg)
  }

  /** The order ids of the States that reach the tracker in a run. */
  ghost function ReportedIds(v: Vehicle, moves: seq<Move>): seq<string>
    decreases |moves|
  {
    if moves == [] then []
    else
      var init, last := moves[..|moves| - 1], moves[|moves| - 1];
      ReportedIds(v, init) + if Heeds(Run(v, init).v, last) then [last.msg.orderId] else []
  }

  /** Of the published orders only updates of that order were recorded. */
  ghost predicate NothingBegun(events: seq<TrackEvent>, activeId: string) {
    forall e :: e in events ==> e.Published? || e.Abandoned? || (e.Extended? && e.route.orderId == activeId)
  }

  ghost predicate NoRestart(moves: seq<Move>) {
    Life(RestartAgv) !in moves
  }

  ghost predicate SameCount(t: Tracker, u: Tracker) {
    u.activeOrderId == t.activeOrderId && u.previousOrderId == t.previousOrderId && u.strikes == t.strikes
  }

  /** The step leaves the count alone. */
  ghost predicate Ignores(v: Vehicle, o: Outcome) {
    SameCount(v.tracker, o.v.tracker) && Abandoned !in o.log.tracking
  }

  /** The State is counted against the active order, which is given up exactly if that says so. */
  ghost predicate Counts(v: Vehicle, msg: State, o: Outcome) {
    var tick := TickOf(v.tracker, msg);
    && o.v.tracker.strikes == tick.strikes && (Abandoned in o.log.tracking <==> tick.cleared)
    && (!tick.cleared ==> o.v.tracker.activeOrderId == v.tracker.activeOrderId && o.v.tracker.previousOrderId == v.tracker.previousOrderId)
  }

  /** A State that is heeded counts, everything else does not. */
  ghost predicate Accounts(v: Vehicle, move: Move, o: Outcome) {
    if Heeds(v, move) then Counts(v, move.msg, o) else Ignores(v, o)
  }

  lemma NotCounted(v: Vehicle, move: Move, o: Outcome)
    requires !move.StateMessage? && Ignores(v, o)
    ensures Accounts(v, move, o)
  {
  }

  lemma LandIgnores(v: Vehicle)
    requires NothingBegun(Land(v).log.tracking, v.tracker.activeOrderId)
    ensures Ignores(v, Land(v))
  {
    if v.inFlight.Some? {
      var e := Landed(v.tracker, v.inFlight.value);
      assert e in Land(v).log.tracking;
    }
  }

  lemma LifeIgnores(v: Vehicle, event: LifeEvent)
    requires event != RestartAgv && NothingBegun(LifeStep(v, event).log.tracking, v.tracker.activeOrderId)
    ensures Ignores(v, LifeStep(v, event))
  {
    if event == StopAgv || event == PauseAgv {
      assert LifeStep(v, event).log.tracking == Land(v).log.tracking;
      LandIgnores(v);
    }
  }

  lemma ConnectionIgnores(v: Vehicle, status: ConnectionState, schemaOk: bool)
    requires NothingBegun(HandleConnection(v, status, schemaOk).log.tracking, v.tracker.activeOrderId)
    ensures Ignores(v, HandleConnection(v, status, schemaOk))
  {
    if schemaOk && status != ONLINE {
      assert HandleConnection(v, status, schemaOk).log.tracking == Land(WithConnection(v, status)).log.tracking;
      LandIgnores(WithConnection(v, status));
    }
  }

  lemma TurnIgnores(v: Vehicle, adapter: bool, passes: bool)
    requires (passes ==> HeadRoute(v).Some?) && NothingBegun(Turn(v, adapter, passes).log.tracking, v.tracker.activeOrderId)
    ensures Ignores(v, Turn(v, adapter, passes))
  {
    if v.inFlight.Some? {
      LandIgnores(v);
    } else if v.processorRunning && v.instantActionsQueue == [] && v.orderQueue != [] {
      NextOrderIgnores(v, adapter, passes);
    }
  }

  lemma NextOrderIgnores(v: Vehicle, adapter: bool, passes: bool)
    requires v.orderQueue != [] && (passes ==> HeadRoute(v).Some?)
    ensures Ignores(v, NextOrder(v, adapter, passes))
  {
    var disposed := Disposed(Popped(v), v.orderQueue[0], adapter, passes);
    DisposedIgnores(Popped(v), v.orderQueue[0], adapter, passes);
    assert NextOrder(v, adapter, passes).log.tracking == disposed.log.tracking;
  }

  lemma DisposedIgnores(v: Vehicle, queued: QueuedOrder, adapter: bool, passes: bool)
    requires passes ==> RouteOf(ContextOf(v), queued.order, ActiveOf(v.tracker)).Some?
    ensures Ignores(v, Disposed(v, queued, adapter, passes))
  {
  }

  lemma TrackCounts(v: Vehicle, seen: Observation)
    ensures var o := Track(v, seen);
            SameCount(seen.tracker, o.v.tracker) && o.log.tracking == if seen.cleared then [Abandoned] else []
  {
  }

  lemma TakenCounts(v: Vehicle, msg: State, now: int)
    ensures var seen, o := Observed(v.tracker, msg), TakeState(v, msg, now);
            SameCount(seen.tracker, o.v.tracker) && o.log.tracking == if seen.cleared then [Abandoned] else []
  {
    TrackCounts(Cached(v, msg), Observed(v.tracker, msg));
  }

  lemma ObservedCounts(t: Tracker, msg: State)
    ensures var seen := Observed(t, msg);
            if Stale(t.haveStateBaseline, t.lastStateHeaderId, msg) then seen.tracker == t && !seen.cleared
            else
              && seen.tracker.strikes == TickOf(t, msg).strikes && seen.cleared == TickOf(t, msg).cleared
              && (!seen.cleared ==> seen.tracker.activeOrderId == t.activeOrderId && seen.tracker.previousOrderId == t.previousOrderId)
  {
  }

  lemma StateAccounts(v: Vehicle, msg: State, schemaOk: bool, now: int)
    ensures Accounts(v, StateMessage(msg, schemaOk, now), HandleState(v, msg, schemaOk, now))
  {
    if schemaOk && !Stale(v.haveStateBaseline, v.lastStateHeaderId, msg) {
      TakenCounts(v, msg, now);
      ObservedCounts(v.tracker, msg);
    }
  }

  lemma ClientIgnores(v: Vehicle, call: ClientCall)
    ensures Ignores(v, ClientStep(v, call))
  {
  }

  lemma VisualizationIgnores(v: Vehicle, headerId: uint32, schemaOk: bool)
    ensures Ignores(v, HandleVisualization(v, headerId, schemaOk))
  {
  }

  lemma SilentStepIgnores(v: Vehicle, move: Move)
    requires !move.StateMessage?
    requires move != Life(RestartAgv) && NothingBegun(Step(v, move).log.tracking, v.tracker.activeOrderId)
    ensures Ignores(v, Step(v, move))
  {
    match move
    case Client(call) => ClientIgnores(v, call);
    case Life(event) => LifeIgnores(v, event);
    case ConnectionMessage(status, schemaOk) => ConnectionIgnores(v, status, schemaOk);
    case VisualizationMessage(headerId, schemaOk) => VisualizationIgnores(v, headerId, schemaOk);
    case ProcessorTurn(adapter, layout, verdicts) => TurnIgnores(v, adapter, HeadPasses(v, layout, verdicts));
  }

  lemma StepAccounts(v: Vehicle, move: Move)
    requires move != Life(RestartAgv) && NothingBegun(Step(v, move).log.tracking, v.tracker.activeOrderId)
    ensures Accounts(v, move, Step(v, move))
  {
    if move.StateMessage? {
      StateAccounts(v, move.msg, move.schemaOk, move.now);
    } else {
      SilentStepIgnores(v, move);
      NotCounted(v, move, Step(v, move));
    }
  }

  /** How the count stands after a run in which no order was begun. */
  ghost predicate Counted(t: Tracker, ids: seq<string>, o: Outcome) {
    if Clears(t.strikes, t.activeOrderId, t.previousOrderId, ids) then Abandoned in o.log.tracking
    else
      && Abandoned !in o.log.tracking
      && o.v.tracker.activeOrderId == t.activeOrderId && o.v.tracker.previousOrderId == t.previousOrderId
      && o.v.tracker.strikes == StrikesAfter(t.strikes, t.activeOrderId, t.previousOrderId, ids)
  }

  lemma OneMoreCounted(t: Tracker, ids: seq<string>, before: Outcome, move: Move, more: seq<string>)
    requires Counted(t, ids, before) && move != Life(RestartAgv)
    requires NothingBegun(Step(before.v, move).log.tracking, t.activeOrderId)
    requires more == if Heeds(before.v, move) then [move.msg.orderId] else []
    ensures Counted(t, ids + more, Then(before.log, Step(before.v, move)))
  {
    if Heeds(before.v, move) {
      OneMoreState(t.strikes, t.activeOrderId, t.previousOrderId, ids, move.msg.orderId);
    } else {
      assert ids + more == ids;
    }
    if !Clears(t.strikes, t.activeOrderId, t.previousOrderId, ids) {
      StepAccounts(before.v, move);
    }
  }

  lemma {:induction false} RunCounts(v: Vehicle, moves: seq<Move>)
    requires NoRestart(moves) && NothingBegun(Run(v, moves).log.tracking, v.tracker.activeOrderId)
    ensures Counted(v.tracker, ReportedIds(v, moves), Run(v, moves))
    decreases |moves|
  {
    if moves != [] {
      var init, last := moves[..|moves| - 1], moves[|moves| - 1];
      var before := Run(v, init);
      assert forall e :: e in before.log.tracking || e in Step(before.v, last).log.tracking ==> e in Run(v, moves).log.tracking;
      RunCounts(v, init);
      OneMoreCounted(v.tracker, ReportedIds(v, init), before, last, if Heeds(before.v, last) then [last.msg.orderId] else []);
    }
  }

  /** Over any run without a restart in which no other order is begun, the active order is given up
      exactly if the ids of the States that reach the tracker say so, whatever else happens in between: from a fresh count,
      if at some point the States of a third order since the last one of the active order, and those of the previous
      order beyond the first five, are three together. */
  lemma GivenUpIffCleared(v: Vehicle, moves: seq<Move>)
    requires NoRestart(moves) && NothingBegun(Run(v, moves).log.tracking, v.tracker.activeOrderId)
    ensures Abandoned in Run(v, moves).log.tracking <==>
            Clears(v.tracker.strikes, v.tracker.activeOrderId, v.tracker.previousOrderId, ReportedIds(v, moves))
    ensures v.tracker.activeOrderId != "" && v.tracker.strikes == Strikes(0, 0) ==>
              var ids := ReportedIds(v, moves);
              Abandoned in Run(v, moves).log.tracking <==>
              exists n :: 0 <= n <= |ids| && Complaints(ids[..n], v.tracker.activeOrderId, v.tracker.previousOrderId) >= 3
  {
    RunCounts(v, moves);
    if v.tracker.activeOrderId != "" {
      ClearsIffThreeComplaints(v.tracker.activeOrderId, v.tracker.previousOrderId, ReportedIds(v, moves));
    }
  }

  /** The vehicle reports orders, but never the active one. */
  ghost predicate AllForeign(ids: seq<string>, activeId: string) {
    forall i :: 0 <= i < |ids| ==> ids[i] != "" && ids[i] != activeId
  }

  /** A vehicle that reports other orders in all States that reach the tracker has its order given up within eight of them,
      in whatever state the run begins and whatever else happens in it. */
  lemma LostOrderIsGivenUp(v: Vehicle, moves: seq<Move>)
    requires NoRestart(moves) && NothingBegun(Run(v, moves).log.tracking, v.tracker.activeOrderId)
    requires v.tracker.activeOrderId != "" && 8 <= |ReportedIds(v, moves)| && AllForeign(ReportedIds(v, moves), v.tracker.activeOrderId)
    ensures Abandoned in Run(v, moves).log.tracking
  {
    GivenUpIffCleared(v, moves);
    LostVehicleIsCleared(v.tracker.strikes, v.tracker.activeOrderId, v.tracker.previousOrderId, ReportedIds(v, moves));
  }

  /** From a fresh count it takes at least three States, and a foreign id among them. */
  lemma GivingUpNeedsThree(v: Vehicle, moves: seq<Move>)
    requires NoRestart(moves) && NothingBegun(Run(v, moves).log.tracking, v.tracker.activeOrderId)
    requires v.tracker.strikes.mismatch == 0 && Abandoned in Run(v, moves).log.tracking
    ensures MISMATCH_THRESHOLD <= |ReportedIds(v, moves)|
    ensures exists i :: 0 <= i < |ReportedIds(v, moves)| && ReportedIds(v, moves)[i] != "" && ReportedIds(v, moves)[i] != v.tracker.activeOrderId
  {
    GivenUpIffCleared(v, moves);
    ClearingNeedsThree(v.tracker.strikes, v.tracker.activeOrderId, v.tracker.previousOrderId, ReportedIds(v, moves));
  }

  /** So a vehicle that lags behind a handover keeps its order: as long as it reports only the active order, the previous
      one or none, and the previous one at most seven times. */
  lemma LaggingOrderIsKept(v: Vehicle, moves: seq<Move>)
    requires NoRestart(moves) && NothingBegun(Run(v, moves).log.tracking, v.tracker.activeOrderId)
    requires v.tracker.activeOrderId != "" && v.tracker.previousOrderId != "" && v.tracker.strikes == Strikes(0, 0)
    requires var ids := ReportedIds(v, moves);
             && (forall i :: 0 <= i < |ids| ==> ids[i] in {"", v.tracker.activeOrderId, v.tracker.previousOrderId})
             && Times(ids, v.tracker.previousOrderId) <= 7
    ensures Abandoned !in Run(v, moves).log.tracking
  {
    GivenUpIffCleared(v, moves);
    HandoverIsGraced(v.tracker.activeOrderId, v.tracker.previousOrderId, ReportedIds(v, moves));
  }
}
