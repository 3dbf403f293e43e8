/** When the active order is complete, and what that keeps other orders from, over any run of a new vehicle. */
module AgvCompletion {
  import opened Common
  import opened Orders
  import opened MasterTypes
  import opened OrderLifecycle
  import opened OrderPublisher
  import opened AgvSpec
  import opened AgvEvents
  import opened AgvSending
  import opened AgvTracking

  // ---- One step ----

  /** A State that is well-formed, and older than no other to the vehicle and to the tracker, says that the vehicle has
      the last update of the active order and stands at its end with nothing left to do. */
  ghost predicate ReportsEnd(v: Vehicle, move: Move) {
    && move.StateMessage? && move.schemaOk
    && !(v.haveStateBaseline && move.msg.headerId < v.lastStateHeaderId)
    && !(v.tracker.haveStateBaseline && move.msg.headerId < v.tracker.lastStateHeaderId)
    && v.tracker.activeOrder.Some?
    && move.msg.orderId == v.tracker.activeOrder.value.orderId && move.msg.orderUpdateId == v.tracker.activeOrder.value.orderUpdateId
    && StandsAtEnd(v.tracker.activeOrder.value, move.msg)
  }

  /** Nothing is recorded and nothing given up. */
  ghost predicate OnlyPublishes(events: seq<TrackEvent>) {
    forall e :: e in events ==> e.Published?
  }

  /** The active order becomes complete when its end is reported, and is so until an order is recorded or given up. */
  ghost predicate Completes(v: Vehicle, move: Move, o: Outcome) {
    o.v.tracker.orderComplete <==> OnlyPublishes(o.log.tracking) && (v.tracker.orderComplete || ReportsEnd(v, move))
  }

  ghost predicate SameCompletion(v: Vehicle, o: Outcome) {
    o.v.tracker.orderComplete == v.tracker.orderComplete && OnlyPublishes(o.log.tracking)
  }

  lemma ClientCompletes(v: Vehicle, call: ClientCall)
    ensures SameCompletion(v, ClientStep(v, call))
  {
  }

  /** Whatever is recorded is not complete yet. */
  lemma LandReopens(v: Vehicle)
    requires Consistent(v.tracker) && (v.inFlight.Some? ==> Airworthy(v.tracker, v.inFlight.value))
    ensures var o := Land(v);
            o.v.tracker.orderComplete == (v.inFlight.None? && v.tracker.orderComplete)
            && (OnlyPublishes(o.log.tracking) <==> v.inFlight.None?)
  {
    if v.inFlight.Some? {
      RecordingReopens(v.tracker, v.inFlight.value);
      assert Landed(v.tracker, v.inFlight.value) in Land(v).log.tracking;
    }
  }

  lemma RecordingReopens(t: Tracker, f: Flight)
    requires Consistent(t) && Airworthy(t, f)
    ensures !Recorded(t, f.order, f.merged).orderComplete && !Landed(t, f).Published?
  {
    LandingIs(t, f);
  }

  ghost predicate CompletesAsLanded(v: Vehicle, o: Outcome) {
    o.v.tracker.orderComplete == Land(v).v.tracker.orderComplete && o.log.tracking == Land(v).log.tracking
  }

  lemma LandingCompletes(v: Vehicle, move: Move, o: Outcome)
    requires Consistent(v.tracker) && (v.inFlight.Some? ==> Airworthy(v.tracker, v.inFlight.value))
    requires !move.StateMessage? && (SameCompletion(v, o) || CompletesAsLanded(v, o))
    ensures Completes(v, move, o)
  {
    LandReopens(v);
  }

  lemma StopLandsFlight(v: Vehicle)
    ensures CompletesAsLanded(v, AgvSpec.Stop(v))
  {
  }

  lemma RestartForgetsCompletion(v: Vehicle)
    ensures !Restart(v).v.tracker.orderComplete && Abandoned in Restart(v).log.tracking
  {
    assert Abandoned in ForgetAll(AgvSpec.Stop(v).v).log.tracking;
  }

  lemma LifeCompletes(v: Vehicle, event: LifeEvent)
    ensures var o := LifeStep(v, event);
            if event == RestartAgv then !o.v.tracker.orderComplete && Abandoned in o.log.tracking
            else SameCompletion(v, o) || CompletesAsLanded(v, o)
  {
    match event
    case StopAgv => StopLandsFlight(v);
    case RestartAgv => RestartForgetsCompletion(v);
    case _ =>
  }

  lemma ConnectionCompletes(v: Vehicle, status: ConnectionState, schemaOk: bool)
    ensures var o := HandleConnection(v, status, schemaOk); SameCompletion(v, o) || CompletesAsLanded(v, o)
  {
    if schemaOk && status != ONLINE {
      AgvTracking.LandingIgnores(v, WithConnection(v, status));
    }
  }

  lemma DisposedCompletes(v: Vehicle, queued: QueuedOrder, adapter: bool, passes: bool)
    requires passes ==> RouteOf(ContextOf(v), queued.order, ActiveOf(v.tracker)).Some?
    ensures SameCompletion(v, Disposed(v, queued, adapter, passes))
  {
  }

  lemma NextOrderCompletes(v: Vehicle, adapter: bool, passes: bool)
    requires v.orderQueue != [] && (passes ==> HeadRoute(v).Some?)
    ensures SameCompletion(v, NextOrder(v, adapter, passes))
  {
    var disposed := Disposed(Popped(v), v.orderQueue[0], adapter, passes);
    DisposedCompletes(Popped(v), v.orderQueue[0], adapter, passes);
    assert NextOrder(v, adapter, passes).log.tracking == disposed.log.tracking;
  }

  lemma TurnCompletes(v: Vehicle, adapter: bool, passes: bool)
    requires passes ==> HeadRoute(v).Some?
    ensures var o := Turn(v, adapter, passes); SameCompletion(v, o) || CompletesAsLanded(v, o)
  {
    if v.inFlight.None? && v.processorRunning && v.instantActionsQueue == [] && v.orderQueue != [] {
      NextOrderCompletes(v, adapter, passes);
    }
  }

  lemma ObservedCompletes(t: Tracker, msg: State)
    requires Consistent(t)
    ensures var seen := Observed(t, msg);
            seen.tracker.orderComplete <==>
              !seen.cleared && (t.orderComplete
                || (!(t.haveStateBaseline && msg.headerId < t.lastStateHeaderId) && t.activeOrder.Some?
                    && msg.orderId == t.activeOrderId && msg.orderUpdateId == t.activeOrderUpdateId && StandsAtEnd(t.activeOrder.value, msg)))
  {
    CompletionIsEnd(t, msg);
  }

  lemma TakenCompletes(v: Vehicle, msg: State, now: int)
    ensures var seen, o := Observed(v.tracker, msg), TakeState(v, msg, now);
            o.v.tracker.orderComplete == seen.tracker.orderComplete && o.log.tracking == if seen.cleared then [Abandoned] else []
  {
  }

  lemma StateReportsEnd(v: Vehicle, move: Move, o: Outcome, cleared: bool)
    requires Consistent(v.tracker) && Hears(v, move) && o.log.tracking == if cleared then [Abandoned] else []
    requires o.v.tracker.orderComplete <==>
             !cleared && (v.tracker.orderComplete
               || (!(v.tracker.haveStateBaseline && move.msg.headerId < v.tracker.lastStateHeaderId) && v.tracker.activeOrder.Some?
                   && move.msg.orderId == v.tracker.activeOrderId && move.msg.orderUpdateId == v.tracker.activeOrderUpdateId
                   && StandsAtEnd(v.tracker.activeOrder.value, move.msg)))
    ensures Completes(v, move, o)
  {
    assert cleared ==> Abandoned in o.log.tracking;
  }

  lemma StateCompletes(v: Vehicle, msg: State, schemaOk: bool, now: int)
    requires Consistent(v.tracker)
    ensures Completes(v, StateMessage(msg, schemaOk, now), HandleState(v, msg, schemaOk, now))
  {
    if schemaOk && !Stale(v.haveStateBaseline, v.lastStateHeaderId, msg) {
      var move, o := StateMessage(msg, schemaOk, now), HandleState(v, msg, schemaOk, now);
      ObservedCompletes(v.tracker, msg);
      TakenCompletes(v, msg, now);
      StateReportsEnd(v, move, o, Observed(v.tracker, msg).cleared);
    }
  }

  lemma SilentCompletes(v: Vehicle, move: Move)
    requires !move.StateMessage? && move != Life(RestartAgv)
    ensures SameCompletion(v, Step(v, move)) || CompletesAsLanded(v, Step(v, move))
  {
    match move
    case Client(call) => ClientCompletes(v, call);
    case Life(event) => LifeCompletes(v, event);
    case ConnectionMessage(status, schemaOk) => ConnectionCompletes(v, status, schemaOk);
    case VisualizationMessage(headerId, schemaOk) =>
    case ProcessorTurn(adapter, layout, verdicts) => TurnCompletes(v, adapter, HeadPasses(v, layout, verdicts));
  }

  lemma StepCompletes(v: Vehicle, move: Move, events: seq<TrackEvent>)
    requires Tracked(v, events)
    ensures Completes(v, move, Step(v, move))
  {
    if move.StateMessage? {
      StateCompletes(v, move.msg, move.schemaOk, move.now);
    } else if move == Life(RestartAgv) {
      RestartForgetsCompletion(v);
    } else {
      SilentCompletes(v, move);
      LandingCompletes(v, move, Step(v, move));
    }
  }

  lemma PublishingKeepsActive(v: Vehicle, move: Move, events: seq<TrackEvent>)
    requires Tracked(v, events) && OnlyPublishes(Step(v, move).log.tracking)
    ensures Step(v, move).v.tracker.activeOrder == v.tracker.activeOrder
  {
    var o := Step(v, move);
    StepShape(v, move);
    LandReopens(v);
    assert Abandoned !in o.log.tracking;
  }

  // ---- Complete means reported ----

  /** What a step is to completion: the order whose end it reports, if any, and whether it records or gives up one. */
  datatype Mark = Mark(ended: Option<Order>, records: bool)

  ghost function MarkOf(v: Vehicle, move: Move): Mark {
    Mark(if ReportsEnd(v, move) then v.tracker.activeOrder else None, !OnlyPublishes(Step(v, move).log.tracking))
  }

  /** The marks of the steps of a run. */
  ghost function Marks(v: Vehicle, moves: seq<Move>): (r: seq<Mark>)
    ensures |r| == |moves|
    decreases |moves|
  {
    if moves == [] then []
    else Marks(v, moves[..|moves| - 1]) + [MarkOf(Run(v, moves[..|moves| - 1]).v, moves[|moves| - 1])]
  }

  /** At some step the end of that order was reported, and since then nothing was recorded or given up. */
  ghost predicate EndReported(marks: seq<Mark>, order: Option<Order>) {
    exists j :: 0 <= j < |marks| && marks[j].ended.Some? && marks[j].ended == order && NothingRecorded(marks, j + 1)
  }

  ghost predicate NothingRecorded(marks: seq<Mark>, start: nat) {
    forall i :: start <= i < |marks| ==> !marks[i].records
  }

  lemma OneMoreMark(marks: seq<Mark>, next: Mark, before: Option<Order>, after: Option<Order>)
    requires !next.records ==> after == before
    requires next.ended.Some? ==> !next.records && next.ended == after
    ensures EndReported(marks + [next], after) <==> !next.records && (EndReported(marks, before) || next.ended.Some?)
  {
    var all := marks + [next];
    if next.ended.Some? {
      assert all[|marks|].ended == after && NothingRecorded(all, |marks| + 1);
    }
    if EndReported(marks, before) && !next.records {
      var j :| 0 <= j < |marks| && marks[j].ended.Some? && marks[j].ended == before && NothingRecorded(marks, j + 1);
      assert all[j].ended == after && NothingRecorded(all, j + 1);
    }
    if EndReported(all, after) {
      var j :| 0 <= j < |all| && all[j].ended.Some? && all[j].ended == after && NothingRecorded(all, j + 1);
      if j < |marks| {
        assert !all[|marks|].records;
        forall i | j + 1 <= i < |marks| ensures !marks[i].records {
          assert all[i] == marks[i];
        }
        assert marks[j].ended == before && NothingRecorded(marks, j + 1);
      }
    }
  }

  lemma MarkCompletes(v: Vehicle, move: Move, events: seq<TrackEvent>)
    requires Tracked(v, events)
    ensures var w, mark := Step(v, move).v, MarkOf(v, move);
            && (w.tracker.orderComplete <==> !mark.records && (v.tracker.orderComplete || mark.ended.Some?))
            && (!mark.records ==> w.tracker.activeOrder == v.tracker.activeOrder)
            && (mark.ended.Some? ==> !mark.records && mark.ended == w.tracker.activeOrder)
  {
    StepCompletes(v, move, events);
    if OnlyPublishes(Step(v, move).log.tracking) {
      PublishingKeepsActive(v, move, events);
    }
    if ReportsEnd(v, move) {
      EndRecordsNothing(v, move);
    }
  }

  lemma EndRecordsNothing(v: Vehicle, move: Move)
    requires ReportsEnd(v, move) && Consistent(v.tracker)
    ensures OnlyPublishes(Step(v, move).log.tracking)
  {
    TakenCompletes(v, move.msg, move.now);
    assert !TickOf(v.tracker, move.msg).cleared;
  }

  lemma {:induction false} CompleteIffMarked(v: Vehicle, moves: seq<Move>)
    requires Tracked(v, []) && !v.tracker.orderComplete
    ensures Run(v, moves).v.tracker.orderComplete <==> EndReported(Marks(v, moves), Run(v, moves).v.tracker.activeOrder)
    decreases |moves|
  {
    if moves != [] {
      var n := |moves| - 1;
      var w, move := Run(v, moves[..n]).v, moves[n];
      RunKeeps(v, moves[..n]);
      CompleteIffMarked(v, moves[..n]);
      MarkCompletes(w, move, Run(v, moves[..n]).log.tracking);
      OneMoreMark(Marks(v, moves[..n]), MarkOf(w, move), w.tracker.activeOrder, Step(w, move).v.tracker.activeOrder);
    }
  }

  /** In any run of a new vehicle the active order counts as complete exactly if some State that reached the tracker
      reported its end, and no order was recorded and none given up since. */
  lemma CompleteIffReported(maxQueueSize: pos, dropOldest: bool, parentAlive: bool, moves: seq<Move>)
    ensures var v := NewVehicle(maxQueueSize, dropOldest, parentAlive);
            Run(v, moves).v.tracker.orderComplete <==> EndReported(Marks(v, moves), Run(v, moves).v.tracker.activeOrder)
  {
    CompleteIffMarked(NewVehicle(maxQueueSize, dropOldest, parentAlive), moves);
  }

  /** So an order without the stitch flag that is sent while an order of another id is active finds that one's end reported. */
  lemma SentAfterEnd(maxQueueSize: pos, dropOldest: bool, parentAlive: bool, moves: seq<Move>, i: nat, order: Order)
    requires var v := NewVehicle(maxQueueSize, dropOldest, parentAlive);
             && TakenAt(v, moves, i, order)
             && var w := Run(v, moves[..i]).v;
                && !w.orderQueue[0].preStitched && w.tracker.activeOrder.Some? && w.tracker.activeOrder.value.orderId != order.orderId
                && Sent(order) in Step(w, moves[i]).log.orders
    ensures var v := NewVehicle(maxQueueSize, dropOldest, parentAlive);
            EndReported(Marks(v, moves[..i]), Run(v, moves[..i]).v.tracker.activeOrder)
  {
    var v := NewVehicle(maxQueueSize, dropOldest, parentAlive);
    RunKeeps(v, moves[..i]);
    CompleteIffReported(maxQueueSize, dropOldest, parentAlive, moves[..i]);
    SendingNeedsEnd(Run(v, moves[..i]).v, moves[i]);
  }

  lemma SendingNeedsEnd(v: Vehicle, move: Move)
    requires Takes(v, move) && Sent(v.orderQueue[0].order) in Step(v, move).log.orders && !v.orderQueue[0].preStitched
    requires Consistent(v.tracker) && v.tracker.activeOrder.Some? && v.tracker.activeOrder.value.orderId != v.orderQueue[0].order.orderId
    ensures v.tracker.orderComplete
  {
    TurnIsExact(v, move);
  }

  // ---- One order after the other ----

  /** An order of that id is active and not complete, and at most an update of it is in flight. */
  ghost predicate Occupied(v: Vehicle, id: string) {
    && v.tracker.activeOrder.Some? && v.tracker.activeOrder.value.orderId == id && !v.tracker.orderComplete
    && (v.inFlight.Some? ==> v.inFlight.value.order.orderId == id)
  }

  /** The step ends an order of that id: it is given up, or its end is reported, or an update of another order that was
      found to be in time before it was queued goes out. */
  ghost predicate Ends(v: Vehicle, move: Move, id: string) {
    || Abandoned in Step(v, move).log.tracking
    || (ReportsEnd(v, move) && move.msg.orderId == id)
    || (Takes(v, move) && v.orderQueue[0].preStitched && v.orderQueue[0].order.orderId != id
        && Sent(v.orderQueue[0].order) in Step(v, move).log.orders)
  }

  lemma DispatchIsSent(v: Vehicle, move: Move)
    requires move.ProcessorTurn? && SendsHead(v, Step(v, move))
    ensures Takes(v, move) && Sent(v.orderQueue[0].order) in Step(v, move).log.orders
  {
  }

  lemma LandingStays(v: Vehicle, id: string, events: seq<TrackEvent>)
    requires Tracked(v, events) && Occupied(v, id)
    ensures Occupied(Land(v).v, id) && forall e :: e in Land(v).log.tracking ==> e.Extended?
  {
    LandReopens(v);
    if v.inFlight.Some? {
      LandingIs(v.tracker, v.inFlight.value);
    }
  }

  lemma StaysOccupied(v: Vehicle, move: Move, id: string, events: seq<TrackEvent>)
    requires Tracked(v, events) && Occupied(v, id) && !Ends(v, move, id)
    ensures Occupied(Step(v, move).v, id) && forall e :: e in Step(v, move).log.tracking ==> e.Published? || e.Extended?
  {
    var o := Step(v, move);
    StepShape(v, move);
    StepCompletes(v, move, events);
    LandingStays(v, id, events);
    if !Idles(v, o) && !Lands(v, o) {
      DispatchIsOfOrder(v, move, id);
      FlightStays(v, o, v.orderQueue[0].order, HeadRoute(v).value, id);
    }
  }

  lemma DispatchIsOfOrder(v: Vehicle, move: Move, id: string)
    requires Consistent(v.tracker) && Occupied(v, id) && !Ends(v, move, id)
    requires move.ProcessorTurn? && SendsHead(v, Step(v, move))
    ensures v.orderQueue[0].order.orderId == id
  {
    DispatchIsSent(v, move);
    if v.orderQueue[0].order.orderId != id {
      SendingNeedsEnd(v, move);
    }
  }

  lemma FlightStays(v: Vehicle, o: Outcome, order: Order, route: Order, id: string)
    requires Occupied(v, id) && Sends(v, o, order, route) && order.orderId == id && !o.v.tracker.orderComplete
    ensures Occupied(o.v, id)
  {
  }

  /** The log of a step says that an order of that id becomes the active one anew. */
  ghost predicate StartsIn(events: seq<TrackEvent>, id: string) {
    exists e :: e in events && (e.Began? || e.Orphaned?) && e.order.orderId == id
  }

  lemma LandingOccupies(v: Vehicle, id: string, events: seq<TrackEvent>)
    requires Tracked(v, events) && StartsIn(Land(v).log.tracking, id)
    ensures Occupied(Land(v).v, id)
  {
    LandReopens(v);
    if v.inFlight.Some? {
      LandingIs(v.tracker, v.inFlight.value);
    }
  }

  lemma StartOccupies(v: Vehicle, move: Move, id: string, events: seq<TrackEvent>)
    requires Tracked(v, events) && StartsIn(Step(v, move).log.tracking, id) && !Ends(v, move, id)
    ensures Occupied(Step(v, move).v, id)
  {
    var o := Step(v, move);
    StepShape(v, move);
    if Lands(v, o) {
      LandingOccupies(v, id, events);
      StepCompletes(v, move, events);
    }
  }

  /** At step `i` of the run an order of that id becomes active. */
  ghost predicate StartsAt(v: Vehicle, moves: seq<Move>, i: nat, id: string)
    decreases |moves|
  {
    i < |moves| &&
    var init, last := moves[..|moves| - 1], moves[|moves| - 1];
    if i == |moves| - 1 then StartsIn(Step(Run(v, init).v, last).log.tracking, id) else StartsAt(v, init, i, id)
  }

  /** Some step of the run, from step `i` on and before step `q`, ends an order of that id. */
  ghost predicate EndsBetween(v: Vehicle, moves: seq<Move>, i: nat, q: nat, id: string)
    decreases |moves|
  {
    moves != [] &&
    var init, last := moves[..|moves| - 1], moves[|moves| - 1];
    (i <= |moves| - 1 < q && Ends(Run(v, init).v, last, id)) || EndsBetween(v, init, i, q, id)
  }

  lemma OccupiedNext(v: Vehicle, move: Move, id: string, events: seq<TrackEvent>)
    requires Tracked(v, events) && (Occupied(v, id) || StartsIn(Step(v, move).log.tracking, id))
    ensures Occupied(Step(v, move).v, id) || Ends(v, move, id)
  {
    if !Ends(v, move, id) {
      if Occupied(v, id) {
        StaysOccupied(v, move, id, events);
      } else {
        StartOccupies(v, move, id, events);
      }
    }
  }

  /** The order that started at step `i` occupies the vehicle until some step ends it. */
  lemma {:induction false} OccupiedUntilEnd(v: Vehicle, moves: seq<Move>, i: nat, q: nat, id: string)
    requires Tracked(v, []) && StartsAt(v, moves, i, id) && |moves| <= q
    ensures Occupied(Run(v, moves).v, id) || EndsBetween(v, moves, i, q, id)
    decreases |moves|
  {
    var init, last := moves[..|moves| - 1], moves[|moves| - 1];
    RunKeeps(v, init);
    if i < |moves| - 1 {
      OccupiedUntilEnd(v, init, i, q, id);
    }
    if i == |moves| - 1 || Occupied(Run(v, init).v, id) {
      OccupiedNext(Run(v, init).v, last, id, Run(v, init).log.tracking);
    }
  }

  lemma {:induction false} StartsAfterEnd(v: Vehicle, moves: seq<Move>, i: nat, q: nat, id: string, other: string)
    requires Tracked(v, []) && i < q && id != other && StartsAt(v, moves, i, id) && StartsAt(v, moves, q, other)
    ensures EndsBetween(v, moves, i, q, id)
    decreases |moves|
  {
    var init, last := moves[..|moves| - 1], moves[|moves| - 1];
    if q < |moves| - 1 {
      StartsAfterEnd(v, init, i, q, id, other);
    } else {
      OccupiedUntilEnd(v, init, i, q, id);
      RunKeeps(v, init);
      StartNeedsRoom(Run(v, init).v, last, id, other, Run(v, init).log.tracking);
    }
  }

  /** In any run of a new vehicle, between the recording of one order and that of an order with another id, the first is
      given up, or a State that reached the tracker reports its end, or an update of another order that had been released
      before goes out under the stitch flag; an update released by the tracker is not judged again. */
  lemma OthersStartAfterEnd(maxQueueSize: pos, dropOldest: bool, parentAlive: bool, moves: seq<Move>, i: nat, q: nat, id: string, other: string)
    requires i < q && id != other
    requires var v := NewVehicle(maxQueueSize, dropOldest, parentAlive); StartsAt(v, moves, i, id) && StartsAt(v, moves, q, other)
    ensures EndsBetween(NewVehicle(maxQueueSize, dropOldest, parentAlive), moves, i, q, id)
  {
    StartsAfterEnd(NewVehicle(maxQueueSize, dropOldest, parentAlive), moves, i, q, id, other);
  }

  lemma StartNeedsRoom(v: Vehicle, move: Move, id: string, other: string, events: seq<TrackEvent>)
    requires Tracked(v, events) && StartsIn(Step(v, move).log.tracking, other) && id != other
    ensures !Occupied(v, id)
  {
    if Occupied(v, id) {
      StepShape(v, move);
      StartsByLanding(v, Step(v, move), other);
      LandingStays(v, id, events);
    }
  }

  lemma StartsByLanding(v: Vehicle, o: Outcome, id: string)
    requires Idles(v, o) || Lands(v, o) || Abandons(v, o) || Restarts(v, o) || SendsHead(v, o)
    requires StartsIn(o.log.tracking, id)
    ensures StartsIn(Land(v).log.tracking, id)
  {
  }
}
