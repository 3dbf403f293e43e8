/** What the tracked active order is, over any run of one vehicle. */
module AgvTracking {
  import opened Common
  import Lif
  import opened Orders
  import opened Stitching
  import opened OrderInLayout
  import opened OrderMerge
  import opened MasterTypes
  import opened OrderLifecycle
  import opened OrderPublisher
  import opened AgvSpec

  // ---- Reading the log ----

  /** The versions of the active order: the one that started it, then each update recorded on top of the one before. */
  function Versions(events: seq<TrackEvent>): seq<Order> {
    if events == [] then []
    else
      match events[|events| - 1]
      case Published(_) => Versions(events[..|events| - 1])
      case Began(order) => [order]
      case Extended(route) => Versions(events[..|events| - 1]) + [route]
      case Orphaned(order, _) => [order]
      case Abandoned => []
  }

  /** The routes of the orders that went out, and of those recorded since. */
  function Routes(recorded: bool, events: seq<TrackEvent>): seq<Order> {
    if events == [] then [] else Routes(recorded, events[..|events| - 1]) + RouteIn(recorded, events[|events| - 1])
  }

  function RouteIn(recorded: bool, e: TrackEvent): seq<Order> {
    match e
    case Published(route) => if recorded then [] else [route]
    case Began(order) => if recorded then [order] else []
    case Extended(route) => if recorded then [route] else []
    case Orphaned(_, route) => if recorded then [route] else []
    case Abandoned => []
  }

  /** The present versions were started by an update whose base had been given up. */
  predicate OrphanLed(events: seq<TrackEvent>) {
    events != [] &&
    match events[|events| - 1]
    case Published(_) => OrphanLed(events[..|events| - 1])
    case Began(_) => false
    case Extended(_) => OrphanLed(events[..|events| - 1])
    case Orphaned(_, _) => true
    case Abandoned => false
  }

  lemma OneMoreEvent(events: seq<TrackEvent>, e: TrackEvent)
    ensures OrphanLed(events + [e]) == (e.Orphaned? || ((e.Published? || e.Extended?) && OrphanLed(events)))
    ensures Versions(events + [e]) ==
            if e.Published? then Versions(events) else if e.Extended? then Versions(events) + [e.route]
            else if e.Abandoned? then [] else [e.order]
    ensures forall recorded :: Routes(recorded, events + [e]) == Routes(recorded, events) + RouteIn(recorded, e)
  {
    assert (events + [e])[..|events|] == events;
  }

  // ---- The invariant ----

  /** The first version is a valid order, and every version that was extended names its stitch point unambiguously. */
  ghost predicate Sound(versions: seq<Order>) {
    && versions != [] && WellFormed(versions[0])
    && forall i :: 0 <= i < |versions| - 1 ==> AnchorFirst(versions[i])
  }

  /** The last version is the active order, all carry its id, their update ids rise,
      and sound versions form a chain of accepted updates. */
  ghost predicate Lineage(versions: seq<Order>, active: Option<Order>) {
    && (active.None? <==> versions == [])
    && (active.Some? ==> versions[|versions| - 1] == active.value)
    && (forall i :: 0 <= i < |versions| ==> versions[i].orderId == versions[0].orderId && versions[i].orderId != "")
    && Rising(versions)
    && (Sound(versions) ==> Chain(versions))
  }

  ghost predicate Rising(versions: seq<Order>) {
    forall i, j :: 0 <= i < j < |versions| ==> versions[i].orderUpdateId < versions[j].orderUpdateId
  }

  /** An order in flight is a valid order by itself, or an update whose merge is valid
      and extends the active order, unless that was given up since. */
  ghost predicate Airworthy(t: Tracker, f: Flight) {
    && f.order.orderId != "" && WellFormed(FlightRoute(f))
    && match f.merged
       case None => t.activeOrder.None? || t.activeOrder.value.orderId != f.order.orderId
       case Some(route) =>
         t.activeOrder.None? || (IsUpdate(ActiveOf(t), f.order) && MergedOf(f.ctx, f.order, ActiveOf(t).value) == Some(route))
  }

  function FlightRoute(f: Flight): Order {
    if f.merged.Some? then f.merged.value else f.order
  }

  function InTheAir(v: Vehicle): seq<Order> {
    if v.inFlight.Some? then [FlightRoute(v.inFlight.value)] else []
  }

  ghost predicate AllValid(routes: seq<Order>) {
    forall i :: 0 <= i < |routes| ==> WellFormed(routes[i])
  }

  /** The log's versions are those of the tracked order. */
  ghost predicate Lined(t: Tracker, events: seq<TrackEvent>) {
    && Consistent(t)
    && Lineage(Versions(events), t.activeOrder)
    && (!OrphanLed(events) ==> AllValid(Versions(events)))
  }

  /** Valid routes went out, and all of them are recorded but the one in flight. */
  ghost predicate Routed(v: Vehicle, events: seq<TrackEvent>) {
    && (v.inFlight.Some? ==> Airworthy(v.tracker, v.inFlight.value))
    && Routes(false, events) == Routes(true, events) + InTheAir(v)
    && AllValid(Routes(false, events))
  }

  ghost predicate Tracked(v: Vehicle, events: seq<TrackEvent>) {
    Lined(v.tracker, events) && Routed(v, events)
  }

  // ---- What single events do ----

  /** What matters to the tracking is the same. */
  ghost predicate SameTracking(v: Vehicle, w: Vehicle) {
    && w.tracker.activeOrder == v.tracker.activeOrder && w.tracker.activeOrderId == v.tracker.activeOrderId
    && w.tracker.activeOrderUpdateId == v.tracker.activeOrderUpdateId && w.inFlight == v.inFlight
  }

  lemma IdleKeeps(v: Vehicle, w: Vehicle, events: seq<TrackEvent>)
    requires Tracked(v, events) && SameTracking(v, w)
    ensures Tracked(w, events) && events + [] == events
  {
  }

  /** The active order is given up. */
  lemma AbandonKeeps(v: Vehicle, w: Vehicle, events: seq<TrackEvent>)
    requires Tracked(v, events) && GivenUp(v, w)
    ensures Tracked(w, events + [Abandoned])
  {
    OneMoreEvent(events, Abandoned);
    assert Routes(false, events) + [] == Routes(false, events) && Routes(true, events) + [] == Routes(true, events);
    assert InTheAir(w) == InTheAir(v);
  }

  lemma LineageBegins(order: Order)
    requires order.orderId != ""
    ensures Lineage([order], Some(order))
  {
  }

  /** A sound line of versions that one more update is recorded on is a chain. */
  lemma ExtendedIsChain(versions: seq<Order>, active: Order, ctx: Context, order: Order, merged: Order)
    requires Lineage(versions, Some(active)) && WellFormed(merged) && Sound(versions + [merged])
    requires IsUpdate(Some(active), order) && MergedOf(ctx, order, active) == Some(merged)
    ensures Chain(versions + [merged])
  {
    SoundBefore(versions, merged);
    ActiveIsValid(versions, active);
    SentUpdateContinuesBase(ctx, order, active, merged);
    ChainExtends(versions, merged);
  }

  /** A recorded update continues the versions before it. */
  lemma LineageExtends(versions: seq<Order>, active: Order, ctx: Context, order: Order, merged: Order)
    requires Lineage(versions, Some(active)) && WellFormed(merged)
    requires IsUpdate(Some(active.(zoneSetId := None)), order) && MergedOf(ctx, order, active.(zoneSetId := None)) == Some(merged)
    ensures Lineage(versions + [merged], Some(merged))
    ensures merged.orderId == order.orderId == active.orderId && active.orderUpdateId < order.orderUpdateId == merged.orderUpdateId
  {
    MergeIsNewer(ctx, order, active, merged);
    if Sound(versions + [merged]) {
      ZoneIgnored(active, None, order, LastSeqOf(ctx));
      ExtendedIsChain(versions, active, ctx, order, merged);
    }
    LineageGrows(versions, active, merged);
  }

  lemma MergeIsNewer(ctx: Context, order: Order, active: Order, merged: Order)
    requires IsUpdate(Some(active.(zoneSetId := None)), order) && MergedOf(ctx, order, active.(zoneSetId := None)) == Some(merged)
    ensures merged.orderId == order.orderId == active.orderId && active.orderUpdateId < order.orderUpdateId == merged.orderUpdateId
  {
  }

  lemma LineageGrows(versions: seq<Order>, active: Order, merged: Order)
    requires Lineage(versions, Some(active)) && merged.orderId == active.orderId && active.orderUpdateId < merged.orderUpdateId
    requires Sound(versions + [merged]) ==> Chain(versions + [merged])
    ensures Lineage(versions + [merged], Some(merged))
  {
    RisesOn(versions, merged);
  }

  lemma RisesOn(versions: seq<Order>, merged: Order)
    requires Rising(versions) && versions != [] && versions[|versions| - 1].orderUpdateId < merged.orderUpdateId
    ensures Rising(versions + [merged])
  {
    var all, n := versions + [merged], |versions|;
    forall i, j | 0 <= i < j < |all| ensures all[i].orderUpdateId < all[j].orderUpdateId {
      assert i < n - 1 ==> versions[i].orderUpdateId < versions[n - 1].orderUpdateId;
    }
  }

  lemma SoundBefore(versions: seq<Order>, merged: Order)
    requires versions != [] && Sound(versions + [merged])
    ensures Sound(versions) && AnchorFirst(versions[|versions| - 1])
  {
    var all := versions + [merged];
    assert versions[0] == all[0];
    forall i | 0 <= i < |versions| ensures AnchorFirst(versions[i]) {
      assert versions[i] == all[i];
    }
  }

  lemma ActiveIsValid(versions: seq<Order>, active: Order)
    requires Chain(versions) && versions[|versions| - 1] == active
    ensures WellFormed(active)
  {
    if |versions| > 1 {
      assert Follows(versions, |versions| - 1);
    }
  }

  lemma ChainExtends(versions: seq<Order>, merged: Order)
    requires Chain(versions) && AcceptedUpdate(versions[|versions| - 1], merged)
    ensures Chain(versions + [merged])
  {
    var all := versions + [merged];
    forall i | 0 < i < |all| ensures Follows(all, i) {
      if i < |versions| {
        assert Follows(versions, i);
      }
    }
  }

  /** An order lands: it begins a new active order, or extends the active one, or is an orphan. */
  lemma LandingIs(t: Tracker, f: Flight)
    requires Consistent(t) && Airworthy(t, f)
    ensures Landed(t, f) ==
            if f.merged.None? then Began(f.order)
            else if t.activeOrder.Some? then Extended(f.merged.value)
            else Orphaned(f.order, f.merged.value)
    ensures var r := Recorded(t, f.order, f.merged);
            && Consistent(r) && r.activeOrder == Some(if f.merged.Some? && t.activeOrder.Some? then f.merged.value else f.order)
  {
    if f.merged.Some? && t.activeOrder.Some? {
      ZoneIgnored(t.activeOrder.value, None, f.order, LastSeqOf(f.ctx));
    }
  }

  lemma RoutesLand(events: seq<TrackEvent>, e: TrackEvent, route: Order)
    requires Routes(false, events) == Routes(true, events) + [route]
    requires e == Began(route) || e == Extended(route) || (e.Orphaned? && e.route == route)
    ensures Routes(false, events + [e]) == Routes(true, events + [e]) == Routes(false, events)
  {
    OneMoreEvent(events, e);
  }

  lemma LandKeeps(v: Vehicle, events: seq<TrackEvent>)
    requires Tracked(v, events)
    ensures Tracked(Land(v).v, events + Land(v).log.tracking)
  {
    if v.inFlight.None? {
      IdleKeeps(v, Land(v).v, events);
    } else {
      LandedKeeps(v, v.inFlight.value, Land(v).v, events);
    }
  }

  lemma LandedKeeps(v: Vehicle, f: Flight, w: Vehicle, events: seq<TrackEvent>)
    requires Tracked(v, events) && v.inFlight == Some(f)
    requires w.tracker == Recorded(v.tracker, f.order, f.merged) && w.inFlight.None?
    ensures Tracked(w, events + [Landed(v.tracker, f)])
  {
    LandingIs(v.tracker, f);
    LandingKeepsLineage(v.tracker, f, events);
    LandingKeepsRoutes(v, w, Landed(v.tracker, f), events);
  }

  lemma LandingKeepsRoutes(v: Vehicle, w: Vehicle, e: TrackEvent, events: seq<TrackEvent>)
    requires Routed(v, events) && v.inFlight.Some? && w.inFlight.None?
    requires var route := FlightRoute(v.inFlight.value); e == Began(route) || e == Extended(route) || (e.Orphaned? && e.route == route)
    ensures Routed(w, events + [e])
  {
    RoutesLand(events, e, FlightRoute(v.inFlight.value));
    assert Routes(true, events + [e]) + [] == Routes(true, events + [e]);
  }

  lemma LandingKeepsLineage(t: Tracker, f: Flight, events: seq<TrackEvent>)
    requires Airworthy(t, f) && Lined(t, events)
    ensures Lined(Recorded(t, f.order, f.merged), events + [Landed(t, f)])
  {
    LandingIs(t, f);
    var e := Landed(t, f);
    OneMoreEvent(events, e);
    if e.Extended? {
      LineageExtends(Versions(events), t.activeOrder.value, f.ctx, f.order, f.merged.value);
    } else {
      LineageBegins(f.order);
    }
    if !OrphanLed(events + [e]) && e.Extended? {
      AllValidMore(Versions(events), f.merged.value);
    }
  }

  lemma AllValidMore(routes: seq<Order>, route: Order)
    requires AllValid(routes) && WellFormed(route)
    ensures AllValid(routes + [route])
  {
  }

  lemma RoutesSend(events: seq<TrackEvent>, route: Order)
    ensures Routes(false, events + [Published(route)]) == Routes(false, events) + [route]
    ensures Routes(true, events + [Published(route)]) == Routes(true, events)
    ensures Versions(events + [Published(route)]) == Versions(events)
    ensures OrphanLed(events + [Published(route)]) == OrphanLed(events)
  {
    OneMoreEvent(events, Published(route));
    assert Routes(true, events) + [] == Routes(true, events);
  }

  lemma SentIsAirworthy(v: Vehicle, o: Outcome, order: Order, route: Order)
    requires Sends(v, o, order, route)
    requires order.orderId != "" && RouteOf(ContextOf(v), order, ActiveOf(v.tracker)) == Some(route) && WellFormed(route)
    ensures o.v.inFlight.Some? && FlightRoute(o.v.inFlight.value) == route && Airworthy(o.v.tracker, o.v.inFlight.value)
  {
  }

  /** An order goes out. */
  lemma SendKeeps(v: Vehicle, o: Outcome, order: Order, route: Order, events: seq<TrackEvent>)
    requires Tracked(v, events) && Sends(v, o, order, route)
    requires order.orderId != "" && RouteOf(ContextOf(v), order, ActiveOf(v.tracker)) == Some(route) && WellFormed(route)
    ensures Tracked(o.v, events + [Published(route)])
  {
    SentIsAirworthy(v, o, order, route);
    RoutesSend(events, route);
    AllValidMore(Routes(false, events), route);
    assert Routes(true, events) + [] == Routes(true, events);
  }

  // ---- What each step is to the tracking ----

  ghost predicate Idles(v: Vehicle, o: Outcome) {
    o.log.tracking == [] && SameTracking(v, o.v)
  }

  ghost predicate Lands(v: Vehicle, o: Outcome) {
    o.log.tracking == Land(v).log.tracking && SameTracking(Land(v).v, o.v)
  }

  /** Nothing is tracked any more. */
  ghost predicate GivenUp(v: Vehicle, w: Vehicle) {
    w.tracker.activeOrder.None? && Consistent(w.tracker) && w.inFlight == v.inFlight
  }

  ghost predicate Abandons(v: Vehicle, o: Outcome) {
    o.log.tracking == [Abandoned] && GivenUp(v, o.v)
  }

  ghost predicate Restarts(v: Vehicle, o: Outcome) {
    o.log.tracking == Land(v).log.tracking + [Abandoned] && GivenUp(Land(v).v, o.v)
  }

  ghost predicate Sends(v: Vehicle, o: Outcome, order: Order, route: Order) {
    && o.log.tracking == [Published(route)] && v.inFlight.None?
    && SameTracking(v.(inFlight := o.v.inFlight), o.v)
    && o.v.inFlight == Some(Flight(order, if IsUpdate(ActiveOf(v.tracker), order) then Some(route) else None, ContextOf(v)))
  }

  ghost predicate SendsHead(v: Vehicle, o: Outcome) {
    HeadRoute(v).Some? && Sends(v, o, v.orderQueue[0].order, HeadRoute(v).value)
  }

  lemma ClientIdles(v: Vehicle, call: ClientCall)
    ensures Idles(v, ClientStep(v, call))
  {
  }

  lemma StopLands(v: Vehicle)
    ensures Lands(v, AgvSpec.Stop(v))
  {
  }

  lemma ForgettingAbandons(v: Vehicle)
    ensures Abandons(v, ForgetAll(v))
  {
  }

  lemma RestartRestarts(v: Vehicle)
    ensures Restarts(v, Restart(v))
  {
    StopLands(v);
    ForgettingAbandons(AgvSpec.Stop(v).v);
  }

  lemma LifeShape(v: Vehicle, event: LifeEvent)
    ensures var o := LifeStep(v, event); Idles(v, o) || Lands(v, o) || Restarts(v, o)
  {
    match event
    case StopAgv => StopLands(v);
    case RestartAgv => RestartRestarts(v);
    case PauseAgv => assert Lands(v, Pause(v));
    case _ => assert Idles(v, LifeStep(v, event));
  }

  lemma OfflineLands(v: Vehicle, status: ConnectionState)
    ensures Lands(v, GoOffline(v, status))
  {
    LandingIgnores(v, WithConnection(v, status));
  }

  lemma LandingIgnores(v: Vehicle, w: Vehicle)
    requires w.tracker == v.tracker && w.inFlight == v.inFlight
    ensures Land(w).log == Land(v).log && Land(w).v.tracker == Land(v).v.tracker && Land(w).v.inFlight == Land(v).v.inFlight
  {
  }

  lemma ConnectionShape(v: Vehicle, status: ConnectionState, schemaOk: bool)
    ensures var o := HandleConnection(v, status, schemaOk); Idles(v, o) || Lands(v, o)
  {
    var o := HandleConnection(v, status, schemaOk);
    if !schemaOk || status == ONLINE {
      assert Idles(v, o);
    } else {
      OfflineLands(v, status);
      assert Lands(v, o);
    }
  }

  lemma ObservedTracking(t: Tracker, msg: State)
    ensures var o := Observed(t, msg);
            if o.cleared then o.tracker.activeOrder.None? && Consistent(o.tracker)
            else o.tracker.activeOrder == t.activeOrder && o.tracker.activeOrderId == t.activeOrderId
                 && o.tracker.activeOrderUpdateId == t.activeOrderUpdateId
  {
  }

  lemma TrackShape(v: Vehicle, seen: Observation)
    ensures var o := Track(v, seen);
            && o.log.tracking == (if seen.cleared then [Abandoned] else []) && o.v.inFlight == v.inFlight
            && o.v.tracker.activeOrder == seen.tracker.activeOrder && o.v.tracker.activeOrderId == seen.tracker.activeOrderId
            && o.v.tracker.activeOrderUpdateId == seen.tracker.activeOrderUpdateId
  {
  }

  lemma TakenTracks(v: Vehicle, msg: State, now: int)
    ensures var tracked, taken := Track(Cached(v, msg), Observed(v.tracker, msg)), TakeState(v, msg, now);
            taken.log.tracking == tracked.log.tracking && SameTracking(tracked.v, taken.v)
  {
  }

  lemma StateShape(v: Vehicle, msg: State, schemaOk: bool, now: int)
    ensures var o := HandleState(v, msg, schemaOk, now); Idles(v, o) || Abandons(v, o)
  {
    var o := HandleState(v, msg, schemaOk, now);
    if schemaOk && !Stale(v.haveStateBaseline, v.lastStateHeaderId, msg) {
      ObservedTracking(v.tracker, msg);
      TrackShape(Cached(v, msg), Observed(v.tracker, msg));
      TakenTracks(v, msg, now);
      assert o.v == TakeState(v, msg, now).v && o.log.tracking == TakeState(v, msg, now).log.tracking;
    }
  }

  lemma DisposedShape(v: Vehicle, queued: QueuedOrder, adapter: bool, passes: bool)
    requires v.inFlight.None? && (passes ==> RouteOf(ContextOf(v), queued.order, ActiveOf(v.tracker)).Some?)
    ensures var o := Disposed(v, queued, adapter, passes);
            Idles(v, o) || (passes && Sends(v, o, queued.order, RouteOf(ContextOf(v), queued.order, ActiveOf(v.tracker)).value))
  {
  }

  lemma NextOrderShape(v: Vehicle, adapter: bool, passes: bool)
    requires v.inFlight.None? && v.orderQueue != [] && (passes ==> HeadRoute(v).Some?)
    ensures var o := NextOrder(v, adapter, passes); Idles(v, o) || (passes && SendsHead(v, o))
  {
    var w := v.(orderQueue := v.orderQueue[1..]);
    DisposedShape(w, v.orderQueue[0], adapter, passes);
    assert NextOrder(v, adapter, passes).log.tracking == Disposed(w, v.orderQueue[0], adapter, passes).log.tracking;
  }

  lemma TurnShape(v: Vehicle, adapter: bool, passes: bool)
    requires passes ==> HeadRoute(v).Some?
    ensures var o := Turn(v, adapter, passes); Idles(v, o) || Lands(v, o) || (passes && SendsHead(v, o))
  {
    var o := Turn(v, adapter, passes);
    if v.inFlight.Some? {
      assert Lands(v, o);
    } else if v.processorRunning && v.instantActionsQueue == [] && v.orderQueue != [] {
      NextOrderShape(v, adapter, passes);
    } else {
      assert Idles(v, o);
    }
  }

  lemma StepShape(v: Vehicle, move: Move)
    ensures var o := Step(v, move);
            Idles(v, o) || Lands(v, o) || Abandons(v, o) || Restarts(v, o)
            || (move.ProcessorTurn? && HeadPasses(v, move.layout, move.verdicts) && SendsHead(v, o))
  {
    match move
    case Client(call) => ClientIdles(v, call);
    case Life(event) => LifeShape(v, event);
    case ConnectionMessage(status, schemaOk) => ConnectionShape(v, status, schemaOk);
    case StateMessage(msg, schemaOk, now) => StateShape(v, msg, schemaOk, now);
    case VisualizationMessage(headerId, schemaOk) => assert Idles(v, Step(v, move));
    case ProcessorTurn(adapter, layout, verdicts) => TurnShape(v, adapter, HeadPasses(v, layout, verdicts));
  }

  // ---- Every step, every run ----

  lemma LandingKeeps(v: Vehicle, o: Outcome, events: seq<TrackEvent>)
    requires Tracked(v, events) && Lands(v, o)
    ensures Tracked(o.v, events + o.log.tracking)
  {
    LandKeeps(v, events);
    IdleKeeps(Land(v).v, o.v, events + o.log.tracking);
  }

  lemma RestartKeeps(v: Vehicle, o: Outcome, events: seq<TrackEvent>)
    requires Tracked(v, events) && Restarts(v, o)
    ensures Tracked(o.v, events + o.log.tracking)
  {
    var landed := Land(v);
    LandKeeps(v, events);
    AbandonKeeps(landed.v, o.v, events + landed.log.tracking);
    Regroup(events, landed.log.tracking, [Abandoned]);
  }

  lemma Regroup(a: seq<TrackEvent>, b: seq<TrackEvent>, c: seq<TrackEvent>)
    ensures (a + b) + c == a + (b + c)
  {
  }

  lemma StepKeeps(v: Vehicle, move: Move, events: seq<TrackEvent>)
    requires Tracked(v, events)
    ensures Tracked(Step(v, move).v, events + Step(v, move).log.tracking)
  {
    var o := Step(v, move);
    StepShape(v, move);
    if Idles(v, o) {
      IdleKeeps(v, o.v, events);
    } else if Lands(v, o) {
      LandingKeeps(v, o, events);
    } else if Abandons(v, o) {
      AbandonKeeps(v, o.v, events);
    } else if Restarts(v, o) {
      RestartKeeps(v, o, events);
    } else {
      SendKeeps(v, o, v.orderQueue[0].order, HeadRoute(v).value, events);
    }
  }

  lemma {:induction false} RunKeeps(v: Vehicle, moves: seq<Move>)
    requires Tracked(v, [])
    ensures Tracked(Run(v, moves).v, Run(v, moves).log.tracking)
    decreases |moves|
  {
    if moves != [] {
      var before := Run(v, moves[..|moves| - 1]);
      RunKeeps(v, moves[..|moves| - 1]);
      StepKeeps(before.v, moves[|moves| - 1], before.log.tracking);
    }
  }

  // ---- The laws ----

  /** What the versions say, once the first is valid and each extended one names its stitch point unambiguously. */
  ghost predicate OnePath(versions: seq<Order>, active: Order) {
    && Chain(versions) && WellFormed(active) && WellFormed(GlueAll(versions))
    && ReleasedPath(Base(GlueAll(versions)), versions[0], active)
    && Base(GlueAll(versions)).edges == ReleasedEdges(versions)
  }

  lemma SoundIsOnePath(versions: seq<Order>, active: Order)
    requires Lineage(versions, Some(active)) && Sound(versions)
    ensures OnePath(versions, active)
  {
    ChainIsOnePath(versions);
    ActiveIsValid(versions, active);
  }

  /** No version that was extended has more than 2^31 nodes. */
  ghost predicate AllShort(versions: seq<Order>) {
    forall i :: 0 <= i < |versions| - 1 ==> |versions[i].nodes| <= 0x8000_0000
  }

  lemma ShortIsSound(versions: seq<Order>)
    requires versions != [] && AllValid(versions) && AllShort(versions)
    ensures Sound(versions)
  {
    forall i | 0 <= i < |versions| - 1 ensures AnchorFirst(versions[i]) {
      ShortOrdersAnchorFirst(versions[i]);
    }
  }

  /** The versions of the active order end in it and carry its id. Unless the first of them is an update whose base had
      been given up, all are valid orders; if moreover each extended version names its stitch point unambiguously,
      as orders of at most 2^31 nodes do, then all that was released in them is one path. */
  ghost predicate Traced(versions: seq<Order>, active: Order, activeId: string, orphanLed: bool) {
    && versions != [] && versions[|versions| - 1] == active
    && (forall i :: 0 <= i < |versions| ==> versions[i].orderId == active.orderId == activeId != "")
    && (!orphanLed ==> AllValid(versions))
    && (!orphanLed && AllShort(versions) ==> OnePath(versions, active))
    && (Sound(versions) ==> OnePath(versions, active))
  }

  lemma LinedIsTraced(t: Tracker, events: seq<TrackEvent>)
    requires Lined(t, events) && t.activeOrder.Some?
    ensures Traced(Versions(events), t.activeOrder.value, t.activeOrderId, OrphanLed(events))
  {
    var versions := Versions(events);
    if !OrphanLed(events) && AllShort(versions) {
      ShortIsSound(versions);
    }
    if Sound(versions) {
      SoundIsOnePath(versions, t.activeOrder.value);
    }
  }

  /** After any run of a new vehicle, what was released under the active order, in all its versions, is one contiguous,
      fully released, valid path made of exactly their released edges. */
  lemma ActiveOrderIsOnePath(maxQueueSize: pos, dropOldest: bool, parentAlive: bool, moves: seq<Move>)
    requires Run(NewVehicle(maxQueueSize, dropOldest, parentAlive), moves).v.tracker.activeOrder.Some?
    ensures var run := Run(NewVehicle(maxQueueSize, dropOldest, parentAlive), moves);
            Traced(Versions(run.log.tracking), run.v.tracker.activeOrder.value, run.v.tracker.activeOrderId, OrphanLed(run.log.tracking))
  {
    RunKeeps(NewVehicle(maxQueueSize, dropOldest, parentAlive), moves);
    var run := Run(NewVehicle(maxQueueSize, dropOldest, parentAlive), moves);
    LinedIsTraced(run.v.tracker, run.log.tracking);
  }

  /** Along the versions of the active order the update ids strictly increase, whatever became of its base. */
  lemma VersionsIncrease(maxQueueSize: pos, dropOldest: bool, parentAlive: bool, moves: seq<Move>)
    ensures Rising(Versions(Run(NewVehicle(maxQueueSize, dropOldest, parentAlive), moves).log.tracking))
  {
    RunKeeps(NewVehicle(maxQueueSize, dropOldest, parentAlive), moves);
  }

  /** Every order that goes out is recorded once, in order, with the route it was sent for; at most the last one
      is still in flight. Every such route is a valid order. */
  lemma SentIsRecorded(maxQueueSize: pos, dropOldest: bool, parentAlive: bool, moves: seq<Move>)
    ensures var run := Run(NewVehicle(maxQueueSize, dropOldest, parentAlive), moves);
            && Routes(false, run.log.tracking) == Routes(true, run.log.tracking) + InTheAir(run.v)
            && AllValid(Routes(false, run.log.tracking))
  {
    RunKeeps(NewVehicle(maxQueueSize, dropOldest, parentAlive), moves);
  }

  /** Recording an order in flight makes a valid order the active one exactly if the order was no update,
      or its base is still tracked, or it happens to be a valid order all by itself. */
  lemma RecordingIsValidIff(v: Vehicle, events: seq<TrackEvent>)
    requires Tracked(v, events) && v.inFlight.Some?
    ensures var f := v.inFlight.value;
            WellFormed(Land(v).v.tracker.activeOrder.value) <==>
            f.merged.None? || v.tracker.activeOrder.Some? || WellFormed(f.order)
  {
    LandingIs(v.tracker, v.inFlight.value);
  }

  // ---- Routes and the layout ----

  /** The active order and the one in flight fit the layout. */
  ghost predicate Fits(v: Vehicle, lif: Lif.LIF) {
    && (v.tracker.activeOrder.Some? ==> Integral(lif, v.tracker.activeOrder.value))
    && (v.inFlight.Some? ==> Integral(lif, v.inFlight.value.order) && Integral(lif, FlightRoute(v.inFlight.value)))
  }

  /** What is published is a walk in the layout, and what becomes a version of the active order fits it. */
  ghost predicate EventFits(lif: Lif.LIF, e: TrackEvent) {
    match e
    case Published(route) => WellFormed(route) && Integral(lif, route) && Walk(lif, route)
    case Began(order) => Integral(lif, order)
    case Extended(route) => Integral(lif, route)
    case Orphaned(order, _) => Integral(lif, order)
    case Abandoned => true
  }

  ghost predicate AllFit(lif: Lif.LIF, events: seq<TrackEvent>) {
    forall i :: 0 <= i < |events| ==> EventFits(lif, events[i])
  }

  lemma LandFits(v: Vehicle, lif: Lif.LIF, events: seq<TrackEvent>)
    requires Tracked(v, events) && Fits(v, lif)
    ensures Fits(Land(v).v, lif) && AllFit(lif, Land(v).log.tracking)
  {
    if v.inFlight.Some? {
      FlightFits(v.tracker, v.inFlight.value, lif);
    }
  }

  lemma FlightFits(t: Tracker, f: Flight, lif: Lif.LIF)
    requires Consistent(t) && Airworthy(t, f) && Integral(lif, f.order) && Integral(lif, FlightRoute(f))
    ensures var r := Recorded(t, f.order, f.merged).activeOrder;
            r.Some? && Integral(lif, r.value) && EventFits(lif, Landed(t, f))
  {
    LandingIs(t, f);
  }

  lemma SendFits(v: Vehicle, o: Outcome, lif: Lif.LIF, verdicts: Verdicts)
    requires Fits(v, lif) && HeadPasses(v, Some(lif), verdicts) && SendsHead(v, o)
    ensures Fits(o.v, lif) && AllFit(lif, o.log.tracking)
  {
    SentRouteWalks(ContextOf(v), v.orderQueue[0].order, ActiveOf(v.tracker), lif, verdicts);
  }

  lemma SameFits(v: Vehicle, w: Vehicle, lif: Lif.LIF)
    requires Fits(v, lif) && SameTracking(v, w)
    ensures Fits(w, lif)
  {
  }

  lemma GivenUpFits(v: Vehicle, w: Vehicle, lif: Lif.LIF)
    requires Fits(v, lif) && GivenUp(v, w)
    ensures Fits(w, lif) && EventFits(lif, Abandoned)
  {
  }

  lemma QuietFits(v: Vehicle, o: Outcome, lif: Lif.LIF, events: seq<TrackEvent>)
    requires Tracked(v, events) && Fits(v, lif)
    requires Idles(v, o) || Lands(v, o) || Abandons(v, o) || Restarts(v, o)
    ensures Fits(o.v, lif) && AllFit(lif, o.log.tracking)
  {
    if Idles(v, o) {
      SameFits(v, o.v, lif);
    } else if Lands(v, o) {
      LandFits(v, lif, events);
      SameFits(Land(v).v, o.v, lif);
    } else if Abandons(v, o) {
      GivenUpFits(v, o.v, lif);
    } else {
      LandFits(v, lif, events);
      GivenUpFits(Land(v).v, o.v, lif);
    }
  }

  lemma StepFits(v: Vehicle, move: Move, lif: Lif.LIF, events: seq<TrackEvent>)
    requires Tracked(v, events) && Fits(v, lif) && (move.ProcessorTurn? ==> move.layout == Some(lif))
    ensures Fits(Step(v, move).v, lif) && AllFit(lif, Step(v, move).log.tracking)
  {
    var o := Step(v, move);
    StepShape(v, move);
    if Idles(v, o) || Lands(v, o) || Abandons(v, o) || Restarts(v, o) {
      QuietFits(v, o, lif, events);
    } else {
      SendFits(v, o, lif, move.verdicts);
    }
  }

  lemma AllFitAppend(lif: Lif.LIF, a: seq<TrackEvent>, b: seq<TrackEvent>)
    requires AllFit(lif, a) && AllFit(lif, b)
    ensures AllFit(lif, a + b)
  {
  }

  lemma OneMoreFits(before: Outcome, move: Move, lif: Lif.LIF)
    requires Tracked(before.v, before.log.tracking) && Fits(before.v, lif) && AllFit(lif, before.log.tracking)
    requires move.ProcessorTurn? ==> move.layout == Some(lif)
    ensures var o := Then(before.log, Step(before.v, move)); Fits(o.v, lif) && AllFit(lif, o.log.tracking)
  {
    StepFits(before.v, move, lif, before.log.tracking);
    AllFitAppend(lif, before.log.tracking, Step(before.v, move).log.tracking);
  }

  lemma {:induction false} RunFits(v: Vehicle, moves: seq<Move>, lif: Lif.LIF)
    requires Tracked(v, []) && Fits(v, lif)
    requires forall i :: 0 <= i < |moves| && moves[i].ProcessorTurn? ==> moves[i].layout == Some(lif)
    ensures Fits(Run(v, moves).v, lif) && AllFit(lif, Run(v, moves).log.tracking)
    decreases |moves|
  {
    if moves != [] {
      var init := moves[..|moves| - 1];
      assert forall i :: 0 <= i < |init| ==> init[i] == moves[i];
      RunKeeps(v, init);
      RunFits(v, init, lif);
      OneMoreFits(Run(v, init), moves[|moves| - 1], lif);
    }
  }

  lemma {:induction false} VersionsFit(lif: Lif.LIF, events: seq<TrackEvent>)
    requires AllFit(lif, events)
    ensures forall i :: 0 <= i < |Versions(events)| ==> Integral(lif, Versions(events)[i])
    decreases |events|
  {
    if events != [] {
      VersionsFit(lif, events[..|events| - 1]);
      assert EventFits(lif, events[|events| - 1]);
    }
  }

  lemma ReleasedWalks(t: Tracker, events: seq<TrackEvent>, lif: Lif.LIF)
    requires Lined(t, events) && AllFit(lif, events)
    ensures var versions := Versions(events);
            versions != [] && !OrphanLed(events) && AllShort(versions) ==> WellFormed(GlueAll(versions)) && Walk(lif, Base(GlueAll(versions)))
  {
    var versions := Versions(events);
    VersionsFit(lif, events);
    if versions != [] && !OrphanLed(events) && AllShort(versions) {
      ShortIsSound(versions);
      ChainWalks(lif, versions);
    }
  }

  /** In any run of a new vehicle during which the loaded layout stays the same, every order sent leads to a valid
      route that is a directed walk in that layout, and the active order fits it. Unless the versions of the active order
      were started by an update whose base had been given up, all that was released in them is one directed walk. */
  lemma SentRoutesWalk(maxQueueSize: pos, dropOldest: bool, parentAlive: bool, moves: seq<Move>, lif: Lif.LIF)
    requires forall i :: 0 <= i < |moves| && moves[i].ProcessorTurn? ==> moves[i].layout == Some(lif)
    ensures var run := Run(NewVehicle(maxQueueSize, dropOldest, parentAlive), moves);
            var versions := Versions(run.log.tracking);
            && AllFit(lif, run.log.tracking)
            && (run.v.tracker.activeOrder.Some? ==> Integral(lif, run.v.tracker.activeOrder.value))
            && (versions != [] && !OrphanLed(run.log.tracking) && AllShort(versions) ==>
                  WellFormed(GlueAll(versions)) && Walk(lif, Base(GlueAll(versions))))
  {
    var v := NewVehicle(maxQueueSize, dropOldest, parentAlive);
    RunKeeps(v, moves);
    RunFits(v, moves, lif);
    ReleasedWalks(Run(v, moves).v.tracker, Run(v, moves).log.tracking, lif);
  }
}
