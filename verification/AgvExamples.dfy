/** Two runs of a vehicle that show what the laws about routes depend on. */
module AgvExamples {
  import opened Common
  import opened Tables
  import Lif
  import LayoutRules
  import opened Orders
  import opened OrderInLayout
  import opened OrderMerge
  import opened MasterTypes
  import opened OrderStitcher
  import opened OrderLifecycle
  import opened OrderPublisher
  import opened AgvSpec

  // ---- The orders ----

  /** Stand at a, b to come. */
  function Start(): Order {
    Order("o", 0, [Waypoint("a", 0, true), Waypoint("b", 2, false)], [Leg("ab", 1, "a", "b", false)], None)
  }

  /** Then go on to c: an update that names only what it adds, and is no valid order by itself. */
  function Onwards(): Order {
    Order("o", 1, [Waypoint("c", 4, false)], [Leg("bc", 3, "b", "c", false)], None)
  }

  /** Both together. */
  function Whole(): Order {
    Order("o", 1, [Waypoint("a", 0, true), Waypoint("b", 2, false), Waypoint("c", 4, false)],
          [Leg("ab", 1, "a", "b", false), Leg("bc", 3, "b", "c", false)], None)
  }

  lemma StartIsValid()
    ensures WellFormed(Start())
  {
    var o := Start();
    assert Spaced(o.nodes, NodeSeq, 0) && Spaced(o.edges, EdgeSeq, 1);
    assert Joined(o.nodes, o.edges, 0);
    RunIsShape(o, 0, 0);
  }

  lemma WholeIsValid()
    ensures WellFormed(Whole())
  {
    var o := Whole();
    assert Spaced(o.nodes, NodeSeq, 0) && Spaced(o.edges, EdgeSeq, 1);
    assert Joined(o.nodes, o.edges, 0) && Joined(o.nodes, o.edges, 1);
    RunIsShape(o, 0, 0);
  }

  lemma OnwardsIsNot()
    ensures !WellFormed(Onwards())
  {
    assert |Onwards().nodes| != |Onwards().edges| + 1;
  }

  lemma PlaceAtEnd<T>(m: Keyed<T>, x: T, key: T -> uint32, released: T -> bool)
    requires key(x) > m.maxSeq
    ensures Place(m, x, key, released) == Some(Keyed(m.list + [x], key(x)))
  {
  }

  lemma StartParts()
    ensures Anchor(Start()) == Some(Waypoint("a", 0, true)) && BaseEdgeSeq(Start().edges) == None
    ensures StartNodes(Start()) == Progress(Keyed(Start().nodes, 2), [])
    ensures StartEdges(Start()) == Progress(Keyed(Start().edges, 1), [])
  {
    var nodes, edges := Start().nodes, Start().edges;
    assert LastReleasedAt(nodes) == Some(0);
    assert nodes[1..][1..] == [] && nodes[1..][0] == Waypoint("b", 2, false);
    assert Preserved(nodes[1..], 0, true) == [Waypoint("b", 2, false)];
    assert edges[1..] == [] && edges[..0] == [];
    assert HorizonEdges(edges) == edges;
  }

  lemma MergeOfStart(lastNodeSeq: uint32)
    requires lastNodeSeq == 0
    ensures Combined(Start(), Onwards(), lastNodeSeq) == Merged(Whole())
  {
    StartParts();
    var n, e := Onwards().nodes[0], Onwards().edges[0];
    assert Onwards().nodes[..0] == [] && Onwards().edges[..0] == [];
    PlaceAtEnd(StartNodes(Start()).merge, n, NodeSeq, NodeReleased);
    PlaceAtEnd(StartEdges(Start()).merge, e, EdgeSeq, EdgeReleased);
    assert AddNodes(StartNodes(Start()), Anchor(Start()), Onwards().nodes) == Progress(Keyed(Start().nodes + [n], 4), []);
    assert AddEdges(StartEdges(Start()), None, Onwards().edges) == Progress(Keyed(Start().edges + [e], 3), []);
    assert Start().nodes + [n] == Whole().nodes && Start().edges + [e] == Whole().edges;
  }

  // ---- The layouts ----

  function Site(id: string): Lif.Node {
    Lif.Node(id, "map", Lif.NodePosition(0.0, 0.0), [Lif.VehicleTypeNodeProperty("v", None, None)], None, None)
  }

  function Lane(id: string, from: string, to: string): Lif.Edge {
    Lif.Edge(id, from, to,
             [Lif.VehicleTypeEdgeProperty("v", true, None, None, None, None, None, None, None, None, None, None, None, None)],
             None, None)
  }

  function Plan(nodes: seq<Lif.Node>, edges: seq<Lif.Edge>): Lif.LIF {
    Lif.LIF(Lif.MetaInformation("", "", "", ""), [Lif.Layout("l", "1", nodes, edges, [], None, None, None)])
  }

  /** Only a and b. */
  function OldPlan(): Lif.LIF {
    Plan([Site("a"), Site("b")], [Lane("ab", "a", "b")])
  }

  /** Only b and c. */
  function NewPlan(): Lif.LIF {
    Plan([Site("b"), Site("c")], [Lane("bc", "b", "c")])
  }

  /** A plan of two sites and the lane between them can be loaded. */
  lemma PlanIsLoadable(from: string, to: string, lane: string)
    requires from != to
    ensures LayoutRules.ValidLif(Plan([Site(from), Site(to)], [Lane(lane, from, to)]))
  {
    var lif := Plan([Site(from), Site(to)], [Lane(lane, from, to)]);
    PlanTables(lif);
    PlanResolves(lif, from, to, lane);
  }

  lemma PlanTables(lif: Lif.LIF)
    requires |lif.layouts| == 1
    ensures Lif.NodeTable(lif) == [lif.layouts[0].nodes] && Lif.EdgeTable(lif) == [lif.layouts[0].edges]
    ensures Lif.StationTable(lif) == [lif.layouts[0].stations]
  {
  }

  lemma PlanResolves(lif: Lif.LIF, from: string, to: string, lane: string)
    requires lif == Plan([Site(from), Site(to)], [Lane(lane, from, to)])
    ensures Lif.ReferencesResolve(lif)
  {
    PlanTables(lif);
    var t, l := Lif.NodeTable(lif), lif.layouts[0];
    assert Has(t, Pos(0, 1)) && Lif.NodeId(Get(t, Pos(0, 1))) == to;
    assert l.nodes[0].nodeId == from;
    assert Lif.RowHasNode(l, from);
  }

  /** Both plans can be loaded. */
  lemma PlansAreLoadable()
    ensures LayoutRules.ValidLif(OldPlan()) && LayoutRules.ValidLif(NewPlan())
  {
    assert "a"[0] != "b"[0] && "b"[0] != "c"[0];
    PlanIsLoadable("a", "b", "ab");
    PlanIsLoadable("b", "c", "bc");
  }

  lemma KnownNode(nodes: seq<Lif.Node>, edges: seq<Lif.Edge>, i: nat, n: OrderNode)
    requires i < |nodes| && nodes[i].nodeId == n.nodeId && n.nodePosition.None?
    ensures NodeKnown(Plan(nodes, edges), n)
  {
    var t := Lif.NodeTable(Plan(nodes, edges));
    assert t == [nodes];
    assert Has(t, Pos(0, i)) && Get(t, Pos(0, i)).nodeId == n.nodeId;
  }

  lemma KnownEdge(nodes: seq<Lif.Node>, edges: seq<Lif.Edge>, i: nat, e: OrderEdge)
    requires i < |edges| && edges[i] == Lane(e.edgeId, e.startNodeId, e.endNodeId)
    ensures EdgeKnown(Plan(nodes, edges), e)
  {
    var t := Lif.EdgeTable(Plan(nodes, edges));
    assert t == [edges];
    assert Has(t, Pos(0, i)) && Get(t, Pos(0, i)).edgeId == e.edgeId;
  }

  lemma StartFitsOldPlan()
    ensures Integral(OldPlan(), Start())
  {
    var o := Start();
    KnownNode([Site("a"), Site("b")], [Lane("ab", "a", "b")], 0, o.nodes[0]);
    KnownNode([Site("a"), Site("b")], [Lane("ab", "a", "b")], 1, o.nodes[1]);
    KnownEdge([Site("a"), Site("b")], [Lane("ab", "a", "b")], 0, o.edges[0]);
  }

  lemma OnwardsFitsNewPlan()
    ensures Integral(NewPlan(), Onwards())
  {
    var o := Onwards();
    KnownNode([Site("b"), Site("c")], [Lane("bc", "b", "c")], 1, o.nodes[0]);
    KnownEdge([Site("b"), Site("c")], [Lane("bc", "b", "c")], 0, o.edges[0]);
  }

  lemma WholeIsNoWalk()
    ensures !Integral(NewPlan(), Whole()) && !Walk(NewPlan(), Whole())
  {
    var t := Lif.EdgeTable(NewPlan());
    assert t == [[Lane("bc", "b", "c")]];
    assert Whole().edges[0] == Leg("ab", 1, "a", "b", false);
    assert "ab"[0] != "bc"[0];
    forall p | Has(t, p) ensures Get(t, p).edgeId != "ab" {
      assert Get(t, p) == Lane("bc", "b", "c");
    }
    assert !EdgeKnown(NewPlan(), Whole().edges[0]);
  }

  // ---- The vehicle, step by step ----

  /** A vehicle that stands at a, ready, and reports an order. */
  function Report(headerId: uint32, orderId: string): State {
    State(headerId, orderId, 0, "a", 0, [], [], [], None, None, Some(true), AUTOMATIC, NO_STOP)
  }

  const ALL_WELL := Verdicts(true, true, true, true, true)

  function TurnWith(lif: Lif.LIF): Move {
    ProcessorTurn(true, Some(lif), ALL_WELL)
  }

  function Connected(): Vehicle {
    NewVehicle(2, true, true).(connectionStatus := ONLINE, heartbeatActive := true, processorRunning := true)
  }

  /** After a report. */
  function Heard(v: Vehicle, report: State): Vehicle {
    v.(lastState := Some(report), lastStateHeaderId := report.headerId, haveStateBaseline := true, operationalState := AVAILABLE,
       tracker := Mirrored(v.tracker, report))
  }

  function Ready(): Vehicle {
    Heard(Connected(), Report(0, ""))
  }

  function Flying(v: Vehicle, order: Order, merged: Option<Order>): Vehicle {
    v.(inFlight := Some(Flight(order, merged, ContextOf(v))))
  }

  function Tracking(v: Vehicle, order: Order): Vehicle {
    v.(inFlight := None, tracker := v.tracker.(activeOrder := Some(order), activeOrderId := order.orderId, activeOrderUpdateId := order.orderUpdateId))
  }

  function Underway(): Vehicle {
    Heard(Tracking(Ready(), Start()), Report(1, "o"))
  }

  function Updating(): Vehicle {
    Flying(Underway(), Onwards(), Some(Whole()))
  }

  lemma Connects()
    ensures Step(NewVehicle(2, true, true), ConnectionMessage(ONLINE, true)).v == Connected()
    ensures Step(NewVehicle(2, true, true), ConnectionMessage(ONLINE, true)).log.tracking == []
  {
  }

  /** A report after which nothing waits and nothing is released. */
  lemma JustTracks(v: Vehicle, report: State, seen: Observation)
    requires v.haveStateBaseline ==> v.lastStateHeaderId <= report.headerId
    requires seen == Observed(v.tracker, report) && seen.ready == [] && seen.tracker.pending == [] && MasterInControl(report.operatingMode)
    ensures var o := HandleState(v, report, true, 0);
            o.v == Heard(v, report).(tracker := seen.tracker) && o.log.tracking == if seen.cleared then [Abandoned] else []
  {
    assert v.orderQueue + Queued([], true) == v.orderQueue;
    assert Fresh([]) + seen.tracker.pending == seen.tracker.pending;
  }

  /** A report that neither completes nor ends anything, with nothing waiting. */
  lemma NothingNew(t: Tracker, report: State)
    requires t.haveStateBaseline ==> t.lastStateHeaderId <= report.headerId
    requires t.pending == [] && (t.activeOrderId == "" || report.orderId == t.activeOrderId)
    requires t.strikes == Strikes(0, 0) && !ReportsCompletion(t, report)
    ensures Observed(t, report) == Observation(Mirrored(t, report), [], [], None, false)
  {
    assert TickOf(t, report) == Tick(Strikes(0, 0), false);
    assert DrainedBy(Mirrored(t, report)) == Drained([], [], []);
  }

  lemma Hears(v: Vehicle, report: State)
    requires v.haveStateBaseline ==> v.lastStateHeaderId <= report.headerId
    requires v.tracker.haveStateBaseline ==> v.tracker.lastStateHeaderId <= report.headerId
    requires v.tracker.pending == [] && (v.tracker.activeOrderId == "" || report.orderId == v.tracker.activeOrderId)
    requires v.tracker.strikes == Strikes(0, 0) && !ReportsCompletion(v.tracker, report)
    requires MasterInControl(report.operatingMode)
    ensures HandleState(v, report, true, 0).v == Heard(v, report) && HandleState(v, report, true, 0).log.tracking == []
  {
    NothingNew(v.tracker, report);
    JustTracks(v, report, Observation(Mirrored(v.tracker, report), [], [], None, false));
  }

  /** An idle vehicle with one order in its queue sends it. */
  lemma SendsIt(v: Vehicle, order: Order, route: Order)
    requires v.orderQueue == [QueuedOrder(order, false)] && v.instantActionsQueue == [] && v.inFlight.None? && v.processorRunning
    requires Decide(order, ViewOf(v.tracker)) == SEND_NOW && RouteOf(ContextOf(v), order, ActiveOf(v.tracker)) == Some(route)
    ensures var o := Turn(v, true, true);
            && o.v == Flying(v.(orderQueue := []), order, if IsUpdate(ActiveOf(v.tracker), order) then Some(route) else None)
            && o.log.tracking == [Published(route)] && o.log.orders == [Taken(order), Sent(order)]
  {
    assert v.orderQueue[1..] == [];
  }

  function Given(v: Vehicle, order: Order): Vehicle {
    v.(orderQueue := [QueuedOrder(order, false)])
  }

  lemma IsGiven(v: Vehicle, order: Order)
    requires v.orderQueue == []
    ensures SendOrder(v, order).v == Given(v, order) && SendOrder(v, order).log.tracking == []
  {
  }

  /** An idle vehicle that was given an order sends it. */
  lemma Goes(v: Vehicle, order: Order, lif: Lif.LIF, merged: Option<Order>)
    requires v.orderQueue == [] && v.instantActionsQueue == [] && v.inFlight.None? && v.processorRunning
    requires Decide(order, ViewOf(v.tracker)) == SEND_NOW && Sendable(ContextOf(v), order, ActiveOf(v.tracker), Some(lif), ALL_WELL)
    requires merged == if IsUpdate(ActiveOf(v.tracker), order) then RouteOf(ContextOf(v), order, ActiveOf(v.tracker)) else None
    ensures var o := Step(Given(v, order), TurnWith(lif));
            && o.v == Flying(v, order, merged) && o.log.orders == [Taken(order), Sent(order)]
            && o.log.tracking == [Published(if merged.Some? then merged.value else order)]
  {
    assert HeadPasses(Given(v, order), Some(lif), ALL_WELL);
    SendsIt(Given(v, order), order, RouteOf(ContextOf(v), order, ActiveOf(v.tracker)).value);
  }

  lemma StartGoes()
    ensures Decide(Start(), ViewOf(Ready().tracker)) == SEND_NOW
    ensures Sendable(ContextOf(Ready()), Start(), ActiveOf(Ready().tracker), Some(OldPlan()), ALL_WELL)
  {
    StartIsValid();
    StartFitsOldPlan();
  }

  lemma OnwardsGoes()
    ensures Decide(Onwards(), ViewOf(Underway().tracker)) == SEND_NOW
    ensures Sendable(ContextOf(Underway()), Onwards(), ActiveOf(Underway().tracker), Some(NewPlan()), ALL_WELL)
    ensures IsUpdate(ActiveOf(Underway().tracker), Onwards())
    ensures RouteOf(ContextOf(Underway()), Onwards(), ActiveOf(Underway().tracker)) == Some(Whole())
  {
    WholeIsValid();
    OnwardsFitsNewPlan();
    MergeOfStart(0);
    StartParts();
    assert ActiveOf(Underway().tracker) == Some(Start());
  }

  // ---- The runs ----

  /** Where a new vehicle gets by these moves, and what its tracking went through. */
  ghost predicate After(moves: seq<Move>, v: Vehicle, events: seq<TrackEvent>) {
    Run(NewVehicle(2, true, true), moves).v == v && Run(NewVehicle(2, true, true), moves).log.tracking == events
  }

  lemma AfterMore(moves: seq<Move>, v: Vehicle, events: seq<TrackEvent>, move: Move)
    requires After(moves, v, events)
    ensures After(moves + [move], Step(v, move).v, events + Step(v, move).log.tracking)
  {
    RunMore(NewVehicle(2, true, true), moves, move);
  }

  /** Connect, report, send the first order and record it, report again. */
  lemma GetUnderway() returns (moves: seq<Move>)
    ensures After(moves, Underway(), [Published(Start()), Began(Start())])
  {
    moves := GetReady();
    moves := SendStart(moves);
    moves := RecordStart(moves);
    var events := [Published(Start()), Began(Start())];
    assert events + [] == events;
    Hears(Tracking(Ready(), Start()), Report(1, "o"));
    AfterMore(moves, Tracking(Ready(), Start()), events, StateMessage(Report(1, "o"), true, 0));
    moves := moves + [StateMessage(Report(1, "o"), true, 0)];
  }

  lemma RecordStart(before: seq<Move>) returns (moves: seq<Move>)
    requires After(before, Flying(Ready(), Start(), None), [Published(Start())])
    ensures After(moves, Tracking(Ready(), Start()), [Published(Start()), Began(Start())])
  {
    Lands();
    AfterMore(before, Flying(Ready(), Start(), None), [Published(Start())], TurnWith(OldPlan()));
    moves := before + [TurnWith(OldPlan())];
    assert [Published(Start())] + [Began(Start())] == [Published(Start()), Began(Start())];
  }

  lemma GetReady() returns (moves: seq<Move>)
    ensures After(moves, Ready(), [])
  {
    Connects();
    AfterMore([], NewVehicle(2, true, true), [], ConnectionMessage(ONLINE, true));
    moves := [] + [ConnectionMessage(ONLINE, true)];
    Hears(Connected(), Report(0, ""));
    AfterMore(moves, Connected(), [], StateMessage(Report(0, ""), true, 0));
    moves := moves + [StateMessage(Report(0, ""), true, 0)];
  }

  lemma SendStart(before: seq<Move>) returns (moves: seq<Move>)
    requires After(before, Ready(), [])
    ensures After(moves, Flying(Ready(), Start(), None), [Published(Start())])
  {
    StartGoes();
    IsGiven(Ready(), Start());
    Goes(Ready(), Start(), OldPlan(), None);
    AfterMore(before, Ready(), [], Client(SendAnOrder(Start())));
    moves := before + [Client(SendAnOrder(Start()))];
    AfterMore(moves, Given(Ready(), Start()), [] + [], TurnWith(OldPlan()));
    moves := moves + [TurnWith(OldPlan())];
  }

  lemma Lands()
    ensures Step(Flying(Ready(), Start(), None), TurnWith(OldPlan())).v == Tracking(Ready(), Start())
    ensures Step(Flying(Ready(), Start(), None), TurnWith(OldPlan())).log.tracking == [Began(Start())]
  {
  }

  /** The update is sent while the new layout is loaded. */
  lemma SendOnwards(before: seq<Move>, events: seq<TrackEvent>) returns (moves: seq<Move>)
    requires After(before, Underway(), events)
    ensures SentLast(moves, Start(), Onwards(), Whole(), NewPlan())
    ensures After(moves, Updating(), events + [Published(Whole())])
  {
    IsGiven(Underway(), Onwards());
    AfterMore(before, Underway(), events, Client(SendAnOrder(Onwards())));
    moves := before + [Client(SendAnOrder(Onwards()))];
    assert events + [] == events;
    OnwardsLeaves();
    AfterMore(moves, Given(Underway(), Onwards()), events, TurnWith(NewPlan()));
    SendingIsLast(moves, Given(Underway(), Onwards()), events, Start(), Onwards(), Whole(), NewPlan());
    moves := moves + [TurnWith(NewPlan())];
  }

  lemma OnwardsLeaves()
    ensures Sends(Given(Underway(), Onwards()), Start(), Onwards(), Whole(), NewPlan())
    ensures Step(Given(Underway(), Onwards()), TurnWith(NewPlan())).v == Updating()
  {
    OnwardsGoes();
    GoesAs(Underway(), Start(), Onwards(), NewPlan(), Whole());
  }

  lemma GoesAs(v: Vehicle, active: Order, order: Order, lif: Lif.LIF, route: Order)
    requires v.orderQueue == [] && v.instantActionsQueue == [] && v.inFlight.None? && v.processorRunning
    requires Decide(order, ViewOf(v.tracker)) == SEND_NOW && Sendable(ContextOf(v), order, ActiveOf(v.tracker), Some(lif), ALL_WELL)
    requires v.tracker.activeOrder == Some(active) && IsUpdate(ActiveOf(v.tracker), order)
    requires RouteOf(ContextOf(v), order, ActiveOf(v.tracker)) == Some(route)
    ensures Sends(Given(v, order), active, order, route, lif)
    ensures Step(Given(v, order), TurnWith(lif)).v == Flying(v, order, Some(route))
  {
    Goes(v, order, lif, Some(route));
  }

  /** While that order is active, the head of the queue is another: with that layout loaded it passes every check,
      and a turn sends it, leading to that route. */
  ghost predicate Sends(v: Vehicle, active: Order, order: Order, route: Order, lif: Lif.LIF) {
    && v.tracker.activeOrder == Some(active) && v.orderQueue == [QueuedOrder(order, false)]
    && HeadPasses(v, Some(lif), ALL_WELL)
    && Step(v, TurnWith(lif)).log.orders == [Taken(order), Sent(order)]
    && Step(v, TurnWith(lif)).log.tracking == [Published(route)]
  }

  ghost predicate SentLast(moves: seq<Move>, active: Order, order: Order, route: Order, lif: Lif.LIF) {
    moves != [] && moves[|moves| - 1] == TurnWith(lif)
    && Sends(Run(NewVehicle(2, true, true), moves[..|moves| - 1]).v, active, order, route, lif)
  }

  lemma SendingIsLast(before: seq<Move>, v: Vehicle, events: seq<TrackEvent>, active: Order, order: Order, route: Order, lif: Lif.LIF)
    requires After(before, v, events) && Sends(v, active, order, route, lif)
    ensures SentLast(before + [TurnWith(lif)], active, order, route, lif)
  {
    var moves := before + [TurnWith(lif)];
    assert moves[..|moves| - 1] == before;
  }

  /** A run in which the layout is swapped under an active order that fits the old one: with the new layout loaded
      the update passes every check and is sent, yet the route it leads to is no walk there. Both layouts can be loaded. */
  lemma SwapLosesTheRoute() returns (moves: seq<Move>)
    ensures LayoutRules.ValidLif(OldPlan()) && LayoutRules.ValidLif(NewPlan())
    ensures Integral(OldPlan(), Start()) && SentLast(moves, Start(), Onwards(), Whole(), NewPlan())
    ensures WellFormed(Whole()) && !Integral(NewPlan(), Whole()) && !Walk(NewPlan(), Whole())
  {
    PlansAreLoadable();
    StartFitsOldPlan();
    var before := GetUnderway();
    moves := SendOnwards(before, [Published(Start()), Began(Start())]);
    WholeIsValid();
    WholeIsNoWalk();
  }

  /** The vehicle reports another order. */
  function Strayed(v: Vehicle, report: State, strikes: nat): Vehicle {
    var heard := Heard(v, report);
    heard.(tracker := heard.tracker.(strikes := Strikes(strikes, 0)))
  }

  function Gone(v: Vehicle, report: State): Vehicle {
    var heard := Heard(v, report);
    heard.(tracker := Forgotten(heard.tracker).(strikes := Strikes(0, 0)))
  }

  /** A tracker with nothing waiting whose vehicle starts to report another order. */
  ghost predicate LosesSight(t: Tracker, headerId: uint32) {
    && (t.haveStateBaseline ==> t.lastStateHeaderId <= headerId)
    && t.pending == [] && t.activeOrderId == "o" && t.previousOrderId == "" && t.strikes.lag == 0
  }

  lemma StrikeIs(t: Tracker, headerId: uint32)
    requires LosesSight(t, headerId) && t.strikes.mismatch < 3
    ensures TickOf(t, Report(headerId, "x")) ==
            if t.strikes.mismatch < 2 then Tick(Strikes(t.strikes.mismatch + 1, 0), false) else Tick(Strikes(0, 0), true)
  {
    assert "x"[0] != "o"[0];
  }

  lemma StrayIsObserved(t: Tracker, headerId: uint32)
    requires LosesSight(t, headerId) && t.strikes.mismatch < 2
    ensures Observed(t, Report(headerId, "x"))
         == Observation(Mirrored(t, Report(headerId, "x")).(strikes := Strikes(t.strikes.mismatch + 1, 0)), [], [], None, false)
  {
    StrikeIs(t, headerId);
    assert "x"[0] != "o"[0];
    assert !ReportsCompletion(t, Report(headerId, "x"));
  }

  lemma LossIsObserved(t: Tracker, headerId: uint32)
    requires LosesSight(t, headerId) && t.strikes.mismatch == 2
    ensures Observed(t, Report(headerId, "x"))
         == Observation(Forgotten(Mirrored(t, Report(headerId, "x"))).(strikes := Strikes(0, 0)), [], [], None, true)
  {
    StrikeIs(t, headerId);
    assert PendingOrders(t.pending) == [];
  }

  lemma Strays(v: Vehicle, headerId: uint32)
    requires (v.haveStateBaseline ==> v.lastStateHeaderId <= headerId) && LosesSight(v.tracker, headerId) && v.tracker.strikes.mismatch < 2
    ensures HandleState(v, Report(headerId, "x"), true, 0).v == Strayed(v, Report(headerId, "x"), v.tracker.strikes.mismatch + 1)
    ensures HandleState(v, Report(headerId, "x"), true, 0).log.tracking == []
  {
    StrayIsObserved(v.tracker, headerId);
    var report := Report(headerId, "x");
    JustTracks(v, report, Observation(Mirrored(v.tracker, report).(strikes := Strikes(v.tracker.strikes.mismatch + 1, 0)), [], [], None, false));
  }

  lemma Vanishes(v: Vehicle, headerId: uint32)
    requires (v.haveStateBaseline ==> v.lastStateHeaderId <= headerId) && LosesSight(v.tracker, headerId) && v.tracker.strikes.mismatch == 2
    ensures HandleState(v, Report(headerId, "x"), true, 0).v == Gone(v, Report(headerId, "x"))
    ensures HandleState(v, Report(headerId, "x"), true, 0).log.tracking == [Abandoned]
  {
    LossIsObserved(v.tracker, headerId);
    var report := Report(headerId, "x");
    JustTracks(v, report, Observation(Forgotten(Mirrored(v.tracker, report)).(strikes := Strikes(0, 0)), [], [], None, true));
  }

  /** Three reports of another order, and the tracking is given up with the update still in flight. */
  function Once(): Vehicle { Strayed(Updating(), Report(2, "x"), 1) }
  function Twice(): Vehicle { Strayed(Once(), Report(3, "x"), 2) }
  function Adrift(): Vehicle { Gone(Twice(), Report(4, "x")) }

  lemma StrayOnce(before: seq<Move>, events: seq<TrackEvent>, v: Vehicle, headerId: uint32) returns (moves: seq<Move>)
    requires After(before, v, events)
    requires (v.haveStateBaseline ==> v.lastStateHeaderId <= headerId) && LosesSight(v.tracker, headerId) && v.tracker.strikes.mismatch <= 2
    ensures v.tracker.strikes.mismatch < 2 ==> After(moves, Strayed(v, Report(headerId, "x"), v.tracker.strikes.mismatch + 1), events)
    ensures v.tracker.strikes.mismatch == 2 ==> After(moves, Gone(v, Report(headerId, "x")), events + [Abandoned])
  {
    assert events + [] == events;
    if v.tracker.strikes.mismatch < 2 {
      Strays(v, headerId);
    } else {
      Vanishes(v, headerId);
    }
    AfterMore(before, v, events, StateMessage(Report(headerId, "x"), true, 0));
    moves := before + [StateMessage(Report(headerId, "x"), true, 0)];
  }

  lemma GetLost(before: seq<Move>, events: seq<TrackEvent>) returns (moves: seq<Move>)
    requires After(before, Updating(), events)
    ensures After(moves, Adrift(), events + [Abandoned])
  {
    moves := StrayOnce(before, events, Updating(), 2);
    moves := StrayOnce(moves, events, Once(), 3);
    moves := StrayOnce(moves, events, Twice(), 4);
  }

  lemma LandsOrphaned()
    ensures Step(Adrift(), TurnWith(NewPlan())).v.tracker.activeOrder == Some(Onwards())
    ensures Step(Adrift(), TurnWith(NewPlan())).log.tracking == [Orphaned(Onwards(), Whole())]
  {
  }

  /** A run after which the tracked active order is no valid order: its base was given up while the update was in flight,
      so the bare update was recorded. */
  lemma UpdateIsOrphaned() returns (moves: seq<Move>)
    ensures Run(NewVehicle(2, true, true), moves).v.tracker.activeOrder == Some(Onwards()) && !WellFormed(Onwards())
  {
    var before := GetUnderway();
    var events: seq<TrackEvent> := [Published(Start()), Began(Start())];
    moves := SendOnwards(before, events);
    moves := GetLost(moves, events + [Published(Whole())]);
    LandsOrphaned();
    AfterMore(moves, Adrift(), events + [Published(Whole())] + [Abandoned], TurnWith(NewPlan()));
    moves := moves + [TurnWith(NewPlan())];
    OnwardsIsNot();
  }
}
