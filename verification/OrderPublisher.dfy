/** The checks every outgoing order passes before it is put on the wire. */
module OrderPublisher {
  import opened Common
  import opened Orders
  import opened Stitching
  import Lif
  import opened OrderInLayout
  import opened OrderMerge
  import opened MasterTypes

  /** What the master knows about the vehicle when it sends. */
  datatype Context = Context(connection: ConnectionState, lastState: Option<State>, operationalState: AGVState)

  /** Outcomes of the checks that are not modelled here. */
  datatype Verdicts = Verdicts(content: bool, limits: bool, reachable: bool, capable: bool, brokerConnected: bool)

  predicate ReadyToSend(ctx: Context) {
    && ctx.connection == ONLINE
    && ctx.operationalState == AVAILABLE
    && ctx.lastState.Some?
    && MasterInControl(ctx.lastState.value.operatingMode)
    && ctx.lastState.value.paused != Some(true)
    && ctx.lastState.value.eStop == NO_STOP
    && ctx.lastState.value.positionInitialized == Some(true)
  }

  predicate IsUpdate(active: Option<Order>, order: Order) {
    active.Some? && active.value.orderId == order.orderId
  }

  function LastSeqOf(ctx: Context): uint32 {
    if ctx.lastState.Some? then ctx.lastState.value.lastNodeSequenceId else 0
  }

  /** An update merged into the active order; nothing if it cannot be merged. */
  function MergedOf(ctx: Context, order: Order, active: Order): Option<Order> {
    match Combined(active, order, LastSeqOf(ctx))
    case Merged(route) => Some(route)
    case Refused(_) => None
  }

  /** The route the vehicle ends up with: the update merged into the active order, or the order itself. */
  function RouteOf(ctx: Context, order: Order, active: Option<Order>): Option<Order> {
    if IsUpdate(active, order) then MergedOf(ctx, order, active.value) else Some(order)
  }

  /** There is a route, and it is a valid order. */
  ghost predicate Routable(ctx: Context, order: Order, active: Option<Order>) {
    RouteOf(ctx, order, active).Some? && WellFormed(RouteOf(ctx, order, active).value)
  }

  /** The layout document behind a loaded graph. */
  ghost function LayoutOf(loaded: LoadedGraph): Option<Lif.LIF>
    reads if loaded.TheGraph? then {loaded.graph} else {}
  {
    if loaded.TheGraph? then Some(loaded.graph.lif) else None
  }

  /** Every check on an outgoing order passes. */
  ghost predicate Sendable(ctx: Context, order: Order, active: Option<Order>, layout: Option<Lif.LIF>, v: Verdicts) {
    && order.orderId != "" && v.content
    && ReadyToSend(ctx)
    && Routable(ctx, order, active)
    && v.limits
    && (IsUpdate(active, order) || v.reachable)
    && (layout.Some? ==> Integral(layout.value, order))
    && v.capable
    && v.brokerConnected
  }

  /** An order goes out exactly when every check passes; an update hands back the merged order. */
  method Publish(ctx: Context, order: Order, active: Option<Order>, loaded: LoadedGraph, v: Verdicts)
    returns (sent: bool, merged: Option<Order>)
    requires loaded.TheGraph? ==> loaded.graph.Valid()
    ensures sent <==> Sendable(ctx, order, active, LayoutOf(loaded), v)
    ensures sent ==> merged == if IsUpdate(active, order) then RouteOf(ctx, order, active) else None
    ensures sent ==> order.orderId != "" && WellFormed(if merged.Some? then merged.value else order)
  {
    sent, merged := false, None;
    if order.orderId == "" || !v.content || !ReadyToSend(ctx) {
      return;
    }
    var routeOk;
    routeOk, merged := CheckRoute(ctx, order, active);
    if !routeOk || !v.limits || (merged.None? && !v.reachable) {
      return;
    }
    var integrity := ValidateGraphIntegrity(loaded, order);
    sent := integrity.Ok() && v.capable && v.brokerConnected;
  }

  /** The graph check, on the merged order for an update. */
  method CheckRoute(ctx: Context, order: Order, active: Option<Order>) returns (ok: bool, merged: Option<Order>)
    ensures ok <==> Routable(ctx, order, active)
    ensures ok ==> merged == if IsUpdate(active, order) then RouteOf(ctx, order, active) else None
  {
    ok, merged := false, None;
    if IsUpdate(active, order) {
      var combined := CombineOrder(active.value, order, LastSeqOf(ctx));
      if combined.Refused? {
        return;
      }
      var graphResult := IsValidGraph(combined.order);
      ok := graphResult.Ok() && graphResult.warnings == [];
      merged := Some(combined.order);
    } else {
      var graphResult := IsValidGraph(order);
      ok := graphResult.Ok();
    }
  }

  /** An update that is sent continues the active order's base and never changes it,
      and is sent only while the vehicle is not beyond that base. */
  lemma SentUpdateContinuesBase(ctx: Context, order: Order, active: Order, route: Order)
    requires WellFormed(active) && AnchorFirst(active) && IsUpdate(Some(active), order)
    requires MergedOf(ctx, order, active) == Some(route) && WellFormed(route)
    ensures AcceptedUpdate(active, route) && route.orderId == active.orderId && active.orderUpdateId < route.orderUpdateId
    ensures LastSeqOf(ctx) <= active.nodes[Split(active)].sequenceId
  {
    MergedIsAcceptedUpdate(active, order, LastSeqOf(ctx));
  }

  // ---- Sent routes and the layout ----

  /** What stays of the active order when the update is merged is known to the layout: its stitch node,
      and those horizon nodes and edges whose sequence ids the update does not use. */
  ghost predicate RestKnown(lif: Lif.LIF, active: Order, order: Order) {
    && (forall i :: 0 <= i < |active.nodes| && NodeStays(active, order, i) ==> NodeKnown(lif, active.nodes[i]))
    && (forall i :: 0 <= i < |active.edges| && EdgeStays(active, order, i) ==> EdgeKnown(lif, active.edges[i]))
  }

  /** An update is checked against the layout by itself, so the route it leads to fits the layout exactly when
      what stays of the active order does. */
  lemma RouteFitsIffRestKnown(ctx: Context, order: Order, active: Order, lif: Lif.LIF, v: Verdicts)
    requires Sendable(ctx, order, Some(active), Some(lif), v) && IsUpdate(Some(active), order)
    requires |active.nodes| + |order.nodes| <= 0x8000_0000
    ensures Integral(lif, RouteOf(ctx, order, Some(active)).value) <==> RestKnown(lif, active, order)
  {
    var route := RouteOf(ctx, order, Some(active)).value;
    MergeIsNoLonger(active, order, LastSeqOf(ctx));
    if Integral(lif, route) {
      RestIsPartOfRoute(active, order, LastSeqOf(ctx), route, lif);
    }
    if RestKnown(lif, active, order) {
      RouteIsRestOrUpdate(active, order, LastSeqOf(ctx), route, lif);
    }
  }

  lemma RestIsPartOfRoute(active: Order, order: Order, lastNodeSeq: uint32, route: Order, lif: Lif.LIF)
    requires Combined(active, order, lastNodeSeq) == Merged(route) && Integral(lif, route)
    ensures RestKnown(lif, active, order)
  {
    StayingIsMerged(active, order, lastNodeSeq);
  }

  lemma RouteIsRestOrUpdate(active: Order, order: Order, lastNodeSeq: uint32, route: Order, lif: Lif.LIF)
    requires Combined(active, order, lastNodeSeq) == Merged(route) && WellFormed(route) && |route.nodes| <= 0x8000_0000
    requires RestKnown(lif, active, order) && Integral(lif, order)
    ensures Integral(lif, route)
  {
    MergedIsRestOrUpdate(active, order, lastNodeSeq);
    forall i | 0 <= i < |route.nodes| ensures NodeKnown(lif, route.nodes[i]) {
      assert route.nodes[i] in route.nodes;
    }
    forall i | 0 <= i < |route.edges| ensures EdgeKnown(lif, route.edges[i]) {
      assert route.edges[i] in route.edges;
    }
  }

  /** The nodes and edges from these positions on are known. */
  ghost predicate KnownFrom(lif: Lif.LIF, nodes: seq<OrderNode>, edges: seq<OrderEdge>, node: nat, edge: nat) {
    && (forall i :: node <= i < |nodes| ==> NodeKnown(lif, nodes[i]))
    && (forall i :: edge <= i < |edges| ==> EdgeKnown(lif, edges[i]))
  }

  /** The same by position, for an accepted update whose sequence ids do not wrap where it overlaps the active order:
      what matters is the old horizon behind the end of the update. */
  lemma RouteFitsIffTailKnown(ctx: Context, order: Order, active: Order, lif: Lif.LIF, v: Verdicts)
    requires Sendable(ctx, order, Some(active), Some(lif), v) && Mergeable(active, order)
    ensures Integral(lif, RouteOf(ctx, order, Some(active)).value) <==>
            KnownFrom(lif, active.nodes, active.edges, Split(active) + |order.nodes|, Split(active) + |order.edges|)
  {
    MergeOfAcceptedUpdate(active, order, LastSeqOf(ctx));
    TailDecides(active, order, lif, Split(active));
  }

  lemma TailDecides(active: Order, order: Order, lif: Lif.LIF, k: nat)
    requires Mergeable(active, order) && Integral(lif, order) && k == Split(active)
    ensures Integral(lif, MergedOrder(active, order)) <==>
            KnownFrom(lif, active.nodes, active.edges, k + |order.nodes|, k + |order.edges|)
  {
    var top, route := [active.nodes[k]] + order.nodes[1..], MergedOrder(active, order);
    assert SameNode(order.nodes[0], active.nodes[k]) && NodeKnown(lif, order.nodes[0]);
    assert forall i :: 0 < i < |top| ==> top[i] == order.nodes[i];
    assert Integral(lif, route) == KnownFrom(lif, route.nodes, route.edges, 0, 0);
    NodesUnderneath(lif, top, active.nodes, k);
    EdgesUnderneath(lif, order.edges, active.edges, k);
  }

  /** What lies on top is known, so all is known iff the uncovered rest is. */
  lemma NodesUnderneath(lif: Lif.LIF, top: seq<OrderNode>, nodes: seq<OrderNode>, k: nat)
    requires k <= |nodes| && forall i :: 0 <= i < |top| ==> NodeKnown(lif, top[i])
    ensures KnownFrom(lif, Overlay(top, nodes[k..]), [], 0, 0) <==> KnownFrom(lif, nodes, [], k + |top|, 0)
  {
    var all := Overlay(top, nodes[k..]);
    if KnownFrom(lif, all, [], 0, 0) {
      forall i | k + |top| <= i < |nodes| ensures NodeKnown(lif, nodes[i]) {
        assert all[i - k] == nodes[i];
      }
    }
  }

  lemma EdgesUnderneath(lif: Lif.LIF, top: seq<OrderEdge>, edges: seq<OrderEdge>, k: nat)
    requires k <= |edges| && forall i :: 0 <= i < |top| ==> EdgeKnown(lif, top[i])
    ensures KnownFrom(lif, [], Overlay(top, edges[k..]), 0, 0) <==> KnownFrom(lif, [], edges, 0, k + |top|)
  {
    var all := Overlay(top, edges[k..]);
    if KnownFrom(lif, [], all, 0, 0) {
      forall i | k + |top| <= i < |edges| ensures EdgeKnown(lif, edges[i]) {
        assert all[i - k] == edges[i];
      }
    }
  }

  lemma FittingMerge(active: Order, order: Order, lastNodeSeq: uint32, route: Order, lif: Lif.LIF)
    requires Combined(active, order, lastNodeSeq) == Merged(route) && Integral(lif, active) && Integral(lif, order)
    ensures Integral(lif, route)
  {
    MergeInventsNothing(active, order, lastNodeSeq);
    forall i | 0 <= i < |route.nodes| ensures NodeKnown(lif, route.nodes[i]) {
      assert route.nodes[i] in active.nodes || route.nodes[i] in order.nodes;
    }
    forall i | 0 <= i < |route.edges| ensures EdgeKnown(lif, route.edges[i]) {
      assert route.edges[i] in active.edges || route.edges[i] in order.edges;
    }
  }

  /** The route of an order sent with a layout loaded is a directed walk in that layout, if for an update
      the active order fits the same layout. */
  lemma SentRouteWalks(ctx: Context, order: Order, active: Option<Order>, lif: Lif.LIF, v: Verdicts)
    requires Sendable(ctx, order, active, Some(lif), v)
    requires IsUpdate(active, order) ==> Integral(lif, active.value)
    ensures var route := RouteOf(ctx, order, active).value;
            WellFormed(route) && Integral(lif, route) && Walk(lif, route)
  {
    var route := RouteOf(ctx, order, active).value;
    if IsUpdate(active, order) {
      FittingMerge(active.value, order, LastSeqOf(ctx), route, lif);
    }
    AcceptedOrderWalks(lif, route);
  }

  /** The zone set of the base plays no part in a merge. */
  lemma ZoneIgnored(base: Order, zone: Option<string>, update: Order, lastNodeSeq: uint32)
    ensures Combined(base.(zoneSetId := zone), update, lastNodeSeq) == Combined(base, update, lastNodeSeq)
  {
    var other := base.(zoneSetId := zone);
    assert Anchor(other) == Anchor(base);
    assert StartNodes(other) == StartNodes(base) && StartEdges(other) == StartEdges(base);
  }
}
