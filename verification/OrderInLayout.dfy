/** Checking an order against a loaded layout: what passes is a directed walk in it. */
module OrderInLayout {
  import opened Tables
  import Lif
  import opened GraphRebuild
  import opened LayoutGraph
  import opened Orders
  import opened Stitching

  datatype LoadedGraph = NoGraph | TheGraph(graph: Graph)

  // ---- What integrity means, by scanning the document ----

  /** The layout has a node of that id, on the map the order names, if it names one. */
  ghost predicate NodeKnown(lif: Lif.LIF, n: OrderNode) {
    exists p :: Has(Lif.NodeTable(lif), p) && Get(Lif.NodeTable(lif), p).nodeId == n.nodeId
      && (n.nodePosition.Some? ==> Get(Lif.NodeTable(lif), p).mapId == n.nodePosition.value.mapId)
  }

  /** The layout has an edge of that id joining the same two nodes in the same direction. */
  ghost predicate EdgeKnown(lif: Lif.LIF, e: OrderEdge) {
    exists p :: Has(Lif.EdgeTable(lif), p) && Get(Lif.EdgeTable(lif), p).edgeId == e.edgeId
      && Get(Lif.EdgeTable(lif), p).startNodeId == e.startNodeId && Get(Lif.EdgeTable(lif), p).endNodeId == e.endNodeId
  }

  ghost predicate Integral(lif: Lif.LIF, o: Order) {
    && (forall i :: 0 <= i < |o.nodes| ==> NodeKnown(lif, o.nodes[i]))
    && (forall i :: 0 <= i < |o.edges| ==> EdgeKnown(lif, o.edges[i]))
  }

  method ValidateGraphIntegrity(loaded: LoadedGraph, o: Order) returns (res: ValidationResult)
    requires loaded.TheGraph? ==> loaded.graph.Valid()
    ensures loaded.NoGraph? ==> res == ValidationResult([], [IntegrityCheckSkipped])
    ensures loaded.TheGraph? ==> res.warnings == [] && (res.Ok() <==> Integral(loaded.graph.lif, o))
  {
    res := NO_FINDINGS;
    if loaded.NoGraph? {
      return res.AddError(IntegrityCheckSkipped, WARNING);
    }
    var g := loaded.graph;
    for i := 0 to |o.nodes|
      invariant res.warnings == []
      invariant res.Ok() <==> forall j :: 0 <= j < i ==> NodeKnown(g.lif, o.nodes[j])
    {
      var kinds := CheckNode(g, o.nodes[i]);
      res := res.(fatal := res.fatal + kinds);
    }
    ghost var nodesOk := res.Ok();
    for i := 0 to |o.edges|
      invariant res.warnings == []
      invariant res.Ok() <==> nodesOk && forall j :: 0 <= j < i ==> EdgeKnown(g.lif, o.edges[j])
    {
      var kinds := CheckEdge(g, o.edges[i]);
      res := res.(fatal := res.fatal + kinds);
    }
  }

  method CheckNode(g: Graph, node: OrderNode) returns (kinds: seq<Kind>)
    requires g.Valid()
    ensures kinds == [] <==> NodeKnown(g.lif, node)
    ensures NodeNotInLayout in kinds <==> !Lif.HasNodeId(g.lif, node.nodeId)
  {
    var gn := g.FindNode(node.nodeId);
    g.IdsAreUnique();
    if gn.None? {
      assert !NodeKnown(g.lif, node) by {
        forall p | Has(Lif.NodeTable(g.lif), p) ensures Get(Lif.NodeTable(g.lif), p).nodeId != node.nodeId {
          assert Lif.NodeId(Get(Lif.NodeTable(g.lif), p)) != node.nodeId;
        }
      }
      return [NodeNotInLayout];
    }
    OnlyNode(g.lif, node, gn.value);
    if node.nodePosition.Some? && node.nodePosition.value.mapId != gn.value.mapId {
      return [MapMismatch];
    }
    return [];
  }

  lemma OnlyNode(lif: Lif.LIF, node: OrderNode, found: Lif.Node)
    requires UniqueIds(Lif.NodeTable(lif), Lif.NodeId) && found.nodeId == node.nodeId
    requires exists p :: Has(Lif.NodeTable(lif), p) && Get(Lif.NodeTable(lif), p) == found
    ensures NodeKnown(lif, node) <==> (node.nodePosition.Some? ==> found.mapId == node.nodePosition.value.mapId)
  {
    var t := Lif.NodeTable(lif);
    var q :| Has(t, q) && Get(t, q) == found;
    forall p | Has(t, p) && Get(t, p).nodeId == node.nodeId ensures p == q {
      assert Lif.NodeId(Get(t, p)) == Lif.NodeId(Get(t, q));
    }
  }

  method CheckEdge(g: Graph, edge: OrderEdge) returns (kinds: seq<Kind>)
    requires g.Valid()
    ensures kinds == [] <==> EdgeKnown(g.lif, edge)
    ensures EdgeNotInLayout in kinds <==> !Lif.HasEdgeId(g.lif, edge.edgeId)
  {
    var ge := g.FindEdge(edge.edgeId);
    g.IdsAreUnique();
    if ge.None? {
      assert !EdgeKnown(g.lif, edge) by {
        forall p | Has(Lif.EdgeTable(g.lif), p) ensures Get(Lif.EdgeTable(g.lif), p).edgeId != edge.edgeId {
          assert Lif.EdgeId(Get(Lif.EdgeTable(g.lif), p)) != edge.edgeId;
        }
      }
      return [EdgeNotInLayout];
    }
    OnlyEdge(g.lif, edge, ge.value);
    if ge.value.startNodeId != edge.startNodeId || ge.value.endNodeId != edge.endNodeId {
      return [EndpointsMismatch];
    }
    return [];
  }

  lemma OnlyEdge(lif: Lif.LIF, edge: OrderEdge, found: Lif.Edge)
    requires UniqueIds(Lif.EdgeTable(lif), Lif.EdgeId) && found.edgeId == edge.edgeId
    requires exists p :: Has(Lif.EdgeTable(lif), p) && Get(Lif.EdgeTable(lif), p) == found
    ensures EdgeKnown(lif, edge) <==> found.startNodeId == edge.startNodeId && found.endNodeId == edge.endNodeId
  {
    var t := Lif.EdgeTable(lif);
    var q :| Has(t, q) && Get(t, q) == found;
    forall p | Has(t, p) && Get(t, p).edgeId == edge.edgeId ensures p == q {
      assert Lif.EdgeId(Get(t, p)) == Lif.EdgeId(Get(t, q));
    }
  }

  // ---- The walk ----

  /** Each order edge leaves its node and enters the next one in the layout. */
  ghost predicate Walk(lif: Lif.LIF, o: Order) {
    |o.nodes| == |o.edges| + 1
    && forall i :: 0 <= i < |o.edges| ==>
         EdgeFrom(lif, o.edges[i].edgeId, o.nodes[i].nodeId) && EdgeTo(lif, o.edges[i].edgeId, o.nodes[i + 1].nodeId)
  }

  lemma WalkOfKnownEdges(lif: Lif.LIF, o: Order)
    requires WellFormed(o) && forall i :: 0 <= i < |o.edges| ==> EdgeKnown(lif, o.edges[i])
    ensures Walk(lif, o)
  {
    var k :| Shape(o, k);
    forall i | 0 <= i < |o.edges|
      ensures EdgeFrom(lif, o.edges[i].edgeId, o.nodes[i].nodeId) && EdgeTo(lif, o.edges[i].edgeId, o.nodes[i + 1].nodeId)
    {
      assert EdgeKnown(lif, o.edges[i]);
      var p :| Has(Lif.EdgeTable(lif), p) && Get(Lif.EdgeTable(lif), p).edgeId == o.edges[i].edgeId
        && Get(Lif.EdgeTable(lif), p).startNodeId == o.edges[i].startNodeId
        && Get(Lif.EdgeTable(lif), p).endNodeId == o.edges[i].endNodeId;
    }
  }

  /** A valid order graph that passes the integrity check is a directed walk in the layout. */
  lemma AcceptedOrderWalks(lif: Lif.LIF, o: Order)
    requires WellFormed(o) && Integral(lif, o)
    ensures Walk(lif, o)
  {
    WalkOfKnownEdges(lif, o);
  }

  /** The graph's own queries show the walk: each order edge is outbound at its node, inbound at the next,
      and so among the edges between the two. */
  lemma WalkInAdjacency(g: Graph, o: Order, i: nat)
    requires g.Valid() && WellFormed(o) && Integral(g.lif, o) && i < |o.edges|
    ensures g.OutboundEdges(o.nodes[i].nodeId).Some?
         && o.edges[i].edgeId in g.OutboundEdges(o.nodes[i].nodeId).value
    ensures g.InboundEdges(o.nodes[i + 1].nodeId).Some?
         && o.edges[i].edgeId in g.InboundEdges(o.nodes[i + 1].nodeId).value
    ensures EdgeFrom(g.lif, o.edges[i].edgeId, o.nodes[i].nodeId) && EdgeTo(g.lif, o.edges[i].edgeId, o.nodes[i + 1].nodeId)
  {
    AcceptedOrderWalks(g.lif, o);
    KnownNodeExists(g.lif, o.nodes[i]);
    KnownNodeExists(g.lif, o.nodes[i + 1]);
    assert EdgeFrom(g.lif, o.edges[i].edgeId, o.nodes[i].nodeId);
  }

  lemma KnownNodeExists(lif: Lif.LIF, n: OrderNode)
    requires NodeKnown(lif, n)
    ensures Lif.HasNodeId(lif, n.nodeId)
  {
    var p :| Has(Lif.NodeTable(lif), p) && Get(Lif.NodeTable(lif), p).nodeId == n.nodeId;
    assert Lif.NodeId(Get(Lif.NodeTable(lif), p)) == n.nodeId;
  }

  /** Both checks run on a loaded graph; when neither finds anything fatal, each order edge
      is among the edges between its node and the next. */
  method AcceptOrder(g: Graph, o: Order) returns (ok: bool)
    requires g.Valid()
    ensures ok <==> WellFormed(o) && Integral(g.lif, o)
    ensures ok ==> Walk(g.lif, o)
  {
    var graphResult := IsValidGraph(o);
    if !graphResult.Ok() {
      return false;
    }
    var integrity := ValidateGraphIntegrity(TheGraph(g), o);
    if integrity.Ok() {
      AcceptedOrderWalks(g.lif, o);
    }
    return integrity.Ok();
  }

  // ---- Chains of updates walk too ----

  lemma {:induction false} ReleasedEdgesKnown(lif: Lif.LIF, orders: seq<Order>)
    requires forall i :: 0 <= i < |orders| ==> Integral(lif, orders[i])
    ensures forall i :: 0 <= i < |ReleasedEdges(orders)| ==> EdgeKnown(lif, ReleasedEdges(orders)[i])
    decreases |orders|
  {
    if orders != [] {
      var init, o := orders[..|orders| - 1], orders[|orders| - 1];
      assert forall i :: 0 <= i < |init| ==> init[i] == orders[i];
      ReleasedEdgesKnown(lif, init);
      assert Integral(lif, o);
    }
  }

  /** The path glued from a chain of accepted updates, each integral, is one directed walk in the layout. */
  lemma ChainWalks(lif: Lif.LIF, orders: seq<Order>)
    requires Chain(orders) && forall i :: 0 <= i < |orders| ==> Integral(lif, orders[i])
    ensures WellFormed(GlueAll(orders)) && Walk(lif, Base(GlueAll(orders)))
  {
    ChainIsOnePath(orders);
    ReleasedEdgesKnown(lif, orders);
    WalkOfKnownEdges(lif, Base(GlueAll(orders)));
  }
}
