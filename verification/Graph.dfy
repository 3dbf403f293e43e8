/** The layout graph: a document it owns and the seven hash indices it patches in place. */
module LayoutGraph {
  import opened Common
  import opened Tables
  import opened ReverseIndex
  import opened Lif
  import LayoutRules
  import opened GraphSpec
  import opened GraphIndex
  import opened GraphSteps
  import opened GraphRebuild
  import opened GraphLaws

  datatype Loaded = Loaded(graph: Graph) | Rejected(errors: seq<LayoutRules.LayoutError>)

  /** `std::find` then `erase`: drop the first occurrence. */
  method VecEraseValue(vec: seq<string>, value: string) returns (r: seq<string>)
    ensures r == EraseFirst(vec, value)
  {
    var i := 0;
    while i < |vec| && vec[i] != value
      invariant 0 <= i <= |vec|
      invariant forall j :: 0 <= j < i ==> vec[j] != value
    {
      i := i + 1;
    }
    r := if i < |vec| then vec[..i] + vec[i + 1..] else vec;
    FirstErased(vec, value, i);
  }

  lemma OneMoreScanned(lif: LIF, nodes: seq<Node>, n: Node)
    ensures Unconnected(lif, nodes + [n]) == Unconnected(lif, nodes) + if Isolated(lif, n.nodeId) then [n.nodeId] else []
  {
    assert (nodes + [n])[..|nodes|] == nodes;
  }

  lemma ScanStep(lif: LIF, x: Indices, done: seq<Node>, nodes: seq<Node>, li: nat, ni: nat)
    requires Agrees(lif, x) && li < |lif.layouts| && nodes == lif.layouts[li].nodes && ni < |nodes|
    ensures var id := nodes[ni].nodeId;
            && id in x.outbound && id in x.inbound
            && Unconnected(lif, done + nodes[..ni + 1]) == Unconnected(lif, done + nodes[..ni])
               + if x.outbound[id] == [] && x.inbound[id] == [] && !StationRefersTo(lif, id) then [id] else []
  {
    assert Has(NodeTable(lif), Pos(li, ni)) && Get(NodeTable(lif), Pos(li, ni)) == nodes[ni];
    IsolatedByLists(lif, x, Pos(li, ni));
    OneMoreScanned(lif, done + nodes[..ni], nodes[ni]);
    assert done + nodes[..ni + 1] == done + nodes[..ni] + [nodes[ni]];
  }

  /** A node has adjacency lists, and they say whether an edge touches it. */
  lemma IsolatedByLists(lif: LIF, x: Indices, p: Pos)
    requires Agrees(lif, x) && Has(NodeTable(lif), p)
    ensures var id := Get(NodeTable(lif), p).nodeId;
            && id in x.outbound && id in x.inbound
            && (Isolated(lif, id) <==> x.outbound[id] == [] && x.inbound[id] == [] && !StationRefersTo(lif, id))
  {
    var id := Get(NodeTable(lif), p).nodeId;
    assert NodeId(Get(NodeTable(lif), p)) == id;
    assert HasNodeId(lif, id);
    Guards(lif, x);
    DeleteNodeThrows(lif, x, id);
    EdgeGuard(lif, x, id);
  }

  lemma {:induction false} FirstErased(vec: seq<string>, value: string, i: nat)
    requires i <= |vec| && (forall j :: 0 <= j < i ==> vec[j] != value) && (i < |vec| ==> vec[i] == value)
    ensures EraseFirst(vec, value) == if i < |vec| then vec[..i] + vec[i + 1..] else vec
  {
    if 0 < i < |vec| {
      FirstErased(vec[1..], value, i - 1);
      SlicesBehind(vec, i);
    } else if 0 < i {
      FirstErased(vec[1..], value, i - 1);
    }
  }

  lemma SlicesBehind<V>(vec: seq<V>, i: nat)
    requires 0 < i < |vec|
    ensures [vec[0]] + (vec[1..][..i - 1] + vec[1..][i - 1 + 1..]) == vec[..i] + vec[i + 1..]
  {
  }

  /** Erase a value from the list under one key. */
  method EraseIn(rev: map<string, seq<string>>, n: string, value: string) returns (rev': map<string, seq<string>>)
    requires n in rev
    ensures rev' == Erase(rev, n, value)
  {
    var l := VecEraseValue(rev[n], value);
    rev' := rev[n := l];
  }

  /** Replace a value in the list under one key. */
  method ReplaceIn(rev: map<string, seq<string>>, n: string, from: string, to: string)
      returns (rev': map<string, seq<string>>)
    requires n in rev
    ensures rev' == ReplaceAt(rev, n, from, to)
  {
    var l := VecReplaceValue(rev[n], from, to);
    rev' := rev[n := l];
  }

  /** `std::replace`: every occurrence of `from` becomes `to`. */
  method VecReplaceValue(vec: seq<string>, from: string, to: string) returns (r: seq<string>)
    ensures r == Replace(vec, from, to)
  {
    r := vec;
    for i := 0 to |vec|
      invariant |r| == |vec|
      invariant forall j :: 0 <= j < i ==> r[j] == Subst(vec[j], from, to)
      invariant forall j :: i <= j < |vec| ==> r[j] == vec[j]
    {
      if r[i] == from {
        r := r[i := to];
      }
    }
  }

  /** Swap-and-pop of one slot, with the removed entry dropped and the moved entry repointed. */
  method EraseSwap<T>(vec: seq<T>, p: Pos, index: map<string, Pos>, idOf: T -> string)
      returns (vec': seq<T>, index': map<string, Pos>)
    requires p.col < |vec|
    ensures vec' == SwapRemove(vec, p.col)
    ensures index' == ErasedIndex(vec, p, idOf, index)
  {
    index' := index - {idOf(vec[p.col])};
    var last := |vec| - 1;
    vec' := vec;
    if p.col != last {
      vec' := vec'[p.col := vec[last]];
      index' := index'[idOf(vec'[p.col]) := p];
    }
    vec' := vec'[..last];
  }

  // ---- Writing one row of a document ----

  method PutNodeRow(lif: LIF, li: nat, ns: seq<Node>) returns (lif': LIF)
    requires li < |lif.layouts|
    ensures NodesChanged(lif, lif', NodeTable(lif)[li := ns])
  {
    lif' := lif.(layouts := lif.layouts[li := lif.layouts[li].(nodes := ns)]);
  }

  method PutEdgeRow(lif: LIF, li: nat, es: seq<Edge>) returns (lif': LIF)
    requires li < |lif.layouts|
    ensures EdgesChanged(lif, lif', EdgeTable(lif)[li := es])
  {
    lif' := lif.(layouts := lif.layouts[li := lif.layouts[li].(edges := es)]);
  }

  method PutStationRow(lif: LIF, li: nat, ss: seq<Station>) returns (lif': LIF)
    requires li < |lif.layouts|
    ensures StationsChanged(lif, lif', StationTable(lif)[li := ss])
  {
    lif' := lif.(layouts := lif.layouts[li := lif.layouts[li].(stations := ss)]);
  }

  class Graph {
    var lif: LIF
    var layoutIndex: map<string, nat>
    var nodeIndex: map<string, Pos>
    var edgeIndex: map<string, Pos>
    var stationIndex: map<string, Pos>
    var nodeOutbound: map<string, seq<string>>
    var nodeInbound: map<string, seq<string>>
    var nodeStations: map<string, seq<string>>

    ghost function Ix(): Indices
      reads this
    {
      Indices(layoutIndex, nodeIndex, edgeIndex, stationIndex, nodeOutbound, nodeInbound, nodeStations)
    }

    /** The seven indices agree with the owned document. */
    ghost predicate Valid()
      reads this
    {
      Agrees(lif, Ix())
    }

    constructor Empty(lif: LIF)
      ensures this.lif == lif
    {
      this.lif := lif;
      layoutIndex, nodeIndex, edgeIndex, stationIndex := map[], map[], map[], map[];
      nodeOutbound, nodeInbound, nodeStations := map[], map[], map[];
    }

    // ---- Building the indices ----

    /** Validate a document and wrap it: accepted exactly when it passes the load-time rules. */
    static method FromLif(lif: LIF) returns (r: Loaded)
      ensures r.Loaded? <==> LayoutRules.ValidLif(lif)
      ensures r.Loaded? ==> fresh(r.graph) && r.graph.Valid() && r.graph.lif == lif && ListsScan(lif, r.graph.Ix())
      ensures r.Rejected? ==> r.errors != []
    {
      var errors := LayoutRules.ValidateLayout(lif);
      if errors != [] {
        return Rejected(errors);
      }
      var g := new Graph.Empty(lif);
      g.RebuildIndices();
      return Loaded(g);
    }

    /** Fill all seven indices from the document: positions exactly, lists in scan order. */
    method RebuildIndices()
      requires StructureOk(lif)
      modifies this
      ensures lif == old(lif)
      ensures Valid() && ListsScan(lif, Ix())
    {
      layoutIndex, nodeIndex, edgeIndex, stationIndex := map[], map[], map[], map[];
      nodeOutbound, nodeInbound, nodeStations := map[], map[], map[];
      BuildStart(lif, Ix());
      for li := 0 to |lif.layouts|
        invariant lif == old(lif)
        invariant Built(lif, Ix(), Progress(li, false, 0, 0, 0))
      {
        var layoutId := lif.layouts[li].layoutId;
        BuildLayout(lif, Ix(), li);
        layoutIndex := Emplace(layoutIndex, layoutId, li);
        IndexNodes(li);
        IndexEdges(li);
        IndexStations(li);
        BuildNextLayout(lif, Ix(), LayoutDone(lif.layouts[li], li));
      }
      BuildFinish(lif, Ix());
    }

    method IndexNodes(li: nat)
      requires li < |lif.layouts| && Built(lif, Ix(), Progress(li, true, 0, 0, 0))
      modifies `nodeIndex, `nodeOutbound, `nodeInbound
      ensures Built(lif, Ix(), Progress(li, true, |lif.layouts[li].nodes|, 0, 0))
    {
      var nodes := lif.layouts[li].nodes;
      for ni := 0 to |nodes|
        invariant Built(lif, Ix(), Progress(li, true, ni, 0, 0))
      {
        BuildNode(lif, Ix(), Progress(li, true, ni, 0, 0));
        var id := nodes[ni].nodeId;
        nodeIndex := Emplace(nodeIndex, id, Pos(li, ni));
        nodeOutbound := nodeOutbound[id := ListAt(nodeOutbound, id)];
        nodeInbound := nodeInbound[id := ListAt(nodeInbound, id)];
      }
    }

    method IndexEdges(li: nat)
      requires li < |lif.layouts|
      requires Built(lif, Ix(), Progress(li, true, |lif.layouts[li].nodes|, 0, 0))
      modifies `edgeIndex, `nodeOutbound, `nodeInbound
      ensures Built(lif, Ix(), Progress(li, true, |lif.layouts[li].nodes|, |lif.layouts[li].edges|, 0))
    {
      var edges, n := lif.layouts[li].edges, |lif.layouts[li].nodes|;
      for ei := 0 to |edges|
        invariant Built(lif, Ix(), Progress(li, true, n, ei, 0))
      {
        BuildEdge(lif, Ix(), Progress(li, true, n, ei, 0));
        var edge := edges[ei];
        edgeIndex := Emplace(edgeIndex, edge.edgeId, Pos(li, ei));
        nodeOutbound := Push(nodeOutbound, edge.startNodeId, edge.edgeId);
        nodeInbound := Push(nodeInbound, edge.endNodeId, edge.edgeId);
      }
    }

    method IndexStations(li: nat)
      requires li < |lif.layouts|
      requires Built(lif, Ix(), Progress(li, true, |lif.layouts[li].nodes|, |lif.layouts[li].edges|, 0))
      modifies `stationIndex, `nodeStations
      ensures Built(lif, Ix(), LayoutDone(lif.layouts[li], li))
    {
      var layout := lif.layouts[li];
      var n, m := |layout.nodes|, |layout.edges|;
      for si := 0 to |layout.stations|
        invariant Built(lif, Ix(), Progress(li, true, n, m, si))
      {
        BuildStation(lif, Ix(), Progress(li, true, n, m, si));
        var station := layout.stations[si];
        stationIndex := Emplace(stationIndex, station.stationId, Pos(li, si));
        PushStation(station.interactionNodeIds, station.stationId);
      }
    }

    // ---- Adding ----

    method AddNode(node: Node, layoutId: string) returns (outcome: Outcome)
      requires Valid()
      modifies this
      ensures Valid()
      ensures Step(outcome, lif) == AddNodeSpec(old(lif), node, layoutId)
      ensures outcome.Throws? ==> unchanged(this)
    {
      ghost var x, x0 := Ix(), lif;
      AddNodeThrows(lif, x, node, layoutId);
      if node.nodeId in nodeIndex {
        return Throws(DuplicateId);
      }
      if layoutId !in layoutIndex {
        return Throws(LayoutNotFound);
      }
      var li := layoutIndex[layoutId];
      ghost var t := NodeTable(lif);
      assert t[li] == lif.layouts[li].nodes;
      var nodes := lif.layouts[li].nodes + [node];
      lif := PutNodeRow(lif, li, nodes);
      AddNodeCommits(x0, x, node, layoutId, lif);
      var nid := node.nodeId;
      nodeIndex := nodeIndex[nid := Pos(li, |nodes| - 1)];
      nodeOutbound := nodeOutbound[nid := ListAt(nodeOutbound, nid)];
      nodeInbound := nodeInbound[nid := ListAt(nodeInbound, nid)];
      return Done;
    }

    method AddEdge(edge: Edge, layoutId: string) returns (outcome: Outcome)
      requires Valid()
      modifies this
      ensures Valid()
      ensures Step(outcome, lif) == AddEdgeSpec(old(lif), edge, layoutId)
      ensures outcome.Throws? ==> unchanged(this)
    {
      AddEdgeThrows(lif, Ix(), edge, layoutId);
      if edge.edgeId in edgeIndex {
        return Throws(DuplicateId);
      }
      if layoutId !in layoutIndex {
        return Throws(LayoutNotFound);
      }
      var li := layoutIndex[layoutId];
      if edge.startNodeId !in nodeIndex || nodeIndex[edge.startNodeId].row != li {
        return Throws(StartNotInLayout);
      }
      if edge.endNodeId !in nodeIndex {
        return Throws(EndNotFound);
      }
      AppendEdge(edge, layoutId);
      return Done;
    }

    /** Write an edge that passed the checks into the document and the indices. */
    method AppendEdge(edge: Edge, layoutId: string)
      requires Valid() && edge.edgeId !in edgeIndex && layoutId in layoutIndex
      requires edge.startNodeId in nodeIndex && nodeIndex[edge.startNodeId].row == layoutIndex[layoutId] && edge.endNodeId in nodeIndex
      requires layoutIndex[layoutId] < |lif.layouts|
      modifies this
      ensures Valid() && AddEdgeSpec(old(lif), edge, layoutId) == Step(Done, lif)
    {
      ghost var x, x0, t := Ix(), lif, EdgeTable(lif);
      var li := layoutIndex[layoutId];
      assert t[li] == lif.layouts[li].edges;
      var edges := lif.layouts[li].edges + [edge];
      lif := PutEdgeRow(lif, li, edges);
      AddEdgeCommits(x0, x, edge, layoutId, lif);
      edgeIndex := edgeIndex[edge.edgeId := Pos(li, |edges| - 1)];
      nodeOutbound := Push(nodeOutbound, edge.startNodeId, edge.edgeId);
      nodeInbound := Push(nodeInbound, edge.endNodeId, edge.edgeId);
    }

    method AddStation(station: Station, layoutId: string) returns (outcome: Outcome)
      requires Valid()
      modifies this
      ensures Valid()
      ensures Step(outcome, lif) == AddStationSpec(old(lif), station, layoutId)
      ensures outcome.Throws? ==> unchanged(this)
    {
      ghost var x, x0 := Ix(), lif;
      AddStationThrows(lif, x, station, layoutId);
      if station.stationId in stationIndex {
        return Throws(DuplicateId);
      }
      if layoutId !in layoutIndex {
        return Throws(LayoutNotFound);
      }
      var li := layoutIndex[layoutId];
      var ids := station.interactionNodeIds;
      for i := 0 to |ids|
        invariant forall j :: 0 <= j < i ==> ids[j] in nodeIndex
      {
        if ids[i] !in nodeIndex {
          return Throws(InteractionNodeNotFound);
        }
      }
      ghost var t := StationTable(lif);
      assert t[li] == lif.layouts[li].stations;
      var stations := lif.layouts[li].stations + [station];
      lif := PutStationRow(lif, li, stations);
      AddStationCommits(x0, x, station, layoutId, lif);
      stationIndex := stationIndex[station.stationId := Pos(li, |stations| - 1)];
      PushStation(ids, station.stationId);
      return Done;
    }

    method PushStation(ids: seq<string>, sid: string)
      modifies `nodeStations
      ensures nodeStations == PushAll(old(nodeStations), ids, sid)
    {
      for i := 0 to |ids|
        invariant nodeStations == PushAll(old(nodeStations), ids[..i], sid)
      {
        assert ids[..i + 1][..i] == ids[..i];
        nodeStations := Push(nodeStations, ids[i], sid);
      }
      assert ids[..|ids|] == ids;
    }

    // ---- Deleting ----

    method DeleteNode(id: string) returns (outcome: Outcome)
      requires Valid()
      modifies this
      ensures Valid()
      ensures Step(outcome, lif) == DeleteNodeSpec(old(lif), id)
      ensures outcome.Throws? ==> unchanged(this)
    {
      ghost var x, x0 := Ix(), lif;
      DeleteNodeThrows(lif, x, id);
      if id !in nodeIndex {
        return Throws(IdNotFound);
      }
      if nodeOutbound[id] != [] || nodeInbound[id] != [] {
        return Throws(ReferencedByEdges);
      }
      if id in nodeStations && nodeStations[id] != [] {
        return Throws(ReferencedByStations);
      }
      var p := nodeIndex[id];
      ghost var t := NodeTable(lif);
      assert t[p.row] == lif.layouts[p.row].nodes;
      var nodes, index := EraseSwap(lif.layouts[p.row].nodes, p, nodeIndex, NodeId);
      lif := PutNodeRow(lif, p.row, nodes);
      DeleteNodeCommits(x0, x, id, lif);
      nodeIndex := index;
      nodeOutbound := nodeOutbound - {id};
      nodeInbound := nodeInbound - {id};
      nodeStations := nodeStations - {id};
      return Done;
    }

    method DeleteEdge(id: string) returns (outcome: Outcome)
      requires Valid()
      modifies this
      ensures Valid()
      ensures Step(outcome, lif) == DeleteEdgeSpec(old(lif), id)
      ensures outcome.Throws? ==> unchanged(this)
    {
      ghost var x, x0 := Ix(), lif;
      DeleteEdgeThrows(lif, x, id);
      if id !in edgeIndex {
        return Throws(IdNotFound);
      }
      var p := edgeIndex[id];
      ghost var t := EdgeTable(lif);
      assert t[p.row] == lif.layouts[p.row].edges;
      var edge := lif.layouts[p.row].edges[p.col];
      nodeOutbound := EraseIn(nodeOutbound, edge.startNodeId, id);
      nodeInbound := EraseIn(nodeInbound, edge.endNodeId, id);
      var edges, index := EraseSwap(lif.layouts[p.row].edges, p, edgeIndex, EdgeId);
      lif := PutEdgeRow(lif, p.row, edges);
      edgeIndex := index;
      DeleteEdgeCommits(x0, x, id, lif);
      return Done;
    }

    method DeleteStation(id: string) returns (outcome: Outcome)
      requires Valid()
      modifies this
      ensures Valid()
      ensures Step(outcome, lif) == DeleteStationSpec(old(lif), id)
      ensures outcome.Throws? ==> unchanged(this)
    {
      ghost var x, x0 := Ix(), lif;
      DeleteStationThrows(lif, x, id);
      if id !in stationIndex {
        return Throws(IdNotFound);
      }
      var p := stationIndex[id];
      ghost var t := StationTable(lif);
      assert t[p.row] == lif.layouts[p.row].stations;
      EraseStation(lif.layouts[p.row].stations[p.col].interactionNodeIds, id);
      var stations, index := EraseSwap(lif.layouts[p.row].stations, p, stationIndex, StationId);
      lif := PutStationRow(lif, p.row, stations);
      DeleteStationCommits(x0, x, id, lif);
      stationIndex := index;
      return Done;
    }

    method EraseStation(ids: seq<string>, sid: string)
      modifies `nodeStations
      ensures nodeStations == EraseAll(old(nodeStations), ids, sid)
    {
      for i := 0 to |ids|
        invariant nodeStations == EraseAll(old(nodeStations), ids[..i], sid)
      {
        assert ids[..i + 1][..i] == ids[..i];
        if ids[i] in nodeStations {
          nodeStations := EraseIn(nodeStations, ids[i], sid);
        }
      }
      assert ids[..|ids|] == ids;
    }

    // ---- Renaming ----

    /** Renames a node by visiting only its slot, its incident edges and the stations that refer to it. */
    method UpdateNodeId(oldId: string, newId: string) returns (outcome: Outcome)
      requires Valid()
      modifies this
      ensures Valid()
      ensures Step(outcome, lif) == UpdateNodeIdSpec(old(lif), oldId, newId)
      ensures outcome.Throws? ==> unchanged(this)
    {
      ghost var x, x0 := Ix(), lif;
      UpdateNodeIdThrows(lif, x, oldId, newId);
      if oldId !in nodeIndex {
        return Throws(IdNotFound);
      }
      if oldId == newId {
        return Done;
      }
      if newId in nodeIndex {
        return Throws(NewIdExists);
      }
      RewriteReferences(oldId, newId);
      UpdateNodeIdCommits(x0, x, oldId, newId, lif);
      nodeIndex := Rekey(nodeIndex, oldId, newId);
      nodeOutbound := Rekey(nodeOutbound, oldId, newId);
      nodeInbound := Rekey(nodeInbound, oldId, newId);
      nodeStations := Rekey(nodeStations, oldId, newId);
      return Done;
    }

    /** Rewrite the node, its incident edges and the stations that refer to it; this reaches every mention of it. */
    method RewriteReferences(oldId: string, newId: string)
      requires Valid() && oldId in nodeIndex && newId !in nodeIndex
      modifies `lif
      ensures NodeRenamed(old(lif), lif, oldId, newId)
    {
      ghost var lif0, x := lif, Ix();
      RewriteNode(oldId, newId);
      ghost var lif1 := lif;
      SameTablesAgree(lif0, lif1, x);
      RewriteEdges(oldId, newId);
      ghost var lif2 := lif;
      SameTablesAgree(lif0, lif2, x);
      RewriteStations(oldId, newId);
      RenamedInThreeSteps(lif0, lif1, lif2, lif, oldId, newId);
    }

    /** Rewrite the node itself. */
    method RewriteNode(oldId: string, newId: string)
      requires AgreesOn(NodePositions, lif, Ix()) && oldId in nodeIndex && newId !in nodeIndex
      modifies `lif
      ensures NodesChanged(old(lif), lif, MapTable(n => RenamedNode(n, oldId, newId), NodeTable(old(lif))))
    {
      RenamedNodesIndexed(NodeTable(lif), nodeIndex, oldId, newId);
      var p := nodeIndex[oldId];
      assert NodeTable(lif)[p.row] == lif.layouts[p.row].nodes;
      var nodes := lif.layouts[p.row].nodes;
      lif := PutNodeRow(lif, p.row, nodes[p.col := nodes[p.col].(nodeId := newId)]);
    }

    /** Rewrite the starts of the listed edges. */
    method RewriteStarts(ids: seq<string>, newId: string)
      requires Indexes(EdgeTable(lif), EdgeId, edgeIndex) && forall i :: 0 <= i < |ids| ==> ids[i] in edgeIndex
      modifies `lif
      ensures EdgesChanged(old(lif), lif, MapTable(Among(ids, EdgeId, StartTo(newId)), EdgeTable(old(lif))))
    {
      ghost var t := EdgeTable(lif);
      RewriteNone(t, EdgeId, StartTo(newId));
      for i := 0 to |ids|
        invariant EdgesChanged(old(lif), lif, MapTable(Among(ids[..i], EdgeId, StartTo(newId)), t))
      {
        var p := edgeIndex[ids[i]];
        ghost var u := EdgeTable(lif);
        RewriteStep(t, EdgeId, edgeIndex, ids[..i], ids[i], StartTo(newId));
        assert ids[..i + 1] == ids[..i] + [ids[i]];
        assert u[p.row] == lif.layouts[p.row].edges;
        var edges := lif.layouts[p.row].edges;
        ghost var before := lif;
        lif := PutEdgeRow(lif, p.row, edges[p.col := edges[p.col].(startNodeId := newId)]);
        ChangedTwice(old(lif), before, lif);
      }
      assert ids[..|ids|] == ids;
    }

    /** Rewrite the ends of the listed edges. */
    method RewriteEnds(ids: seq<string>, newId: string)
      requires Indexes(EdgeTable(lif), EdgeId, edgeIndex) && forall i :: 0 <= i < |ids| ==> ids[i] in edgeIndex
      modifies `lif
      ensures EdgesChanged(old(lif), lif, MapTable(Among(ids, EdgeId, EndTo(newId)), EdgeTable(old(lif))))
    {
      ghost var t := EdgeTable(lif);
      RewriteNone(t, EdgeId, EndTo(newId));
      for i := 0 to |ids|
        invariant EdgesChanged(old(lif), lif, MapTable(Among(ids[..i], EdgeId, EndTo(newId)), t))
      {
        var p := edgeIndex[ids[i]];
        ghost var u := EdgeTable(lif);
        RewriteStep(t, EdgeId, edgeIndex, ids[..i], ids[i], EndTo(newId));
        assert ids[..i + 1] == ids[..i] + [ids[i]];
        assert u[p.row] == lif.layouts[p.row].edges;
        var edges := lif.layouts[p.row].edges;
        ghost var before := lif;
        lif := PutEdgeRow(lif, p.row, edges[p.col := edges[p.col].(endNodeId := newId)]);
        ChangedTwice(old(lif), before, lif);
      }
      assert ids[..|ids|] == ids;
    }

    /** Rewrite the starts of some edges and then the ends of some. */
    method RewriteListedEdges(starts: seq<string>, ends: seq<string>, newId: string)
      requires Indexes(EdgeTable(lif), EdgeId, edgeIndex)
      requires (forall i :: 0 <= i < |starts| ==> starts[i] in edgeIndex) && (forall i :: 0 <= i < |ends| ==> ends[i] in edgeIndex)
      modifies `lif
      ensures EdgesChanged(old(lif), lif,
                           MapTable(Among(ends, EdgeId, EndTo(newId)), MapTable(Among(starts, EdgeId, StartTo(newId)), EdgeTable(old(lif)))))
    {
      ghost var t := EdgeTable(lif);
      RewriteStarts(starts, newId);
      ghost var mid := lif;
      MapKeepsIndex(t, EdgeId, edgeIndex, Among(starts, EdgeId, StartTo(newId)));
      RewriteEnds(ends, newId);
      ChangedTwice(old(lif), mid, lif);
    }

    /** Rewrite the edges incident to `oldId`, found through the adjacency lists. */
    method RewriteEdges(oldId: string, newId: string)
      requires AgreesOn(EdgeAdjacency, lif, Ix()) && oldId in nodeIndex
      modifies `lif
      ensures EdgesChanged(old(lif), lif, MapTable(e => RedirectedEdge(e, oldId, newId), EdgeTable(old(lif))))
    {
      IncidentEdgesExist(EdgeTable(lif), nodeIndex, edgeIndex, nodeOutbound, nodeInbound, oldId);
      ListedEdgesSuffice(EdgeTable(lif), nodeIndex, edgeIndex, nodeOutbound, nodeInbound, oldId, newId);
      RewriteListedEdges(nodeOutbound[oldId], nodeInbound[oldId], newId);
    }

    /** Rewrite one station list: every occurrence of `oldId`. */
    method RewriteStations(oldId: string, newId: string)
      requires AgreesOn(StationReferences, lif, Ix())
      modifies `lif
      ensures StationsChanged(old(lif), lif, MapTable(s => RedirectedStation(s, oldId, newId), StationTable(old(lif))))
    {
      ghost var t := StationTable(lif);
      ListedStationsSuffice(t, nodeIndex, stationIndex, nodeStations, oldId, newId);
      var ids := if oldId in nodeStations then nodeStations[oldId] else [];
      ReferringStationsExist(t, nodeIndex, stationIndex, nodeStations, oldId);
      RewriteListedStations(ids, oldId, newId);
    }

    method RewriteListedStations(ids: seq<string>, oldId: string, newId: string)
      requires Indexes(StationTable(lif), StationId, stationIndex) && forall i :: 0 <= i < |ids| ==> ids[i] in stationIndex
      modifies `lif
      ensures StationsChanged(old(lif), lif, MapTable(Among(ids, StationId, StationTo(oldId, newId)), StationTable(old(lif))))
    {
      ghost var t := StationTable(lif);
      RewriteNone(t, StationId, StationTo(oldId, newId));
      StationToIdempotent(oldId, newId);
      for i := 0 to |ids|
        invariant StationsChanged(old(lif), lif, MapTable(Among(ids[..i], StationId, StationTo(oldId, newId)), t))
      {
        var p := stationIndex[ids[i]];
        ghost var u := StationTable(lif);
        RewriteStep(t, StationId, stationIndex, ids[..i], ids[i], StationTo(oldId, newId));
        assert ids[..i + 1] == ids[..i] + [ids[i]];
        assert u[p.row] == lif.layouts[p.row].stations;
        var stations := lif.layouts[p.row].stations;
        var refs := VecReplaceValue(stations[p.col].interactionNodeIds, oldId, newId);
        ghost var before := lif;
        lif := PutStationRow(lif, p.row, stations[p.col := stations[p.col].(interactionNodeIds := refs)]);
        ChangedTwice(old(lif), before, lif);
      }
      assert ids[..|ids|] == ids;
    }

    method UpdateEdgeId(oldId: string, newId: string) returns (outcome: Outcome)
      requires Valid()
      modifies this
      ensures Valid()
      ensures Step(outcome, lif) == UpdateEdgeIdSpec(old(lif), oldId, newId)
      ensures outcome.Throws? ==> unchanged(this)
    {
      ghost var x, x0 := Ix(), lif;
      UpdateEdgeIdThrows(lif, x, oldId, newId);
      if oldId !in edgeIndex {
        return Throws(IdNotFound);
      }
      if oldId == newId {
        return Done;
      }
      if newId in edgeIndex {
        return Throws(NewIdExists);
      }
      var p := edgeIndex[oldId];
      ghost var t := EdgeTable(lif);
      assert t[p.row] == lif.layouts[p.row].edges;
      var edges := lif.layouts[p.row].edges;
      var edge := edges[p.col];
      lif := PutEdgeRow(lif, p.row, edges[p.col := edge.(edgeId := newId)]);
      UpdateEdgeIdCommits(x0, x, oldId, newId, lif);
      nodeOutbound := ReplaceIn(nodeOutbound, edge.startNodeId, oldId, newId);
      nodeInbound := ReplaceIn(nodeInbound, edge.endNodeId, oldId, newId);
      edgeIndex := Rekey(edgeIndex, oldId, newId);
      return Done;
    }

    method UpdateStationId(oldId: string, newId: string) returns (outcome: Outcome)
      requires Valid()
      modifies this
      ensures Valid()
      ensures Step(outcome, lif) == UpdateStationIdSpec(old(lif), oldId, newId)
      ensures outcome.Throws? ==> unchanged(this)
    {
      ghost var x, x0 := Ix(), lif;
      UpdateStationIdThrows(lif, x, oldId, newId);
      if oldId !in stationIndex {
        return Throws(IdNotFound);
      }
      if oldId == newId {
        return Done;
      }
      if newId in stationIndex {
        return Throws(NewIdExists);
      }
      var p := stationIndex[oldId];
      ghost var t := StationTable(lif);
      assert t[p.row] == lif.layouts[p.row].stations;
      var stations := lif.layouts[p.row].stations;
      var station := stations[p.col];
      lif := PutStationRow(lif, p.row, stations[p.col := station.(stationId := newId)]);
      UpdateStationIdCommits(x0, x, oldId, newId, lif);
      ReplaceStation(station.interactionNodeIds, oldId, newId);
      stationIndex := Rekey(stationIndex, oldId, newId);
      return Done;
    }

    method ReplaceStation(ids: seq<string>, from: string, to: string)
      modifies `nodeStations
      ensures nodeStations == ReplaceAll(old(nodeStations), ids, from, to)
    {
      for i := 0 to |ids|
        invariant nodeStations == ReplaceAll(old(nodeStations), ids[..i], from, to)
      {
        assert ids[..i + 1][..i] == ids[..i];
        if ids[i] in nodeStations {
          nodeStations := ReplaceIn(nodeStations, ids[i], from, to);
        }
      }
      assert ids[..|ids|] == ids;
    }

    // ---- Looking up ----

    lemma IdsAreUnique()
      requires Valid()
      ensures UniqueIds(NodeTable(lif), NodeId) && UniqueIds(EdgeTable(lif), EdgeId)
      ensures UniqueIds(StationTable(lif), StationId)
    {
      AgreementIsStructure(lif, Ix());
    }

    /** Counts read off the indices are the counts of the document. */
    method Counts() returns (nodes: nat, edges: nat, stations: nat, empty: bool)
      requires Valid()
      ensures nodes == |Flatten(NodeTable(lif))|
      ensures edges == |Flatten(EdgeTable(lif))|
      ensures stations == |Flatten(StationTable(lif))|
      ensures empty <==> forall i :: 0 <= i < |lif.layouts| ==>
                lif.layouts[i].nodes == [] && lif.layouts[i].edges == [] && lif.layouts[i].stations == []
    {
      CountsMatch(lif, Ix());
      nodes, edges, stations := |nodeIndex|, |edgeIndex|, |stationIndex|;
      empty := nodeIndex == map[] && edgeIndex == map[] && stationIndex == map[];
    }

    predicate HasNode(id: string)
      requires Valid()
      reads this
      ensures HasNode(id) <==> HasNodeId(lif, id)
    {
      Guards(lif, Ix());
      id in nodeIndex
    }

    predicate HasEdge(id: string)
      requires Valid()
      reads this
      ensures HasEdge(id) <==> HasEdgeId(lif, id)
    {
      Guards(lif, Ix());
      id in edgeIndex
    }

    predicate HasStation(id: string)
      requires Valid()
      reads this
      ensures HasStation(id) <==> HasStationId(lif, id)
    {
      Guards(lif, Ix());
      id in stationIndex
    }

    /** The node a full scan would find, or nothing. */
    function FindNode(id: string): (r: Option<Node>)
      requires Valid()
      reads this
      ensures r.Some? <==> HasNodeId(lif, id)
      ensures r.Some? ==> r.value.nodeId == id && exists p :: Has(NodeTable(lif), p) && Get(NodeTable(lif), p) == r.value
    {
      Guards(lif, Ix());
      if id !in nodeIndex then None
      else
        OpenAgreement(lif, Ix());
        InSlot(NodeTable(lif), NodeId, nodeIndex, id);
        var p := nodeIndex[id];
        assert Has(NodeTable(lif), p) && Get(NodeTable(lif), p) == lif.layouts[p.row].nodes[p.col];
        Some(lif.layouts[p.row].nodes[p.col])
    }

    /** The edge a full scan would find, or nothing. */
    function FindEdge(id: string): (r: Option<Edge>)
      requires Valid()
      reads this
      ensures r.Some? <==> HasEdgeId(lif, id)
      ensures r.Some? ==> r.value.edgeId == id && exists p :: Has(EdgeTable(lif), p) && Get(EdgeTable(lif), p) == r.value
      ensures r.Some? ==> id in edgeIndex && id in Rows(EdgeTable(lif), edgeIndex) && Rows(EdgeTable(lif), edgeIndex)[id] == r.value
    {
      Guards(lif, Ix());
      if id !in edgeIndex then None
      else
        OpenAgreement(lif, Ix());
        InSlot(EdgeTable(lif), EdgeId, edgeIndex, id);
        var p := edgeIndex[id];
        assert Has(EdgeTable(lif), p) && Get(EdgeTable(lif), p) == lif.layouts[p.row].edges[p.col];
        Some(lif.layouts[p.row].edges[p.col])
    }

    /** The station a full scan would find, or nothing. */
    function FindStation(id: string): (r: Option<Station>)
      requires Valid()
      reads this
      ensures r.Some? <==> HasStationId(lif, id)
      ensures r.Some? ==> r.value.stationId == id && exists p :: Has(StationTable(lif), p) && Get(StationTable(lif), p) == r.value
    {
      Guards(lif, Ix());
      if id !in stationIndex then None
      else
        OpenAgreement(lif, Ix());
        InSlot(StationTable(lif), StationId, stationIndex, id);
        var p := stationIndex[id];
        assert Has(StationTable(lif), p) && Get(StationTable(lif), p) == lif.layouts[p.row].stations[p.col];
        Some(lif.layouts[p.row].stations[p.col])
    }

    /** The outbound list of an existing node holds exactly the edges that start there, each once. */
    function OutboundEdges(id: string): (r: Option<seq<string>>)
      requires Valid()
      reads this
      ensures r.Some? <==> HasNodeId(lif, id)
      ensures r.Some? ==> Distinct(r.value) && forall e :: e in r.value <==> EdgeFrom(lif, e, id)
    {
      Guards(lif, Ix());
      DeleteNodeThrows(lif, Ix(), id);
      ListedEdges(lif, Ix(), id);
      OpenAgreement(lif, Ix());
      if id !in nodeOutbound then None else Some(nodeOutbound[id])
    }

    /** The inbound list of an existing node holds exactly the edges that end there, each once. */
    function InboundEdges(id: string): (r: Option<seq<string>>)
      requires Valid()
      reads this
      ensures r.Some? <==> HasNodeId(lif, id)
      ensures r.Some? ==> Distinct(r.value) && forall e :: e in r.value <==> EdgeTo(lif, e, id)
    {
      Guards(lif, Ix());
      DeleteNodeThrows(lif, Ix(), id);
      ListedEdges(lif, Ix(), id);
      OpenAgreement(lif, Ix());
      if id !in nodeInbound then None else Some(nodeInbound[id])
    }

    /** End node of an existing edge. */
    method EndOf(e: string) returns (end: string)
      requires Valid() && exists n :: EdgeFrom(lif, e, n)
      ensures forall n :: EdgeTo(lif, e, n) <==> n == end
    {
      forall n ensures (EdgeFrom(lif, e, n) ==> HasEdgeId(lif, e))
        && (EdgeTo(lif, e, n) <==> HasEdgeId(lif, e) && e in Rows(EdgeTable(lif), edgeIndex)
                                   && Rows(EdgeTable(lif), edgeIndex)[e].endNodeId == n)
      {
        EdgeEndpoint(lif, Ix(), e, n);
      }
      end := FindEdge(e).value.endNodeId;
    }

    /** The ids of the edges joining two nodes: exactly what a scan of the document finds, each once. */
    method EdgesBetween(from: string, to: string) returns (r: Option<seq<string>>)
      requires Valid()
      ensures r.Some? <==> HasNodeId(lif, from)
      ensures r.Some? ==> Distinct(r.value)
      ensures r.Some? ==> forall e :: e in r.value <==> EdgeFrom(lif, e, from) && EdgeTo(lif, e, to)
    {
      var outbound := OutboundEdges(from);
      if outbound.None? {
        return None;
      }
      var ids := outbound.value;
      var out: seq<string> := [];
      for i := 0 to |ids|
        invariant Distinct(out)
        invariant forall e :: e in out <==> e in ids[..i] && EdgeTo(lif, e, to)
      {
        assert EdgeFrom(lif, ids[i], from);
        var end := EndOf(ids[i]);
        assert ids[i] !in ids[..i];
        if end == to {
          out := out + [ids[i]];
        }
      }
      assert ids[..|ids|] == ids;
      return Some(out);
    }

    /** The nodes with no edge and no station reference, in scan order. */
    method ListUnconnected() returns (r: seq<string>)
      requires Valid()
      ensures r == UnconnectedNodes(lif)
    {
      var stationRefs := CollectStationRefs();
      r := [];
      ghost var t := NodeTable(lif);
      for li := 0 to |lif.layouts|
        invariant r == Unconnected(lif, Flatten(t[..li]))
      {
        var nodes := lif.layouts[li].nodes;
        FlattenPrefix(t, li);
        assert t[li] == nodes;
        ghost var done := Flatten(t[..li]);
        assert done + nodes[..0] == done;
        for ni := 0 to |nodes|
          invariant r == Unconnected(lif, done + nodes[..ni])
        {
          var id := nodes[ni].nodeId;
          ScanStep(lif, Ix(), done, nodes, li, ni);
          if nodeOutbound[id] == [] && nodeInbound[id] == [] && id !in stationRefs {
            r := r + [id];
          }
        }
        assert nodes[..|nodes|] == nodes;
      }
      assert t[..|lif.layouts|] == t;
    }

    method CollectStationRefs() returns (refs: set<string>)
      ensures forall n :: n in refs <==> StationRefersTo(lif, n)
    {
      refs := {};
      ghost var t := StationTable(lif);
      for li := 0 to |lif.layouts|
        invariant forall n :: n in refs <==> exists p :: Has(t, p) && p.row < li && n in Get(t, p).interactionNodeIds
      {
        var stations := lif.layouts[li].stations;
        assert t[li] == stations;
        for si := 0 to |stations|
          invariant forall n :: n in refs <==>
            exists p :: Has(t, p) && (p.row < li || (p.row == li && p.col < si)) && n in Get(t, p).interactionNodeIds
        {
          var ids := stations[si].interactionNodeIds;
          assert Has(t, Pos(li, si)) && Get(t, Pos(li, si)) == stations[si];
          ghost var before := refs;
          for i := 0 to |ids|
            invariant forall n :: n in refs <==> n in before || n in ids[..i]
          {
            refs := refs + {ids[i]};
          }
          assert ids[..|ids|] == ids;
        }
      }
    }

    /** Delete all unconnected nodes; no deletion throws. */
    method Prune() returns (victims: seq<string>)
      requires Valid()
      modifies this
      ensures Valid()
      ensures victims == UnconnectedNodes(old(lif))
      ensures Step(Done, lif) == PruneSpec(old(lif))
    {
      victims := ListUnconnected();
      ghost var lif0 := lif;
      AgreementIsStructure(lif, Ix());
      assert victims[..0] == [];
      for k := 0 to |victims|
        invariant Valid()
        invariant lif == DeleteNodes(lif0, victims[..k])
      {
        ghost var after := PrunePrefix(lif0, victims, k);
        DeleteNodesStep(lif0, victims, k + 1);
        var outcome := DeleteNode(victims[k]);
        assert outcome == Done;
      }
      assert victims[..|victims|] == victims;
    }

    // ---- Whole runs ----

    method Call(op: Op) returns (outcome: Outcome)
      requires Valid()
      modifies this
      ensures Valid()
      ensures Step(outcome, lif) == Apply(old(lif), op)
    {
      match op
      case AddNode(node, layoutId) => outcome := AddNode(node, layoutId);
      case AddEdge(edge, layoutId) => outcome := AddEdge(edge, layoutId);
      case AddStation(station, layoutId) => outcome := AddStation(station, layoutId);
      case DeleteNode(id) => outcome := DeleteNode(id);
      case DeleteEdge(id) => outcome := DeleteEdge(id);
      case DeleteStation(id) => outcome := DeleteStation(id);
      case UpdateNodeId(oldId, newId) => outcome := UpdateNodeId(oldId, newId);
      case UpdateEdgeId(oldId, newId) => outcome := UpdateEdgeId(oldId, newId);
      case UpdateStationId(oldId, newId) => outcome := UpdateStationId(oldId, newId);
      case Prune =>
        var victims := Prune();
        outcome := Done;
    }

    /** Any sequence of calls: the indices keep agreeing, and the document is what the scans say. */
    method CallAll(ops: seq<Op>)
      requires Valid()
      modifies this
      ensures Valid()
      ensures lif == Run(old(lif), ops)
    {
      for i := 0 to |ops|
        invariant Valid()
        invariant lif == Run(old(lif), ops[..i])
      {
        assert ops[..i + 1][..i] == ops[..i];
        var outcome := Call(ops[i]);
      }
      assert ops[..|ops|] == ops;
    }
  }
}
