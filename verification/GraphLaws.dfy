/** Laws of the mutators over whole runs, stated on documents alone. */
module GraphLaws {
  import opened Common
  import opened Tables
  import opened ReverseIndex
  import opened Lif
  import opened GraphSpec
  import opened GraphIndex
  import opened GraphSteps
  import opened GraphRebuild

  // ---- The records of a document, keyed by id ----

  ghost function NodesOf(lif: LIF): map<string, Node> { Rows(NodeTable(lif), Rebuilt(lif).node) }
  ghost function EdgesOf(lif: LIF): map<string, Edge> { Rows(EdgeTable(lif), Rebuilt(lif).edge) }
  ghost function StationsOf(lif: LIF): map<string, Station> { Rows(StationTable(lif), Rebuilt(lif).station) }

  /** Indices that agree read the same records as the document holds. */
  lemma RowsAreRecords(lif: LIF, x: Indices)
    requires Agrees(lif, x)
    ensures Rows(NodeTable(lif), x.node) == NodesOf(lif)
    ensures Rows(EdgeTable(lif), x.edge) == EdgesOf(lif)
    ensures Rows(StationTable(lif), x.station) == StationsOf(lif)
  {
    MaintainedEqualsRebuilt(lif, x);
  }

  lemma SameTablesSameRecords(a: LIF, b: LIF)
    ensures NodeTable(a) == NodeTable(b) ==> NodesOf(a) == NodesOf(b)
    ensures EdgeTable(a) == EdgeTable(b) ==> EdgesOf(a) == EdgesOf(b)
    ensures StationTable(a) == StationTable(b) ==> StationsOf(a) == StationsOf(b)
  {
  }

  // ---- Every mutator keeps the structure ----

  lemma AddNodeKeepsIndexed(lif: LIF, x: Indices, node: Node, layoutId: string)
    requires Agrees(lif, x)
    ensures var s := AddNodeSpec(lif, node, layoutId);
            StructureOk(s.lif)
            && (s.outcome == Done ==> (NodesOf(s.lif) == Rows(NodeTable(lif), x.node)[node.nodeId := node]
                 && EdgeTable(s.lif) == EdgeTable(lif) && StationTable(s.lif) == StationTable(lif)))
  {
    OpenAgreement(lif, x);
    AgreementIsStructure(lif, x);
    Guards(lif, x);
    LayoutGuard(lif, x, layoutId);
    if AddNodeSpec(lif, node, layoutId).outcome == Done {
      var t, li := NodeTable(lif), x.layout[layoutId];
      var lif' := WithNodes(lif, t[li := t[li] + [node]]);
      AddNodeStep(lif, x, node, layoutId);
      NodesChangedIs(lif, lif', t[li := t[li] + [node]]);
      AddNodeAgrees(lif, x, node, li, lif');
      AppendKeepsIndex(t, NodeId, x.node, li, node);
      var x' := x.(node := x.node[node.nodeId := Pos(li, |t[li]|)],
        outbound := x.outbound[node.nodeId := []], inbound := x.inbound[node.nodeId := []]);
      AgreementIsStructure(lif', x');
      RowsAreRecords(lif', x');
    }
  }

  lemma AddNodeKeeps(lif: LIF, node: Node, layoutId: string)
    requires StructureOk(lif)
    ensures var s := AddNodeSpec(lif, node, layoutId);
            StructureOk(s.lif)
            && (s.outcome == Done ==> (NodesOf(s.lif) == NodesOf(lif)[node.nodeId := node]
                 && EdgeTable(s.lif) == EdgeTable(lif) && StationTable(s.lif) == StationTable(lif)))
  {
    RebuiltAgrees(lif);
    AddNodeKeepsIndexed(lif, Rebuilt(lif), node, layoutId);
  }

  lemma AddEdgeKeepsIndexed(lif: LIF, x: Indices, edge: Edge, layoutId: string)
    requires Agrees(lif, x)
    ensures var s := AddEdgeSpec(lif, edge, layoutId);
            StructureOk(s.lif)
            && (s.outcome == Done ==> (EdgesOf(s.lif) == Rows(EdgeTable(lif), x.edge)[edge.edgeId := edge]
                 && NodeTable(s.lif) == NodeTable(lif) && StationTable(s.lif) == StationTable(lif)))
  {
    OpenAgreement(lif, x);
    AgreementIsStructure(lif, x);
    Guards(lif, x);
    LayoutGuard(lif, x, layoutId);
    if AddEdgeSpec(lif, edge, layoutId).outcome == Done {
      StartGuard(lif, x, layoutId, edge.startNodeId);
      var t, li := EdgeTable(lif), x.layout[layoutId];
      var lif' := WithEdges(lif, t[li := t[li] + [edge]]);
      AddEdgeStep(lif, x, edge, layoutId);
      EdgesChangedIs(lif, lif', t[li := t[li] + [edge]]);
      AddEdgeAgrees(lif, x, edge, li, lif');
      AppendKeepsIndex(t, EdgeId, x.edge, li, edge);
      var x' := x.(edge := x.edge[edge.edgeId := Pos(li, |t[li]|)],
        outbound := Push(x.outbound, edge.startNodeId, edge.edgeId),
        inbound := Push(x.inbound, edge.endNodeId, edge.edgeId));
      AgreementIsStructure(lif', x');
      RowsAreRecords(lif', x');
    }
  }

  lemma AddEdgeKeeps(lif: LIF, edge: Edge, layoutId: string)
    requires StructureOk(lif)
    ensures var s := AddEdgeSpec(lif, edge, layoutId);
            StructureOk(s.lif)
            && (s.outcome == Done ==> (EdgesOf(s.lif) == EdgesOf(lif)[edge.edgeId := edge]
                 && NodeTable(s.lif) == NodeTable(lif) && StationTable(s.lif) == StationTable(lif)))
  {
    RebuiltAgrees(lif);
    AddEdgeKeepsIndexed(lif, Rebuilt(lif), edge, layoutId);
  }

  lemma AddStationKeepsIndexed(lif: LIF, x: Indices, station: Station, layoutId: string)
    requires Agrees(lif, x)
    ensures var s := AddStationSpec(lif, station, layoutId);
            StructureOk(s.lif)
            && (s.outcome == Done ==> (StationsOf(s.lif) == Rows(StationTable(lif), x.station)[station.stationId := station]
                 && NodeTable(s.lif) == NodeTable(lif) && EdgeTable(s.lif) == EdgeTable(lif)))
  {
    OpenAgreement(lif, x);
    AgreementIsStructure(lif, x);
    Guards(lif, x);
    LayoutGuard(lif, x, layoutId);
    if AddStationSpec(lif, station, layoutId).outcome == Done {
      var t, li := StationTable(lif), x.layout[layoutId];
      var lif' := WithStations(lif, t[li := t[li] + [station]]);
      AddStationStep(lif, x, station, layoutId);
      StationsChangedIs(lif, lif', t[li := t[li] + [station]]);
      AddStationAgrees(lif, x, station, li, lif');
      AppendKeepsIndex(t, StationId, x.station, li, station);
      var x' := x.(station := x.station[station.stationId := Pos(li, |t[li]|)],
        stations := PushAll(x.stations, station.interactionNodeIds, station.stationId));
      AgreementIsStructure(lif', x');
      RowsAreRecords(lif', x');
    }
  }

  lemma AddStationKeeps(lif: LIF, station: Station, layoutId: string)
    requires StructureOk(lif)
    ensures var s := AddStationSpec(lif, station, layoutId);
            StructureOk(s.lif)
            && (s.outcome == Done ==> (StationsOf(s.lif) == StationsOf(lif)[station.stationId := station]
                 && NodeTable(s.lif) == NodeTable(lif) && EdgeTable(s.lif) == EdgeTable(lif)))
  {
    RebuiltAgrees(lif);
    AddStationKeepsIndexed(lif, Rebuilt(lif), station, layoutId);
  }

  lemma DeleteNodeKeepsIndexed(lif: LIF, x: Indices, id: string)
    requires Agrees(lif, x)
    ensures var s := DeleteNodeSpec(lif, id);
            StructureOk(s.lif)
            && (s.outcome == Done ==> (NodesOf(s.lif) == Rows(NodeTable(lif), x.node) - {id}
                 && EdgeTable(s.lif) == EdgeTable(lif) && StationTable(s.lif) == StationTable(lif)))
  {
    OpenAgreement(lif, x);
    AgreementIsStructure(lif, x);
    Guards(lif, x);
    if DeleteNodeSpec(lif, id).outcome == Done {
      EdgeGuard(lif, x, id);
      StationGuard(lif, x, id);
      var t := NodeTable(lif);
      InSlot(t, NodeId, x.node, id);
      var p := x.node[id];
      var t' := t[p.row := SwapRemove(t[p.row], p.col)];
      var lif' := WithNodes(lif, t');
      var node' := ErasedIndex(t[p.row], p, NodeId, x.node);
      DeleteNodeStep(lif, x, id);
      NodesChangedIs(lif, lif', t');
      EraseSwapKeeps(t, NodeId, x.node, id);
      DropNodeAgrees(lif, x, id, t', lif', node');
      var x' := x.(node := node', outbound := x.outbound - {id}, inbound := x.inbound - {id},
        stations := x.stations - {id});
      AgreementIsStructure(lif', x');
      RowsAreRecords(lif', x');
    }
  }

  lemma DeleteNodeKeeps(lif: LIF, id: string)
    requires StructureOk(lif)
    ensures var s := DeleteNodeSpec(lif, id);
            StructureOk(s.lif)
            && (s.outcome == Done ==> (NodesOf(s.lif) == NodesOf(lif) - {id}
                 && EdgeTable(s.lif) == EdgeTable(lif) && StationTable(s.lif) == StationTable(lif)))
  {
    RebuiltAgrees(lif);
    DeleteNodeKeepsIndexed(lif, Rebuilt(lif), id);
  }

  lemma DeleteEdgeKeepsIndexed(lif: LIF, x: Indices, id: string)
    requires Agrees(lif, x)
    ensures var s := DeleteEdgeSpec(lif, id);
            StructureOk(s.lif)
            && (s.outcome == Done ==> (EdgesOf(s.lif) == Rows(EdgeTable(lif), x.edge) - {id}
                 && NodeTable(s.lif) == NodeTable(lif) && StationTable(s.lif) == StationTable(lif)))
  {
    OpenAgreement(lif, x);
    AgreementIsStructure(lif, x);
    Guards(lif, x);
    if DeleteEdgeSpec(lif, id).outcome == Done {
      var t := EdgeTable(lif);
      InSlot(t, EdgeId, x.edge, id);
      var p := x.edge[id];
      var e := Get(t, p);
      var t' := t[p.row := SwapRemove(t[p.row], p.col)];
      var lif' := WithEdges(lif, t');
      var edge' := ErasedIndex(t[p.row], p, EdgeId, x.edge);
      DeleteEdgeStep(lif, x, id);
      EdgesChangedIs(lif, lif', t');
      EraseSwapKeeps(t, EdgeId, x.edge, id);
      DropEdgeAgrees(lif, x, e, t', lif', edge');
      var x' := x.(edge := edge', outbound := Erase(x.outbound, e.startNodeId, id), inbound := Erase(x.inbound, e.endNodeId, id));
      AgreementIsStructure(lif', x');
      RowsAreRecords(lif', x');
    }
  }

  lemma DeleteEdgeKeeps(lif: LIF, id: string)
    requires StructureOk(lif)
    ensures var s := DeleteEdgeSpec(lif, id);
            StructureOk(s.lif)
            && (s.outcome == Done ==> (EdgesOf(s.lif) == EdgesOf(lif) - {id}
                 && NodeTable(s.lif) == NodeTable(lif) && StationTable(s.lif) == StationTable(lif)))
  {
    RebuiltAgrees(lif);
    DeleteEdgeKeepsIndexed(lif, Rebuilt(lif), id);
  }

  lemma DeleteStationKeepsIndexed(lif: LIF, x: Indices, id: string)
    requires Agrees(lif, x)
    ensures var s := DeleteStationSpec(lif, id);
            StructureOk(s.lif)
            && (s.outcome == Done ==> (StationsOf(s.lif) == Rows(StationTable(lif), x.station) - {id}
                 && NodeTable(s.lif) == NodeTable(lif) && EdgeTable(s.lif) == EdgeTable(lif)))
  {
    OpenAgreement(lif, x);
    AgreementIsStructure(lif, x);
    Guards(lif, x);
    if DeleteStationSpec(lif, id).outcome == Done {
      var t := StationTable(lif);
      InSlot(t, StationId, x.station, id);
      var p := x.station[id];
      var s := Get(t, p);
      var t' := t[p.row := SwapRemove(t[p.row], p.col)];
      var lif' := WithStations(lif, t');
      var station' := ErasedIndex(t[p.row], p, StationId, x.station);
      DeleteStationStep(lif, x, id);
      StationsChangedIs(lif, lif', t');
      EraseSwapKeeps(t, StationId, x.station, id);
      DropStationAgrees(lif, x, s, t', lif', station');
      var x' := x.(station := station', stations := EraseAll(x.stations, s.interactionNodeIds, id));
      AgreementIsStructure(lif', x');
      RowsAreRecords(lif', x');
    }
  }

  lemma DeleteStationKeeps(lif: LIF, id: string)
    requires StructureOk(lif)
    ensures var s := DeleteStationSpec(lif, id);
            StructureOk(s.lif)
            && (s.outcome == Done ==> (StationsOf(s.lif) == StationsOf(lif) - {id}
                 && NodeTable(s.lif) == NodeTable(lif) && EdgeTable(s.lif) == EdgeTable(lif)))
  {
    RebuiltAgrees(lif);
    DeleteStationKeepsIndexed(lif, Rebuilt(lif), id);
  }

  lemma EdgeRenamedKeepsStructure(lif: LIF, x: Indices, id: string, newId: string, lif': LIF)
    requires Agrees(lif, x) && id in x.edge && newId !in x.edge && Has(EdgeTable(lif), x.edge[id])
    requires var p := x.edge[id]; var t := EdgeTable(lif); EdgesChanged(lif, lif', Set(t, p, Get(t, p).(edgeId := newId)))
    ensures StructureOk(lif') && UpdateEdgeIdSpec(lif, id, newId) == Step(Done, lif')
    ensures EdgesOf(lif') == (Rows(EdgeTable(lif), x.edge) - {id})[newId := Get(EdgeTable(lif), x.edge[id]).(edgeId := newId)]
    ensures NodeTable(lif') == NodeTable(lif) && StationTable(lif') == StationTable(lif)
  {
    OpenAgreement(lif, x);
    RenameKeepsIndex(EdgeTable(lif), EdgeId, x.edge, x.edge[id], Get(EdgeTable(lif), x.edge[id]).(edgeId := newId));
    var e := Get(EdgeTable(lif), x.edge[id]);
    UpdateEdgeIdCommits(lif, x, id, newId, lif');
    var x' := x.(edge := Rekey(x.edge, id, newId),
      outbound := ReplaceAt(x.outbound, e.startNodeId, id, newId),
      inbound := ReplaceAt(x.inbound, e.endNodeId, id, newId));
    AgreementIsStructure(lif', x');
    RowsAreRecords(lif', x');
  }

  lemma UpdateEdgeIdKeeps(lif: LIF, id: string, newId: string)
    requires StructureOk(lif)
    ensures StructureOk(UpdateEdgeIdSpec(lif, id, newId).lif)
    ensures HasEdgeId(lif, id) && !HasEdgeId(lif, newId) ==>
              var after := UpdateEdgeIdSpec(lif, id, newId).lif;
              && id in EdgesOf(lif) && EdgesOf(after) == (EdgesOf(lif) - {id})[newId := EdgesOf(lif)[id].(edgeId := newId)]
              && NodeTable(after) == NodeTable(lif) && StationTable(after) == StationTable(lif)
  {
    if HasEdgeId(lif, id) && !HasEdgeId(lif, newId) {
      var x, t := Rebuilt(lif), EdgeTable(lif);
      RebuiltAgrees(lif);
      Guards(lif, x);
      DeleteEdgeThrows(lif, x, id);
      var t' := Set(t, x.edge[id], Get(t, x.edge[id]).(edgeId := newId));
      EdgesChangedIs(lif, WithEdges(lif, t'), t');
      EdgeRenamedKeepsStructure(lif, x, id, newId, WithEdges(lif, t'));
    }
  }

  lemma StationRenamedKeepsStructure(lif: LIF, x: Indices, id: string, newId: string, lif': LIF)
    requires Agrees(lif, x) && id in x.station && newId !in x.station && Has(StationTable(lif), x.station[id])
    requires var p := x.station[id]; var t := StationTable(lif);
             StationsChanged(lif, lif', Set(t, p, Get(t, p).(stationId := newId)))
    ensures StructureOk(lif') && UpdateStationIdSpec(lif, id, newId) == Step(Done, lif')
    ensures StationsOf(lif') == (Rows(StationTable(lif), x.station) - {id})[newId := Get(StationTable(lif), x.station[id]).(stationId := newId)]
    ensures NodeTable(lif') == NodeTable(lif) && EdgeTable(lif') == EdgeTable(lif)
  {
    OpenAgreement(lif, x);
    RenameKeepsIndex(StationTable(lif), StationId, x.station, x.station[id], Get(StationTable(lif), x.station[id]).(stationId := newId));
    UpdateStationIdCommits(lif, x, id, newId, lif');
    var x' := x.(station := Rekey(x.station, id, newId),
      stations := ReplaceAll(x.stations, Get(StationTable(lif), x.station[id]).interactionNodeIds, id, newId));
    AgreementIsStructure(lif', x');
    RowsAreRecords(lif', x');
  }

  lemma UpdateStationIdKeeps(lif: LIF, id: string, newId: string)
    requires StructureOk(lif)
    ensures StructureOk(UpdateStationIdSpec(lif, id, newId).lif)
    ensures HasStationId(lif, id) && !HasStationId(lif, newId) ==>
              var after := UpdateStationIdSpec(lif, id, newId).lif;
              && id in StationsOf(lif) && StationsOf(after) == (StationsOf(lif) - {id})[newId := StationsOf(lif)[id].(stationId := newId)]
              && NodeTable(after) == NodeTable(lif) && EdgeTable(after) == EdgeTable(lif)
  {
    if HasStationId(lif, id) && !HasStationId(lif, newId) {
      var x, t := Rebuilt(lif), StationTable(lif);
      RebuiltAgrees(lif);
      Guards(lif, x);
      DeleteStationThrows(lif, x, id);
      var t' := Set(t, x.station[id], Get(t, x.station[id]).(stationId := newId));
      StationsChangedIs(lif, WithStations(lif, t'), t');
      StationRenamedKeepsStructure(lif, x, id, newId, WithStations(lif, t'));
    }
  }

  lemma RenamedKeepsStructure(lif: LIF, x: Indices, id: string, newId: string, lif': LIF)
    requires Agrees(lif, x) && id in x.node && newId !in x.node && NodeRenamed(lif, lif', id, newId)
    ensures StructureOk(lif')
  {
    OpenAgreement(lif, x);
    UpdateNodeIdAgrees(lif, x, id, newId, lif');
    AgreementIsStructure(lif', x.(node := Rekey(x.node, id, newId), outbound := Rekey(x.outbound, id, newId),
      inbound := Rekey(x.inbound, id, newId), stations := Rekey(x.stations, id, newId)));
  }

  lemma UpdateNodeIdKeeps(lif: LIF, id: string, newId: string)
    requires StructureOk(lif)
    ensures StructureOk(UpdateNodeIdSpec(lif, id, newId).lif)
  {
    if HasNodeId(lif, id) && !HasNodeId(lif, newId) {
      RebuiltAgrees(lif);
      Guards(lif, Rebuilt(lif));
      NodeRenamedIs(lif, RenameNodeEverywhere(lif, id, newId), id, newId);
      RenamedKeepsStructure(lif, Rebuilt(lif), id, newId, RenameNodeEverywhere(lif, id, newId));
    }
  }

  // ---- Prune ----

  /** `UnconnectedNodes` lists exactly the isolated nodes, each once. */
  lemma {:induction false} UnconnectedMembers(lif: LIF, nodes: seq<Node>, n: string)
    requires forall i, j :: 0 <= i < j < |nodes| ==> nodes[i].nodeId != nodes[j].nodeId
    ensures n in Unconnected(lif, nodes) <==> Isolated(lif, n) && exists i :: 0 <= i < |nodes| && nodes[i].nodeId == n
    ensures Distinct(Unconnected(lif, nodes))
    decreases |nodes|
  {
    if nodes != [] {
      var init, last := nodes[..|nodes| - 1], nodes[|nodes| - 1];
      assert forall i :: 0 <= i < |init| ==> init[i] == nodes[i];
      UnconnectedMembers(lif, init, n);
      UnconnectedMembers(lif, init, last.nodeId);
      if n in Unconnected(lif, init) {
        var i :| 0 <= i < |init| && init[i].nodeId == n;
        assert nodes[i].nodeId == n;
      }
      assert nodes[|nodes| - 1].nodeId == last.nodeId;
    }
  }

  lemma UnconnectedIsIsolated(lif: LIF, n: string)
    requires StructureOk(lif)
    ensures n in UnconnectedNodes(lif) <==> HasNodeId(lif, n) && Isolated(lif, n)
    ensures Distinct(UnconnectedNodes(lif))
  {
    var t := NodeTable(lif);
    var nodes := Flatten(t);
    FlattenDistinct(t, NodeId);
    assert forall i :: 0 <= i < |nodes| ==> NodeId(nodes[i]) == nodes[i].nodeId;
    UnconnectedMembers(lif, nodes, n);
    if HasNodeId(lif, n) {
      var p :| Has(t, p) && NodeId(Get(t, p)) == n;
      FlattenMembers(t, Get(t, p));
      var i :| 0 <= i < |nodes| && nodes[i] == Get(t, p);
      assert nodes[i].nodeId == n;
    }
    if i :| 0 <= i < |nodes| && nodes[i].nodeId == n {
      FlattenMembers(t, nodes[i]);
      var p :| Has(t, p) && Get(t, p) == nodes[i];
      assert NodeId(Get(t, p)) == n;
    }
  }

  lemma RecordKeys(lif: LIF)
    requires StructureOk(lif)
    ensures forall n :: n in NodesOf(lif) <==> HasNodeId(lif, n)
  {
    var x := Rebuilt(lif);
    RebuiltAgrees(lif);
    Guards(lif, x);
    forall n | n in x.node ensures n in NodesOf(lif) {
      assert Has(NodeTable(lif), x.node[n]);
    }
  }

  lemma SameEdgesSameIsolation(lif: LIF, lif': LIF, n: string)
    requires EdgeTable(lif') == EdgeTable(lif) && StationTable(lif') == StationTable(lif)
    ensures Isolated(lif, n) <==> Isolated(lif', n)
  {
  }

  /** `after` is `before` with the nodes `gone` removed and nothing else. */
  ghost predicate OnlyGone(before: LIF, after: LIF, gone: set<string>) {
    && StructureOk(after)
    && EdgeTable(after) == EdgeTable(before) && StationTable(after) == StationTable(before)
    && NodesOf(after) == NodesOf(before) - gone
  }

  lemma OneMoreGone(before: LIF, after: LIF, gone: set<string>, id: string)
    requires OnlyGone(before, after, gone) && DeleteNodeSpec(after, id).outcome == Done
    ensures OnlyGone(before, DeleteNodeSpec(after, id).lif, gone + {id})
  {
    DeleteNodeKeeps(after, id);
    RemoveMore(NodesOf(before), gone, id);
  }

  /** A victim is still there, and still isolated, when its turn comes. */
  lemma VictimStays(lif: LIF, lif': LIF, v: seq<string>, k: nat)
    requires StructureOk(lif) && v == UnconnectedNodes(lif) && k < |v|
    requires OnlyGone(lif, lif', Elems(v[..k]))
    ensures DeleteNodeSpec(lif', v[k]).outcome == Done
  {
    UnconnectedIsIsolated(lif, v[k]);
    RecordKeys(lif);
    RecordKeys(lif');
    SameEdgesSameIsolation(lif, lif', v[k]);
    assert v[k] !in v[..k];
  }

  lemma PruneStep(lif: LIF, prev: LIF, v: seq<string>, k: nat)
    requires 0 < k <= |v| && OnlyGone(lif, prev, Elems(v[..k - 1])) && DeleteNodeSpec(prev, v[k - 1]).outcome == Done
    ensures OnlyGone(lif, DeleteNodeSpec(prev, v[k - 1]).lif, Elems(v[..k]))
  {
    OneMoreGone(lif, prev, Elems(v[..k - 1]), v[k - 1]);
    ElemsOneMore(v, k);
  }

  lemma ElemsOneMore(v: seq<string>, k: nat)
    requires 0 < k <= |v|
    ensures Elems(v[..k]) == Elems(v[..k - 1]) + {v[k - 1]}
  {
    assert v[..k] == v[..k - 1] + [v[k - 1]];
  }

  lemma DeleteNodesStep(lif: LIF, v: seq<string>, k: nat)
    requires 0 < k <= |v|
    ensures DeleteNodes(lif, v[..k]) == DeleteNodeSpec(DeleteNodes(lif, v[..k - 1]), v[k - 1]).lif
  {
    assert v[..k][..k - 1] == v[..k - 1];
  }

  lemma NothingGone(lif: LIF)
    requires StructureOk(lif)
    ensures OnlyGone(lif, lif, {})
  {
    assert NodesOf(lif) - {} == NodesOf(lif);
  }

  /** Deleting a prefix of the victims: none throws, and nothing but those nodes goes. */
  lemma {:induction false} PrunePrefix(lif: LIF, v: seq<string>, k: nat) returns (after: LIF)
    requires StructureOk(lif) && v == UnconnectedNodes(lif) && k <= |v|
    ensures after == DeleteNodes(lif, v[..k])
    ensures OnlyGone(lif, after, Elems(v[..k]))
    ensures k < |v| ==> DeleteNodeSpec(after, v[k]).outcome == Done
  {
    if k > 0 {
      var prev := PrunePrefix(lif, v, k - 1);
      after := DeleteNodeSpec(prev, v[k - 1]).lif;
      DeleteNodesStep(lif, v, k);
      PruneStep(lif, prev, v, k);
    } else {
      after := lif;
      NothingGone(lif);
      assert Elems(v[..0]) == {};
    }
    if k < |v| {
      VictimStays(lif, after, v, k);
    }
  }

  lemma RemoveMore<K, V>(m: map<K, V>, s: set<K>, k: K)
    ensures m - s - {k} == m - (s + {k})
  {
  }

  /** `prune` removes exactly the isolated nodes, keeps everything else findable with the same value,
      leaves no isolated node, and does nothing the second time. */
  lemma PruneLaw(lif: LIF)
    requires StructureOk(lif)
    ensures var lif' := PruneSpec(lif).lif;
            && StructureOk(lif')
            && NodesOf(lif') == (map n | n in NodesOf(lif) && !Isolated(lif, n) :: NodesOf(lif)[n])
            && EdgesOf(lif') == EdgesOf(lif) && StationsOf(lif') == StationsOf(lif)
            && UnconnectedNodes(lif') == []
            && PruneSpec(lif').lif == lif'
  {
    var v := UnconnectedNodes(lif);
    var lif' := PrunePrefix(lif, v, |v|);
    assert v[..|v|] == v;
    PrunedProperties(lif, lif', v);
  }

  lemma PrunedNodes(lif: LIF, v: seq<string>)
    requires StructureOk(lif) && v == UnconnectedNodes(lif)
    ensures NodesOf(lif) - Elems(v) == (map n | n in NodesOf(lif) && !Isolated(lif, n) :: NodesOf(lif)[n])
  {
    VictimsAreIsolated(lif);
    Survivors(NodesOf(lif), v, n => Isolated(lif, n));
  }

  lemma PrunedProperties(lif: LIF, lif': LIF, v: seq<string>)
    requires StructureOk(lif) && v == UnconnectedNodes(lif) && OnlyGone(lif, lif', Elems(v))
    ensures NodesOf(lif') == (map n | n in NodesOf(lif) && !Isolated(lif, n) :: NodesOf(lif)[n])
    ensures EdgesOf(lif') == EdgesOf(lif) && StationsOf(lif') == StationsOf(lif)
    ensures UnconnectedNodes(lif') == []
  {
    SameTablesSameRecords(lif, lif');
    PrunedNodes(lif, v);
    VictimsAreIsolated(lif);
    NothingLeft(lif, lif', v);
  }

  lemma VictimsAreIsolated(lif: LIF)
    requires StructureOk(lif)
    ensures forall n :: n in UnconnectedNodes(lif) <==> n in NodesOf(lif) && Isolated(lif, n)
  {
    RecordKeys(lif);
    forall n ensures n in UnconnectedNodes(lif) <==> n in NodesOf(lif) && Isolated(lif, n) {
      UnconnectedIsIsolated(lif, n);
    }
  }

  lemma Survivors(m: map<string, Node>, v: seq<string>, isolated: string -> bool)
    requires forall n :: n in v <==> n in m && isolated(n)
    ensures m - Elems(v) == map n | n in m && !isolated(n) :: m[n]
  {
  }

  lemma NoMemberEmpty<T(!new)>(s: seq<T>)
    ensures s == [] <==> forall x :: x !in s
  {
    if s != [] {
      assert s[0] in s;
    }
  }

  lemma NothingLeft(lif: LIF, lif': LIF, v: seq<string>)
    requires OnlyGone(lif, lif', Elems(v))
    requires forall n :: n in v <==> n in NodesOf(lif) && Isolated(lif, n)
    ensures UnconnectedNodes(lif') == []
  {
    VictimsAreIsolated(lif');
    forall n ensures n !in UnconnectedNodes(lif') {
      SameEdgesSameIsolation(lif, lif', n);
    }
    NoMemberEmpty(UnconnectedNodes(lif'));
  }

  // ---- Whole runs ----

  lemma AdditionKeepsStructure(lif: LIF, op: Op)
    requires StructureOk(lif) && (op.AddNode? || op.AddEdge? || op.AddStation?)
    ensures StructureOk(Apply(lif, op).lif)
  {
    match op
    case AddNode(node, layoutId) => AddNodeKeeps(lif, node, layoutId);
    case AddEdge(edge, layoutId) => AddEdgeKeeps(lif, edge, layoutId);
    case AddStation(station, layoutId) => AddStationKeeps(lif, station, layoutId);
  }

  lemma DeletionKeepsStructure(lif: LIF, op: Op)
    requires StructureOk(lif) && (op.DeleteNode? || op.DeleteEdge? || op.DeleteStation? || op.Prune?)
    ensures StructureOk(Apply(lif, op).lif)
  {
    match op
    case DeleteNode(id) => DeleteNodeKeeps(lif, id);
    case DeleteEdge(id) => DeleteEdgeKeeps(lif, id);
    case DeleteStation(id) => DeleteStationKeeps(lif, id);
    case Prune => PruneLaw(lif);
  }

  lemma ApplyKeepsStructure(lif: LIF, op: Op)
    requires StructureOk(lif)
    ensures StructureOk(Apply(lif, op).lif)
  {
    match op
    case UpdateNodeId(oldId, newId) => UpdateNodeIdKeeps(lif, oldId, newId);
    case UpdateEdgeId(oldId, newId) => UpdateEdgeIdKeeps(lif, oldId, newId);
    case UpdateStationId(oldId, newId) => UpdateStationIdKeeps(lif, oldId, newId);
    case _ =>
      if op.AddNode? || op.AddEdge? || op.AddStation? {
        AdditionKeepsStructure(lif, op);
      } else {
        DeletionKeepsStructure(lif, op);
      }
  }

  /** Structural validity is kept by every sequence of calls. */
  lemma {:induction false} RunKeepsStructure(lif: LIF, ops: seq<Op>)
    requires StructureOk(lif)
    ensures StructureOk(Run(lif, ops))
    decreases |ops|
  {
    if ops != [] {
      RunKeepsStructure(lif, ops[..|ops| - 1]);
      ApplyKeepsStructure(Run(lif, ops[..|ops| - 1]), ops[|ops| - 1]);
    }
  }
}
