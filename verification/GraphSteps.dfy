/** Each mutator's patch of document and indices keeps them in agreement and has the scanned effect. */
module GraphSteps {
  import opened Tables
  import opened ReverseIndex
  import opened Lif
  import opened GraphSpec
  import opened GraphIndex

  // ---- One family of records changed, everything else as it was ----

  ghost predicate NodesChanged(lif: LIF, lif': LIF, t': Table<Node>) {
    SameFrame(lif, lif') && NodeTable(lif') == t' && EdgeTable(lif') == EdgeTable(lif) && StationTable(lif') == StationTable(lif)
  }

  ghost predicate EdgesChanged(lif: LIF, lif': LIF, t': Table<Edge>) {
    SameFrame(lif, lif') && NodeTable(lif') == NodeTable(lif) && EdgeTable(lif') == t' && StationTable(lif') == StationTable(lif)
  }

  ghost predicate StationsChanged(lif: LIF, lif': LIF, t': Table<Station>) {
    SameFrame(lif, lif') && NodeTable(lif') == NodeTable(lif) && EdgeTable(lif') == EdgeTable(lif) && StationTable(lif') == t'
  }

  lemma NodesChangedIs(lif: LIF, lif': LIF, t': Table<Node>)
    requires |t'| == |lif.layouts|
    ensures NodesChanged(lif, lif', t') <==> lif' == WithNodes(lif, t')
  {
    WithNodesTables(lif, t');
    if NodesChanged(lif, lif', t') {
      SameLif(lif', WithNodes(lif, t'));
    }
  }

  lemma EdgesChangedIs(lif: LIF, lif': LIF, t': Table<Edge>)
    requires |t'| == |lif.layouts|
    ensures EdgesChanged(lif, lif', t') <==> lif' == WithEdges(lif, t')
  {
    WithEdgesTables(lif, t');
    if EdgesChanged(lif, lif', t') {
      SameLif(lif', WithEdges(lif, t'));
    }
  }

  lemma StationsChangedIs(lif: LIF, lif': LIF, t': Table<Station>)
    requires |t'| == |lif.layouts|
    ensures StationsChanged(lif, lif', t') <==> lif' == WithStations(lif, t')
  {
    WithStationsTables(lif, t');
    if StationsChanged(lif, lif', t') {
      SameLif(lif', WithStations(lif, t'));
    }
  }

  /** Changing one family twice changes it once. */
  lemma ChangedTwice(a: LIF, b: LIF, c: LIF)
    requires SameFrame(a, b) && SameFrame(b, c)
    ensures (NodeTable(b) == NodeTable(a) && StationTable(b) == StationTable(a)
             && NodeTable(c) == NodeTable(b) && StationTable(c) == StationTable(b)) ==> EdgesChanged(a, c, EdgeTable(c))
    ensures (NodeTable(b) == NodeTable(a) && EdgeTable(b) == EdgeTable(a)
             && NodeTable(c) == NodeTable(b) && EdgeTable(c) == EdgeTable(b)) ==> StationsChanged(a, c, StationTable(c))
  {
    FrameTrans(a, b, c);
  }

  lemma FrameKeepsLayouts(a: LIF, b: LIF, layout: map<string, nat>)
    requires SameFrame(a, b) && LayoutIndexed(a, layout)
    ensures LayoutIndexed(b, layout)
  {
    forall i | 0 <= i < |a.layouts| ensures a.layouts[i].layoutId == b.layouts[i].layoutId {
      assert a.layouts[i].(nodes := [], edges := [], stations := [])
          == b.layouts[i].(nodes := [], edges := [], stations := []);
    }
  }

  // ---- Index guards decide what the scans decide ----

  lemma Guards(lif: LIF, x: Indices)
    requires Agrees(lif, x)
    ensures forall k :: k in x.node <==> HasNodeId(lif, k)
    ensures forall k :: k in x.edge <==> HasEdgeId(lif, k)
    ensures forall k :: k in x.station <==> HasStationId(lif, k)
  {
    OpenAgreement(lif, x);
    IndexKeys(NodeTable(lif), NodeId, x.node);
    IndexKeys(EdgeTable(lif), EdgeId, x.edge);
    IndexKeys(StationTable(lif), StationId, x.station);
  }

  lemma LayoutGuard(lif: LIF, x: Indices, layoutId: string)
    requires Agrees(lif, x)
    ensures layoutId in x.layout <==> HasLayout(lif, layoutId)
    ensures layoutId in x.layout ==> x.layout[layoutId] < |lif.layouts|
  {
    OpenAgreement(lif, x);
  }

  lemma StartGuard(lif: LIF, x: Indices, layoutId: string, n: string)
    requires Agrees(lif, x) && layoutId in x.layout
    ensures n in x.node && x.node[n].row == x.layout[layoutId] <==> StartInLayout(lif, layoutId, n)
  {
    OpenAgreement(lif, x);
    var t := NodeTable(lif);
    var li := x.layout[layoutId];
    if n in x.node && x.node[n].row == li {
      var p := x.node[n];
      assert Has(t, p) && NodeId(Get(t, p)) == n;
      assert lif.layouts[li].nodes[p.col].nodeId == n;
    }
    if StartInLayout(lif, layoutId, n) {
      var i :| 0 <= i < |lif.layouts| && lif.layouts[i].layoutId == layoutId && RowHasNode(lif.layouts[i], n);
      var j :| 0 <= j < |lif.layouts[i].nodes| && lif.layouts[i].nodes[j].nodeId == n;
      assert Has(t, Pos(i, j)) && NodeId(Get(t, Pos(i, j))) == n;
    }
  }

  lemma EdgeGuard(lif: LIF, x: Indices, n: string)
    requires Agrees(lif, x)
    ensures ListAt(x.outbound, n) != [] || ListAt(x.inbound, n) != [] <==> EdgeTouches(lif, n)
  {
    OpenAgreement(lif, x);
    var t := EdgeTable(lif);
    if EdgeTouches(lif, n) {
      var p :| Has(t, p) && (Get(t, p).startNodeId == n || Get(t, p).endNodeId == n);
      assert x.edge[EdgeId(Get(t, p))] == p;
      OutboundLists(t, x.node, x.edge, x.outbound, x.inbound, n, Get(t, p).edgeId);
    }
    if ListAt(x.outbound, n) != [] {
      var e := ListAt(x.outbound, n)[0];
      OutboundLists(t, x.node, x.edge, x.outbound, x.inbound, n, e);
      assert Has(t, x.edge[e]);
    }
    if ListAt(x.inbound, n) != [] {
      var e := ListAt(x.inbound, n)[0];
      OutboundLists(t, x.node, x.edge, x.outbound, x.inbound, n, e);
      assert Has(t, x.edge[e]);
    }
  }

  lemma StationGuard(lif: LIF, x: Indices, n: string)
    requires Agrees(lif, x)
    ensures ListAt(x.stations, n) != [] <==> StationRefersTo(lif, n)
  {
    OpenAgreement(lif, x);
    var t := StationTable(lif);
    if StationRefersTo(lif, n) {
      var p :| Has(t, p) && n in Get(t, p).interactionNodeIds;
      assert x.station[StationId(Get(t, p))] == p;
      StationLists(t, x.node, x.station, x.stations, n, Get(t, p).stationId);
    }
    if ListAt(x.stations, n) != [] {
      var s := ListAt(x.stations, n)[0];
      StationLists(t, x.node, x.station, x.stations, n, s);
      assert Has(t, x.station[s]);
    }
  }

  /** Indices that agree witness structural validity. */
  lemma AgreementIsStructure(lif: LIF, x: Indices)
    requires Agrees(lif, x)
    ensures StructureOk(lif)
  {
    OpenAgreement(lif, x);
    IndexKeys(NodeTable(lif), NodeId, x.node);
    IndexKeys(EdgeTable(lif), EdgeId, x.edge);
    IndexKeys(StationTable(lif), StationId, x.station);
    forall i | 0 <= i < |lif.layouts| ensures StartsResolve(lif.layouts[i]) && TargetsResolve(lif, lif.layouts[i]) {
      EdgesOfLayoutResolve(lif, x, i);
      StationsOfLayoutResolve(lif, x, i);
    }
  }

  lemma EdgesOfLayoutResolve(lif: LIF, x: Indices, i: nat)
    requires Agrees(lif, x) && i < |lif.layouts|
    ensures StartsResolve(lif.layouts[i])
    ensures forall j :: 0 <= j < |lif.layouts[i].edges| ==> HasNodeId(lif, lif.layouts[i].edges[j].endNodeId)
  {
    OpenAgreement(lif, x);
    var l, t := lif.layouts[i], EdgeTable(lif);
    Guards(lif, x);
    forall j | 0 <= j < |l.edges| ensures RowHasNode(l, l.edges[j].startNodeId) && HasNodeId(lif, l.edges[j].endNodeId) {
      assert Has(t, Pos(i, j)) && Get(t, Pos(i, j)) == l.edges[j];
      var e := EdgeId(l.edges[j]);
      assert x.edge[e] == Pos(i, j);
      EndsResolve(t, x.node, x.edge, x.outbound, x.inbound, e);
      var p := x.node[l.edges[j].startNodeId];
      assert p.row == i && Has(NodeTable(lif), p) && NodeId(Get(NodeTable(lif), p)) == l.edges[j].startNodeId;
      assert l.nodes[p.col].nodeId == l.edges[j].startNodeId;
    }
  }

  lemma StationsOfLayoutResolve(lif: LIF, x: Indices, i: nat)
    requires Agrees(lif, x) && i < |lif.layouts|
    ensures forall j, n :: 0 <= j < |lif.layouts[i].stations| && n in lif.layouts[i].stations[j].interactionNodeIds ==>
              HasNodeId(lif, n)
  {
    OpenAgreement(lif, x);
    var l, t := lif.layouts[i], StationTable(lif);
    Guards(lif, x);
    forall j, n | 0 <= j < |l.stations| && n in l.stations[j].interactionNodeIds ensures HasNodeId(lif, n) {
      assert Has(t, Pos(i, j)) && Get(t, Pos(i, j)) == l.stations[j];
      var s := StationId(l.stations[j]);
      assert x.station[s] == Pos(i, j);
      StationTargetsResolve(t, x.node, x.station, x.stations, s, n);
    }
  }

  // ---- Adding ----

  lemma AppendAtIndex<T>(lif: LIF, layout: map<string, nat>, t: Table<T>, layoutId: string, r: T)
    requires LayoutIndexed(lif, layout) && layoutId in layout && |t| == |lif.layouts|
    ensures var li := layout[layoutId]; li < |t| && AppendTo(lif, t, layoutId, r) == t[li := t[li] + [r]]
  {
  }

  lemma AddNodeStep(lif: LIF, x: Indices, node: Node, layoutId: string)
    requires Agrees(lif, x) && node.nodeId !in x.node && layoutId in x.layout
    ensures var li := x.layout[layoutId]; var t := NodeTable(lif);
            li < |t| && AddNodeSpec(lif, node, layoutId) == Step(Done, WithNodes(lif, t[li := t[li] + [node]]))
  {
    OpenAgreement(lif, x);
    Guards(lif, x);
    LayoutGuard(lif, x, layoutId);
    AppendAtIndex(lif, x.layout, NodeTable(lif), layoutId, node);
  }

  lemma AddNodeAgrees(lif: LIF, x: Indices, node: Node, li: nat, lif': LIF)
    requires Agrees(lif, x) && node.nodeId !in x.node && li < |NodeTable(lif)|
    requires NodesChanged(lif, lif', NodeTable(lif)[li := NodeTable(lif)[li] + [node]])
    ensures Agrees(lif',
              x.(node := x.node[node.nodeId := Pos(li, |NodeTable(lif)[li]|)],
                 outbound := x.outbound[node.nodeId := []], inbound := x.inbound[node.nodeId := []]))
  {
    OpenAgreement(lif, x);
    var id, p := node.nodeId, Pos(li, |NodeTable(lif)[li]|);
    assert NodeId(node) == id;
    AppendKeepsIndex(NodeTable(lif), NodeId, x.node, li, node);
    AddNodeKeepsEdges(EdgeTable(lif), x.node, x.edge, x.outbound, x.inbound, id, p);
    FrameKeepsLayouts(lif, lif', x.layout);
  }

  lemma AddEdgeStep(lif: LIF, x: Indices, edge: Edge, layoutId: string)
    requires Agrees(lif, x) && edge.edgeId !in x.edge && layoutId in x.layout
    requires edge.startNodeId in x.node && x.node[edge.startNodeId].row == x.layout[layoutId]
    requires edge.endNodeId in x.node
    ensures var li := x.layout[layoutId]; var t := EdgeTable(lif);
            li < |t| && AddEdgeSpec(lif, edge, layoutId) == Step(Done, WithEdges(lif, t[li := t[li] + [edge]]))
  {
    OpenAgreement(lif, x);
    Guards(lif, x);
    LayoutGuard(lif, x, layoutId);
    StartGuard(lif, x, layoutId, edge.startNodeId);
    AppendAtIndex(lif, x.layout, EdgeTable(lif), layoutId, edge);
  }

  lemma AddEdgeAgrees(lif: LIF, x: Indices, edge: Edge, li: nat, lif': LIF)
    requires Agrees(lif, x) && edge.edgeId !in x.edge && li < |EdgeTable(lif)|
    requires edge.startNodeId in x.node && x.node[edge.startNodeId].row == li && edge.endNodeId in x.node
    requires EdgesChanged(lif, lif', EdgeTable(lif)[li := EdgeTable(lif)[li] + [edge]])
    ensures Agrees(lif',
              x.(edge := x.edge[edge.edgeId := Pos(li, |EdgeTable(lif)[li]|)],
                 outbound := Push(x.outbound, edge.startNodeId, edge.edgeId),
                 inbound := Push(x.inbound, edge.endNodeId, edge.edgeId)))
  {
    OpenAgreement(lif, x);
    AddEdgeKeepsEdges(EdgeTable(lif), x.node, x.edge, x.outbound, x.inbound, li, edge);
    FrameKeepsLayouts(lif, lif', x.layout);
  }

  lemma AddStationStep(lif: LIF, x: Indices, station: Station, layoutId: string)
    requires Agrees(lif, x) && station.stationId !in x.station && layoutId in x.layout
    requires forall n :: n in station.interactionNodeIds ==> n in x.node
    ensures var li := x.layout[layoutId]; var t := StationTable(lif);
            li < |t| && AddStationSpec(lif, station, layoutId) == Step(Done, WithStations(lif, t[li := t[li] + [station]]))
  {
    OpenAgreement(lif, x);
    Guards(lif, x);
    LayoutGuard(lif, x, layoutId);
    AppendAtIndex(lif, x.layout, StationTable(lif), layoutId, station);
  }

  lemma AddStationAgrees(lif: LIF, x: Indices, station: Station, li: nat, lif': LIF)
    requires Agrees(lif, x) && station.stationId !in x.station && li < |StationTable(lif)|
    requires forall n :: n in station.interactionNodeIds ==> n in x.node
    requires StationsChanged(lif, lif', StationTable(lif)[li := StationTable(lif)[li] + [station]])
    ensures Agrees(lif',
              x.(station := x.station[station.stationId := Pos(li, |StationTable(lif)[li]|)],
                 stations := PushAll(x.stations, station.interactionNodeIds, station.stationId)))
  {
    OpenAgreement(lif, x);
    AddStationKeepsStations(StationTable(lif), x.node, x.station, x.stations, li, station);
    FrameKeepsLayouts(lif, lif', x.layout);
  }

  // ---- Deleting ----

  /** What `erase_swap` leaves of an index when slot `p` of row `row` is removed. */
  function ErasedIndex<T>(row: seq<T>, p: Pos, id: T -> string, index: map<string, Pos>): map<string, Pos>
    requires p.col < |row|
  {
    if p.col == |row| - 1 then index - {id(row[p.col])}
    else (index - {id(row[p.col])})[id(row[|row| - 1]) := p]
  }

  lemma InSlot<T>(t: Table<T>, id: T -> string, index: map<string, Pos>, k: string)
    requires Indexes(t, id, index) && k in index
    ensures Has(t, index[k]) && id(Get(t, index[k])) == k && k in Rows(t, index) && Rows(t, index)[k] == Get(t, index[k])
  {
  }

  lemma ErasedIndexForm<T>(t: Table<T>, id: T -> string, index: map<string, Pos>, k: string)
    requires Indexes(t, id, index) && k in index && Has(t, index[k])
    ensures var p := index[k]; var last := Pos(p.row, |t[p.row]| - 1);
            ErasedIndex(t[p.row], p, id, index) == if p == last then index - {k} else (index - {k})[id(Get(t, last)) := p]
  {
    InSlot(t, id, index, k);
  }

  /** Swap-and-pop under an index: one id gone, every other record findable with the same value, in its row. */
  lemma EraseSwapKeeps<T>(t: Table<T>, id: T -> string, index: map<string, Pos>, k: string)
    requires Indexes(t, id, index) && k in index && Has(t, index[k])
    ensures var p := index[k]; var index' := ErasedIndex(t[p.row], p, id, index);
            var t' := t[p.row := SwapRemove(t[p.row], p.col)];
            index'.Keys == index.Keys - {k} && (forall j :: j in index' ==> index'[j].row == index[j].row)
            && Indexes(t', id, index') && Rows(t', index') == Rows(t, index) - {k}
  {
    var p := index[k];
    var index' := ErasedIndex(t[p.row], p, id, index);
    InSlot(t, id, index, k);
    ErasedIndexForm(t, id, index, k);
    SwapRemoveKeepsIndex(t, id, index, p, index');
    MovedWithinRow(t, id, index, k, index');
  }

  lemma DeleteNodeStep(lif: LIF, x: Indices, id: string)
    requires Agrees(lif, x) && id in x.node && Has(NodeTable(lif), x.node[id])
    requires ListAt(x.outbound, id) == [] && ListAt(x.inbound, id) == [] && ListAt(x.stations, id) == []
    ensures var p := x.node[id]; var t := NodeTable(lif);
            DeleteNodeSpec(lif, id) == Step(Done, WithNodes(lif, t[p.row := SwapRemove(t[p.row], p.col)]))
  {
    OpenAgreement(lif, x);
    Guards(lif, x);
    EdgeGuard(lif, x, id);
    StationGuard(lif, x, id);
    RemoveIdAtIndex(NodeTable(lif), NodeId, x.node, id);
  }

  lemma DropNodeAgrees(lif: LIF, x: Indices, id: string, t': Table<Node>, lif': LIF, node': map<string, Pos>)
    requires Agrees(lif, x) && NodesChanged(lif, lif', t') && Indexes(t', NodeId, node')
    requires node'.Keys == x.node.Keys - {id} && forall j :: j in node' ==> node'[j].row == x.node[j].row
    requires ListAt(x.outbound, id) == [] && ListAt(x.inbound, id) == [] && ListAt(x.stations, id) == []
    ensures Agrees(lif', x.(node := node', outbound := x.outbound - {id}, inbound := x.inbound - {id},
              stations := x.stations - {id}))
  {
    OpenAgreement(lif, x);
    FrameKeepsLayouts(lif, lif', x.layout);
    DropNodeKeepsEdges(EdgeTable(lif), x.node, x.edge, x.outbound, x.inbound, id, node');
    DropNodeKeepsStations(StationTable(lif), x.node, x.station, x.stations, id, node');
  }

  lemma DeleteEdgeStep(lif: LIF, x: Indices, id: string)
    requires Agrees(lif, x) && id in x.edge && Has(EdgeTable(lif), x.edge[id])
    ensures var p := x.edge[id]; var t := EdgeTable(lif);
            DeleteEdgeSpec(lif, id) == Step(Done, WithEdges(lif, t[p.row := SwapRemove(t[p.row], p.col)]))
  {
    OpenAgreement(lif, x);
    Guards(lif, x);
    RemoveIdAtIndex(EdgeTable(lif), EdgeId, x.edge, id);
  }

  lemma DropEdgeIndexed(t: Table<Edge>, x: Indices, e: Edge, t': Table<Edge>, edge': map<string, Pos>)
    requires EdgesIndexed(t, x.node, x.edge, x.outbound, x.inbound)
    requires e.edgeId in x.edge && Rows(t, x.edge)[e.edgeId] == e
    requires Indexes(t', EdgeId, edge') && Rows(t', edge') == Rows(t, x.edge) - {e.edgeId}
    requires edge'.Keys == x.edge.Keys - {e.edgeId} && forall j :: j in edge' ==> edge'[j].row == x.edge[j].row
    ensures EdgesIndexed(t', x.node, edge', Erase(x.outbound, e.startNodeId, e.edgeId),
              Erase(x.inbound, e.endNodeId, e.edgeId))
  {
    DeleteEdgeKeepsAdjacent(Rows(t, x.edge), x.outbound, x.inbound, e);
    DeleteEdgeKeepsLocal(x.node, x.edge, Rows(t, x.edge), e.edgeId, edge');
  }

  lemma DropEdgeAgrees(lif: LIF, x: Indices, e: Edge, t': Table<Edge>, lif': LIF, edge': map<string, Pos>)
    requires Agrees(lif, x) && EdgesChanged(lif, lif', t')
    requires e.edgeId in x.edge && e.edgeId in Rows(EdgeTable(lif), x.edge)
    requires Rows(EdgeTable(lif), x.edge)[e.edgeId] == e
    requires Indexes(t', EdgeId, edge') && Rows(t', edge') == Rows(EdgeTable(lif), x.edge) - {e.edgeId}
    requires edge'.Keys == x.edge.Keys - {e.edgeId} && forall j :: j in edge' ==> edge'[j].row == x.edge[j].row
    ensures Agrees(lif', x.(edge := edge', outbound := Erase(x.outbound, e.startNodeId, e.edgeId),
              inbound := Erase(x.inbound, e.endNodeId, e.edgeId)))
  {
    OpenAgreement(lif, x);
    FrameKeepsLayouts(lif, lif', x.layout);
    DropEdgeIndexed(EdgeTable(lif), x, e, t', edge');
  }

  lemma DeleteStationStep(lif: LIF, x: Indices, id: string)
    requires Agrees(lif, x) && id in x.station && Has(StationTable(lif), x.station[id])
    ensures var p := x.station[id]; var t := StationTable(lif);
            DeleteStationSpec(lif, id) == Step(Done, WithStations(lif, t[p.row := SwapRemove(t[p.row], p.col)]))
  {
    OpenAgreement(lif, x);
    Guards(lif, x);
    RemoveIdAtIndex(StationTable(lif), StationId, x.station, id);
  }

  lemma DropStationAgrees(lif: LIF, x: Indices, s: Station, t': Table<Station>, lif': LIF, station': map<string, Pos>)
    requires Agrees(lif, x) && StationsChanged(lif, lif', t')
    requires s.stationId in x.station && s.stationId in Rows(StationTable(lif), x.station)
    requires Rows(StationTable(lif), x.station)[s.stationId] == s
    requires Indexes(t', StationId, station')
    requires Rows(t', station') == Rows(StationTable(lif), x.station) - {s.stationId}
    ensures Agrees(lif', x.(station := station', stations := EraseAll(x.stations, s.interactionNodeIds, s.stationId)))
  {
    OpenAgreement(lif, x);
    FrameKeepsLayouts(lif, lif', x.layout);
    DeleteStationKeepsMirror(Rows(StationTable(lif), x.station), x.stations, s);
  }

  // ---- Renaming ----

  lemma UpdateEdgeIdStep(lif: LIF, x: Indices, id: string, newId: string)
    requires Agrees(lif, x) && id in x.edge && newId !in x.edge && Has(EdgeTable(lif), x.edge[id])
    ensures var p := x.edge[id]; var t := EdgeTable(lif);
            UpdateEdgeIdSpec(lif, id, newId) == Step(Done, WithEdges(lif, Set(t, p, Get(t, p).(edgeId := newId))))
  {
    Guards(lif, x);
    assert Indexes(EdgeTable(lif), EdgeId, x.edge) by {
      OpenAgreement(lif, x);
    }
    OneEdgeRenamed(EdgeTable(lif), x.edge, id, newId);
  }

  lemma OneEdgeRenamed(t: Table<Edge>, index: map<string, Pos>, id: string, newId: string)
    requires Indexes(t, EdgeId, index) && id in index && Has(t, index[id])
    ensures Set(t, index[id], Get(t, index[id]).(edgeId := newId)) == MapTable(e => RenamedEdge(e, id, newId), t)
  {
    var f := e => RenamedEdge(e, id, newId);
    assert EdgeId(Get(t, index[id])) == id;
    assert f(Get(t, index[id])) == Get(t, index[id]).(edgeId := newId);
    SetIsMap(t, EdgeId, index, id, f);
  }

  lemma UpdateEdgeIdAgrees(lif: LIF, x: Indices, id: string, newId: string, lif': LIF)
    requires Agrees(lif, x) && id in x.edge && newId !in x.edge && Has(EdgeTable(lif), x.edge[id])
    requires var p := x.edge[id]; var t := EdgeTable(lif);
             EdgesChanged(lif, lif', Set(t, p, Get(t, p).(edgeId := newId)))
    ensures var e := Get(EdgeTable(lif), x.edge[id]);
            Agrees(lif', x.(edge := Rekey(x.edge, id, newId),
              outbound := ReplaceAt(x.outbound, e.startNodeId, id, newId),
              inbound := ReplaceAt(x.inbound, e.endNodeId, id, newId)))
  {
    OpenAgreement(lif, x);
    RenameEdgeKeepsEdges(EdgeTable(lif), x.node, x.edge, x.outbound, x.inbound, id, newId);
    FrameKeepsLayouts(lif, lif', x.layout);
  }

  lemma UpdateStationIdStep(lif: LIF, x: Indices, id: string, newId: string)
    requires Agrees(lif, x) && id in x.station && newId !in x.station && Has(StationTable(lif), x.station[id])
    ensures var p := x.station[id]; var t := StationTable(lif);
            UpdateStationIdSpec(lif, id, newId) == Step(Done, WithStations(lif, Set(t, p, Get(t, p).(stationId := newId))))
  {
    Guards(lif, x);
    assert Indexes(StationTable(lif), StationId, x.station) by {
      OpenAgreement(lif, x);
    }
    OneStationRenamed(StationTable(lif), x.station, id, newId);
  }

  lemma OneStationRenamed(t: Table<Station>, index: map<string, Pos>, id: string, newId: string)
    requires Indexes(t, StationId, index) && id in index && Has(t, index[id])
    ensures Set(t, index[id], Get(t, index[id]).(stationId := newId)) == MapTable(s => RenamedStation(s, id, newId), t)
  {
    var f := s => RenamedStation(s, id, newId);
    assert StationId(Get(t, index[id])) == id;
    assert f(Get(t, index[id])) == Get(t, index[id]).(stationId := newId);
    SetIsMap(t, StationId, index, id, f);
  }

  lemma UpdateStationIdAgrees(lif: LIF, x: Indices, id: string, newId: string, lif': LIF)
    requires Agrees(lif, x) && id in x.station && newId !in x.station && Has(StationTable(lif), x.station[id])
    requires var p := x.station[id]; var t := StationTable(lif);
             StationsChanged(lif, lif', Set(t, p, Get(t, p).(stationId := newId)))
    ensures var s := Get(StationTable(lif), x.station[id]);
            Agrees(lif', x.(station := Rekey(x.station, id, newId),
              stations := ReplaceAll(x.stations, s.interactionNodeIds, id, newId)))
  {
    OpenAgreement(lif, x);
    RenameStationKeepsStations(StationTable(lif), x.node, x.station, x.stations, id, newId);
    FrameKeepsLayouts(lif, lif', x.layout);
  }

  /** All three families rewritten as a renaming of node `from` demands. */
  ghost predicate NodeRenamed(lif: LIF, lif': LIF, from: string, to: string) {
    && SameFrame(lif, lif')
    && NodeTable(lif') == MapTable(n => RenamedNode(n, from, to), NodeTable(lif))
    && EdgeTable(lif') == MapTable(e => RedirectedEdge(e, from, to), EdgeTable(lif))
    && StationTable(lif') == MapTable(s => RedirectedStation(s, from, to), StationTable(lif))
  }

  /** Agreement on edges or stations survives rewriting the other families. */
  lemma SameTablesAgree(lif: LIF, lif': LIF, x: Indices)
    requires Agrees(lif, x)
    ensures AgreesOn(NodePositions, lif, x)
    ensures EdgeTable(lif') == EdgeTable(lif) ==> AgreesOn(EdgeAdjacency, lif', x)
    ensures StationTable(lif') == StationTable(lif) ==> AgreesOn(StationReferences, lif', x)
  {
    OpenAgreement(lif, x);
  }

  /** Nodes, then edges, then stations rewritten: the whole document renamed. */
  lemma RenamedInThreeSteps(a: LIF, b: LIF, c: LIF, d: LIF, from: string, to: string)
    requires NodesChanged(a, b, MapTable(n => RenamedNode(n, from, to), NodeTable(a)))
    requires EdgesChanged(b, c, MapTable(e => RedirectedEdge(e, from, to), EdgeTable(b)))
    requires StationsChanged(c, d, MapTable(s => RedirectedStation(s, from, to), StationTable(c)))
    ensures NodeRenamed(a, d, from, to)
  {
    FrameTrans(a, b, c);
    FrameTrans(a, c, d);
  }

  lemma NodeRenamedIs(lif: LIF, lif': LIF, from: string, to: string)
    ensures NodeRenamed(lif, lif', from, to) <==> lif' == RenameNodeEverywhere(lif, from, to)
  {
    var ns := MapTable(n => RenamedNode(n, from, to), NodeTable(lif));
    var es := MapTable(e => RedirectedEdge(e, from, to), EdgeTable(lif));
    var ss := MapTable(s => RedirectedStation(s, from, to), StationTable(lif));
    WithNodesTables(lif, ns);
    WithEdgesTables(WithNodes(lif, ns), es);
    WithStationsTables(WithEdges(WithNodes(lif, ns), es), ss);
    if NodeRenamed(lif, lif', from, to) {
      SameLif(lif', RenameNodeEverywhere(lif, from, to));
    }
  }

  lemma RenamedNodesIndexed(t: Table<Node>, node: map<string, Pos>, from: string, to: string)
    requires Indexes(t, NodeId, node) && from in node && to !in node
    ensures Has(t, node[from])
    ensures Set(t, node[from], Get(t, node[from]).(nodeId := to)) == MapTable(n => RenamedNode(n, from, to), t)
    ensures Indexes(MapTable(n => RenamedNode(n, from, to), t), NodeId, Rekey(node, from, to))
  {
    var f := n => RenamedNode(n, from, to);
    InSlot(t, NodeId, node, from);
    assert f(Get(t, node[from])) == Get(t, node[from]).(nodeId := to);
    SetIsMap(t, NodeId, node, from, f);
    RenameKeepsIndex(t, NodeId, node, node[from], f(Get(t, node[from])));
  }

  lemma UpdateNodeIdStep(lif: LIF, x: Indices, from: string, to: string)
    requires Agrees(lif, x) && from in x.node && to !in x.node
    ensures UpdateNodeIdSpec(lif, from, to) == Step(Done, RenameNodeEverywhere(lif, from, to))
  {
    OpenAgreement(lif, x);
    Guards(lif, x);
  }

  /** Rewriting everything and rekeying four maps keeps the agreement. */
  lemma UpdateNodeIdAgrees(lif: LIF, x: Indices, from: string, to: string, lif': LIF)
    requires Agrees(lif, x) && from in x.node && to !in x.node && NodeRenamed(lif, lif', from, to)
    ensures Agrees(lif',
              x.(node := Rekey(x.node, from, to), outbound := Rekey(x.outbound, from, to),
                 inbound := Rekey(x.inbound, from, to), stations := Rekey(x.stations, from, to)))
  {
    OpenAgreement(lif, x);
    RenamedNodesIndexed(NodeTable(lif), x.node, from, to);
    RedirectKeepsEdges(EdgeTable(lif), x.node, x.edge, x.outbound, x.inbound, from, to);
    RedirectKeepsStations(StationTable(lif), x.node, x.station, x.stations, from, to);
    FrameKeepsLayouts(lif, lif', x.layout);
  }

  // ---- A whole call: which guard throws, and what the patches commit ----

  lemma AddNodeThrows(lif: LIF, x: Indices, node: Node, layoutId: string)
    requires Agrees(lif, x)
    ensures node.nodeId in x.node ==> AddNodeSpec(lif, node, layoutId) == Step(Throws(DuplicateId), lif)
    ensures node.nodeId !in x.node && layoutId !in x.layout ==>
              AddNodeSpec(lif, node, layoutId) == Step(Throws(LayoutNotFound), lif)
    ensures layoutId in x.layout ==> x.layout[layoutId] < |lif.layouts|
    ensures node.nodeId !in x.node ==> ListAt(x.outbound, node.nodeId) == [] && ListAt(x.inbound, node.nodeId) == []
  {
    Guards(lif, x);
    LayoutGuard(lif, x, layoutId);
    OpenAgreement(lif, x);
  }

  lemma AddNodeCommits(lif: LIF, x: Indices, node: Node, layoutId: string, lif': LIF)
    requires Agrees(lif, x) && node.nodeId !in x.node && layoutId in x.layout
    requires x.layout[layoutId] < |NodeTable(lif)|
    requires var li := x.layout[layoutId]; var t := NodeTable(lif); NodesChanged(lif, lif', t[li := t[li] + [node]])
    ensures AddNodeSpec(lif, node, layoutId) == Step(Done, lif')
    ensures Agrees(lif', x.(node := x.node[node.nodeId := Pos(x.layout[layoutId], |NodeTable(lif)[x.layout[layoutId]]|)],
              outbound := x.outbound[node.nodeId := []], inbound := x.inbound[node.nodeId := []]))
  {
    var li, t := x.layout[layoutId], NodeTable(lif);
    AddNodeStep(lif, x, node, layoutId);
    NodesChangedIs(lif, lif', t[li := t[li] + [node]]);
    AddNodeAgrees(lif, x, node, li, lif');
  }

  lemma AddEdgeThrows(lif: LIF, x: Indices, edge: Edge, layoutId: string)
    requires Agrees(lif, x)
    ensures edge.edgeId in x.edge ==> AddEdgeSpec(lif, edge, layoutId) == Step(Throws(DuplicateId), lif)
    ensures edge.edgeId !in x.edge && layoutId !in x.layout ==>
              AddEdgeSpec(lif, edge, layoutId) == Step(Throws(LayoutNotFound), lif)
    ensures edge.edgeId !in x.edge && layoutId in x.layout
            && !(edge.startNodeId in x.node && x.node[edge.startNodeId].row == x.layout[layoutId]) ==>
              AddEdgeSpec(lif, edge, layoutId) == Step(Throws(StartNotInLayout), lif)
    ensures edge.edgeId !in x.edge && layoutId in x.layout
            && edge.startNodeId in x.node && x.node[edge.startNodeId].row == x.layout[layoutId]
            && edge.endNodeId !in x.node ==>
              AddEdgeSpec(lif, edge, layoutId) == Step(Throws(EndNotFound), lif)
    ensures layoutId in x.layout ==> x.layout[layoutId] < |lif.layouts|
  {
    Guards(lif, x);
    LayoutGuard(lif, x, layoutId);
    if layoutId in x.layout {
      StartGuard(lif, x, layoutId, edge.startNodeId);
    }
  }

  lemma AddEdgeCommits(lif: LIF, x: Indices, edge: Edge, layoutId: string, lif': LIF)
    requires Agrees(lif, x) && edge.edgeId !in x.edge && layoutId in x.layout
    requires edge.startNodeId in x.node && x.node[edge.startNodeId].row == x.layout[layoutId]
    requires edge.endNodeId in x.node && x.layout[layoutId] < |EdgeTable(lif)|
    requires var li := x.layout[layoutId]; var t := EdgeTable(lif); EdgesChanged(lif, lif', t[li := t[li] + [edge]])
    ensures AddEdgeSpec(lif, edge, layoutId) == Step(Done, lif')
    ensures Agrees(lif', x.(edge := x.edge[edge.edgeId := Pos(x.layout[layoutId], |EdgeTable(lif)[x.layout[layoutId]]|)],
              outbound := Push(x.outbound, edge.startNodeId, edge.edgeId),
              inbound := Push(x.inbound, edge.endNodeId, edge.edgeId)))
  {
    var li, t := x.layout[layoutId], EdgeTable(lif);
    AddEdgeStep(lif, x, edge, layoutId);
    EdgesChangedIs(lif, lif', t[li := t[li] + [edge]]);
    AddEdgeAgrees(lif, x, edge, li, lif');
  }

  lemma AddStationThrows(lif: LIF, x: Indices, station: Station, layoutId: string)
    requires Agrees(lif, x)
    ensures station.stationId in x.station ==> AddStationSpec(lif, station, layoutId) == Step(Throws(DuplicateId), lif)
    ensures station.stationId !in x.station && layoutId !in x.layout ==>
              AddStationSpec(lif, station, layoutId) == Step(Throws(LayoutNotFound), lif)
    ensures station.stationId !in x.station && layoutId in x.layout
            && (exists n :: n in station.interactionNodeIds && n !in x.node) ==>
              AddStationSpec(lif, station, layoutId) == Step(Throws(InteractionNodeNotFound), lif)
    ensures layoutId in x.layout ==> x.layout[layoutId] < |lif.layouts|
  {
    Guards(lif, x);
    LayoutGuard(lif, x, layoutId);
  }

  lemma AddStationCommits(lif: LIF, x: Indices, station: Station, layoutId: string, lif': LIF)
    requires Agrees(lif, x) && station.stationId !in x.station && layoutId in x.layout
    requires forall n :: n in station.interactionNodeIds ==> n in x.node
    requires x.layout[layoutId] < |StationTable(lif)|
    requires var li := x.layout[layoutId]; var t := StationTable(lif); StationsChanged(lif, lif', t[li := t[li] + [station]])
    ensures AddStationSpec(lif, station, layoutId) == Step(Done, lif')
    ensures Agrees(lif', x.(
              station := x.station[station.stationId := Pos(x.layout[layoutId], |StationTable(lif)[x.layout[layoutId]]|)],
              stations := PushAll(x.stations, station.interactionNodeIds, station.stationId)))
  {
    var li, t := x.layout[layoutId], StationTable(lif);
    AddStationStep(lif, x, station, layoutId);
    StationsChangedIs(lif, lif', t[li := t[li] + [station]]);
    AddStationAgrees(lif, x, station, li, lif');
  }

  lemma DeleteNodeThrows(lif: LIF, x: Indices, id: string)
    requires Agrees(lif, x)
    ensures id !in x.node ==> DeleteNodeSpec(lif, id) == Step(Throws(IdNotFound), lif)
    ensures id in x.node ==> Has(NodeTable(lif), x.node[id]) && id in x.outbound && id in x.inbound
    ensures id in x.node && (ListAt(x.outbound, id) != [] || ListAt(x.inbound, id) != []) ==>
              DeleteNodeSpec(lif, id) == Step(Throws(ReferencedByEdges), lif)
    ensures id in x.node && ListAt(x.outbound, id) == [] && ListAt(x.inbound, id) == [] && ListAt(x.stations, id) != [] ==>
              DeleteNodeSpec(lif, id) == Step(Throws(ReferencedByStations), lif)
  {
    Guards(lif, x);
    EdgeGuard(lif, x, id);
    StationGuard(lif, x, id);
    OpenAgreement(lif, x);
  }

  lemma DeleteNodeCommits(lif: LIF, x: Indices, id: string, lif': LIF)
    requires Agrees(lif, x) && id in x.node && Has(NodeTable(lif), x.node[id])
    requires ListAt(x.outbound, id) == [] && ListAt(x.inbound, id) == [] && ListAt(x.stations, id) == []
    requires var p := x.node[id]; var t := NodeTable(lif); NodesChanged(lif, lif', t[p.row := SwapRemove(t[p.row], p.col)])
    ensures DeleteNodeSpec(lif, id) == Step(Done, lif')
    ensures Agrees(lif', x.(node := ErasedIndex(NodeTable(lif)[x.node[id].row], x.node[id], NodeId, x.node),
              outbound := x.outbound - {id}, inbound := x.inbound - {id}, stations := x.stations - {id}))
  {
    var p, t := x.node[id], NodeTable(lif);
    var t' := t[p.row := SwapRemove(t[p.row], p.col)];
    DeleteNodeStep(lif, x, id);
    NodesChangedIs(lif, lif', t');
    OpenAgreement(lif, x);
    EraseSwapKeeps(t, NodeId, x.node, id);
    DropNodeAgrees(lif, x, id, t', lif', ErasedIndex(t[p.row], p, NodeId, x.node));
  }

  lemma DeleteEdgeThrows(lif: LIF, x: Indices, id: string)
    requires Agrees(lif, x)
    ensures id !in x.edge ==> DeleteEdgeSpec(lif, id) == Step(Throws(IdNotFound), lif)
    ensures id in x.edge ==> Has(EdgeTable(lif), x.edge[id])
    ensures id in x.edge ==>
      var e := Get(EdgeTable(lif), x.edge[id]); e.edgeId == id && e.startNodeId in x.outbound && e.endNodeId in x.inbound
  {
    Guards(lif, x);
    OpenAgreement(lif, x);
    if id in x.edge {
      InSlot(EdgeTable(lif), EdgeId, x.edge, id);
      EndsResolve(EdgeTable(lif), x.node, x.edge, x.outbound, x.inbound, id);
    }
  }

  lemma DeleteEdgeCommits(lif: LIF, x: Indices, id: string, lif': LIF)
    requires Agrees(lif, x) && id in x.edge && Has(EdgeTable(lif), x.edge[id])
    requires var p := x.edge[id]; var t := EdgeTable(lif); EdgesChanged(lif, lif', t[p.row := SwapRemove(t[p.row], p.col)])
    ensures DeleteEdgeSpec(lif, id) == Step(Done, lif')
    ensures var e := Get(EdgeTable(lif), x.edge[id]);
            Agrees(lif', x.(edge := ErasedIndex(EdgeTable(lif)[x.edge[id].row], x.edge[id], EdgeId, x.edge),
              outbound := Erase(x.outbound, e.startNodeId, id), inbound := Erase(x.inbound, e.endNodeId, id)))
  {
    var p, t := x.edge[id], EdgeTable(lif);
    var t' := t[p.row := SwapRemove(t[p.row], p.col)];
    DeleteEdgeStep(lif, x, id);
    EdgesChangedIs(lif, lif', t');
    OpenAgreement(lif, x);
    InSlot(t, EdgeId, x.edge, id);
    EraseSwapKeeps(t, EdgeId, x.edge, id);
    DropEdgeAgrees(lif, x, Get(t, p), t', lif', ErasedIndex(t[p.row], p, EdgeId, x.edge));
  }

  lemma DeleteStationThrows(lif: LIF, x: Indices, id: string)
    requires Agrees(lif, x)
    ensures id !in x.station ==> DeleteStationSpec(lif, id) == Step(Throws(IdNotFound), lif)
    ensures id in x.station ==> Has(StationTable(lif), x.station[id])
  {
    Guards(lif, x);
    OpenAgreement(lif, x);
  }

  lemma DeleteStationCommits(lif: LIF, x: Indices, id: string, lif': LIF)
    requires Agrees(lif, x) && id in x.station && Has(StationTable(lif), x.station[id])
    requires var p := x.station[id]; var t := StationTable(lif);
             StationsChanged(lif, lif', t[p.row := SwapRemove(t[p.row], p.col)])
    ensures DeleteStationSpec(lif, id) == Step(Done, lif')
    ensures Agrees(lif', x.(
              station := ErasedIndex(StationTable(lif)[x.station[id].row], x.station[id], StationId, x.station),
              stations := EraseAll(x.stations, Get(StationTable(lif), x.station[id]).interactionNodeIds, id)))
  {
    var p, t := x.station[id], StationTable(lif);
    var t' := t[p.row := SwapRemove(t[p.row], p.col)];
    DeleteStationStep(lif, x, id);
    StationsChangedIs(lif, lif', t');
    OpenAgreement(lif, x);
    InSlot(t, StationId, x.station, id);
    EraseSwapKeeps(t, StationId, x.station, id);
    DropStationAgrees(lif, x, Get(t, p), t', lif', ErasedIndex(t[p.row], p, StationId, x.station));
  }

  lemma UpdateEdgeIdThrows(lif: LIF, x: Indices, id: string, newId: string)
    requires Agrees(lif, x)
    ensures id !in x.edge ==> UpdateEdgeIdSpec(lif, id, newId) == Step(Throws(IdNotFound), lif)
    ensures id in x.edge && id == newId ==> UpdateEdgeIdSpec(lif, id, newId) == Step(Done, lif)
    ensures id in x.edge && id != newId && newId in x.edge ==>
              UpdateEdgeIdSpec(lif, id, newId) == Step(Throws(NewIdExists), lif)
    ensures id in x.edge ==> Has(EdgeTable(lif), x.edge[id])
    ensures id in x.edge ==>
      var e := Get(EdgeTable(lif), x.edge[id]); e.startNodeId in x.outbound && e.endNodeId in x.inbound
  {
    Guards(lif, x);
    DeleteEdgeThrows(lif, x, id);
  }

  lemma UpdateEdgeIdCommits(lif: LIF, x: Indices, id: string, newId: string, lif': LIF)
    requires Agrees(lif, x) && id in x.edge && newId !in x.edge && Has(EdgeTable(lif), x.edge[id])
    requires var p := x.edge[id]; var t := EdgeTable(lif);
             EdgesChanged(lif, lif', t[p.row := t[p.row][p.col := t[p.row][p.col].(edgeId := newId)]])
    ensures UpdateEdgeIdSpec(lif, id, newId) == Step(Done, lif')
    ensures var e := Get(EdgeTable(lif), x.edge[id]);
            Agrees(lif', x.(edge := Rekey(x.edge, id, newId),
              outbound := ReplaceAt(x.outbound, e.startNodeId, id, newId),
              inbound := ReplaceAt(x.inbound, e.endNodeId, id, newId)))
  {
    var p, t := x.edge[id], EdgeTable(lif);
    UpdateEdgeIdStep(lif, x, id, newId);
    EdgesChangedIs(lif, lif', Set(t, p, Get(t, p).(edgeId := newId)));
    UpdateEdgeIdAgrees(lif, x, id, newId, lif');
  }

  lemma UpdateStationIdThrows(lif: LIF, x: Indices, id: string, newId: string)
    requires Agrees(lif, x)
    ensures id !in x.station ==> UpdateStationIdSpec(lif, id, newId) == Step(Throws(IdNotFound), lif)
    ensures id in x.station && id == newId ==> UpdateStationIdSpec(lif, id, newId) == Step(Done, lif)
    ensures id in x.station && id != newId && newId in x.station ==>
              UpdateStationIdSpec(lif, id, newId) == Step(Throws(NewIdExists), lif)
    ensures id in x.station ==> Has(StationTable(lif), x.station[id])
  {
    Guards(lif, x);
    DeleteStationThrows(lif, x, id);
  }

  lemma UpdateStationIdCommits(lif: LIF, x: Indices, id: string, newId: string, lif': LIF)
    requires Agrees(lif, x) && id in x.station && newId !in x.station && Has(StationTable(lif), x.station[id])
    requires var p := x.station[id]; var t := StationTable(lif);
             StationsChanged(lif, lif', t[p.row := t[p.row][p.col := t[p.row][p.col].(stationId := newId)]])
    ensures UpdateStationIdSpec(lif, id, newId) == Step(Done, lif')
    ensures Agrees(lif', x.(station := Rekey(x.station, id, newId),
              stations := ReplaceAll(x.stations, Get(StationTable(lif), x.station[id]).interactionNodeIds, id, newId)))
  {
    var p, t := x.station[id], StationTable(lif);
    UpdateStationIdStep(lif, x, id, newId);
    StationsChangedIs(lif, lif', Set(t, p, Get(t, p).(stationId := newId)));
    UpdateStationIdAgrees(lif, x, id, newId, lif');
  }

  lemma UpdateNodeIdThrows(lif: LIF, x: Indices, id: string, newId: string)
    requires Agrees(lif, x)
    ensures id !in x.node ==> UpdateNodeIdSpec(lif, id, newId) == Step(Throws(IdNotFound), lif)
    ensures id in x.node && id == newId ==> UpdateNodeIdSpec(lif, id, newId) == Step(Done, lif)
    ensures id in x.node && id != newId && newId in x.node ==>
              UpdateNodeIdSpec(lif, id, newId) == Step(Throws(NewIdExists), lif)
    ensures id in x.node ==> Has(NodeTable(lif), x.node[id]) && id in x.outbound && id in x.inbound
  {
    Guards(lif, x);
    OpenAgreement(lif, x);
  }

  lemma UpdateNodeIdCommits(lif: LIF, x: Indices, id: string, newId: string, lif': LIF)
    requires Agrees(lif, x) && id in x.node && newId !in x.node && NodeRenamed(lif, lif', id, newId)
    ensures UpdateNodeIdSpec(lif, id, newId) == Step(Done, lif')
    ensures Agrees(lif', x.(node := Rekey(x.node, id, newId), outbound := Rekey(x.outbound, id, newId),
              inbound := Rekey(x.inbound, id, newId), stations := Rekey(x.stations, id, newId)))
  {
    UpdateNodeIdStep(lif, x, id, newId);
    NodeRenamedIs(lif, lif', id, newId);
    UpdateNodeIdAgrees(lif, x, id, newId, lif');
  }
}
