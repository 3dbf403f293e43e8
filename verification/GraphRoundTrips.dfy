/** What one mutator does another undoes, and validity of the whole document over runs. */
module GraphRoundTrips {
  import opened Tables
  import opened ReverseIndex
  import opened Lif
  import opened LayoutRules
  import opened GraphSpec
  import opened GraphIndex
  import opened GraphSteps
  import opened GraphLaws

  // ---- Renaming to a fresh id and back ----

  lemma ReplaceTwice(s: seq<string>, a: string, b: string)
    requires b !in s
    ensures Replace(Replace(s, a, b), b, a) == s
  {
  }

  lemma MapTableTwice<T>(t: Table<T>, f: T -> T, g: T -> T)
    requires forall p :: Has(t, p) ==> g(f(Get(t, p))) == Get(t, p)
    ensures MapTable(g, MapTable(f, t)) == t
  {
    var u := MapTable(f, t);
    var w := MapTable(g, u);
    forall p | Has(w, p) ensures Get(w, p) == Get(t, p) {
      assert Has(t, p) && Has(u, p);
    }
    SameTable(w, t);
  }

  /** After renaming `a` to a fresh `b`, the nodes are those of before with `a` replaced. */
  lemma RenamedNodeIds(t: Table<Node>, a: string, b: string)
    requires Contains(t, NodeId, a) && !Contains(t, NodeId, b)
    ensures var t' := MapTable(n => RenamedNode(n, a, b), t); Contains(t', NodeId, b) && !Contains(t', NodeId, a)
  {
    var f := n => RenamedNode(n, a, b);
    var t' := MapTable(f, t);
    var p :| Has(t, p) && NodeId(Get(t, p)) == a;
    assert Has(t', p) && NodeId(Get(t', p)) == b;
    forall q | Has(t', q) ensures NodeId(Get(t', q)) != a {
      assert Has(t, q);
    }
  }

  lemma NodesComeBack(t: Table<Node>, a: string, b: string)
    requires !Contains(t, NodeId, b)
    ensures MapTable(n => RenamedNode(n, b, a), MapTable(n => RenamedNode(n, a, b), t)) == t
  {
    var f, g := n => RenamedNode(n, a, b), n => RenamedNode(n, b, a);
    forall p | Has(t, p) ensures g(f(Get(t, p))) == Get(t, p) {
      assert NodeId(Get(t, p)) != b;
    }
    MapTableTwice(t, f, g);
  }

  lemma EdgesComeBack(t: Table<Edge>, a: string, b: string)
    requires forall p :: Has(t, p) ==> Get(t, p).startNodeId != b && Get(t, p).endNodeId != b
    ensures MapTable(e => RedirectedEdge(e, b, a), MapTable(e => RedirectedEdge(e, a, b), t)) == t
  {
    var f, g := e => RedirectedEdge(e, a, b), e => RedirectedEdge(e, b, a);
    forall p | Has(t, p) ensures g(f(Get(t, p))) == Get(t, p) {
    }
    MapTableTwice(t, f, g);
  }

  lemma StationsComeBack(t: Table<Station>, a: string, b: string)
    requires forall p :: Has(t, p) ==> b !in Get(t, p).interactionNodeIds
    ensures MapTable(s => RedirectedStation(s, b, a), MapTable(s => RedirectedStation(s, a, b), t)) == t
  {
    var f, g := s => RedirectedStation(s, a, b), s => RedirectedStation(s, b, a);
    forall p | Has(t, p) ensures g(f(Get(t, p))) == Get(t, p) {
      ReplaceTwice(Get(t, p).interactionNodeIds, a, b);
    }
    MapTableTwice(t, f, g);
  }

  /** A structurally valid document mentions no id that is not a node. */
  lemma NoMention(lif: LIF, b: string)
    requires ReferencesResolve(lif) && !HasNodeId(lif, b)
    ensures forall p :: Has(EdgeTable(lif), p) ==>
              Get(EdgeTable(lif), p).startNodeId != b && Get(EdgeTable(lif), p).endNodeId != b
    ensures forall p :: Has(StationTable(lif), p) ==> b !in Get(StationTable(lif), p).interactionNodeIds
    ensures Isolated(lif, b)
  {
    forall p | Has(EdgeTable(lif), p)
      ensures Get(EdgeTable(lif), p).startNodeId != b && Get(EdgeTable(lif), p).endNodeId != b
    {
      var l := lif.layouts[p.row];
      assert StartsResolve(l) && TargetsResolve(lif, l) && l.edges[p.col] == Get(EdgeTable(lif), p);
      var j :| 0 <= j < |l.nodes| && l.nodes[j].nodeId == l.edges[p.col].startNodeId;
      assert Has(NodeTable(lif), Pos(p.row, j)) && NodeId(Get(NodeTable(lif), Pos(p.row, j))) == l.nodes[j].nodeId;
    }
    forall p | Has(StationTable(lif), p) ensures b !in Get(StationTable(lif), p).interactionNodeIds {
      var l := lif.layouts[p.row];
      assert TargetsResolve(lif, l) && l.stations[p.col] == Get(StationTable(lif), p);
    }
  }

  lemma RenamedBack(lif: LIF, lif1: LIF, lif2: LIF, a: string, b: string)
    requires StructureOk(lif) && !HasNodeId(lif, b)
    requires NodeRenamed(lif, lif1, a, b) && NodeRenamed(lif1, lif2, b, a)
    ensures lif2 == lif
  {
    NoMention(lif, b);
    NodesComeBack(NodeTable(lif), a, b);
    EdgesComeBack(EdgeTable(lif), a, b);
    StationsComeBack(StationTable(lif), a, b);
    FrameTrans(lif, lif1, lif2);
    SameLif(lif2, lif);
  }

  /** Renaming a node to a fresh id and back restores the document. */
  lemma RenameNodeRoundTrip(lif: LIF, a: string, b: string)
    requires StructureOk(lif) && HasNodeId(lif, a) && !HasNodeId(lif, b)
    ensures UpdateNodeIdSpec(UpdateNodeIdSpec(lif, a, b).lif, b, a) == Step(Done, lif)
  {
    var lif1 := RenameNodeEverywhere(lif, a, b);
    var lif2 := RenameNodeEverywhere(lif1, b, a);
    NodeRenamedIs(lif, lif1, a, b);
    NodeRenamedIs(lif1, lif2, b, a);
    RenamedNodeIds(NodeTable(lif), a, b);
    RenamedBack(lif, lif1, lif2, a, b);
  }

  lemma RenameEdgeRoundTrip(lif: LIF, a: string, b: string)
    requires HasEdgeId(lif, a) && !HasEdgeId(lif, b)
    ensures UpdateEdgeIdSpec(UpdateEdgeIdSpec(lif, a, b).lif, b, a) == Step(Done, lif)
  {
    var t := EdgeTable(lif);
    var f, g := e => RenamedEdge(e, a, b), e => RenamedEdge(e, b, a);
    var lif1 := WithEdges(lif, MapTable(f, t));
    WithEdgesTables(lif, MapTable(f, t));
    forall p | Has(t, p) ensures g(f(Get(t, p))) == Get(t, p) {
      assert EdgeId(Get(t, p)) != b;
    }
    MapTableTwice(t, f, g);
    var p :| Has(t, p) && EdgeId(Get(t, p)) == a;
    assert Has(EdgeTable(lif1), p) && EdgeId(Get(EdgeTable(lif1), p)) == b;
    forall q | Has(EdgeTable(lif1), q) ensures EdgeId(Get(EdgeTable(lif1), q)) != a {
      assert Has(t, q);
    }
    WithEdgesTables(lif1, t);
    FrameTrans(lif, lif1, WithEdges(lif1, t));
    SameLif(WithEdges(lif1, t), lif);
  }

  lemma RenameStationRoundTrip(lif: LIF, a: string, b: string)
    requires HasStationId(lif, a) && !HasStationId(lif, b)
    ensures UpdateStationIdSpec(UpdateStationIdSpec(lif, a, b).lif, b, a) == Step(Done, lif)
  {
    var t := StationTable(lif);
    var f, g := s => RenamedStation(s, a, b), s => RenamedStation(s, b, a);
    var lif1 := WithStations(lif, MapTable(f, t));
    WithStationsTables(lif, MapTable(f, t));
    forall p | Has(t, p) ensures g(f(Get(t, p))) == Get(t, p) {
      assert StationId(Get(t, p)) != b;
    }
    MapTableTwice(t, f, g);
    var p :| Has(t, p) && StationId(Get(t, p)) == a;
    assert Has(StationTable(lif1), p) && StationId(Get(StationTable(lif1), p)) == b;
    forall q | Has(StationTable(lif1), q) ensures StationId(Get(StationTable(lif1), q)) != a {
      assert Has(t, q);
    }
    WithStationsTables(lif1, t);
    FrameTrans(lif, lif1, WithStations(lif1, t));
    SameLif(WithStations(lif1, t), lif);
  }

  // ---- Adding a fresh record and deleting it ----

  lemma RemoveAppended<T>(lif: LIF, t: Table<T>, layoutId: string, id: T -> string, x: T)
    requires |t| == |lif.layouts| && !Contains(t, id, id(x))
    requires forall i, j :: 0 <= i < j < |lif.layouts| ==> lif.layouts[i].layoutId != lif.layouts[j].layoutId
    ensures RemoveId(AppendTo(lif, t, layoutId, x), id, id(x)) == t
  {
    var u := AppendTo(lif, t, layoutId, x);
    forall i | 0 <= i < |t| ensures RemoveFromRow(u[i], id, id(x)) == t[i] {
      forall j | 0 <= j < |t[i]| ensures id(t[i][j]) != id(x) {
        assert Has(t, Pos(i, j)) && Get(t, Pos(i, j)) == t[i][j];
      }
      assert u[i] != t[i] ==> u[i][|t[i]|] == x;
      assert forall j :: 0 <= j < |t[i]| ==> u[i][j] == t[i][j];
      var s := SlotOf(u[i], id, id(x));
      assert s < |u[i]| ==> s == |t[i]| && SwapRemove(u[i], s) == t[i];
    }
  }

  lemma AppendedIsThere<T>(lif: LIF, t: Table<T>, layoutId: string, id: T -> string, x: T)
    requires |t| == |lif.layouts| && HasLayout(lif, layoutId)
    ensures Contains(AppendTo(lif, t, layoutId, x), id, id(x))
  {
    var i :| 0 <= i < |lif.layouts| && lif.layouts[i].layoutId == layoutId;
    var u := AppendTo(lif, t, layoutId, x);
    assert Has(u, Pos(i, |t[i]|)) && Get(u, Pos(i, |t[i]|)) == x;
  }

  lemma AddDeleteNode(lif: LIF, node: Node, layoutId: string)
    requires StructureOk(lif) && AddNodeSpec(lif, node, layoutId).outcome == Done
    ensures DeleteNodeSpec(AddNodeSpec(lif, node, layoutId).lif, node.nodeId) == Step(Done, lif)
  {
    var t := NodeTable(lif);
    var u := AppendTo(lif, t, layoutId, node);
    var lif1 := WithNodes(lif, u);
    assert NodeId(node) == node.nodeId;
    WithNodesTables(lif, u);
    RemoveAppended(lif, t, layoutId, NodeId, node);
    AppendedIsThere(lif, t, layoutId, NodeId, node);
    NoMention(lif, node.nodeId);
    SameEdgesSameIsolation(lif, lif1, node.nodeId);
    WithNodesTables(lif1, t);
    FrameTrans(lif, lif1, WithNodes(lif1, t));
    SameLif(WithNodes(lif1, t), lif);
  }

  lemma AddDeleteEdge(lif: LIF, edge: Edge, layoutId: string)
    requires StructureOk(lif) && AddEdgeSpec(lif, edge, layoutId).outcome == Done
    ensures DeleteEdgeSpec(AddEdgeSpec(lif, edge, layoutId).lif, edge.edgeId) == Step(Done, lif)
  {
    var t := EdgeTable(lif);
    var u := AppendTo(lif, t, layoutId, edge);
    var lif1 := WithEdges(lif, u);
    assert EdgeId(edge) == edge.edgeId;
    WithEdgesTables(lif, u);
    RemoveAppended(lif, t, layoutId, EdgeId, edge);
    AppendedIsThere(lif, t, layoutId, EdgeId, edge);
    WithEdgesTables(lif1, t);
    FrameTrans(lif, lif1, WithEdges(lif1, t));
    SameLif(WithEdges(lif1, t), lif);
  }

  lemma AddDeleteStation(lif: LIF, station: Station, layoutId: string)
    requires StructureOk(lif) && AddStationSpec(lif, station, layoutId).outcome == Done
    ensures DeleteStationSpec(AddStationSpec(lif, station, layoutId).lif, station.stationId) == Step(Done, lif)
  {
    var t := StationTable(lif);
    var u := AppendTo(lif, t, layoutId, station);
    var lif1 := WithStations(lif, u);
    assert StationId(station) == station.stationId;
    WithStationsTables(lif, u);
    RemoveAppended(lif, t, layoutId, StationId, station);
    AppendedIsThere(lif, t, layoutId, StationId, station);
    WithStationsTables(lif1, t);
    FrameTrans(lif, lif1, WithStations(lif1, t));
    SameLif(WithStations(lif1, t), lif);
  }

  /** Adding and deleting a fresh edge restores both adjacency maps exactly. */
  lemma AddDeleteEdgeLists(lif: LIF, x: Indices, edge: Edge)
    requires Agrees(lif, x) && edge.edgeId !in x.edge && edge.startNodeId in x.node && edge.endNodeId in x.node
    ensures Erase(Push(x.outbound, edge.startNodeId, edge.edgeId), edge.startNodeId, edge.edgeId) == x.outbound
    ensures Erase(Push(x.inbound, edge.endNodeId, edge.edgeId), edge.endNodeId, edge.edgeId) == x.inbound
  {
    OpenAgreement(lif, x);
    OutboundLists(EdgeTable(lif), x.node, x.edge, x.outbound, x.inbound, edge.startNodeId, edge.edgeId);
    OutboundLists(EdgeTable(lif), x.node, x.edge, x.outbound, x.inbound, edge.endNodeId, edge.edgeId);
    EraseUndoesPush(x.outbound, edge.startNodeId, edge.edgeId);
    EraseUndoesPush(x.inbound, edge.endNodeId, edge.edgeId);
  }

  lemma EraseUndoesPush(rev: Adjacency, n: string, v: string)
    requires n in rev && v !in rev[n]
    ensures Erase(Push(rev, n, v), n, v) == rev
  {
    assert Copies(v, 1) == [v];
    EraseFirstCopy(rev[n], v, 1);
    assert rev[n] + Copies(v, 0) == rev[n];
  }

  /** Adding and deleting a fresh station restores every list; only empty lists may linger. */
  lemma AddDeleteStationLists(lif: LIF, x: Indices, station: Station, n: string)
    requires Agrees(lif, x) && station.stationId !in x.station
    ensures ListAt(EraseAll(PushAll(x.stations, station.interactionNodeIds, station.stationId),
              station.interactionNodeIds, station.stationId), n) == ListAt(x.stations, n)
  {
    OpenAgreement(lif, x);
    StationLists(StationTable(lif), x.node, x.station, x.stations, n, station.stationId);
    EraseAllUndoesPushAll(x.stations, station.interactionNodeIds, station.stationId, n);
  }

  // ---- The load-time rules hold over whole runs ----

  /** An added record meets the rules that concern it alone. */
  ghost predicate AddsValid(op: Op) {
    match op
    case AddNode(node, _) => NodeOk(node)
    case AddEdge(edge, _) => EdgeOk(edge)
    case AddStation(station, _) => StationOk(station)
    case _ => true
  }

  ghost predicate AllRecords<T(!new)>(t: Table<T>, rule: T -> bool) {
    forall p :: Has(t, p) ==> rule(Get(t, p))
  }

  lemma AppendKeepsRecords<T(!new)>(lif: LIF, t: Table<T>, layoutId: string, x: T, rule: T -> bool)
    requires |t| == |lif.layouts| && AllRecords(t, rule) && rule(x)
    ensures AllRecords(AppendTo(lif, t, layoutId, x), rule)
  {
    var u := AppendTo(lif, t, layoutId, x);
    forall p | Has(u, p) ensures rule(Get(u, p)) {
      if Has(t, p) {
        assert Get(u, p) == Get(t, p);
      } else {
        assert Get(u, p) == x;
      }
    }
  }

  lemma RemoveKeepsRecords<T(!new)>(t: Table<T>, id: T -> string, k: string, rule: T -> bool)
    requires AllRecords(t, rule)
    ensures AllRecords(RemoveId(t, id, k), rule)
  {
    var u := RemoveId(t, id, k);
    forall p | Has(u, p) ensures rule(Get(u, p)) {
      var row := t[p.row];
      assert u[p.row] == RemoveFromRow(row, id, k);
      assert Get(u, p) in row;
      var j :| 0 <= j < |row| && row[j] == Get(u, p);
      assert Has(t, Pos(p.row, j)) && Get(t, Pos(p.row, j)) == row[j];
    }
  }

  lemma MapKeepsRecords<T(!new)>(t: Table<T>, f: T -> T, rule: T -> bool)
    requires AllRecords(t, rule) && forall x :: rule(x) ==> rule(f(x))
    ensures AllRecords(MapTable(f, t), rule)
  {
    forall p | Has(MapTable(f, t), p) ensures rule(Get(MapTable(f, t), p)) {
      assert Has(t, p);
    }
  }

  ghost predicate Clean(lif: LIF) {
    AllRecords(NodeTable(lif), NodeOk) && AllRecords(EdgeTable(lif), EdgeOk) && AllRecords(StationTable(lif), StationOk)
  }

  lemma CleanIsElementsOk(lif: LIF)
    ensures Clean(lif) <==> ElementsOk(lif)
  {
    assert AllRecords(NodeTable(lif), NodeOk) <==> forall p :: Has(NodeTable(lif), p) ==> NodeOk(Get(NodeTable(lif), p));
    assert AllRecords(EdgeTable(lif), EdgeOk) <==> forall p :: Has(EdgeTable(lif), p) ==> EdgeOk(Get(EdgeTable(lif), p));
    assert AllRecords(StationTable(lif), StationOk) <==>
      forall p :: Has(StationTable(lif), p) ==> StationOk(Get(StationTable(lif), p));
  }

  lemma NodeCallsKeepClean(lif: LIF, op: Op)
    requires Clean(lif) && AddsValid(op) && (op.AddNode? || op.DeleteNode? || op.UpdateNodeId?)
    ensures Clean(Apply(lif, op).lif) && |Apply(lif, op).lif.layouts| == |lif.layouts|
  {
    var t := NodeTable(lif);
    match op
    case AddNode(node, layoutId) =>
      AppendKeepsRecords(lif, t, layoutId, node, NodeOk);
      WithNodesTables(lif, AppendTo(lif, t, layoutId, node));
    case DeleteNode(id) =>
      RemoveKeepsRecords(t, NodeId, id, NodeOk);
      WithNodesTables(lif, RemoveId(t, NodeId, id));
    case UpdateNodeId(a, b) =>
      MapKeepsRecords(t, n => RenamedNode(n, a, b), NodeOk);
      MapKeepsRecords(EdgeTable(lif), e => RedirectedEdge(e, a, b), EdgeOk);
      MapKeepsRecords(StationTable(lif), s => RedirectedStation(s, a, b), StationOk);
      NodeRenamedIs(lif, RenameNodeEverywhere(lif, a, b), a, b);
  }

  lemma EdgeCallsKeepClean(lif: LIF, op: Op)
    requires Clean(lif) && AddsValid(op) && (op.AddEdge? || op.DeleteEdge? || op.UpdateEdgeId?)
    ensures Clean(Apply(lif, op).lif) && |Apply(lif, op).lif.layouts| == |lif.layouts|
  {
    var t := EdgeTable(lif);
    match op
    case AddEdge(edge, layoutId) =>
      AppendKeepsRecords(lif, t, layoutId, edge, EdgeOk);
      WithEdgesTables(lif, AppendTo(lif, t, layoutId, edge));
    case DeleteEdge(id) =>
      RemoveKeepsRecords(t, EdgeId, id, EdgeOk);
      WithEdgesTables(lif, RemoveId(t, EdgeId, id));
    case UpdateEdgeId(a, b) =>
      MapKeepsRecords(t, e => RenamedEdge(e, a, b), EdgeOk);
      WithEdgesTables(lif, MapTable(e => RenamedEdge(e, a, b), t));
  }

  lemma StationCallsKeepClean(lif: LIF, op: Op)
    requires Clean(lif) && AddsValid(op) && (op.AddStation? || op.DeleteStation? || op.UpdateStationId?)
    ensures Clean(Apply(lif, op).lif) && |Apply(lif, op).lif.layouts| == |lif.layouts|
  {
    var t := StationTable(lif);
    match op
    case AddStation(station, layoutId) =>
      AppendKeepsRecords(lif, t, layoutId, station, StationOk);
      WithStationsTables(lif, AppendTo(lif, t, layoutId, station));
    case DeleteStation(id) =>
      RemoveKeepsRecords(t, StationId, id, StationOk);
      WithStationsTables(lif, RemoveId(t, StationId, id));
    case UpdateStationId(a, b) =>
      MapKeepsRecords(t, s => RenamedStation(s, a, b), StationOk);
      WithStationsTables(lif, MapTable(s => RenamedStation(s, a, b), t));
  }

  lemma {:induction false} DeleteNodesKeepsClean(lif: LIF, ids: seq<string>)
    requires Clean(lif)
    ensures Clean(DeleteNodes(lif, ids)) && |DeleteNodes(lif, ids).layouts| == |lif.layouts|
    decreases |ids|
  {
    if ids != [] {
      var init := ids[..|ids| - 1];
      DeleteNodesKeepsClean(lif, init);
      NodeCallsKeepClean(DeleteNodes(lif, init), DeleteNode(ids[|ids| - 1]));
    }
  }

  lemma ApplyKeepsClean(lif: LIF, op: Op)
    requires Clean(lif) && AddsValid(op)
    ensures Clean(Apply(lif, op).lif) && |Apply(lif, op).lif.layouts| == |lif.layouts|
  {
    match op
    case AddNode(_, _) => NodeCallsKeepClean(lif, op);
    case DeleteNode(_) => NodeCallsKeepClean(lif, op);
    case UpdateNodeId(_, _) => NodeCallsKeepClean(lif, op);
    case AddEdge(_, _) => EdgeCallsKeepClean(lif, op);
    case DeleteEdge(_) => EdgeCallsKeepClean(lif, op);
    case UpdateEdgeId(_, _) => EdgeCallsKeepClean(lif, op);
    case AddStation(_, _) => StationCallsKeepClean(lif, op);
    case DeleteStation(_) => StationCallsKeepClean(lif, op);
    case UpdateStationId(_, _) => StationCallsKeepClean(lif, op);
    case Prune => DeleteNodesKeepsClean(lif, UnconnectedNodes(lif));
  }

  /** A document that passes the load-time rules still passes them after any calls that add only valid records. */
  lemma {:induction false} RunKeepsValid(lif: LIF, ops: seq<Op>)
    requires ValidLif(lif) && forall i :: 0 <= i < |ops| ==> AddsValid(ops[i])
    ensures ValidLif(Run(lif, ops))
    decreases |ops|
  {
    if ops != [] {
      var init := ops[..|ops| - 1];
      forall i | 0 <= i < |init| ensures AddsValid(init[i]) {
        assert init[i] == ops[i];
      }
      RunKeepsValid(lif, init);
      var prev := Run(lif, init);
      CleanIsElementsOk(prev);
      ApplyKeepsStructure(prev, ops[|ops| - 1]);
      ApplyKeepsClean(prev, ops[|ops| - 1]);
      CleanIsElementsOk(Run(lif, ops));
    }
  }

  /** The mutators never look at the rules that concern one record alone: a call that adds a record
      keeps the document valid exactly when that record meets them. */
  lemma AddKeepsValidIff(lif: LIF, op: Op)
    requires ValidLif(lif) && (op.AddNode? || op.AddEdge? || op.AddStation?) && Apply(lif, op).outcome == Done
    ensures ValidLif(Apply(lif, op).lif) <==> AddsValid(op)
  {
    if AddsValid(op) {
      assert Run(lif, [op]) == Apply(lif, op).lif by {
        assert [op][..0] == [];
        assert Run(lif, []) == lif;
      }
      RunKeepsValid(lif, [op]);
    } else {
      var lif' := Apply(lif, op).lif;
      match op
      case AddNode(node, layoutId) =>
        WithNodesTables(lif, AppendTo(lif, NodeTable(lif), layoutId, node));
        AppendedRecord(lif, NodeTable(lif), layoutId, node);
      case AddEdge(edge, layoutId) =>
        WithEdgesTables(lif, AppendTo(lif, EdgeTable(lif), layoutId, edge));
        AppendedRecord(lif, EdgeTable(lif), layoutId, edge);
      case AddStation(station, layoutId) =>
        WithStationsTables(lif, AppendTo(lif, StationTable(lif), layoutId, station));
        AppendedRecord(lif, StationTable(lif), layoutId, station);
    }
  }

  lemma AppendedRecord<T>(lif: LIF, t: Table<T>, layoutId: string, x: T)
    requires |t| == |lif.layouts| && HasLayout(lif, layoutId)
    ensures exists p :: Has(AppendTo(lif, t, layoutId, x), p) && Get(AppendTo(lif, t, layoutId, x), p) == x
  {
    var i :| 0 <= i < |lif.layouts| && lif.layouts[i].layoutId == layoutId;
    assert Has(AppendTo(lif, t, layoutId, x), Pos(i, |t[i]|));
  }
}
