/** The Layout Interchange Format document: layouts holding nodes, edges and stations. */
module Lif {
  import opened Common
  import opened Tables

  datatype MetaInformation = MetaInformation(
    projectIdentification: string,
    creator: string,
    exportTimestamp: string,
    lifVersion: string)

  datatype BlockingType = NONE | SOFT | HARD
  datatype RequirementType = REQUIRED | CONDITIONAL | OPTIONAL
  datatype OrientationType = GLOBAL | TANGENTIAL
  datatype RotationAtNode = NO_ROTATION | CCW | CW | BOTH

  datatype ActionParameter = ActionParameter(key: string, value: string)

  datatype Action = Action(
    actionType: string,
    blockingType: BlockingType,
    actionDescription: Option<string>,
    requirementType: Option<RequirementType>,
    actionParameters: Option<seq<ActionParameter>>)

  datatype LoadRestriction = LoadRestriction(unloaded: bool, loaded: bool, loadSetNames: Option<seq<string>>)

  datatype ControlPoint = ControlPoint(x: real, y: real, weight: Option<real>)

  datatype Trajectory = Trajectory(knotVector: seq<real>, controlPoints: seq<ControlPoint>, degree: Option<int>)

  datatype VehicleTypeNodeProperty = VehicleTypeNodeProperty(
    vehicleTypeId: string,
    theta: Option<real>,
    actions: Option<seq<Action>>)

  datatype VehicleTypeEdgeProperty = VehicleTypeEdgeProperty(
    vehicleTypeId: string,
    rotationAllowed: bool,
    vehicleOrientation: Option<real>,
    orientationType: Option<OrientationType>,
    rotationAtStartNodeAllowed: Option<RotationAtNode>,
    rotationAtEndNodeAllowed: Option<RotationAtNode>,
    maxSpeed: Option<real>,
    maxRotationSpeed: Option<real>,
    minHeight: Option<real>,
    maxHeight: Option<real>,
    loadRestriction: Option<LoadRestriction>,
    actions: Option<seq<Action>>,
    trajectory: Option<Trajectory>,
    reentryAllowed: Option<bool>)

  datatype NodePosition = NodePosition(x: real, y: real)

  datatype Node = Node(
    nodeId: string,
    mapId: string,
    nodePosition: NodePosition,
    vehicleTypeNodeProperties: seq<VehicleTypeNodeProperty>,
    nodeName: Option<string>,
    nodeDescription: Option<string>)

  datatype Edge = Edge(
    edgeId: string,
    startNodeId: string,
    endNodeId: string,
    vehicleTypeEdgeProperties: seq<VehicleTypeEdgeProperty>,
    edgeName: Option<string>,
    edgeDescription: Option<string>)

  datatype StationPosition = StationPosition(x: real, y: real, theta: Option<real>)

  datatype Station = Station(
    stationId: string,
    interactionNodeIds: seq<string>,
    stationName: Option<string>,
    stationDescription: Option<string>,
    stationHeight: Option<real>,
    stationPosition: Option<StationPosition>)

  datatype Layout = Layout(
    layoutId: string,
    layoutVersion: string,
    nodes: seq<Node>,
    edges: seq<Edge>,
    stations: seq<Station>,
    layoutName: Option<string>,
    layoutLevelId: Option<string>,
    layoutDescription: Option<string>)

  datatype LIF = LIF(metaInformation: MetaInformation, layouts: seq<Layout>)

  function NodeId(n: Node): string { n.nodeId }
  function EdgeId(e: Edge): string { e.edgeId }
  function StationId(s: Station): string { s.stationId }
  function LayoutId(l: Layout): string { l.layoutId }

  // The three families of records, one row per layout.

  function NodeTable(lif: LIF): Table<Node> {
    seq(|lif.layouts|, i requires 0 <= i < |lif.layouts| => lif.layouts[i].nodes)
  }

  function EdgeTable(lif: LIF): Table<Edge> {
    seq(|lif.layouts|, i requires 0 <= i < |lif.layouts| => lif.layouts[i].edges)
  }

  function StationTable(lif: LIF): Table<Station> {
    seq(|lif.layouts|, i requires 0 <= i < |lif.layouts| => lif.layouts[i].stations)
  }

  // Replacing one family and keeping everything else.

  function WithNodes(lif: LIF, t: Table<Node>): LIF
    requires |t| == |lif.layouts|
  {
    lif.(layouts := seq(|t|, i requires 0 <= i < |t| => lif.layouts[i].(nodes := t[i])))
  }

  function WithEdges(lif: LIF, t: Table<Edge>): LIF
    requires |t| == |lif.layouts|
  {
    lif.(layouts := seq(|t|, i requires 0 <= i < |t| => lif.layouts[i].(edges := t[i])))
  }

  function WithStations(lif: LIF, t: Table<Station>): LIF
    requires |t| == |lif.layouts|
  {
    lif.(layouts := seq(|t|, i requires 0 <= i < |t| => lif.layouts[i].(stations := t[i])))
  }

  /** Everything of the document except its nodes, edges and stations. */
  ghost predicate SameFrame(a: LIF, b: LIF) {
    && a.metaInformation == b.metaInformation
    && |a.layouts| == |b.layouts|
    && forall i :: 0 <= i < |a.layouts| ==>
         a.layouts[i].(nodes := [], edges := [], stations := [])
         == b.layouts[i].(nodes := [], edges := [], stations := [])
  }

  /** A document is its frame and its three tables. */
  lemma SameLif(a: LIF, b: LIF)
    requires SameFrame(a, b)
    requires NodeTable(a) == NodeTable(b) && EdgeTable(a) == EdgeTable(b) && StationTable(a) == StationTable(b)
    ensures a == b
  {
    forall i | 0 <= i < |a.layouts| ensures a.layouts[i] == b.layouts[i] {
      var x, y := a.layouts[i], b.layouts[i];
      assert x.(nodes := [], edges := [], stations := []) == y.(nodes := [], edges := [], stations := []);
      assert NodeTable(a)[i] == NodeTable(b)[i];
      assert EdgeTable(a)[i] == EdgeTable(b)[i];
      assert StationTable(a)[i] == StationTable(b)[i];
    }
  }

  lemma FrameTrans(a: LIF, b: LIF, c: LIF)
    requires SameFrame(a, b) && SameFrame(b, c)
    ensures SameFrame(a, c) && SameFrame(c, a)
  {
    forall i | 0 <= i < |a.layouts|
      ensures a.layouts[i].(nodes := [], edges := [], stations := []) == c.layouts[i].(nodes := [], edges := [], stations := [])
    {
      assert b.layouts[i].(nodes := [], edges := [], stations := []) == a.layouts[i].(nodes := [], edges := [], stations := []);
    }
  }

  lemma WithNodesTables(lif: LIF, t: Table<Node>)
    requires |t| == |lif.layouts|
    ensures SameFrame(lif, WithNodes(lif, t)) && NodeTable(WithNodes(lif, t)) == t
    ensures EdgeTable(WithNodes(lif, t)) == EdgeTable(lif) && StationTable(WithNodes(lif, t)) == StationTable(lif)
  {
  }

  lemma WithEdgesTables(lif: LIF, t: Table<Edge>)
    requires |t| == |lif.layouts|
    ensures SameFrame(lif, WithEdges(lif, t)) && EdgeTable(WithEdges(lif, t)) == t
    ensures NodeTable(WithEdges(lif, t)) == NodeTable(lif) && StationTable(WithEdges(lif, t)) == StationTable(lif)
  {
  }

  lemma WithStationsTables(lif: LIF, t: Table<Station>)
    requires |t| == |lif.layouts|
    ensures SameFrame(lif, WithStations(lif, t)) && StationTable(WithStations(lif, t)) == t
    ensures NodeTable(WithStations(lif, t)) == NodeTable(lif) && EdgeTable(WithStations(lif, t)) == EdgeTable(lif)
  {
  }

  // ---- Structural validity ----

  ghost predicate UniqueLayoutIds(lif: LIF) {
    forall i, j :: 0 <= i < j < |lif.layouts| ==> lif.layouts[i].layoutId != lif.layouts[j].layoutId
  }

  /** Layout, node, edge and station ids are each unique over the whole document. */
  ghost predicate IdsUnique(lif: LIF) {
    && UniqueLayoutIds(lif)
    && UniqueIds(NodeTable(lif), NodeId)
    && UniqueIds(EdgeTable(lif), EdgeId)
    && UniqueIds(StationTable(lif), StationId)
  }

  ghost predicate RowHasNode(l: Layout, id: string) {
    exists i :: 0 <= i < |l.nodes| && l.nodes[i].nodeId == id
  }

  ghost predicate HasNodeId(lif: LIF, id: string) {
    Contains(NodeTable(lif), NodeId, id)
  }

  ghost predicate HasEdgeId(lif: LIF, id: string) {
    Contains(EdgeTable(lif), EdgeId, id)
  }

  ghost predicate HasStationId(lif: LIF, id: string) {
    Contains(StationTable(lif), StationId, id)
  }

  /** Every edge starts at a node of its own layout. */
  ghost predicate StartsResolve(l: Layout) {
    forall i :: 0 <= i < |l.edges| ==> RowHasNode(l, l.edges[i].startNodeId)
  }

  /** Every edge of the layout ends at, and every station of the layout refers to, a node of the document. */
  ghost predicate TargetsResolve(lif: LIF, l: Layout) {
    && (forall i :: 0 <= i < |l.edges| ==> HasNodeId(lif, l.edges[i].endNodeId))
    && (forall i, n :: 0 <= i < |l.stations| && n in l.stations[i].interactionNodeIds ==> HasNodeId(lif, n))
  }

  ghost predicate ReferencesResolve(lif: LIF) {
    forall i :: 0 <= i < |lif.layouts| ==> StartsResolve(lif.layouts[i]) && TargetsResolve(lif, lif.layouts[i])
  }

  ghost predicate StructureOk(lif: LIF) {
    IdsUnique(lif) && ReferencesResolve(lif)
  }
}
