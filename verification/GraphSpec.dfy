/** What the graph mutators mean: scans over the whole document, with no index anywhere. */
module GraphSpec {
  import opened Tables
  import opened ReverseIndex
  import opened Lif

  datatype GraphError =
    | DuplicateId
    | LayoutNotFound
    | StartNotInLayout
    | EndNotFound
    | InteractionNodeNotFound
    | IdNotFound
    | ReferencedByEdges
    | ReferencedByStations
    | NewIdExists

  datatype Outcome = Done | Throws(error: GraphError)

  datatype Step = Step(outcome: Outcome, lif: LIF)

  datatype Op =
    | AddNode(node: Node, layoutId: string)
    | AddEdge(edge: Edge, layoutId: string)
    | AddStation(station: Station, layoutId: string)
    | DeleteNode(id: string)
    | DeleteEdge(id: string)
    | DeleteStation(id: string)
    | UpdateNodeId(oldId: string, newId: string)
    | UpdateEdgeId(oldId: string, newId: string)
    | UpdateStationId(oldId: string, newId: string)
    | Prune

  // ---- Scans ----

  ghost predicate HasLayout(lif: LIF, layoutId: string) {
    exists i :: 0 <= i < |lif.layouts| && lif.layouts[i].layoutId == layoutId
  }

  ghost predicate StartInLayout(lif: LIF, layoutId: string, nodeId: string) {
    exists i :: 0 <= i < |lif.layouts| && lif.layouts[i].layoutId == layoutId && RowHasNode(lif.layouts[i], nodeId)
  }

  /** Some edge of the document starts or ends at the node. */
  ghost predicate EdgeTouches(lif: LIF, nodeId: string) {
    exists p :: Has(EdgeTable(lif), p)
      && (Get(EdgeTable(lif), p).startNodeId == nodeId || Get(EdgeTable(lif), p).endNodeId == nodeId)
  }

  /** Some station of the document refers to the node. */
  ghost predicate StationRefersTo(lif: LIF, nodeId: string) {
    exists p :: Has(StationTable(lif), p) && nodeId in Get(StationTable(lif), p).interactionNodeIds
  }

  ghost predicate Isolated(lif: LIF, nodeId: string) {
    !EdgeTouches(lif, nodeId) && !StationRefersTo(lif, nodeId)
  }

  /** `x` appended to the row of every layout with that id. */
  ghost function AppendTo<T>(lif: LIF, t: Table<T>, layoutId: string, x: T): Table<T>
    requires |t| == |lif.layouts|
  {
    seq(|t|, i requires 0 <= i < |t| => if lif.layouts[i].layoutId == layoutId then t[i] + [x] else t[i])
  }

  // ---- Substitutions ----

  function RenamedNode(n: Node, from: string, to: string): Node {
    n.(nodeId := Subst(n.nodeId, from, to))
  }

  function RedirectedEdge(e: Edge, from: string, to: string): Edge {
    e.(startNodeId := Subst(e.startNodeId, from, to), endNodeId := Subst(e.endNodeId, from, to))
  }

  function RedirectedStation(s: Station, from: string, to: string): Station {
    s.(interactionNodeIds := Replace(s.interactionNodeIds, from, to))
  }

  function RenamedEdge(e: Edge, from: string, to: string): Edge {
    e.(edgeId := Subst(e.edgeId, from, to))
  }

  function RenamedStation(s: Station, from: string, to: string): Station {
    s.(stationId := Subst(s.stationId, from, to))
  }

  /** The document with node id `from` replaced by `to` in every node, edge endpoint and station reference. */
  ghost function RenameNodeEverywhere(lif: LIF, from: string, to: string): LIF {
    var a := WithNodes(lif, MapTable(n => RenamedNode(n, from, to), NodeTable(lif)));
    var b := WithEdges(a, MapTable(e => RedirectedEdge(e, from, to), EdgeTable(lif)));
    WithStations(b, MapTable(s => RedirectedStation(s, from, to), StationTable(lif)))
  }

  // ---- The mutators ----

  ghost function AddNodeSpec(lif: LIF, node: Node, layoutId: string): Step {
    if HasNodeId(lif, node.nodeId) then Step(Throws(DuplicateId), lif)
    else if !HasLayout(lif, layoutId) then Step(Throws(LayoutNotFound), lif)
    else Step(Done, WithNodes(lif, AppendTo(lif, NodeTable(lif), layoutId, node)))
  }

  ghost function AddEdgeSpec(lif: LIF, edge: Edge, layoutId: string): Step {
    if HasEdgeId(lif, edge.edgeId) then Step(Throws(DuplicateId), lif)
    else if !HasLayout(lif, layoutId) then Step(Throws(LayoutNotFound), lif)
    else if !StartInLayout(lif, layoutId, edge.startNodeId) then Step(Throws(StartNotInLayout), lif)
    else if !HasNodeId(lif, edge.endNodeId) then Step(Throws(EndNotFound), lif)
    else Step(Done, WithEdges(lif, AppendTo(lif, EdgeTable(lif), layoutId, edge)))
  }

  ghost function AddStationSpec(lif: LIF, station: Station, layoutId: string): Step {
    if HasStationId(lif, station.stationId) then Step(Throws(DuplicateId), lif)
    else if !HasLayout(lif, layoutId) then Step(Throws(LayoutNotFound), lif)
    else if exists n :: n in station.interactionNodeIds && !HasNodeId(lif, n) then
      Step(Throws(InteractionNodeNotFound), lif)
    else Step(Done, WithStations(lif, AppendTo(lif, StationTable(lif), layoutId, station)))
  }

  ghost function DeleteNodeSpec(lif: LIF, id: string): Step {
    if !HasNodeId(lif, id) then Step(Throws(IdNotFound), lif)
    else if EdgeTouches(lif, id) then Step(Throws(ReferencedByEdges), lif)
    else if StationRefersTo(lif, id) then Step(Throws(ReferencedByStations), lif)
    else Step(Done, WithNodes(lif, RemoveId(NodeTable(lif), NodeId, id)))
  }

  ghost function DeleteEdgeSpec(lif: LIF, id: string): Step {
    if !HasEdgeId(lif, id) then Step(Throws(IdNotFound), lif)
    else Step(Done, WithEdges(lif, RemoveId(EdgeTable(lif), EdgeId, id)))
  }

  ghost function DeleteStationSpec(lif: LIF, id: string): Step {
    if !HasStationId(lif, id) then Step(Throws(IdNotFound), lif)
    else Step(Done, WithStations(lif, RemoveId(StationTable(lif), StationId, id)))
  }

  ghost function UpdateNodeIdSpec(lif: LIF, oldId: string, newId: string): Step {
    if !HasNodeId(lif, oldId) then Step(Throws(IdNotFound), lif)
    else if oldId == newId then Step(Done, lif)
    else if HasNodeId(lif, newId) then Step(Throws(NewIdExists), lif)
    else Step(Done, RenameNodeEverywhere(lif, oldId, newId))
  }

  ghost function UpdateEdgeIdSpec(lif: LIF, oldId: string, newId: string): Step {
    if !HasEdgeId(lif, oldId) then Step(Throws(IdNotFound), lif)
    else if oldId == newId then Step(Done, lif)
    else if HasEdgeId(lif, newId) then Step(Throws(NewIdExists), lif)
    else Step(Done, WithEdges(lif, MapTable(e => RenamedEdge(e, oldId, newId), EdgeTable(lif))))
  }

  ghost function UpdateStationIdSpec(lif: LIF, oldId: string, newId: string): Step {
    if !HasStationId(lif, oldId) then Step(Throws(IdNotFound), lif)
    else if oldId == newId then Step(Done, lif)
    else if HasStationId(lif, newId) then Step(Throws(NewIdExists), lif)
    else Step(Done, WithStations(lif, MapTable(s => RenamedStation(s, oldId, newId), StationTable(lif))))
  }

  /** The ids, in scan order, of the nodes with no edge and no station reference. */
  ghost function Unconnected(lif: LIF, nodes: seq<Node>): seq<string> {
    if nodes == [] then []
    else
      var n := nodes[|nodes| - 1];
      Unconnected(lif, nodes[..|nodes| - 1]) + if Isolated(lif, n.nodeId) then [n.nodeId] else []
  }

  ghost function UnconnectedNodes(lif: LIF): seq<string> {
    Unconnected(lif, Flatten(NodeTable(lif)))
  }

  ghost function DeleteNodes(lif: LIF, ids: seq<string>): LIF
    decreases |ids|
  {
    if ids == [] then lif
    else DeleteNodeSpec(DeleteNodes(lif, ids[..|ids| - 1]), ids[|ids| - 1]).lif
  }

  ghost function PruneSpec(lif: LIF): Step {
    Step(Done, DeleteNodes(lif, UnconnectedNodes(lif)))
  }

  ghost function Apply(lif: LIF, op: Op): Step {
    match op
    case AddNode(node, layoutId) => AddNodeSpec(lif, node, layoutId)
    case AddEdge(edge, layoutId) => AddEdgeSpec(lif, edge, layoutId)
    case AddStation(station, layoutId) => AddStationSpec(lif, station, layoutId)
    case DeleteNode(id) => DeleteNodeSpec(lif, id)
    case DeleteEdge(id) => DeleteEdgeSpec(lif, id)
    case DeleteStation(id) => DeleteStationSpec(lif, id)
    case UpdateNodeId(oldId, newId) => UpdateNodeIdSpec(lif, oldId, newId)
    case UpdateEdgeId(oldId, newId) => UpdateEdgeIdSpec(lif, oldId, newId)
    case UpdateStationId(oldId, newId) => UpdateStationIdSpec(lif, oldId, newId)
    case Prune => PruneSpec(lif)
  }

  /** The document after a sequence of calls; a call that throws leaves it as it was. */
  ghost function Run(lif: LIF, ops: seq<Op>): LIF
    decreases |ops|
  {
    if ops == [] then lif else Apply(Run(lif, ops[..|ops| - 1]), ops[|ops| - 1]).lif
  }
}
