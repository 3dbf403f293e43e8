/** The seven indices beside the document, when they agree with it, and what each in-place patch keeps. */
module GraphIndex {
  import opened Tables
  import opened ReverseIndex
  import opened Lif
  import opened GraphSpec

  datatype Indices = Indices(
    layout: map<string, nat>,
    node: map<string, Pos>,
    edge: map<string, Pos>,
    station: map<string, Pos>,
    outbound: map<string, seq<string>>,
    inbound: map<string, seq<string>>,
    stations: map<string, seq<string>>)

  type Adjacency = map<string, seq<string>>

  ghost function StartRefs(edges: map<string, Edge>): Adjacency {
    map e | e in edges :: [edges[e].startNodeId]
  }

  ghost function EndRefs(edges: map<string, Edge>): Adjacency {
    map e | e in edges :: [edges[e].endNodeId]
  }

  ghost function StationRefs(stations: map<string, Station>): Adjacency {
    map s | s in stations :: stations[s].interactionNodeIds
  }

  ghost predicate LayoutIndexed(lif: LIF, layout: map<string, nat>) {
    && (forall i :: 0 <= i < |lif.layouts| ==>
          lif.layouts[i].layoutId in layout && layout[lif.layouts[i].layoutId] == i)
    && (forall k :: k in layout ==> layout[k] < |lif.layouts| && lif.layouts[layout[k]].layoutId == k)
  }

  /** Every edge starts at a node of its own layout. */
  ghost predicate StartsLocal(node: map<string, Pos>, edge: map<string, Pos>, edges: map<string, Edge>) {
    forall e :: e in edges && e in edge ==>
      edges[e].startNodeId in node && node[edges[e].startNodeId].row == edge[e].row
  }

  /** The adjacency maps list exactly the edges' endpoints. */
  ghost predicate Adjacent(edges: map<string, Edge>, outbound: Adjacency, inbound: Adjacency) {
    Mirrors(outbound, StartRefs(edges)) && Mirrors(inbound, EndRefs(edges))
  }

  /** Edge positions and both adjacency maps, which have an entry for every node. */
  ghost predicate EdgesIndexed(t: Table<Edge>, node: map<string, Pos>, edge: map<string, Pos>,
      outbound: Adjacency, inbound: Adjacency)
  {
    && Indexes(t, EdgeId, edge)
    && outbound.Keys == node.Keys && inbound.Keys == node.Keys
    && Adjacent(Rows(t, edge), outbound, inbound)
    && StartsLocal(node, edge, Rows(t, edge))
  }

  /** Station positions and the node-to-stations map, which may lack nodes no station refers to. */
  ghost predicate StationsIndexed(t: Table<Station>, node: map<string, Pos>, station: map<string, Pos>,
      stations: Adjacency)
  {
    && Indexes(t, StationId, station)
    && stations.Keys <= node.Keys
    && Mirrors(stations, StationRefs(Rows(t, station)))
  }

  /** The four respects in which indices have to agree with the document; naming them lets a proof
      open only the one it needs. */
  datatype Aspect = LayoutPositions | NodePositions | EdgeAdjacency | StationReferences

  ghost predicate AgreesOn(aspect: Aspect, lif: LIF, x: Indices) {
    match aspect
    case LayoutPositions => LayoutIndexed(lif, x.layout)
    case NodePositions => Indexes(NodeTable(lif), NodeId, x.node)
    case EdgeAdjacency => EdgesIndexed(EdgeTable(lif), x.node, x.edge, x.outbound, x.inbound)
    case StationReferences => StationsIndexed(StationTable(lif), x.node, x.station, x.stations)
  }

  /** All seven indices agree with the document. */
  ghost predicate Agrees(lif: LIF, x: Indices) {
    forall aspect :: AgreesOn(aspect, lif, x)
  }

  lemma OpenAgreement(lif: LIF, x: Indices)
    requires Agrees(lif, x)
    ensures LayoutIndexed(lif, x.layout)
    ensures Indexes(NodeTable(lif), NodeId, x.node)
    ensures EdgesIndexed(EdgeTable(lif), x.node, x.edge, x.outbound, x.inbound)
    ensures StationsIndexed(StationTable(lif), x.node, x.station, x.stations)
  {
    assert AgreesOn(LayoutPositions, lif, x);
    assert AgreesOn(NodePositions, lif, x);
    assert AgreesOn(EdgeAdjacency, lif, x);
    assert AgreesOn(StationReferences, lif, x);
  }

  // ---- Reading a reference count ----

  lemma OutboundLists(t: Table<Edge>, node: map<string, Pos>, edge: map<string, Pos>, outbound: Adjacency,
      inbound: Adjacency, n: string, e: string)
    requires EdgesIndexed(t, node, edge, outbound, inbound)
    ensures multiset(ListAt(outbound, n))[e] == if e in edge && Rows(t, edge)[e].startNodeId == n then 1 else 0
    ensures multiset(ListAt(inbound, n))[e] == if e in edge && Rows(t, edge)[e].endNodeId == n then 1 else 0
  {
    var rows := Rows(t, edge);
    assert e in edge <==> e in rows;
    assert Listed(outbound, n, e) == Refers(StartRefs(rows), e, n);
    assert Listed(inbound, n, e) == Refers(EndRefs(rows), e, n);
  }

  lemma StationLists(t: Table<Station>, node: map<string, Pos>, station: map<string, Pos>, stations: Adjacency,
      n: string, s: string)
    requires StationsIndexed(t, node, station, stations)
    ensures multiset(ListAt(stations, n))[s]
         == if s in station then multiset(Rows(t, station)[s].interactionNodeIds)[n] else 0
  {
    var rows := Rows(t, station);
    assert s in station <==> s in rows;
    assert Listed(stations, n, s) == Refers(StationRefs(rows), s, n);
  }

  /** Edge ends and station references resolve, because only nodes have list entries. */
  lemma EndsResolve(t: Table<Edge>, node: map<string, Pos>, edge: map<string, Pos>, outbound: Adjacency,
      inbound: Adjacency, e: string)
    requires EdgesIndexed(t, node, edge, outbound, inbound) && e in edge
    ensures e in Rows(t, edge)
    ensures Rows(t, edge)[e].startNodeId in node && Rows(t, edge)[e].endNodeId in node
  {
    OutboundLists(t, node, edge, outbound, inbound, Rows(t, edge)[e].endNodeId, e);
    OutboundLists(t, node, edge, outbound, inbound, Rows(t, edge)[e].startNodeId, e);
  }

  lemma StationTargetsResolve(t: Table<Station>, node: map<string, Pos>, station: map<string, Pos>,
      stations: Adjacency, s: string, n: string)
    requires StationsIndexed(t, node, station, stations) && s in station
    requires n in Rows(t, station)[s].interactionNodeIds
    ensures n in node
  {
    StationLists(t, node, station, stations, n, s);
  }

  // ---- Node patches ----

  lemma MirrorsWithSameLists<K(!new), V(!new)>(a: map<K, seq<V>>, b: map<K, seq<V>>, refs: map<V, seq<K>>)
    requires Mirrors(a, refs) && forall n :: ListAt(b, n) == ListAt(a, n)
    ensures Mirrors(b, refs)
  {
    forall v, n ensures Listed(b, n, v) == Refers(refs, v, n) {
      assert Listed(a, n, v) == Refers(refs, v, n);
    }
  }

  lemma AddNodeKeepsEdges(t: Table<Edge>, node: map<string, Pos>, edge: map<string, Pos>, outbound: Adjacency,
      inbound: Adjacency, id: string, p: Pos)
    requires EdgesIndexed(t, node, edge, outbound, inbound) && id !in node
    ensures EdgesIndexed(t, node[id := p], edge, outbound[id := []], inbound[id := []])
  {
    MirrorsWithSameLists(outbound, outbound[id := []], StartRefs(Rows(t, edge)));
    MirrorsWithSameLists(inbound, inbound[id := []], EndRefs(Rows(t, edge)));
  }

  /** Any re-indexing of the nodes that drops one unreferenced node and moves others within their row. */
  lemma DropNodeKeepsEdges(t: Table<Edge>, node: map<string, Pos>, edge: map<string, Pos>, outbound: Adjacency,
      inbound: Adjacency, id: string, node': map<string, Pos>)
    requires EdgesIndexed(t, node, edge, outbound, inbound)
    requires ListAt(outbound, id) == [] && ListAt(inbound, id) == []
    requires node'.Keys == node.Keys - {id} && forall k :: k in node' ==> node'[k].row == node[k].row
    ensures EdgesIndexed(t, node', edge, outbound - {id}, inbound - {id})
  {
    MirrorsWithSameLists(outbound, outbound - {id}, StartRefs(Rows(t, edge)));
    MirrorsWithSameLists(inbound, inbound - {id}, EndRefs(Rows(t, edge)));
    var rows := Rows(t, edge);
    forall e | e in rows && e in edge
      ensures rows[e].startNodeId in node' && node'[rows[e].startNodeId].row == edge[e].row
    {
      OutboundLists(t, node, edge, outbound, inbound, id, e);
    }
  }

  lemma DropNodeKeepsStations(t: Table<Station>, node: map<string, Pos>, station: map<string, Pos>,
      stations: Adjacency, id: string, node': map<string, Pos>)
    requires StationsIndexed(t, node, station, stations)
    requires ListAt(stations, id) == [] && node'.Keys == node.Keys - {id}
    ensures StationsIndexed(t, node', station, stations - {id})
  {
    MirrorsWithSameLists(stations, stations - {id}, StationRefs(Rows(t, station)));
  }

  // ---- Edge patches ----

  lemma AddEdgeKeepsAdjacent(edges: map<string, Edge>, outbound: Adjacency, inbound: Adjacency, e: Edge)
    requires Adjacent(edges, outbound, inbound) && e.edgeId !in edges
    requires e.startNodeId in outbound && e.endNodeId in inbound
    ensures Adjacent(edges[e.edgeId := e], Push(outbound, e.startNodeId, e.edgeId), Push(inbound, e.endNodeId, e.edgeId))
    ensures Push(outbound, e.startNodeId, e.edgeId).Keys == outbound.Keys
    ensures Push(inbound, e.endNodeId, e.edgeId).Keys == inbound.Keys
  {
    InsertKeepsMirror(outbound, StartRefs(edges), e.edgeId, [e.startNodeId]);
    InsertKeepsMirror(inbound, EndRefs(edges), e.edgeId, [e.endNodeId]);
    PushAllOne(outbound, e.startNodeId, e.edgeId);
    PushAllOne(inbound, e.endNodeId, e.edgeId);
    assert StartRefs(edges[e.edgeId := e]) == StartRefs(edges)[e.edgeId := [e.startNodeId]];
    assert EndRefs(edges[e.edgeId := e]) == EndRefs(edges)[e.edgeId := [e.endNodeId]];
  }

  lemma AddEdgeKeepsLocal(node: map<string, Pos>, edge: map<string, Pos>, edges: map<string, Edge>, e: Edge, p: Pos)
    requires StartsLocal(node, edge, edges) && e.startNodeId in node && node[e.startNodeId].row == p.row
    ensures StartsLocal(node, edge[e.edgeId := p], edges[e.edgeId := e])
  {
  }

  lemma AddEdgeKeepsEdges(t: Table<Edge>, node: map<string, Pos>, edge: map<string, Pos>, outbound: Adjacency,
      inbound: Adjacency, li: nat, e: Edge)
    requires EdgesIndexed(t, node, edge, outbound, inbound) && li < |t| && e.edgeId !in edge
    requires e.startNodeId in node && node[e.startNodeId].row == li && e.endNodeId in node
    ensures EdgesIndexed(t[li := t[li] + [e]], node, edge[e.edgeId := Pos(li, |t[li]|)],
              Push(outbound, e.startNodeId, e.edgeId), Push(inbound, e.endNodeId, e.edgeId))
  {
    assert EdgeId(e) == e.edgeId;
    AddEdgeKeepsAdjacent(Rows(t, edge), outbound, inbound, e);
    AddEdgeKeepsLocal(node, edge, Rows(t, edge), e, Pos(li, |t[li]|));
    AppendKeepsIndex(t, EdgeId, edge, li, e);
  }

  lemma PushAllOne<K, V>(rev: map<K, seq<V>>, n: K, v: V)
    ensures PushAll(rev, [n], v) == Push(rev, n, v)
  {
    assert [n][..0] == [];
    assert PushAll(rev, [], v) == rev;
  }

  lemma EraseAllOne<K, V>(rev: map<K, seq<V>>, n: K, v: V)
    ensures EraseAll(rev, [n], v) == Erase(rev, n, v)
  {
    assert [n][..0] == [];
    assert EraseAll(rev, [], v) == rev;
  }

  lemma ReplaceAllOne<K, V>(rev: map<K, seq<V>>, n: K, from: V, to: V)
    ensures ReplaceAll(rev, [n], from, to) == ReplaceAt(rev, n, from, to)
  {
    assert [n][..0] == [];
    assert ReplaceAll(rev, [], from, to) == rev;
  }

  lemma DeleteEdgeKeepsAdjacent(edges: map<string, Edge>, outbound: Adjacency, inbound: Adjacency, e: Edge)
    requires Adjacent(edges, outbound, inbound) && e.edgeId in edges && edges[e.edgeId] == e
    ensures Adjacent(edges - {e.edgeId}, Erase(outbound, e.startNodeId, e.edgeId), Erase(inbound, e.endNodeId, e.edgeId))
  {
    var id := e.edgeId;
    RemoveKeepsMirror(outbound, StartRefs(edges), id);
    RemoveKeepsMirror(inbound, EndRefs(edges), id);
    EraseAllOne(outbound, e.startNodeId, id);
    EraseAllOne(inbound, e.endNodeId, id);
    assert StartRefs(edges - {id}) == StartRefs(edges) - {id};
    assert EndRefs(edges - {id}) == EndRefs(edges) - {id};
  }

  /** The element that swap-and-pop moves stays in its row. */
  lemma MovedWithinRow<T>(t: Table<T>, id: T -> string, index: map<string, Pos>, k: string, index': map<string, Pos>)
    requires Indexes(t, id, index) && k in index && Has(t, index[k])
    requires var p := index[k]; var last := Pos(p.row, |t[p.row]| - 1);
             index' == if p == last then index - {k} else (index - {k})[id(Get(t, last)) := p]
    ensures index'.Keys == index.Keys - {k}
    ensures forall j :: j in index' ==> index'[j].row == index[j].row
  {
    var last := Pos(index[k].row, |t[index[k].row]| - 1);
    assert Has(t, last) && index[id(Get(t, last))] == last;
  }

  lemma DeleteEdgeKeepsLocal(node: map<string, Pos>, edge: map<string, Pos>, edges: map<string, Edge>, id: string,
      edge': map<string, Pos>)
    requires StartsLocal(node, edge, edges) && edge'.Keys == edge.Keys - {id}
    requires forall j :: j in edge' ==> edge'[j].row == edge[j].row
    ensures StartsLocal(node, edge', edges - {id})
  {
  }

  lemma RenameEdgeKeepsAdjacent(edges: map<string, Edge>, outbound: Adjacency, inbound: Adjacency, e: Edge, to: string)
    requires Adjacent(edges, outbound, inbound) && e.edgeId in edges && edges[e.edgeId] == e && to !in edges
    ensures Adjacent((edges - {e.edgeId})[to := e.(edgeId := to)],
              ReplaceAt(outbound, e.startNodeId, e.edgeId, to), ReplaceAt(inbound, e.endNodeId, e.edgeId, to))
  {
    var id := e.edgeId;
    RenameRecordKeepsMirror(outbound, StartRefs(edges), id, to);
    RenameRecordKeepsMirror(inbound, EndRefs(edges), id, to);
    ReplaceAllOne(outbound, e.startNodeId, id, to);
    ReplaceAllOne(inbound, e.endNodeId, id, to);
    var edges' := (edges - {id})[to := e.(edgeId := to)];
    assert StartRefs(edges') == (StartRefs(edges) - {id})[to := [e.startNodeId]];
    assert EndRefs(edges') == (EndRefs(edges) - {id})[to := [e.endNodeId]];
  }

  lemma RenameEdgeKeepsEdges(t: Table<Edge>, node: map<string, Pos>, edge: map<string, Pos>, outbound: Adjacency,
      inbound: Adjacency, id: string, newId: string)
    requires EdgesIndexed(t, node, edge, outbound, inbound) && id in edge && newId !in edge && Has(t, edge[id])
    ensures var p := edge[id]; var e := Get(t, p);
            EdgesIndexed(Set(t, p, e.(edgeId := newId)), node, Rekey(edge, id, newId),
              ReplaceAt(outbound, e.startNodeId, id, newId), ReplaceAt(inbound, e.endNodeId, id, newId))
  {
    var e := Get(t, edge[id]);
    assert EdgeId(e) == id && Rows(t, edge)[id] == e && EdgeId(e.(edgeId := newId)) == newId;
    RenameKeepsIndex(t, EdgeId, edge, edge[id], e.(edgeId := newId));
    RenameEdgeKeepsAdjacent(Rows(t, edge), outbound, inbound, e, newId);
  }

  // ---- Station patches ----

  lemma AddStationKeepsStations(t: Table<Station>, node: map<string, Pos>, station: map<string, Pos>,
      stations: Adjacency, li: nat, s: Station)
    requires StationsIndexed(t, node, station, stations) && li < |t| && s.stationId !in station
    requires forall n :: n in s.interactionNodeIds ==> n in node
    ensures StationsIndexed(t[li := t[li] + [s]], node, station[s.stationId := Pos(li, |t[li]|)],
              PushAll(stations, s.interactionNodeIds, s.stationId))
  {
    var rows := Rows(t, station);
    assert StationId(s) == s.stationId;
    AppendKeepsIndex(t, StationId, station, li, s);
    assert s.stationId !in rows;
    InsertKeepsMirror(stations, StationRefs(rows), s.stationId, s.interactionNodeIds);
    OneMoreStation(rows, s);
  }

  lemma OneMoreStation(rows: map<string, Station>, s: Station)
    ensures StationRefs(rows[s.stationId := s]) == StationRefs(rows)[s.stationId := s.interactionNodeIds]
  {
  }

  lemma DeleteStationKeepsMirror(rows: map<string, Station>, stations: Adjacency, s: Station)
    requires Mirrors(stations, StationRefs(rows)) && s.stationId in rows && rows[s.stationId] == s
    ensures Mirrors(EraseAll(stations, s.interactionNodeIds, s.stationId), StationRefs(rows - {s.stationId}))
    ensures EraseAll(stations, s.interactionNodeIds, s.stationId).Keys == stations.Keys
  {
    RemoveKeepsMirror(stations, StationRefs(rows), s.stationId);
    assert StationRefs(rows - {s.stationId}) == StationRefs(rows) - {s.stationId};
  }

  lemma RenameStationKeepsStations(t: Table<Station>, node: map<string, Pos>, station: map<string, Pos>,
      stations: Adjacency, id: string, newId: string)
    requires StationsIndexed(t, node, station, stations) && id in station && newId !in station && Has(t, station[id])
    ensures var p := station[id]; var s := Get(t, p);
            StationsIndexed(Set(t, p, s.(stationId := newId)), node, Rekey(station, id, newId),
              ReplaceAll(stations, s.interactionNodeIds, id, newId))
  {
    var p := station[id];
    var s := Get(t, p);
    var s' := s.(stationId := newId);
    var rows := Rows(t, station);
    assert StationId(s) == id && rows[id] == s && StationId(s') == newId;
    RenameKeepsIndex(t, StationId, station, p, s');
    RenameRecordKeepsMirror(stations, StationRefs(rows), id, newId);
    var rows' := (rows - {id})[newId := s'];
    assert StationRefs(rows') == (StationRefs(rows) - {id})[newId := s.interactionNodeIds];
  }

  // ---- Renaming a node ----

  ghost function Redirected(edges: map<string, Edge>, from: string, to: string): map<string, Edge> {
    map e | e in edges :: RedirectedEdge(edges[e], from, to)
  }

  lemma RedirectKeepsAdjacent(edges: map<string, Edge>, outbound: Adjacency, inbound: Adjacency, from: string, to: string)
    requires Adjacent(edges, outbound, inbound) && from != to && to !in outbound && to !in inbound
    ensures Adjacent(Redirected(edges, from, to), Rekey(outbound, from, to), Rekey(inbound, from, to))
  {
    var edges' := Redirected(edges, from, to);
    RenameKeyKeepsMirror(outbound, StartRefs(edges), from, to);
    RenameKeyKeepsMirror(inbound, EndRefs(edges), from, to);
    forall e | e in edges ensures StartRefs(edges')[e] == SubstRefs(StartRefs(edges), from, to)[e]
                               && EndRefs(edges')[e] == SubstRefs(EndRefs(edges), from, to)[e] {
    }
    assert StartRefs(edges') == SubstRefs(StartRefs(edges), from, to);
    assert EndRefs(edges') == SubstRefs(EndRefs(edges), from, to);
  }

  lemma RedirectKeepsLocal(node: map<string, Pos>, edge: map<string, Pos>, edges: map<string, Edge>,
      from: string, to: string)
    requires StartsLocal(node, edge, edges) && from in node && to !in node
    ensures StartsLocal(Rekey(node, from, to), edge, Redirected(edges, from, to))
  {
    var node', edges' := Rekey(node, from, to), Redirected(edges, from, to);
    forall e | e in edges' && e in edge
      ensures edges'[e].startNodeId in node' && node'[edges'[e].startNodeId].row == edge[e].row
    {
      assert edges'[e].startNodeId == Subst(edges[e].startNodeId, from, to);
    }
  }

  lemma RedirectKeepsEdges(t: Table<Edge>, node: map<string, Pos>, edge: map<string, Pos>, outbound: Adjacency,
      inbound: Adjacency, from: string, to: string)
    requires EdgesIndexed(t, node, edge, outbound, inbound) && from in node && to !in node
    ensures EdgesIndexed(MapTable(e => RedirectedEdge(e, from, to), t), Rekey(node, from, to), edge,
              Rekey(outbound, from, to), Rekey(inbound, from, to))
  {
    RedirectKeepsRows(t, edge, from, to);
    RedirectKeepsAdjacent(Rows(t, edge), outbound, inbound, from, to);
    RedirectKeepsLocal(node, edge, Rows(t, edge), from, to);
  }

  lemma RedirectKeepsRows(t: Table<Edge>, edge: map<string, Pos>, from: string, to: string)
    requires Indexes(t, EdgeId, edge)
    ensures var u := MapTable(e => RedirectedEdge(e, from, to), t);
            Indexes(u, EdgeId, edge) && Rows(u, edge) == Redirected(Rows(t, edge), from, to)
  {
    var f := e => RedirectedEdge(e, from, to);
    forall p | Has(t, p) ensures EdgeId(f(Get(t, p))) == EdgeId(Get(t, p)) {
    }
    MapKeepsIndex(t, EdgeId, edge, f);
  }

  lemma RedirectKeepsStations(t: Table<Station>, node: map<string, Pos>, station: map<string, Pos>,
      stations: Adjacency, from: string, to: string)
    requires StationsIndexed(t, node, station, stations) && from in node && to !in node
    ensures StationsIndexed(MapTable(s => RedirectedStation(s, from, to), t), Rekey(node, from, to), station,
              Rekey(stations, from, to))
  {
    var f := s => RedirectedStation(s, from, to);
    var rows := Rows(t, station);
    forall p | Has(t, p) ensures StationId(f(Get(t, p))) == StationId(Get(t, p)) {
    }
    MapKeepsIndex(t, StationId, station, f);
    var rows' := Rows(MapTable(f, t), station);
    RenameKeyKeepsMirror(stations, StationRefs(rows), from, to);
    assert StationRefs(rows') == SubstRefs(StationRefs(rows), from, to);
  }

  /** Renaming in the slot the index names renames it in the whole table. */
  lemma SetIsMap<T>(t: Table<T>, id: T -> string, index: map<string, Pos>, k: string, f: T -> T)
    requires Indexes(t, id, index) && k in index && Has(t, index[k])
    requires forall p :: Has(t, p) && id(Get(t, p)) != k ==> f(Get(t, p)) == Get(t, p)
    ensures Set(t, index[k], f(Get(t, index[k]))) == MapTable(f, t)
  {
    var u, w := Set(t, index[k], f(Get(t, index[k]))), MapTable(f, t);
    forall p | Has(u, p) ensures Get(u, p) == Get(w, p) {
      assert Has(t, p);
    }
    SameTable(u, w);
  }

  // ---- Rewriting only what the reverse lists reach ----

  /** `f` applied to the records whose id is listed. */
  ghost function Among<T>(ids: seq<string>, id: T -> string, f: T -> T): T -> T {
    x => if id(x) in ids then f(x) else x
  }

  /** One more listed id: rewriting that record in its slot. */
  lemma RewriteStep<T>(t: Table<T>, id: T -> string, index: map<string, Pos>, ids: seq<string>, k: string, f: T -> T)
    requires Indexes(t, id, index) && k in index
    requires forall x :: id(f(x)) == id(x) && f(f(x)) == f(x)
    ensures var u := MapTable(Among(ids, id, f), t);
            Has(u, index[k]) && Set(u, index[k], f(Get(u, index[k]))) == MapTable(Among(ids + [k], id, f), t)
  {
    var g, h := Among(ids, id, f), Among(ids + [k], id, f);
    var u, w := MapTable(g, t), MapTable(h, t);
    assert Has(t, index[k]);
    var v := Set(u, index[k], f(Get(u, index[k])));
    forall p | Has(v, p) ensures Get(v, p) == Get(w, p) {
      assert Has(t, p);
      assert Get(u, p) == g(Get(t, p)) && Get(w, p) == h(Get(t, p));
      assert id(Get(t, p)) == k <==> p == index[k];
    }
    SameTable(v, w);
  }

  lemma RewriteNone<T>(t: Table<T>, id: T -> string, f: T -> T)
    ensures MapTable(Among([], id, f), t) == t
  {
    var u := MapTable(Among([], id, f), t);
    forall p | Has(u, p) ensures Get(u, p) == Get(t, p) {
      assert Has(t, p);
    }
    SameTable(u, t);
  }

  function StartTo(to: string): Edge -> Edge { (e: Edge) => e.(startNodeId := to) }
  function EndTo(to: string): Edge -> Edge { (e: Edge) => e.(endNodeId := to) }
  function StationTo(from: string, to: string): Station -> Station { (s: Station) => RedirectedStation(s, from, to) }

  /** Redirecting the starts listed outbound and then the ends listed inbound redirects every edge. */
  lemma ListedEdgesSuffice(t: Table<Edge>, node: map<string, Pos>, edge: map<string, Pos>, outbound: Adjacency,
      inbound: Adjacency, from: string, to: string)
    requires EdgesIndexed(t, node, edge, outbound, inbound)
    ensures MapTable(Among(ListAt(inbound, from), EdgeId, EndTo(to)),
              MapTable(Among(ListAt(outbound, from), EdgeId, StartTo(to)), t))
         == MapTable(e => RedirectedEdge(e, from, to), t)
  {
    var f, g := Among(ListAt(outbound, from), EdgeId, StartTo(to)), Among(ListAt(inbound, from), EdgeId, EndTo(to));
    var h := e => RedirectedEdge(e, from, to);
    var u := MapTable(f, t);
    var v, w := MapTable(g, u), MapTable(h, t);
    forall p | Has(v, p) ensures Get(v, p) == Get(w, p) {
      assert Has(t, p) && Has(u, p);
      var e := Get(t, p);
      assert EdgeId(e) in edge && edge[EdgeId(e)] == p && Rows(t, edge)[EdgeId(e)] == e;
      OutboundLists(t, node, edge, outbound, inbound, from, e.edgeId);
      assert e.edgeId in ListAt(outbound, from) <==> e.startNodeId == from;
      assert e.edgeId in ListAt(inbound, from) <==> e.endNodeId == from;
      assert Get(u, p) == f(e) && Get(v, p) == g(f(e)) && Get(w, p) == h(e);
    }
    SameTable(v, w);
  }

  lemma StationToIdempotent(from: string, to: string)
    ensures forall s :: StationId(StationTo(from, to)(s)) == StationId(s)
                     && StationTo(from, to)(StationTo(from, to)(s)) == StationTo(from, to)(s)
  {
    forall s: Station ensures StationTo(from, to)(StationTo(from, to)(s)) == StationTo(from, to)(s) {
      var once := Replace(s.interactionNodeIds, from, to);
      assert Replace(once, from, to) == once;
    }
  }

  lemma IncidentEdgesExist(t: Table<Edge>, node: map<string, Pos>, edge: map<string, Pos>, outbound: Adjacency,
      inbound: Adjacency, n: string)
    requires EdgesIndexed(t, node, edge, outbound, inbound)
    ensures forall e :: e in ListAt(outbound, n) || e in ListAt(inbound, n) ==> e in edge
  {
    forall e | e in ListAt(outbound, n) || e in ListAt(inbound, n) ensures e in edge {
      OutboundLists(t, node, edge, outbound, inbound, n, e);
    }
  }

  lemma ReferringStationsExist(t: Table<Station>, node: map<string, Pos>, station: map<string, Pos>,
      stations: Adjacency, n: string)
    requires StationsIndexed(t, node, station, stations)
    ensures forall s :: s in ListAt(stations, n) ==> s in station
  {
    forall s | s in ListAt(stations, n) ensures s in station {
      StationLists(t, node, station, stations, n, s);
    }
  }

  lemma ListedStationsSuffice(t: Table<Station>, node: map<string, Pos>, station: map<string, Pos>,
      stations: Adjacency, from: string, to: string)
    requires StationsIndexed(t, node, station, stations)
    ensures MapTable(Among(ListAt(stations, from), StationId, StationTo(from, to)), t)
         == MapTable(s => RedirectedStation(s, from, to), t)
  {
    var f := Among(ListAt(stations, from), StationId, StationTo(from, to));
    var h := s => RedirectedStation(s, from, to);
    var v, w := MapTable(f, t), MapTable(h, t);
    forall p | Has(v, p) ensures Get(v, p) == Get(w, p) {
      assert Has(t, p);
      var s := Get(t, p);
      assert StationId(s) in station && station[StationId(s)] == p && Rows(t, station)[StationId(s)] == s;
      StationLists(t, node, station, stations, from, s.stationId);
      assert s.stationId in ListAt(stations, from) <==> from in s.interactionNodeIds;
      if from !in s.interactionNodeIds {
        ReplaceIdle(s.interactionNodeIds, from, to);
      }
      assert Get(v, p) == f(s) && Get(w, p) == h(s);
    }
    SameTable(v, w);
  }
}
