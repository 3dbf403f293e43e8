/** What a rebuild from the document computes, and that maintained indices equal it. */
module GraphRebuild {
  import opened Common
  import opened Tables
  import opened ReverseIndex
  import opened Lif
  import opened GraphSpec
  import opened GraphIndex
  import opened GraphSteps

  function StartEntry(e: Edge): Entry<string, string> { Entry(e.edgeId, [e.startNodeId]) }
  function EndEntry(e: Edge): Entry<string, string> { Entry(e.edgeId, [e.endNodeId]) }
  function StationEntry(s: Station): Entry<string, string> { Entry(s.stationId, s.interactionNodeIds) }

  /** Ids of the edges leaving `n`, in scan order. */
  function OutScan(es: seq<Edge>, n: string): seq<string> { Scan(MapSeq(StartEntry, es), n) }

  /** Ids of the edges entering `n`, in scan order. */
  function InScan(es: seq<Edge>, n: string): seq<string> { Scan(MapSeq(EndEntry, es), n) }

  /** Ids of the stations referring to `n`, in scan order, once per reference. */
  function StationScan(ss: seq<Station>, n: string): seq<string> { Scan(MapSeq(StationEntry, ss), n) }

  lemma OutScanStep(es: seq<Edge>, e: Edge, n: string)
    ensures OutScan(es + [e], n) == OutScan(es, n) + if e.startNodeId == n then [e.edgeId] else []
  {
    assert MapSeq(StartEntry, es + [e])[..|es|] == MapSeq(StartEntry, es);
    assert [e.startNodeId][..0] == [];
    assert Repeats([], n, e.edgeId) == [];
  }

  lemma InScanStep(es: seq<Edge>, e: Edge, n: string)
    ensures InScan(es + [e], n) == InScan(es, n) + if e.endNodeId == n then [e.edgeId] else []
  {
    assert MapSeq(EndEntry, es + [e])[..|es|] == MapSeq(EndEntry, es);
    assert [e.endNodeId][..0] == [];
    assert Repeats([], n, e.edgeId) == [];
  }

  lemma StationScanStep(ss: seq<Station>, s: Station, n: string)
    ensures StationScan(ss + [s], n) == StationScan(ss, n) + Repeats(s.interactionNodeIds, n, s.stationId)
  {
    assert MapSeq(StationEntry, ss + [s])[..|ss|] == MapSeq(StationEntry, ss);
  }

  ghost function LayoutPos(lif: LIF, layoutId: string): nat {
    if HasLayout(lif, layoutId)
    then (var i :| 0 <= i < |lif.layouts| && lif.layouts[i].layoutId == layoutId; i)
    else 0
  }

  /** The indices computed from the document alone. */
  ghost function Rebuilt(lif: LIF): Indices {
    var node := IndexOf(NodeTable(lif), NodeId);
    var edges, stations := Flatten(EdgeTable(lif)), Flatten(StationTable(lif));
    Indices(
      map k | k in (set i | 0 <= i < |lif.layouts| :: lif.layouts[i].layoutId) :: LayoutPos(lif, k),
      node,
      IndexOf(EdgeTable(lif), EdgeId),
      IndexOf(StationTable(lif), StationId),
      map n | n in node :: OutScan(edges, n),
      map n | n in node :: InScan(edges, n),
      map n | n in node :: StationScan(stations, n))
  }

  /** Every list holds what the scan of the document lists, in scan order. */
  ghost predicate ListsScan(lif: LIF, x: Indices) {
    && (forall n :: ListAt(x.outbound, n) == OutScan(Flatten(EdgeTable(lif)), n))
    && (forall n :: ListAt(x.inbound, n) == InScan(Flatten(EdgeTable(lif)), n))
    && (forall n :: ListAt(x.stations, n) == StationScan(Flatten(StationTable(lif)), n))
  }

  lemma FlattenKeyed<T>(t: Table<T>, id: T -> string, index: map<string, Pos>, entry: T -> Entry<string, string>,
      refs: map<string, seq<string>>)
    requires Indexes(t, id, index)
    requires forall r :: entry(r).record == id(r)
    requires refs.Keys == index.Keys && forall p :: Has(t, p) ==> refs[id(Get(t, p))] == entry(Get(t, p)).targets
    ensures Keyed(MapSeq(entry, Flatten(t)), refs)
  {
    var flat := Flatten(t);
    var es := MapSeq(entry, flat);
    IndexKeys(t, id, index);
    FlattenDistinct(t, id);
    forall i | 0 <= i < |es| ensures es[i].record in refs && refs[es[i].record] == es[i].targets {
      FlattenMembers(t, flat[i]);
      var p :| Has(t, p) && Get(t, p) == flat[i];
    }
    forall v | v in refs ensures exists i :: 0 <= i < |es| && es[i].record == v {
      var r := Get(t, index[v]);
      FlattenMembers(t, r);
      var i :| 0 <= i < |flat| && flat[i] == r;
      assert es[i].record == v;
    }
  }

  lemma EdgesKeyed(t: Table<Edge>, edge: map<string, Pos>)
    requires Indexes(t, EdgeId, edge)
    ensures Keyed(MapSeq(StartEntry, Flatten(t)), StartRefs(Rows(t, edge)))
    ensures Keyed(MapSeq(EndEntry, Flatten(t)), EndRefs(Rows(t, edge)))
  {
    var rows := Rows(t, edge);
    forall k | k in edge ensures k in rows {
      assert Has(t, edge[k]);
    }
    FlattenKeyed(t, EdgeId, edge, StartEntry, StartRefs(rows));
    FlattenKeyed(t, EdgeId, edge, EndEntry, EndRefs(rows));
  }

  lemma StationsKeyed(t: Table<Station>, station: map<string, Pos>)
    requires Indexes(t, StationId, station)
    ensures Keyed(MapSeq(StationEntry, Flatten(t)), StationRefs(Rows(t, station)))
  {
    var rows := Rows(t, station);
    forall k | k in station ensures k in rows {
      assert Has(t, station[k]);
    }
    FlattenKeyed(t, StationId, station, StationEntry, StationRefs(rows));
  }

  /** Maintained lists hold, key by key, the multiset a scan of the document lists. */
  lemma ListsMatchScan(lif: LIF, x: Indices, n: string)
    requires Agrees(lif, x)
    ensures multiset(ListAt(x.outbound, n)) == multiset(OutScan(Flatten(EdgeTable(lif)), n))
    ensures multiset(ListAt(x.inbound, n)) == multiset(InScan(Flatten(EdgeTable(lif)), n))
    ensures multiset(ListAt(x.stations, n)) == multiset(StationScan(Flatten(StationTable(lif)), n))
  {
    OpenAgreement(lif, x);
    EdgesKeyed(EdgeTable(lif), x.edge);
    StationsKeyed(StationTable(lif), x.station);
    MirrorMatchesScan(x.outbound, MapSeq(StartEntry, Flatten(EdgeTable(lif))), StartRefs(Rows(EdgeTable(lif), x.edge)), n);
    MirrorMatchesScan(x.inbound, MapSeq(EndEntry, Flatten(EdgeTable(lif))), EndRefs(Rows(EdgeTable(lif), x.edge)), n);
    MirrorMatchesScan(x.stations, MapSeq(StationEntry, Flatten(StationTable(lif))),
      StationRefs(Rows(StationTable(lif), x.station)), n);
  }

  lemma ScannedEdgesAgree(t: Table<Edge>, x: Indices)
    requires Indexes(t, EdgeId, x.edge)
    requires x.outbound.Keys == x.node.Keys && x.inbound.Keys == x.node.Keys
    requires forall n :: ListAt(x.outbound, n) == OutScan(Flatten(t), n)
    requires forall n :: ListAt(x.inbound, n) == InScan(Flatten(t), n)
    requires StartsLocal(x.node, x.edge, Rows(t, x.edge))
    ensures EdgesIndexed(t, x.node, x.edge, x.outbound, x.inbound)
  {
    EdgesKeyed(t, x.edge);
    ScanMirrors(x.outbound, MapSeq(StartEntry, Flatten(t)), StartRefs(Rows(t, x.edge)));
    ScanMirrors(x.inbound, MapSeq(EndEntry, Flatten(t)), EndRefs(Rows(t, x.edge)));
  }

  lemma ScannedStationsAgree(t: Table<Station>, x: Indices)
    requires Indexes(t, StationId, x.station) && x.stations.Keys <= x.node.Keys
    requires forall n :: ListAt(x.stations, n) == StationScan(Flatten(t), n)
    ensures StationsIndexed(t, x.node, x.station, x.stations)
  {
    StationsKeyed(t, x.station);
    ScanMirrors(x.stations, MapSeq(StationEntry, Flatten(t)), StationRefs(Rows(t, x.station)));
  }

  lemma StructureIsLocal(lif: LIF, node: map<string, Pos>, edge: map<string, Pos>)
    requires ReferencesResolve(lif) && Indexes(NodeTable(lif), NodeId, node) && Indexes(EdgeTable(lif), EdgeId, edge)
    ensures StartsLocal(node, edge, Rows(EdgeTable(lif), edge))
  {
    var t := EdgeTable(lif);
    var rows := Rows(t, edge);
    forall e | e in rows && e in edge
      ensures rows[e].startNodeId in node && node[rows[e].startNodeId].row == edge[e].row
    {
      var p := edge[e];
      assert Has(t, p) && EdgeId(Get(t, p)) == e;
      var l := lif.layouts[p.row];
      assert StartsResolve(l) && l.edges[p.col] == rows[e];
      var j :| 0 <= j < |l.nodes| && l.nodes[j].nodeId == rows[e].startNodeId;
      assert Has(NodeTable(lif), Pos(p.row, j)) && NodeId(Get(NodeTable(lif), Pos(p.row, j))) == rows[e].startNodeId;
    }
  }

  /** Freshly scanned lists beside exact positions agree with a structurally valid document. */
  lemma ScannedAgrees(lif: LIF, x: Indices)
    requires ReferencesResolve(lif) && LayoutIndexed(lif, x.layout)
    requires Indexes(NodeTable(lif), NodeId, x.node) && Indexes(EdgeTable(lif), EdgeId, x.edge)
    requires Indexes(StationTable(lif), StationId, x.station)
    requires x.outbound.Keys == x.node.Keys && x.inbound.Keys == x.node.Keys && x.stations.Keys <= x.node.Keys
    requires ListsScan(lif, x)
    ensures Agrees(lif, x)
  {
    StructureIsLocal(lif, x.node, x.edge);
    ScannedEdgesAgree(EdgeTable(lif), x);
    ScannedStationsAgree(StationTable(lif), x);
  }

  // ---- Every structurally valid document has agreeing indices ----

  lemma {:induction false} ScanNothing(entries: seq<Entry<string, string>>, n: string)
    requires forall i :: 0 <= i < |entries| ==> n !in entries[i].targets
    ensures Scan(entries, n) == []
  {
    if entries != [] {
      var init, e := entries[..|entries| - 1], entries[|entries| - 1];
      forall i | 0 <= i < |init| ensures n !in init[i].targets {
        assert init[i] == entries[i];
      }
      ScanNothing(init, n);
      RepeatsCount(e.targets, n, e.record, e.record);
    }
  }

  /** Nothing is listed under an id that is not a node. */
  lemma ScansAreOfNodes(lif: LIF, n: string)
    requires ReferencesResolve(lif) && !HasNodeId(lif, n)
    ensures OutScan(Flatten(EdgeTable(lif)), n) == [] && InScan(Flatten(EdgeTable(lif)), n) == []
    ensures StationScan(Flatten(StationTable(lif)), n) == []
  {
    var es, ss := Flatten(EdgeTable(lif)), Flatten(StationTable(lif));
    forall i | 0 <= i < |es| ensures n !in StartEntry(es[i]).targets && n !in EndEntry(es[i]).targets {
      FlattenMembers(EdgeTable(lif), es[i]);
      var p :| Has(EdgeTable(lif), p) && Get(EdgeTable(lif), p) == es[i];
      var l := lif.layouts[p.row];
      assert StartsResolve(l) && TargetsResolve(lif, l) && l.edges[p.col] == es[i];
      var j :| 0 <= j < |l.nodes| && l.nodes[j].nodeId == es[i].startNodeId;
      assert Has(NodeTable(lif), Pos(p.row, j)) && NodeId(Get(NodeTable(lif), Pos(p.row, j))) == es[i].startNodeId;
    }
    forall i | 0 <= i < |ss| ensures n !in StationEntry(ss[i]).targets {
      FlattenMembers(StationTable(lif), ss[i]);
      var p :| Has(StationTable(lif), p) && Get(StationTable(lif), p) == ss[i];
      var l := lif.layouts[p.row];
      assert TargetsResolve(lif, l) && l.stations[p.col] == ss[i];
    }
    ScanNothing(MapSeq(StartEntry, es), n);
    ScanNothing(MapSeq(EndEntry, es), n);
    ScanNothing(MapSeq(StationEntry, ss), n);
  }

  lemma LayoutsIndexed(lif: LIF)
    requires UniqueLayoutIds(lif)
    ensures LayoutIndexed(lif, Rebuilt(lif).layout)
  {
    var m := Rebuilt(lif).layout;
    forall i | 0 <= i < |lif.layouts| ensures lif.layouts[i].layoutId in m && m[lif.layouts[i].layoutId] == i {
      assert HasLayout(lif, lif.layouts[i].layoutId);
    }
    forall k | k in m ensures m[k] < |lif.layouts| && lif.layouts[m[k]].layoutId == k {
      assert HasLayout(lif, k);
    }
  }

  lemma RebuiltPositions(lif: LIF)
    requires IdsUnique(lif)
    ensures var x := Rebuilt(lif);
            && LayoutIndexed(lif, x.layout)
            && Indexes(NodeTable(lif), NodeId, x.node)
            && Indexes(EdgeTable(lif), EdgeId, x.edge)
            && Indexes(StationTable(lif), StationId, x.station)
            && forall k :: k in x.node <==> HasNodeId(lif, k)
  {
    LayoutsIndexed(lif);
    IndexOfIndexes(NodeTable(lif), NodeId);
    IndexOfIndexes(EdgeTable(lif), EdgeId);
    IndexOfIndexes(StationTable(lif), StationId);
    IndexKeys(NodeTable(lif), NodeId, Rebuilt(lif).node);
  }

  lemma RebuiltListsAt(lif: LIF, n: string)
    requires ReferencesResolve(lif) && (n in Rebuilt(lif).node <==> HasNodeId(lif, n))
    ensures ListAt(Rebuilt(lif).outbound, n) == OutScan(Flatten(EdgeTable(lif)), n)
    ensures ListAt(Rebuilt(lif).inbound, n) == InScan(Flatten(EdgeTable(lif)), n)
    ensures ListAt(Rebuilt(lif).stations, n) == StationScan(Flatten(StationTable(lif)), n)
  {
    if n !in Rebuilt(lif).node {
      ScansAreOfNodes(lif, n);
    }
  }

  lemma RebuiltLists(lif: LIF)
    requires ReferencesResolve(lif) && forall k :: k in Rebuilt(lif).node <==> HasNodeId(lif, k)
    ensures ListsScan(lif, Rebuilt(lif))
  {
    forall n
      ensures ListAt(Rebuilt(lif).outbound, n) == OutScan(Flatten(EdgeTable(lif)), n)
           && ListAt(Rebuilt(lif).inbound, n) == InScan(Flatten(EdgeTable(lif)), n)
           && ListAt(Rebuilt(lif).stations, n) == StationScan(Flatten(StationTable(lif)), n)
    {
      RebuiltListsAt(lif, n);
    }
  }

  /** A structurally valid document agrees with the indices rebuilt from it. */
  lemma RebuiltAgrees(lif: LIF)
    requires StructureOk(lif)
    ensures Agrees(lif, Rebuilt(lif)) && ListsScan(lif, Rebuilt(lif))
  {
    RebuiltPositions(lif);
    RebuiltLists(lif);
    ScannedAgrees(lif, Rebuilt(lif));
  }

  lemma LayoutIndexUnique(lif: LIF, x: map<string, nat>, y: map<string, nat>)
    requires LayoutIndexed(lif, x) && LayoutIndexed(lif, y)
    ensures x == y
  {
    forall k | k in x ensures k in y && x[k] == y[k] {
    }
    forall k | k in y ensures k in x {
    }
    assert x.Keys == y.Keys;
  }

  /** A document leaves no freedom to its indices: two that agree have the same positions,
      and the same lists up to order, a missing key read as empty. */
  lemma AgreeingIndicesEqual(lif: LIF, x: Indices, y: Indices)
    requires Agrees(lif, x) && Agrees(lif, y)
    ensures x.layout == y.layout && x.node == y.node && x.edge == y.edge && x.station == y.station
    ensures x.outbound.Keys == y.outbound.Keys && x.inbound.Keys == y.inbound.Keys
    ensures forall n :: multiset(ListAt(x.outbound, n)) == multiset(ListAt(y.outbound, n))
                     && multiset(ListAt(x.inbound, n)) == multiset(ListAt(y.inbound, n))
                     && multiset(ListAt(x.stations, n)) == multiset(ListAt(y.stations, n))
  {
    OpenAgreement(lif, x);
    OpenAgreement(lif, y);
    LayoutIndexUnique(lif, x.layout, y.layout);
    IndexIsUnique(NodeTable(lif), NodeId, x.node, y.node);
    IndexIsUnique(EdgeTable(lif), EdgeId, x.edge, y.edge);
    IndexIsUnique(StationTable(lif), StationId, x.station, y.station);
    forall n ensures multiset(ListAt(x.outbound, n)) == multiset(ListAt(y.outbound, n))
                  && multiset(ListAt(x.inbound, n)) == multiset(ListAt(y.inbound, n))
                  && multiset(ListAt(x.stations, n)) == multiset(ListAt(y.stations, n)) {
      ListsMatchScan(lif, x, n);
      ListsMatchScan(lif, y, n);
    }
  }

  /** Maintained indices are the rebuilt ones: positions exactly, lists as multisets with a missing key read as empty. */
  lemma MaintainedEqualsRebuilt(lif: LIF, x: Indices)
    requires Agrees(lif, x)
    ensures var y := Rebuilt(lif);
            && x.layout == y.layout && x.node == y.node && x.edge == y.edge && x.station == y.station
            && x.outbound.Keys == y.outbound.Keys && x.inbound.Keys == y.inbound.Keys
            && forall n :: multiset(ListAt(x.outbound, n)) == multiset(ListAt(y.outbound, n))
                        && multiset(ListAt(x.inbound, n)) == multiset(ListAt(y.inbound, n))
                        && multiset(ListAt(x.stations, n)) == multiset(ListAt(y.stations, n))
  {
    AgreementIsStructure(lif, x);
    RebuiltAgrees(lif);
    AgreeingIndicesEqual(lif, x, Rebuilt(lif));
  }

  // ---- Conservation ----

  lemma {:induction false} SingletonTargets(entries: seq<Entry<string, string>>)
    requires forall i :: 0 <= i < |entries| ==> |entries[i].targets| == 1
    ensures TotalTargets(entries) == |entries|
  {
    if entries != [] {
      var init := entries[..|entries| - 1];
      forall i | 0 <= i < |init| ensures |init[i].targets| == 1 {
        assert init[i] == entries[i];
      }
      SingletonTargets(init);
    }
  }

  lemma {:induction false} IndexCountsRecords<T>(t: Table<T>, id: T -> string, index: map<string, Pos>)
    requires Indexes(t, id, index)
    ensures |index| == |Flatten(t)|
  {
    var ids := MapSeq(id, Flatten(t));
    FlattenDistinct(t, id);
    IndexKeys(t, id, index);
    forall k ensures k in ids <==> k in index {
      if k in ids {
        var i :| 0 <= i < |ids| && ids[i] == k;
        FlattenMembers(t, Flatten(t)[i]);
      }
      if k in index {
        FlattenMembers(t, Get(t, index[k]));
        var i :| 0 <= i < |Flatten(t)| && Flatten(t)[i] == Get(t, index[k]);
        assert ids[i] == k;
      }
    }
    assert (set k | k in ids) == index.Keys;
    DistinctSize(ids);
  }

  lemma CountsMatch(lif: LIF, x: Indices)
    requires Agrees(lif, x)
    ensures |x.node| == |Flatten(NodeTable(lif))| && |x.edge| == |Flatten(EdgeTable(lif))|
    ensures |x.station| == |Flatten(StationTable(lif))|
    ensures x.node == map[] && x.edge == map[] && x.station == map[] <==>
              forall i :: 0 <= i < |lif.layouts| ==>
                lif.layouts[i].nodes == [] && lif.layouts[i].edges == [] && lif.layouts[i].stations == []
  {
    OpenAgreement(lif, x);
    IndexCountsRecords(NodeTable(lif), NodeId, x.node);
    IndexCountsRecords(EdgeTable(lif), EdgeId, x.edge);
    IndexCountsRecords(StationTable(lif), StationId, x.station);
    AllRowsEmpty(lif);
    SizeZero(x.node);
    SizeZero(x.edge);
    SizeZero(x.station);
  }

  lemma AllRowsEmpty(lif: LIF)
    ensures Flatten(NodeTable(lif)) == [] && Flatten(EdgeTable(lif)) == [] && Flatten(StationTable(lif)) == [] <==>
              forall i :: 0 <= i < |lif.layouts| ==>
                lif.layouts[i].nodes == [] && lif.layouts[i].edges == [] && lif.layouts[i].stations == []
  {
    FlattenEmpty(NodeTable(lif));
    FlattenEmpty(EdgeTable(lif));
    FlattenEmpty(StationTable(lif));
    forall i | 0 <= i < |lif.layouts|
      ensures NodeTable(lif)[i] == lif.layouts[i].nodes && EdgeTable(lif)[i] == lif.layouts[i].edges
           && StationTable(lif)[i] == lif.layouts[i].stations
    {
    }
  }

  lemma SizeZero<K, V>(m: map<K, V>)
    ensures |m| == 0 <==> m == map[]
  {
  }

  lemma {:induction false} DistinctSize(s: seq<string>)
    requires Distinct(s)
    ensures |set k | k in s| == |s|
  {
    if s != [] {
      DistinctSize(s[1..]);
      assert (set k | k in s) == (set k | k in s[1..]) + {s[0]};
    }
  }

  lemma OutboundConserved(lif: LIF, x: Indices)
    requires Agrees(lif, x)
    ensures SumLengths(x.outbound, MapSeq(NodeId, Flatten(NodeTable(lif)))) == |x.edge|
  {
    OpenAgreement(lif, x);
    var nodes, starts := MapSeq(NodeId, Flatten(NodeTable(lif))), MapSeq(StartEntry, Flatten(EdgeTable(lif)));
    NodesCover(lif, x);
    EdgesKeyed(EdgeTable(lif), x.edge);
    SumLengthsTotal(x.outbound, starts, StartRefs(Rows(EdgeTable(lif), x.edge)), nodes);
    SumScansTotal(starts, nodes);
    SingletonTargets(starts);
    IndexCountsRecords(EdgeTable(lif), EdgeId, x.edge);
  }

  lemma InboundConserved(lif: LIF, x: Indices)
    requires Agrees(lif, x)
    ensures SumLengths(x.inbound, MapSeq(NodeId, Flatten(NodeTable(lif)))) == |x.edge|
  {
    OpenAgreement(lif, x);
    var nodes, ends := MapSeq(NodeId, Flatten(NodeTable(lif))), MapSeq(EndEntry, Flatten(EdgeTable(lif)));
    NodesCover(lif, x);
    EdgesKeyed(EdgeTable(lif), x.edge);
    SumLengthsTotal(x.inbound, ends, EndRefs(Rows(EdgeTable(lif), x.edge)), nodes);
    SumScansTotal(ends, nodes);
    SingletonTargets(ends);
    IndexCountsRecords(EdgeTable(lif), EdgeId, x.edge);
  }

  lemma StationListsConserved(lif: LIF, x: Indices)
    requires Agrees(lif, x)
    ensures var nodes := MapSeq(NodeId, Flatten(NodeTable(lif)));
            SumLengths(x.stations, nodes) == TotalTargets(MapSeq(StationEntry, Flatten(StationTable(lif))))
  {
    OpenAgreement(lif, x);
    var nodes := MapSeq(NodeId, Flatten(NodeTable(lif)));
    var refs := MapSeq(StationEntry, Flatten(StationTable(lif)));
    NodesCover(lif, x);
    StationsKeyed(StationTable(lif), x.station);
    SumLengthsTotal(x.stations, refs, StationRefs(Rows(StationTable(lif), x.station)), nodes);
    SumScansTotal(refs, nodes);
  }

  /** Summed over all nodes, outbound lists and inbound lists each count every edge once,
      and station lists count every station reference once. */
  lemma ListLengthsConserved(lif: LIF, x: Indices)
    requires Agrees(lif, x)
    ensures var nodes := MapSeq(NodeId, Flatten(NodeTable(lif)));
            && SumLengths(x.outbound, nodes) == |x.edge|
            && SumLengths(x.inbound, nodes) == |x.edge|
            && SumLengths(x.stations, nodes) == TotalTargets(MapSeq(StationEntry, Flatten(StationTable(lif))))
  {
    OutboundConserved(lif, x);
    InboundConserved(lif, x);
    StationListsConserved(lif, x);
  }

  lemma NodesListed(lif: LIF)
    requires UniqueIds(NodeTable(lif), NodeId)
    ensures Distinct(MapSeq(NodeId, Flatten(NodeTable(lif))))
    ensures forall n :: HasNodeId(lif, n) ==> n in MapSeq(NodeId, Flatten(NodeTable(lif)))
  {
    var nodes := MapSeq(NodeId, Flatten(NodeTable(lif)));
    FlattenDistinct(NodeTable(lif), NodeId);
    forall n | HasNodeId(lif, n) ensures n in nodes {
      var p :| Has(NodeTable(lif), p) && NodeId(Get(NodeTable(lif), p)) == n;
      FlattenMembers(NodeTable(lif), Get(NodeTable(lif), p));
      var i :| 0 <= i < |Flatten(NodeTable(lif))| && Flatten(NodeTable(lif))[i] == Get(NodeTable(lif), p);
      assert nodes[i] == n;
    }
  }

  lemma EdgeEndsResolve(lif: LIF, x: Indices, e: Edge)
    requires Agrees(lif, x) && e in Flatten(EdgeTable(lif))
    ensures HasNodeId(lif, e.startNodeId) && HasNodeId(lif, e.endNodeId)
  {
    OpenAgreement(lif, x);
    FlattenMembers(EdgeTable(lif), e);
    var p :| Has(EdgeTable(lif), p) && Get(EdgeTable(lif), p) == e;
    assert x.edge[EdgeId(e)] == p;
    Guards(lif, x);
    EndsResolve(EdgeTable(lif), x.node, x.edge, x.outbound, x.inbound, EdgeId(e));
  }

  lemma StationRefsResolve(lif: LIF, x: Indices, s: Station, n: string)
    requires Agrees(lif, x) && s in Flatten(StationTable(lif)) && n in s.interactionNodeIds
    ensures HasNodeId(lif, n)
  {
    OpenAgreement(lif, x);
    FlattenMembers(StationTable(lif), s);
    var p :| Has(StationTable(lif), p) && Get(StationTable(lif), p) == s;
    assert x.station[StationId(s)] == p;
    Guards(lif, x);
    StationTargetsResolve(StationTable(lif), x.node, x.station, x.stations, StationId(s), n);
  }

  lemma NodesCover(lif: LIF, x: Indices)
    requires Agrees(lif, x)
    ensures var nodes := MapSeq(NodeId, Flatten(NodeTable(lif)));
            && Distinct(nodes)
            && (forall e, n :: e in Flatten(EdgeTable(lif)) && n in StartEntry(e).targets ==> n in nodes)
            && (forall e, n :: e in Flatten(EdgeTable(lif)) && n in EndEntry(e).targets ==> n in nodes)
            && (forall s, n :: s in Flatten(StationTable(lif)) && n in StationEntry(s).targets ==> n in nodes)
  {
    OpenAgreement(lif, x);
    IndexKeys(NodeTable(lif), NodeId, x.node);
    NodesListed(lif);
    forall e | e in Flatten(EdgeTable(lif)) ensures HasNodeId(lif, e.startNodeId) && HasNodeId(lif, e.endNodeId) {
      EdgeEndsResolve(lif, x, e);
    }
    forall s, n | s in Flatten(StationTable(lif)) && n in s.interactionNodeIds ensures HasNodeId(lif, n) {
      StationRefsResolve(lif, x, s, n);
    }
  }

  // ---- Reading adjacency ----

  /** Edge `e` exists and starts at `n`. */
  ghost predicate EdgeFrom(lif: LIF, e: string, n: string) {
    exists p :: Has(EdgeTable(lif), p) && Get(EdgeTable(lif), p).edgeId == e && Get(EdgeTable(lif), p).startNodeId == n
  }

  /** Edge `e` exists and ends at `n`. */
  ghost predicate EdgeTo(lif: LIF, e: string, n: string) {
    exists p :: Has(EdgeTable(lif), p) && Get(EdgeTable(lif), p).edgeId == e && Get(EdgeTable(lif), p).endNodeId == n
  }

  lemma EdgeEndpoint(lif: LIF, x: Indices, e: string, n: string)
    requires Agrees(lif, x)
    ensures EdgeFrom(lif, e, n) <==> e in x.edge && e in Rows(EdgeTable(lif), x.edge) && Rows(EdgeTable(lif), x.edge)[e].startNodeId == n
    ensures EdgeTo(lif, e, n) <==> e in x.edge && e in Rows(EdgeTable(lif), x.edge) && Rows(EdgeTable(lif), x.edge)[e].endNodeId == n
    ensures e in x.edge <==> HasEdgeId(lif, e)
  {
    OpenAgreement(lif, x);
    var t := EdgeTable(lif);
    IndexKeys(t, EdgeId, x.edge);
    forall p | Has(t, p) && Get(t, p).edgeId == e ensures e in x.edge && x.edge[e] == p {
      assert EdgeId(Get(t, p)) == e;
    }
    if e in x.edge {
      InSlot(t, EdgeId, x.edge, e);
    }
  }

  /** The adjacency lists of `n` hold exactly the edges from and to `n`, each once. */
  lemma ListedEdges(lif: LIF, x: Indices, n: string)
    requires Agrees(lif, x)
    ensures forall e :: e in ListAt(x.outbound, n) <==> EdgeFrom(lif, e, n)
    ensures forall e :: e in ListAt(x.inbound, n) <==> EdgeTo(lif, e, n)
    ensures Distinct(ListAt(x.outbound, n)) && Distinct(ListAt(x.inbound, n))
  {
    OpenAgreement(lif, x);
    forall e
      ensures e in ListAt(x.outbound, n) <==> EdgeFrom(lif, e, n)
      ensures e in ListAt(x.inbound, n) <==> EdgeTo(lif, e, n)
      ensures multiset(ListAt(x.outbound, n))[e] <= 1 && multiset(ListAt(x.inbound, n))[e] <= 1
    {
      OutboundLists(EdgeTable(lif), x.node, x.edge, x.outbound, x.inbound, n, e);
      EdgeEndpoint(lif, x, e, n);
    }
    CountDistinct(ListAt(x.outbound, n));
    CountDistinct(ListAt(x.inbound, n));
  }

  // ---- Progress of a rebuild ----

  /** How far a rebuild has come: layouts before `li`, whether layout `li` is named, and part of its records. */
  datatype Progress = Progress(li: nat, named: bool, nodes: nat, edges: nat, stations: nat)

  /** All of layout `li` scanned. */
  ghost function LayoutDone(l: Layout, li: nat): Progress {
    Progress(li, true, |l.nodes|, |l.edges|, |l.stations|)
  }

  datatype Part = Structure | LayoutSlots | NodeSlots | EdgeSlots | StationSlots | Starts | Ends | Stations | Keys

  ghost predicate Within(lif: LIF, at: Progress) {
    && at.li <= |lif.layouts|
    && (at.li == |lif.layouts| ==> !at.named)
    && (at.li < |lif.layouts| ==>
          var l := lif.layouts[at.li];
          at.nodes <= |l.nodes| && at.edges <= |l.edges| && at.stations <= |l.stations|)
  }

  ghost function NodesSoFar(lif: LIF, at: Progress): Table<Node>
    requires Within(lif, at)
  {
    Prefix(NodeTable(lif), at.li, at.nodes)
  }

  ghost function EdgesSoFar(lif: LIF, at: Progress): Table<Edge>
    requires Within(lif, at)
  {
    Prefix(EdgeTable(lif), at.li, at.edges)
  }

  ghost function StationsSoFar(lif: LIF, at: Progress): Table<Station>
    requires Within(lif, at)
  {
    Prefix(StationTable(lif), at.li, at.stations)
  }

  ghost predicate KeysAreNodes(lif: LIF, keys: set<string>) {
    forall k :: k in keys ==> HasNodeId(lif, k)
  }

  ghost predicate ListsStarts(es: seq<Edge>, outbound: Adjacency) {
    forall n :: ListAt(outbound, n) == OutScan(es, n)
  }

  ghost predicate ListsEnds(es: seq<Edge>, inbound: Adjacency) {
    forall n :: ListAt(inbound, n) == InScan(es, n)
  }

  ghost predicate ListsStations(ss: seq<Station>, stations: Adjacency) {
    forall n :: ListAt(stations, n) == StationScan(ss, n)
  }

  ghost predicate BuiltOn(part: Part, lif: LIF, x: Indices, at: Progress) {
    Within(lif, at) &&
    match part
    case Structure => StructureOk(lif)
    case LayoutSlots => LayoutsIndexedUpTo(lif, x.layout, at.li + if at.named then 1 else 0)
    case NodeSlots => Indexes(NodesSoFar(lif, at), NodeId, x.node)
    case EdgeSlots => Indexes(EdgesSoFar(lif, at), EdgeId, x.edge)
    case StationSlots => Indexes(StationsSoFar(lif, at), StationId, x.station)
    case Starts => ListsStarts(Flatten(EdgesSoFar(lif, at)), x.outbound)
    case Ends => ListsEnds(Flatten(EdgesSoFar(lif, at)), x.inbound)
    case Stations => ListsStations(Flatten(StationsSoFar(lif, at)), x.stations)
    case Keys =>
      && x.node.Keys <= x.outbound.Keys && x.node.Keys <= x.inbound.Keys
      && KeysAreNodes(lif, x.outbound.Keys) && KeysAreNodes(lif, x.inbound.Keys) && KeysAreNodes(lif, x.stations.Keys)
  }

  /** The part of the document scanned so far is indexed exactly. */
  ghost predicate Built(lif: LIF, x: Indices, at: Progress) {
    forall part :: BuiltOn(part, lif, x, at)
  }

  lemma BuildStart(lif: LIF, x: Indices)
    requires StructureOk(lif) && x == Indices(map[], map[], map[], map[], map[], map[], map[])
    ensures Built(lif, x, Progress(0, false, 0, 0, 0))
  {
    PrefixNothing(NodeTable(lif), NodeId);
    PrefixNothing(EdgeTable(lif), EdgeId);
    PrefixNothing(StationTable(lif), StationId);
  }

  lemma BuildLayoutSlot(lif: LIF, x: Indices, li: nat)
    requires li < |lif.layouts| && Built(lif, x, Progress(li, false, 0, 0, 0))
    ensures BuiltOn(LayoutSlots, lif, x.(layout := Emplace(x.layout, lif.layouts[li].layoutId, li)), Progress(li, true, 0, 0, 0))
  {
    var at := Progress(li, false, 0, 0, 0);
    assert BuiltOn(Structure, lif, x, at) && BuiltOn(LayoutSlots, lif, x, at);
  }

  lemma BuildLayoutRest(lif: LIF, x: Indices, li: nat, part: Part)
    requires li < |lif.layouts| && part != LayoutSlots && BuiltOn(part, lif, x, Progress(li, false, 0, 0, 0))
    ensures BuiltOn(part, lif, x.(layout := Emplace(x.layout, lif.layouts[li].layoutId, li)), Progress(li, true, 0, 0, 0))
  {
  }

  lemma BuildLayout(lif: LIF, x: Indices, li: nat)
    requires li < |lif.layouts| && Built(lif, x, Progress(li, false, 0, 0, 0))
    ensures Built(lif, x.(layout := Emplace(x.layout, lif.layouts[li].layoutId, li)), Progress(li, true, 0, 0, 0))
  {
    BuildLayoutSlot(lif, x, li);
    forall part | part != LayoutSlots
      ensures BuiltOn(part, lif, x.(layout := Emplace(x.layout, lif.layouts[li].layoutId, li)), Progress(li, true, 0, 0, 0))
    {
      BuildLayoutRest(lif, x, li, part);
    }
  }

  lemma AllParts(lif: LIF, x: Indices, at: Progress)
    requires BuiltOn(Structure, lif, x, at) && BuiltOn(LayoutSlots, lif, x, at) && BuiltOn(Keys, lif, x, at)
    requires BuiltOn(NodeSlots, lif, x, at) && BuiltOn(EdgeSlots, lif, x, at) && BuiltOn(StationSlots, lif, x, at)
    requires BuiltOn(Starts, lif, x, at) && BuiltOn(Ends, lif, x, at) && BuiltOn(Stations, lif, x, at)
    ensures Built(lif, x, at)
  {
    forall part ensures BuiltOn(part, lif, x, at) {
      match part
      case Structure =>
      case LayoutSlots =>
      case NodeSlots =>
      case EdgeSlots =>
      case StationSlots =>
      case Starts =>
      case Ends =>
      case Stations =>
      case Keys =>
    }
  }

  // One more node.

  ghost predicate NodeNext(lif: LIF, x: Indices, at: Progress, x': Indices, at': Progress) {
    && Within(lif, at) && at.li < |lif.layouts| && at.nodes < |lif.layouts[at.li].nodes|
    && at' == at.(nodes := at.nodes + 1)
    && var id := lif.layouts[at.li].nodes[at.nodes].nodeId;
       x' == x.(node := Emplace(x.node, id, Pos(at.li, at.nodes)),
                outbound := x.outbound[id := ListAt(x.outbound, id)], inbound := x.inbound[id := ListAt(x.inbound, id)])
  }

  lemma BuildNode(lif: LIF, x: Indices, at: Progress)
    requires Built(lif, x, at)
    requires Within(lif, at) && at.li < |lif.layouts| && at.nodes < |lif.layouts[at.li].nodes|
    ensures var id := lif.layouts[at.li].nodes[at.nodes].nodeId;
            Built(lif, x.(node := Emplace(x.node, id, Pos(at.li, at.nodes)),
                outbound := x.outbound[id := ListAt(x.outbound, id)], inbound := x.inbound[id := ListAt(x.inbound, id)]),
              at.(nodes := at.nodes + 1))
  {
    var id := lif.layouts[at.li].nodes[at.nodes].nodeId;
    var x' := x.(node := Emplace(x.node, id, Pos(at.li, at.nodes)),
      outbound := x.outbound[id := ListAt(x.outbound, id)], inbound := x.inbound[id := ListAt(x.inbound, id)]);
    NodePlaced(lif, x, at, x', at.(nodes := at.nodes + 1));
  }

  lemma NodePlaced(lif: LIF, x: Indices, at: Progress, x': Indices, at': Progress)
    requires Built(lif, x, at) && NodeNext(lif, x, at, x', at')
    ensures Built(lif, x', at')
  {
    NodeSlotStep(lif, x, at, x', at');
    NodeListsStep(lif, x, at, x', at');
    NodeKeysStep(lif, x, at, x', at');
    NodeRestStep(lif, x, at, x', at');
    AllParts(lif, x', at');
  }

  lemma NodeSlotStep(lif: LIF, x: Indices, at: Progress, x': Indices, at': Progress)
    requires Built(lif, x, at) && NodeNext(lif, x, at, x', at')
    ensures BuiltOn(NodeSlots, lif, x', at')
  {
    assert BuiltOn(Structure, lif, x, at) && BuiltOn(NodeSlots, lif, x, at);
    IndexOneMore(NodeTable(lif), NodeId, x.node, at.li, at.nodes);
  }

  lemma NodeListsStep(lif: LIF, x: Indices, at: Progress, x': Indices, at': Progress)
    requires Built(lif, x, at) && NodeNext(lif, x, at, x', at')
    ensures BuiltOn(Starts, lif, x', at') && BuiltOn(Ends, lif, x', at')
  {
    assert BuiltOn(Starts, lif, x, at) && BuiltOn(Ends, lif, x, at);
    var id := lif.layouts[at.li].nodes[at.nodes].nodeId;
    SameLists(x.outbound, id);
    SameLists(x.inbound, id);
  }

  lemma NodeKeysStep(lif: LIF, x: Indices, at: Progress, x': Indices, at': Progress)
    requires Built(lif, x, at) && NodeNext(lif, x, at, x', at')
    ensures BuiltOn(Keys, lif, x', at')
  {
    assert BuiltOn(Keys, lif, x, at);
    var id := lif.layouts[at.li].nodes[at.nodes].nodeId;
    assert Has(NodeTable(lif), Pos(at.li, at.nodes)) && NodeId(Get(NodeTable(lif), Pos(at.li, at.nodes))) == id;
    assert HasNodeId(lif, id);
  }

  lemma NodeRestStep(lif: LIF, x: Indices, at: Progress, x': Indices, at': Progress)
    requires Built(lif, x, at) && NodeNext(lif, x, at, x', at')
    ensures BuiltOn(Structure, lif, x', at') && BuiltOn(LayoutSlots, lif, x', at')
    ensures BuiltOn(EdgeSlots, lif, x', at') && BuiltOn(StationSlots, lif, x', at') && BuiltOn(Stations, lif, x', at')
  {
    assert BuiltOn(Structure, lif, x, at) && BuiltOn(LayoutSlots, lif, x, at);
    assert BuiltOn(EdgeSlots, lif, x, at) && BuiltOn(StationSlots, lif, x, at) && BuiltOn(Stations, lif, x, at);
  }

  lemma SameLists(rev: Adjacency, id: string)
    ensures forall n :: ListAt(rev[id := ListAt(rev, id)], n) == ListAt(rev, n)
  {
  }

  // One more edge.

  ghost predicate EdgeNext(lif: LIF, x: Indices, at: Progress, x': Indices, at': Progress) {
    && Within(lif, at) && at.li < |lif.layouts| && at.edges < |lif.layouts[at.li].edges|
    && at' == at.(edges := at.edges + 1)
    && var e := lif.layouts[at.li].edges[at.edges];
       x' == x.(edge := Emplace(x.edge, e.edgeId, Pos(at.li, at.edges)),
                outbound := Push(x.outbound, e.startNodeId, e.edgeId), inbound := Push(x.inbound, e.endNodeId, e.edgeId))
  }

  lemma BuildEdge(lif: LIF, x: Indices, at: Progress)
    requires Built(lif, x, at)
    requires Within(lif, at) && at.li < |lif.layouts| && at.edges < |lif.layouts[at.li].edges|
    ensures var e := lif.layouts[at.li].edges[at.edges];
            Built(lif, x.(edge := Emplace(x.edge, e.edgeId, Pos(at.li, at.edges)),
                outbound := Push(x.outbound, e.startNodeId, e.edgeId), inbound := Push(x.inbound, e.endNodeId, e.edgeId)),
              at.(edges := at.edges + 1))
  {
    var e := lif.layouts[at.li].edges[at.edges];
    var x' := x.(edge := Emplace(x.edge, e.edgeId, Pos(at.li, at.edges)),
      outbound := Push(x.outbound, e.startNodeId, e.edgeId), inbound := Push(x.inbound, e.endNodeId, e.edgeId));
    EdgePlaced(lif, x, at, x', at.(edges := at.edges + 1));
  }

  lemma EdgePlaced(lif: LIF, x: Indices, at: Progress, x': Indices, at': Progress)
    requires Built(lif, x, at) && EdgeNext(lif, x, at, x', at')
    ensures Built(lif, x', at')
  {
    EdgeSlotStep(lif, x, at, x', at');
    EdgeStartsStep(lif, x, at, x', at');
    EdgeEndsStep(lif, x, at, x', at');
    EdgeKeysStep(lif, x, at, x', at');
    EdgeRestStep(lif, x, at, x', at');
    AllParts(lif, x', at');
  }

  lemma EdgeSlotStep(lif: LIF, x: Indices, at: Progress, x': Indices, at': Progress)
    requires Built(lif, x, at) && EdgeNext(lif, x, at, x', at')
    ensures BuiltOn(EdgeSlots, lif, x', at')
  {
    assert BuiltOn(Structure, lif, x, at) && BuiltOn(EdgeSlots, lif, x, at);
    IndexOneMore(EdgeTable(lif), EdgeId, x.edge, at.li, at.edges);
  }

  lemma EdgeStartsStep(lif: LIF, x: Indices, at: Progress, x': Indices, at': Progress)
    requires Built(lif, x, at) && EdgeNext(lif, x, at, x', at')
    ensures BuiltOn(Starts, lif, x', at')
  {
    var t, li, n := EdgeTable(lif), at.li, at.edges;
    assert ListsStarts(Flatten(Prefix(t, li, n)), x.outbound) by {
      assert BuiltOn(Starts, lif, x, at);
    }
    PrefixListsStart(t, li, n, x.outbound, x'.outbound);
    assert EdgesSoFar(lif, at') == Prefix(t, li, n + 1);
  }

  lemma EdgeEndsStep(lif: LIF, x: Indices, at: Progress, x': Indices, at': Progress)
    requires Built(lif, x, at) && EdgeNext(lif, x, at, x', at')
    ensures BuiltOn(Ends, lif, x', at')
  {
    var t, li, n := EdgeTable(lif), at.li, at.edges;
    assert ListsEnds(Flatten(Prefix(t, li, n)), x.inbound) by {
      assert BuiltOn(Ends, lif, x, at);
    }
    PrefixListsEnd(t, li, n, x.inbound, x'.inbound);
    assert EdgesSoFar(lif, at') == Prefix(t, li, n + 1);
  }

  lemma PrefixListsStart(t: Table<Edge>, li: nat, n: nat, outbound: Adjacency, outbound': Adjacency)
    requires li < |t| && n < |t[li]| && ListsStarts(Flatten(Prefix(t, li, n)), outbound)
    requires outbound' == Push(outbound, t[li][n].startNodeId, t[li][n].edgeId)
    ensures ListsStarts(Flatten(Prefix(t, li, n + 1)), outbound')
  {
    PrefixOneMore(t, li, n);
    ListsStartsStep(Flatten(Prefix(t, li, n)), t[li][n], outbound);
  }

  lemma PrefixListsEnd(t: Table<Edge>, li: nat, n: nat, inbound: Adjacency, inbound': Adjacency)
    requires li < |t| && n < |t[li]| && ListsEnds(Flatten(Prefix(t, li, n)), inbound)
    requires inbound' == Push(inbound, t[li][n].endNodeId, t[li][n].edgeId)
    ensures ListsEnds(Flatten(Prefix(t, li, n + 1)), inbound')
  {
    PrefixOneMore(t, li, n);
    ListsEndsStep(Flatten(Prefix(t, li, n)), t[li][n], inbound);
  }

  lemma EdgeKeysStep(lif: LIF, x: Indices, at: Progress, x': Indices, at': Progress)
    requires Built(lif, x, at) && EdgeNext(lif, x, at, x', at')
    ensures BuiltOn(Keys, lif, x', at')
  {
    assert BuiltOn(Structure, lif, x, at) && BuiltOn(Keys, lif, x, at);
    EndpointsExist(lif, at.li, at.edges);
  }

  lemma EdgeRestStep(lif: LIF, x: Indices, at: Progress, x': Indices, at': Progress)
    requires Built(lif, x, at) && EdgeNext(lif, x, at, x', at')
    ensures BuiltOn(Structure, lif, x', at') && BuiltOn(LayoutSlots, lif, x', at')
    ensures BuiltOn(NodeSlots, lif, x', at') && BuiltOn(StationSlots, lif, x', at') && BuiltOn(Stations, lif, x', at')
  {
    assert BuiltOn(Structure, lif, x, at) && BuiltOn(LayoutSlots, lif, x, at);
    assert BuiltOn(NodeSlots, lif, x, at) && BuiltOn(StationSlots, lif, x, at) && BuiltOn(Stations, lif, x, at);
  }

  // One more station.

  ghost predicate StationNext(lif: LIF, x: Indices, at: Progress, x': Indices, at': Progress) {
    && Within(lif, at) && at.li < |lif.layouts| && at.stations < |lif.layouts[at.li].stations|
    && at' == at.(stations := at.stations + 1)
    && var s := lif.layouts[at.li].stations[at.stations];
       x' == x.(station := Emplace(x.station, s.stationId, Pos(at.li, at.stations)),
                stations := PushAll(x.stations, s.interactionNodeIds, s.stationId))
  }

  lemma BuildStation(lif: LIF, x: Indices, at: Progress)
    requires Built(lif, x, at)
    requires Within(lif, at) && at.li < |lif.layouts| && at.stations < |lif.layouts[at.li].stations|
    ensures var s := lif.layouts[at.li].stations[at.stations];
            Built(lif, x.(station := Emplace(x.station, s.stationId, Pos(at.li, at.stations)),
                stations := PushAll(x.stations, s.interactionNodeIds, s.stationId)),
              at.(stations := at.stations + 1))
  {
    var s := lif.layouts[at.li].stations[at.stations];
    var x' := x.(station := Emplace(x.station, s.stationId, Pos(at.li, at.stations)),
      stations := PushAll(x.stations, s.interactionNodeIds, s.stationId));
    StationPlaced(lif, x, at, x', at.(stations := at.stations + 1));
  }

  lemma StationPlaced(lif: LIF, x: Indices, at: Progress, x': Indices, at': Progress)
    requires Built(lif, x, at) && StationNext(lif, x, at, x', at')
    ensures Built(lif, x', at')
  {
    StationSlotStep(lif, x, at, x', at');
    StationListsStep(lif, x, at, x', at');
    StationKeysStep(lif, x, at, x', at');
    StationRestStep(lif, x, at, x', at');
    AllParts(lif, x', at');
  }

  lemma StationSlotStep(lif: LIF, x: Indices, at: Progress, x': Indices, at': Progress)
    requires Built(lif, x, at) && StationNext(lif, x, at, x', at')
    ensures BuiltOn(StationSlots, lif, x', at')
  {
    assert BuiltOn(Structure, lif, x, at) && BuiltOn(StationSlots, lif, x, at);
    IndexOneMore(StationTable(lif), StationId, x.station, at.li, at.stations);
  }

  lemma StationListsStep(lif: LIF, x: Indices, at: Progress, x': Indices, at': Progress)
    requires Built(lif, x, at) && StationNext(lif, x, at, x', at')
    ensures BuiltOn(Stations, lif, x', at')
  {
    var t, li, n := StationTable(lif), at.li, at.stations;
    assert ListsStations(Flatten(Prefix(t, li, n)), x.stations) by {
      assert BuiltOn(Stations, lif, x, at);
    }
    PrefixListsStation(t, li, n, x.stations, x'.stations);
    assert StationsSoFar(lif, at') == Prefix(t, li, n + 1);
  }

  lemma PrefixListsStation(t: Table<Station>, li: nat, n: nat, stations: Adjacency, stations': Adjacency)
    requires li < |t| && n < |t[li]| && ListsStations(Flatten(Prefix(t, li, n)), stations)
    requires stations' == PushAll(stations, t[li][n].interactionNodeIds, t[li][n].stationId)
    ensures ListsStations(Flatten(Prefix(t, li, n + 1)), stations')
  {
    PrefixOneMore(t, li, n);
    ListsStationsStep(Flatten(Prefix(t, li, n)), t[li][n], stations);
  }

  lemma StationKeysStep(lif: LIF, x: Indices, at: Progress, x': Indices, at': Progress)
    requires Built(lif, x, at) && StationNext(lif, x, at, x', at')
    ensures BuiltOn(Keys, lif, x', at')
  {
    assert BuiltOn(Structure, lif, x, at) && BuiltOn(Keys, lif, x, at);
    var s := lif.layouts[at.li].stations[at.stations];
    ReferencesExist(lif, at.li, at.stations);
    PushAllListed(x.stations, s.interactionNodeIds, s.stationId, s.stationId, s.stationId);
  }

  lemma StationRestStep(lif: LIF, x: Indices, at: Progress, x': Indices, at': Progress)
    requires Built(lif, x, at) && StationNext(lif, x, at, x', at')
    ensures BuiltOn(Structure, lif, x', at') && BuiltOn(LayoutSlots, lif, x', at')
    ensures BuiltOn(NodeSlots, lif, x', at') && BuiltOn(EdgeSlots, lif, x', at')
    ensures BuiltOn(Starts, lif, x', at') && BuiltOn(Ends, lif, x', at')
  {
    assert BuiltOn(Structure, lif, x, at) && BuiltOn(LayoutSlots, lif, x, at);
    assert BuiltOn(NodeSlots, lif, x, at) && BuiltOn(EdgeSlots, lif, x, at);
    assert BuiltOn(Starts, lif, x, at) && BuiltOn(Ends, lif, x, at);
  }

  lemma NextSlots(lif: LIF, x: Indices, at: Progress, at': Progress)
    requires Built(lif, x, at) && at.li < |lif.layouts| && at == LayoutDone(lif.layouts[at.li], at.li)
    requires at' == Progress(at.li + 1, false, 0, 0, 0)
    ensures BuiltOn(NodeSlots, lif, x, at') && BuiltOn(EdgeSlots, lif, x, at') && BuiltOn(StationSlots, lif, x, at')
  {
    assert BuiltOn(NodeSlots, lif, x, at) && BuiltOn(EdgeSlots, lif, x, at) && BuiltOn(StationSlots, lif, x, at);
    PrefixNextIndex(NodeTable(lif), NodeId, at.li, x.node);
    PrefixNextIndex(EdgeTable(lif), EdgeId, at.li, x.edge);
    PrefixNextIndex(StationTable(lif), StationId, at.li, x.station);
  }

  lemma NextLists(lif: LIF, x: Indices, at: Progress, at': Progress)
    requires Built(lif, x, at) && at.li < |lif.layouts| && at == LayoutDone(lif.layouts[at.li], at.li)
    requires at' == Progress(at.li + 1, false, 0, 0, 0)
    ensures BuiltOn(Starts, lif, x, at') && BuiltOn(Ends, lif, x, at') && BuiltOn(Stations, lif, x, at')
  {
    assert BuiltOn(Starts, lif, x, at) && BuiltOn(Ends, lif, x, at) && BuiltOn(Stations, lif, x, at);
    assert Flatten(EdgesSoFar(lif, at')) == Flatten(EdgesSoFar(lif, at)) by {
      PrefixNextFlatten(EdgeTable(lif), at.li);
    }
    assert Flatten(StationsSoFar(lif, at')) == Flatten(StationsSoFar(lif, at)) by {
      PrefixNextFlatten(StationTable(lif), at.li);
    }
  }

  lemma NextRest(lif: LIF, x: Indices, at: Progress, at': Progress)
    requires Built(lif, x, at) && at.li < |lif.layouts| && at == LayoutDone(lif.layouts[at.li], at.li)
    requires at' == Progress(at.li + 1, false, 0, 0, 0)
    ensures BuiltOn(Structure, lif, x, at') && BuiltOn(LayoutSlots, lif, x, at') && BuiltOn(Keys, lif, x, at')
  {
    assert BuiltOn(Structure, lif, x, at) && BuiltOn(LayoutSlots, lif, x, at) && BuiltOn(Keys, lif, x, at);
  }

  lemma BuildNextLayout(lif: LIF, x: Indices, at: Progress)
    requires Built(lif, x, at) && at.li < |lif.layouts| && at == LayoutDone(lif.layouts[at.li], at.li)
    ensures Built(lif, x, Progress(at.li + 1, false, 0, 0, 0))
  {
    var at' := Progress(at.li + 1, false, 0, 0, 0);
    NextSlots(lif, x, at, at');
    NextLists(lif, x, at, at');
    NextRest(lif, x, at, at');
    AllParts(lif, x, at');
  }

  lemma BuiltSlots(lif: LIF, x: Indices, at: Progress)
    requires at == Progress(|lif.layouts|, false, 0, 0, 0) && Built(lif, x, at)
    ensures ReferencesResolve(lif) && LayoutIndexed(lif, x.layout)
    ensures Indexes(NodeTable(lif), NodeId, x.node) && Indexes(EdgeTable(lif), EdgeId, x.edge)
    ensures Indexes(StationTable(lif), StationId, x.station)
  {
    assert BuiltOn(NodeSlots, lif, x, at) && BuiltOn(EdgeSlots, lif, x, at) && BuiltOn(StationSlots, lif, x, at);
    assert BuiltOn(Structure, lif, x, at) && BuiltOn(LayoutSlots, lif, x, at);
  }

  lemma BuiltLists(lif: LIF, x: Indices, at: Progress)
    requires at == Progress(|lif.layouts|, false, 0, 0, 0) && Built(lif, x, at)
    ensures ListsScan(lif, x)
  {
    assert BuiltOn(Starts, lif, x, at) && BuiltOn(Ends, lif, x, at) && BuiltOn(Stations, lif, x, at);
  }

  lemma BuiltKeys(lif: LIF, x: Indices, at: Progress)
    requires at == Progress(|lif.layouts|, false, 0, 0, 0) && Built(lif, x, at)
    ensures x.outbound.Keys == x.node.Keys && x.inbound.Keys == x.node.Keys && x.stations.Keys <= x.node.Keys
  {
    assert BuiltOn(Keys, lif, x, at) && BuiltOn(NodeSlots, lif, x, at);
    IndexKeys(NodeTable(lif), NodeId, x.node);
  }

  lemma BuildFinish(lif: LIF, x: Indices)
    requires Built(lif, x, Progress(|lif.layouts|, false, 0, 0, 0))
    ensures Agrees(lif, x) && ListsScan(lif, x)
  {
    var at := Progress(|lif.layouts|, false, 0, 0, 0);
    BuiltSlots(lif, x, at);
    BuiltLists(lif, x, at);
    BuiltKeys(lif, x, at);
    ScannedAgrees(lif, x);
  }

  ghost predicate LayoutsIndexedUpTo(lif: LIF, layout: map<string, nat>, n: nat)
    requires n <= |lif.layouts|
  {
    && (forall i :: 0 <= i < n ==> lif.layouts[i].layoutId in layout && layout[lif.layouts[i].layoutId] == i)
    && (forall k :: k in layout ==> layout[k] < n && lif.layouts[layout[k]].layoutId == k)
  }

  lemma ListsStartsStep(es: seq<Edge>, e: Edge, outbound: Adjacency)
    requires ListsStarts(es, outbound)
    ensures ListsStarts(es + [e], Push(outbound, e.startNodeId, e.edgeId))
  {
    forall n ensures ListAt(Push(outbound, e.startNodeId, e.edgeId), n) == OutScan(es + [e], n) {
      OutScanStep(es, e, n);
      assert ListAt(outbound, n) == OutScan(es, n);
    }
  }

  lemma ListsEndsStep(es: seq<Edge>, e: Edge, inbound: Adjacency)
    requires ListsEnds(es, inbound)
    ensures ListsEnds(es + [e], Push(inbound, e.endNodeId, e.edgeId))
  {
    forall n ensures ListAt(Push(inbound, e.endNodeId, e.edgeId), n) == InScan(es + [e], n) {
      InScanStep(es, e, n);
      assert ListAt(inbound, n) == InScan(es, n);
    }
  }

  lemma ListsStationsStep(ss: seq<Station>, s: Station, stations: Adjacency)
    requires ListsStations(ss, stations)
    ensures ListsStations(ss + [s], PushAll(stations, s.interactionNodeIds, s.stationId))
    ensures PushAll(stations, s.interactionNodeIds, s.stationId).Keys == stations.Keys + Elems(s.interactionNodeIds)
  {
    forall n ensures ListAt(PushAll(stations, s.interactionNodeIds, s.stationId), n) == StationScan(ss + [s], n) {
      StationScanStep(ss, s, n);
      PushAllAppends(stations, s.interactionNodeIds, s.stationId, n);
      assert ListAt(stations, n) == StationScan(ss, n);
    }
    PushAllListed(stations, s.interactionNodeIds, s.stationId, s.stationId, s.stationId);
  }

  lemma EndpointsExist(lif: LIF, li: nat, ei: nat)
    requires ReferencesResolve(lif) && li < |lif.layouts| && ei < |lif.layouts[li].edges|
    ensures HasNodeId(lif, lif.layouts[li].edges[ei].startNodeId) && HasNodeId(lif, lif.layouts[li].edges[ei].endNodeId)
  {
    var l := lif.layouts[li];
    assert StartsResolve(l) && TargetsResolve(lif, l);
    assert RowHasNode(l, l.edges[ei].startNodeId);
    var j :| 0 <= j < |l.nodes| && l.nodes[j].nodeId == l.edges[ei].startNodeId;
    assert Has(NodeTable(lif), Pos(li, j)) && NodeId(Get(NodeTable(lif), Pos(li, j))) == l.edges[ei].startNodeId;
  }

  lemma ReferencesExist(lif: LIF, li: nat, si: nat)
    requires ReferencesResolve(lif) && li < |lif.layouts| && si < |lif.layouts[li].stations|
    ensures forall n :: n in lif.layouts[li].stations[si].interactionNodeIds ==> HasNodeId(lif, n)
  {
    assert TargetsResolve(lif, lif.layouts[li]);
  }
}
