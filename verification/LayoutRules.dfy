/** `validate_layout`: the load-time rules a document must meet, checked in one pass over growing seen-sets. */
module LayoutRules {
  import opened Common
  import opened Tables
  import opened Lif

  datatype LayoutError = DuplicateId | DanglingNodeRef | EmptyRequiredArray | TrajectorySizeMismatch | OutOfRange

  const PI := 3.14159265358979323846
  const DEFAULT_TRAJECTORY_DEGREE := 1
  const KNOT_MIN := 0.0
  const KNOT_MAX := 1.0

  // ---- The rules, stated declaratively ----

  ghost predicate AngleOk(theta: Option<real>) {
    theta.Some? ==> -3.14159265358979323846 <= theta.value <= 3.14159265358979323846
  }

  ghost function Degree(t: Trajectory): int {
    if t.degree.Some? then t.degree.value else 1
  }

  ghost predicate Sorted(s: seq<real>) {
    forall i, j :: 0 <= i < j < |s| ==> s[i] <= s[j]
  }

  ghost predicate KnotsOk(s: seq<real>) {
    Sorted(s) && forall k :: 0 <= k < |s| ==> 0.0 <= s[k] <= 1.0
  }

  ghost predicate WeightsOk(s: seq<ControlPoint>) {
    forall c :: 0 <= c < |s| ==> (s[c].weight.Some? ==> s[c].weight.value >= 0.0)
  }

  /** Degree at least one, enough control points, one globally sorted knot vector in [0, 1], no negative weight. */
  ghost predicate TrajectoryInRange(t: Trajectory) {
    && Degree(t) >= 1
    && |t.controlPoints| >= Degree(t) + 1
    && KnotsOk(t.knotVector)
    && WeightsOk(t.controlPoints)
  }

  /** A trajectory of usable degree has exactly control points + degree + 1 knots. */
  ghost predicate TrajectorySized(t: Trajectory) {
    Degree(t) >= 1 ==> |t.knotVector| == |t.controlPoints| + Degree(t) + 1
  }

  ghost predicate NodeInRange(n: Node) {
    forall k :: 0 <= k < |n.vehicleTypeNodeProperties| ==> AngleOk(n.vehicleTypeNodeProperties[k].theta)
  }

  ghost predicate EdgeInRange(e: Edge) {
    forall k :: 0 <= k < |e.vehicleTypeEdgeProperties| ==>
      var t := e.vehicleTypeEdgeProperties[k].trajectory; t.Some? ==> TrajectoryInRange(t.value)
  }

  ghost predicate EdgeSized(e: Edge) {
    forall k :: 0 <= k < |e.vehicleTypeEdgeProperties| ==>
      var t := e.vehicleTypeEdgeProperties[k].trajectory; t.Some? ==> TrajectorySized(t.value)
  }

  ghost predicate StationInRange(s: Station) {
    && (s.stationHeight.Some? ==> s.stationHeight.value >= 0.0)
    && (s.stationPosition.Some? ==> AngleOk(s.stationPosition.value.theta))
  }

  ghost predicate NodeOk(n: Node) {
    n.vehicleTypeNodeProperties != [] && NodeInRange(n)
  }

  ghost predicate EdgeOk(e: Edge) {
    e.vehicleTypeEdgeProperties != [] && EdgeInRange(e) && EdgeSized(e)
  }

  ghost predicate StationOk(s: Station) {
    s.interactionNodeIds != [] && StationInRange(s)
  }

  ghost predicate LayoutFilled(l: Layout) {
    && (forall i :: 0 <= i < |l.nodes| ==> l.nodes[i].vehicleTypeNodeProperties != [])
    && (forall i :: 0 <= i < |l.edges| ==> l.edges[i].vehicleTypeEdgeProperties != [])
    && (forall i :: 0 <= i < |l.stations| ==> l.stations[i].interactionNodeIds != [])
  }

  ghost predicate LayoutInRange(l: Layout) {
    && (forall i :: 0 <= i < |l.nodes| ==> NodeInRange(l.nodes[i]))
    && (forall i :: 0 <= i < |l.edges| ==> EdgeInRange(l.edges[i]))
    && (forall i :: 0 <= i < |l.stations| ==> StationInRange(l.stations[i]))
  }

  ghost predicate LayoutSized(l: Layout) {
    forall i :: 0 <= i < |l.edges| ==> EdgeSized(l.edges[i])
  }

  /** Every record meets the rules that concern it alone. */
  ghost predicate ElementsOk(lif: LIF) {
    && (forall p :: Has(NodeTable(lif), p) ==> NodeOk(Get(NodeTable(lif), p)))
    && (forall p :: Has(EdgeTable(lif), p) ==> EdgeOk(Get(EdgeTable(lif), p)))
    && (forall p :: Has(StationTable(lif), p) ==> StationOk(Get(StationTable(lif), p)))
  }

  /** The whole-document rule set. */
  ghost predicate ValidLif(lif: LIF) {
    lif.layouts != [] && StructureOk(lif) && ElementsOk(lif)
  }

  // ---- The checks ----

  predicate InClosedRange(v: real, lo: real, hi: real) {
    lo <= v <= hi
  }

  method ValidateTrajectory(reported: seq<LayoutError>, t: Trajectory) returns (errors: seq<LayoutError>)
    ensures OutOfRange in errors <==> OutOfRange in reported || !TrajectoryInRange(t)
    ensures TrajectorySizeMismatch in errors <==> TrajectorySizeMismatch in reported || !TrajectorySized(t)
    ensures forall k :: k != OutOfRange && k != TrajectorySizeMismatch ==> (k in errors <==> k in reported)
  {
    errors := reported;
    var degree := if t.degree.Some? then t.degree.value else DEFAULT_TRAJECTORY_DEGREE;
    if degree < 1 {
      errors := errors + [OutOfRange];
      return;
    }
    if |t.controlPoints| < degree + 1 {
      errors := errors + [OutOfRange];
    }
    if |t.knotVector| != |t.controlPoints| + degree + 1 {
      errors := errors + [TrajectorySizeMismatch];
    }
    ghost var before := errors;
    for k := 0 to |t.knotVector|
      invariant OutOfRange in errors <==> OutOfRange in before || !KnotsOk(t.knotVector[..k])
      invariant forall e :: e != OutOfRange ==> (e in errors <==> e in before)
    {
      assert t.knotVector[..k + 1] == t.knotVector[..k] + [t.knotVector[k]];
      KnotsStep(t.knotVector, k);
      if !InClosedRange(t.knotVector[k], KNOT_MIN, KNOT_MAX) {
        errors := errors + [OutOfRange];
      }
      if k > 0 && t.knotVector[k] < t.knotVector[k - 1] {
        errors := errors + [OutOfRange];
      }
    }
    assert t.knotVector[..|t.knotVector|] == t.knotVector;
    before := errors;
    for c := 0 to |t.controlPoints|
      invariant OutOfRange in errors <==> OutOfRange in before || !WeightsOk(t.controlPoints[..c])
      invariant forall e :: e != OutOfRange ==> (e in errors <==> e in before)
    {
      assert t.controlPoints[..c + 1] == t.controlPoints[..c] + [t.controlPoints[c]];
      WeightsStep(t.controlPoints, c);
      var cp := t.controlPoints[c];
      if cp.weight.Some? && cp.weight.value < 0.0 {
        errors := errors + [OutOfRange];
      }
    }
    assert t.controlPoints[..|t.controlPoints|] == t.controlPoints;
  }

  /** Comparing neighbours decides global order. */
  lemma KnotsStep(s: seq<real>, k: nat)
    requires k < |s|
    ensures KnotsOk(s[..k + 1]) <==>
      KnotsOk(s[..k]) && 0.0 <= s[k] <= 1.0 && (k > 0 ==> s[k] >= s[k - 1])
  {
    var a, b := s[..k], s[..k + 1];
    assert forall i :: 0 <= i < k ==> a[i] == b[i] == s[i];
    assert b[k] == s[k];
    if KnotsOk(b) {
      assert k > 0 ==> b[k - 1] <= b[k];
    }
  }

  lemma WeightsStep(s: seq<ControlPoint>, c: nat)
    requires c < |s|
    ensures WeightsOk(s[..c + 1]) <==> WeightsOk(s[..c]) && (s[c].weight.Some? ==> s[c].weight.value >= 0.0)
  {
    var a, b := s[..c], s[..c + 1];
    assert forall i :: 0 <= i < c ==> a[i] == b[i] == s[i];
    assert b[c] == s[c];
  }

  /** Kind `k` is reported on top of `reported` exactly when its rule is broken. */
  ghost predicate Reports(errors: seq<LayoutError>, reported: seq<LayoutError>, k: LayoutError, ok: bool) {
    k in errors <==> k in reported || !ok
  }

  ghost predicate All<T(!new)>(row: seq<T>, n: nat, rule: T -> bool)
    requires n <= |row|
  {
    forall i :: 0 <= i < n ==> rule(row[i])
  }

  lemma AllStep<T(!new)>(row: seq<T>, n: nat, rule: T -> bool)
    requires n < |row|
    ensures All(row, n + 1, rule) <==> All(row, n, rule) && rule(row[n])
  {
  }

  /** The first `n` records of the row have ids that are new to `seen` and to each other. */
  ghost predicate FreshRow<T>(seen: set<string>, row: seq<T>, id: T -> string, n: nat)
    requires n <= |row|
  {
    && (forall i :: 0 <= i < n ==> id(row[i]) !in seen)
    && (forall i, j :: 0 <= i < j < n ==> id(row[i]) != id(row[j]))
  }

  ghost predicate SeenRow<T>(seen: set<string>, seen': set<string>, row: seq<T>, id: T -> string, n: nat)
    requires n <= |row|
  {
    forall k :: k in seen' <==> k in seen || exists i :: 0 <= i < n && id(row[i]) == k
  }

  lemma SeenRowStep<T>(seen: set<string>, seen': set<string>, row: seq<T>, id: T -> string, n: nat)
    requires n < |row| && SeenRow(seen, seen', row, id, n)
    ensures SeenRow(seen, seen' + {id(row[n])}, row, id, n + 1)
    ensures FreshRow(seen, row, id, n + 1) <==> FreshRow(seen, row, id, n) && id(row[n]) !in seen'
  {
    forall k ensures k in seen' + {id(row[n])} <==> k in seen || exists i :: 0 <= i < n + 1 && id(row[i]) == k {
    }
  }

  ghost predicate NodeFilled(n: Node) { n.vehicleTypeNodeProperties != [] }
  ghost predicate EdgeFilled(e: Edge) { e.vehicleTypeEdgeProperties != [] }
  ghost predicate StationFilled(s: Station) { s.interactionNodeIds != [] }

  method ValidateNodes(reported: seq<LayoutError>, l: Layout, seen: set<string>)
      returns (errors: seq<LayoutError>, seen': set<string>, here: set<string>)
    ensures SeenRow(seen, seen', l.nodes, NodeId, |l.nodes|)
    ensures SeenRow({}, here, l.nodes, NodeId, |l.nodes|)
    ensures Reports(errors, reported, DuplicateId, FreshRow(seen, l.nodes, NodeId, |l.nodes|))
    ensures Reports(errors, reported, EmptyRequiredArray, All(l.nodes, |l.nodes|, NodeFilled))
    ensures Reports(errors, reported, OutOfRange, All(l.nodes, |l.nodes|, NodeInRange))
    ensures Reports(errors, reported, DanglingNodeRef, true)
    ensures Reports(errors, reported, TrajectorySizeMismatch, true)
  {
    errors, seen', here := reported, seen, {};
    for i := 0 to |l.nodes|
      invariant SeenRow(seen, seen', l.nodes, NodeId, i)
      invariant SeenRow({}, here, l.nodes, NodeId, i)
      invariant Reports(errors, reported, DuplicateId, FreshRow(seen, l.nodes, NodeId, i))
      invariant Reports(errors, reported, EmptyRequiredArray, All(l.nodes, i, NodeFilled))
      invariant Reports(errors, reported, OutOfRange, All(l.nodes, i, NodeInRange))
      invariant Reports(errors, reported, DanglingNodeRef, true)
      invariant Reports(errors, reported, TrajectorySizeMismatch, true)
    {
      SeenRowStep(seen, seen', l.nodes, NodeId, i);
      SeenRowStep({}, here, l.nodes, NodeId, i);
      AllStep(l.nodes, i, NodeFilled);
      AllStep(l.nodes, i, NodeInRange);
      errors, seen' := ValidateNode(errors, l.nodes[i], seen');
      here := here + {l.nodes[i].nodeId};
    }
  }

  method ValidateNode(reported: seq<LayoutError>, node: Node, seen: set<string>)
      returns (errors: seq<LayoutError>, seen': set<string>)
    ensures seen' == seen + {NodeId(node)}
    ensures Reports(errors, reported, DuplicateId, NodeId(node) !in seen)
    ensures Reports(errors, reported, EmptyRequiredArray, NodeFilled(node))
    ensures Reports(errors, reported, OutOfRange, NodeInRange(node))
    ensures Reports(errors, reported, DanglingNodeRef, true)
    ensures Reports(errors, reported, TrajectorySizeMismatch, true)
  {
    errors := reported;
    if node.nodeId in seen {
      errors := errors + [DuplicateId];
    }
    seen' := seen + {node.nodeId};
    if node.vehicleTypeNodeProperties == [] {
      errors := errors + [EmptyRequiredArray];
    }
    ghost var before := errors;
    var props := node.vehicleTypeNodeProperties;
    for k := 0 to |props|
      invariant OutOfRange in errors <==> OutOfRange in before || exists j :: 0 <= j < k && !AngleOk(props[j].theta)
      invariant forall e :: e != OutOfRange ==> (e in errors <==> e in before)
    {
      var vtnp := props[k];
      if vtnp.theta.Some? && !InClosedRange(vtnp.theta.value, -PI, PI) {
        errors := errors + [OutOfRange];
      }
    }
  }

  ghost predicate StartIn(here: set<string>, e: Edge) {
    e.startNodeId in here
  }

  method ValidateEdges(reported: seq<LayoutError>, l: Layout, seen: set<string>, here: set<string>)
      returns (errors: seq<LayoutError>, seen': set<string>)
    ensures SeenRow(seen, seen', l.edges, EdgeId, |l.edges|)
    ensures Reports(errors, reported, DuplicateId, FreshRow(seen, l.edges, EdgeId, |l.edges|))
    ensures Reports(errors, reported, EmptyRequiredArray, All(l.edges, |l.edges|, EdgeFilled))
    ensures Reports(errors, reported, OutOfRange, All(l.edges, |l.edges|, EdgeInRange))
    ensures Reports(errors, reported, TrajectorySizeMismatch, All(l.edges, |l.edges|, EdgeSized))
    ensures Reports(errors, reported, DanglingNodeRef, All(l.edges, |l.edges|, e => StartIn(here, e)))
  {
    errors, seen' := reported, seen;
    ghost var starts := e => StartIn(here, e);
    for i := 0 to |l.edges|
      invariant SeenRow(seen, seen', l.edges, EdgeId, i)
      invariant Reports(errors, reported, DuplicateId, FreshRow(seen, l.edges, EdgeId, i))
      invariant Reports(errors, reported, EmptyRequiredArray, All(l.edges, i, EdgeFilled))
      invariant Reports(errors, reported, OutOfRange, All(l.edges, i, EdgeInRange))
      invariant Reports(errors, reported, TrajectorySizeMismatch, All(l.edges, i, EdgeSized))
      invariant Reports(errors, reported, DanglingNodeRef, All(l.edges, i, starts))
    {
      SeenRowStep(seen, seen', l.edges, EdgeId, i);
      AllStep(l.edges, i, EdgeFilled);
      AllStep(l.edges, i, EdgeInRange);
      AllStep(l.edges, i, EdgeSized);
      AllStep(l.edges, i, starts);
      errors, seen' := ValidateEdge(errors, l.edges[i], seen', here);
    }
  }

  method ValidateEdge(reported: seq<LayoutError>, edge: Edge, seen: set<string>, here: set<string>)
      returns (errors: seq<LayoutError>, seen': set<string>)
    ensures seen' == seen + {EdgeId(edge)}
    ensures Reports(errors, reported, DuplicateId, EdgeId(edge) !in seen)
    ensures Reports(errors, reported, EmptyRequiredArray, EdgeFilled(edge))
    ensures Reports(errors, reported, OutOfRange, EdgeInRange(edge))
    ensures Reports(errors, reported, TrajectorySizeMismatch, EdgeSized(edge))
    ensures Reports(errors, reported, DanglingNodeRef, StartIn(here, edge))
  {
    errors := reported;
    if edge.edgeId in seen {
      errors := errors + [DuplicateId];
    }
    seen' := seen + {edge.edgeId};
    if edge.vehicleTypeEdgeProperties == [] {
      errors := errors + [EmptyRequiredArray];
    }
    errors := ValidateTrajectories(errors, edge);
    if edge.startNodeId !in here {
      errors := errors + [DanglingNodeRef];
    }
  }

  method ValidateTrajectories(reported: seq<LayoutError>, edge: Edge) returns (errors: seq<LayoutError>)
    ensures OutOfRange in errors <==> OutOfRange in reported || !EdgeInRange(edge)
    ensures TrajectorySizeMismatch in errors <==> TrajectorySizeMismatch in reported || !EdgeSized(edge)
    ensures forall k :: k != OutOfRange && k != TrajectorySizeMismatch ==> (k in errors <==> k in reported)
  {
    errors := reported;
    var props := edge.vehicleTypeEdgeProperties;
    for k := 0 to |props|
      invariant OutOfRange in errors <==> (OutOfRange in reported
        || exists j :: 0 <= j < k && props[j].trajectory.Some? && !TrajectoryInRange(props[j].trajectory.value))
      invariant TrajectorySizeMismatch in errors <==> (TrajectorySizeMismatch in reported
        || exists j :: 0 <= j < k && props[j].trajectory.Some? && !TrajectorySized(props[j].trajectory.value))
      invariant forall e :: e != OutOfRange && e != TrajectorySizeMismatch ==> (e in errors <==> e in reported)
    {
      if props[k].trajectory.Some? {
        errors := ValidateTrajectory(errors, props[k].trajectory.value);
      }
    }
  }

  method ValidateStations(reported: seq<LayoutError>, l: Layout, seen: set<string>)
      returns (errors: seq<LayoutError>, seen': set<string>)
    ensures SeenRow(seen, seen', l.stations, StationId, |l.stations|)
    ensures Reports(errors, reported, DuplicateId, FreshRow(seen, l.stations, StationId, |l.stations|))
    ensures Reports(errors, reported, EmptyRequiredArray, All(l.stations, |l.stations|, StationFilled))
    ensures Reports(errors, reported, OutOfRange, All(l.stations, |l.stations|, StationInRange))
    ensures Reports(errors, reported, DanglingNodeRef, true)
    ensures Reports(errors, reported, TrajectorySizeMismatch, true)
  {
    errors, seen' := reported, seen;
    for i := 0 to |l.stations|
      invariant SeenRow(seen, seen', l.stations, StationId, i)
      invariant Reports(errors, reported, DuplicateId, FreshRow(seen, l.stations, StationId, i))
      invariant Reports(errors, reported, EmptyRequiredArray, All(l.stations, i, StationFilled))
      invariant Reports(errors, reported, OutOfRange, All(l.stations, i, StationInRange))
      invariant Reports(errors, reported, DanglingNodeRef, true)
      invariant Reports(errors, reported, TrajectorySizeMismatch, true)
    {
      SeenRowStep(seen, seen', l.stations, StationId, i);
      AllStep(l.stations, i, StationFilled);
      AllStep(l.stations, i, StationInRange);
      errors, seen' := ValidateStation(errors, l.stations[i], seen');
    }
  }

  method ValidateStation(reported: seq<LayoutError>, station: Station, seen: set<string>)
      returns (errors: seq<LayoutError>, seen': set<string>)
    ensures seen' == seen + {StationId(station)}
    ensures Reports(errors, reported, DuplicateId, StationId(station) !in seen)
    ensures Reports(errors, reported, EmptyRequiredArray, StationFilled(station))
    ensures Reports(errors, reported, OutOfRange, StationInRange(station))
    ensures Reports(errors, reported, DanglingNodeRef, true)
    ensures Reports(errors, reported, TrajectorySizeMismatch, true)
  {
    errors := reported;
    if station.stationId in seen {
      errors := errors + [DuplicateId];
    }
    seen' := seen + {station.stationId};
    if station.interactionNodeIds == [] {
      errors := errors + [EmptyRequiredArray];
    }
    if station.stationHeight.Some? && station.stationHeight.value < 0.0 {
      errors := errors + [OutOfRange];
    }
    if station.stationPosition.Some? && station.stationPosition.value.theta.Some?
       && !InClosedRange(station.stationPosition.value.theta.value, -PI, PI) {
      errors := errors + [OutOfRange];
    }
  }

  /** Second pass over one layout: resolve edge ends and station references against all nodes seen. */
  method ResolveTargets(reported: seq<LayoutError>, ghost lif: LIF, l: Layout, nodeIds: set<string>)
      returns (errors: seq<LayoutError>)
    requires forall k :: k in nodeIds <==> HasNodeId(lif, k)
    ensures DanglingNodeRef in errors <==> DanglingNodeRef in reported || !TargetsResolve(lif, l)
    ensures forall k :: k != DanglingNodeRef ==> (k in errors <==> k in reported)
  {
    errors := reported;
    for i := 0 to |l.edges|
      invariant DanglingNodeRef in errors <==> (DanglingNodeRef in reported
        || exists j :: 0 <= j < i && !HasNodeId(lif, l.edges[j].endNodeId))
      invariant forall k :: k != DanglingNodeRef ==> (k in errors <==> k in reported)
    {
      if l.edges[i].endNodeId !in nodeIds {
        errors := errors + [DanglingNodeRef];
      }
    }
    ghost var before := errors;
    for i := 0 to |l.stations|
      invariant DanglingNodeRef in errors <==> (DanglingNodeRef in before
        || exists j, n :: 0 <= j < i && n in l.stations[j].interactionNodeIds && !HasNodeId(lif, n))
      invariant forall k :: k != DanglingNodeRef ==> (k in errors <==> k in reported)
    {
      ghost var outer := errors;
      var ids := l.stations[i].interactionNodeIds;
      for c := 0 to |ids|
        invariant DanglingNodeRef in errors <==> (DanglingNodeRef in outer
          || exists d :: 0 <= d < c && !HasNodeId(lif, ids[d]))
        invariant forall k :: k != DanglingNodeRef ==> (k in errors <==> k in reported)
      {
        if ids[c] !in nodeIds {
          errors := errors + [DanglingNodeRef];
        }
      }
      assert (exists d :: 0 <= d < |ids| && !HasNodeId(lif, ids[d])) <==> (exists n :: n in ids && !HasNodeId(lif, n));
    }
  }

  // ---- Growing seen-sets decide global uniqueness ----

  ghost predicate SeenTable<T>(seen: set<string>, t: Table<T>, id: T -> string) {
    forall k :: k in seen <==> Contains(t, id, k)
  }

  lemma SeenStep<T>(t: Table<T>, n: nat, id: T -> string, seen: set<string>, seen': set<string>)
    requires n < |t| && SeenTable(seen, t[..n], id) && SeenRow(seen, seen', t[n], id, |t[n]|)
    ensures SeenTable(seen', t[..n + 1], id)
  {
    var a, b := t[..n], t[..n + 1];
    assert forall p :: Has(a, p) ==> Has(b, p) && Get(b, p) == Get(a, p);
    assert forall p :: Has(b, p) && p.row < n ==> Has(a, p);
    assert forall j :: 0 <= j < |t[n]| ==> Has(b, Pos(n, j)) && Get(b, Pos(n, j)) == t[n][j];
    forall k ensures k in seen' <==> Contains(b, id, k) {
      if k in seen' && k !in seen {
        var i :| 0 <= i < |t[n]| && id(t[n][i]) == k;
        assert Has(b, Pos(n, i));
      }
      if Contains(a, id, k) {
        var p :| Has(a, p) && id(Get(a, p)) == k;
        assert Has(b, p);
      }
      if Contains(b, id, k) {
        var p :| Has(b, p) && id(Get(b, p)) == k;
        if p.row < n {
          assert Has(a, p);
        } else {
          assert id(t[n][p.col]) == k;
        }
      }
    }
  }

  lemma UniqueStep<T>(t: Table<T>, n: nat, id: T -> string, seen: set<string>)
    requires n < |t| && SeenTable(seen, t[..n], id)
    ensures UniqueIds(t[..n + 1], id) <==> UniqueIds(t[..n], id) && FreshRow(seen, t[n], id, |t[n]|)
  {
    var a, b := t[..n], t[..n + 1];
    if UniqueIds(b, id) {
      forall p, q | Has(a, p) && Has(a, q) && id(Get(a, p)) == id(Get(a, q)) ensures p == q {
        assert Has(b, p) && Has(b, q) && Get(b, p) == Get(a, p) && Get(b, q) == Get(a, q);
      }
      forall i | 0 <= i < |t[n]| ensures id(t[n][i]) !in seen {
        assert Has(b, Pos(n, i)) && Get(b, Pos(n, i)) == t[n][i];
        assert forall p :: Has(a, p) ==> Has(b, p) && Get(b, p) == Get(a, p) && p != Pos(n, i);
      }
      forall i, j | 0 <= i < j < |t[n]| ensures id(t[n][i]) != id(t[n][j]) {
        assert Has(b, Pos(n, i)) && Has(b, Pos(n, j));
      }
    }
    if UniqueIds(a, id) && FreshRow(seen, t[n], id, |t[n]|) {
      forall p, q | Has(b, p) && Has(b, q) && id(Get(b, p)) == id(Get(b, q)) ensures p == q {
        if p.row < n {
          assert Has(a, p) && Get(a, p) == Get(b, p);
        } else {
          assert Get(b, p) == t[n][p.col];
        }
        if q.row < n {
          assert Has(a, q) && Get(a, q) == Get(b, q);
        } else {
          assert Get(b, q) == t[n][q.col];
        }
      }
    }
  }

  ghost predicate IdsUniqueUpTo(lif: LIF, n: nat)
    requires n <= |lif.layouts|
  {
    && FreshRow({}, lif.layouts, LayoutId, n)
    && UniqueIds(NodeTable(lif)[..n], NodeId)
    && UniqueIds(EdgeTable(lif)[..n], EdgeId)
    && UniqueIds(StationTable(lif)[..n], StationId)
  }

  /** The rules split by layout are the rules split by record. */
  lemma RulesByLayout(lif: LIF)
    ensures IdsUniqueUpTo(lif, |lif.layouts|) <==> IdsUnique(lif)
    ensures ElementsOk(lif) <==> (All(lif.layouts, |lif.layouts|, LayoutFilled)
      && All(lif.layouts, |lif.layouts|, LayoutInRange) && All(lif.layouts, |lif.layouts|, LayoutSized))
  {
    assert NodeTable(lif)[..|lif.layouts|] == NodeTable(lif);
    assert EdgeTable(lif)[..|lif.layouts|] == EdgeTable(lif);
    assert StationTable(lif)[..|lif.layouts|] == StationTable(lif);
    if ElementsOk(lif) {
      forall i | 0 <= i < |lif.layouts|
        ensures LayoutFilled(lif.layouts[i]) && LayoutInRange(lif.layouts[i]) && LayoutSized(lif.layouts[i])
      {
        var l := lif.layouts[i];
        forall j | 0 <= j < |l.nodes| ensures NodeOk(l.nodes[j]) {
          assert Has(NodeTable(lif), Pos(i, j)) && Get(NodeTable(lif), Pos(i, j)) == l.nodes[j];
        }
        forall j | 0 <= j < |l.edges| ensures EdgeOk(l.edges[j]) {
          assert Has(EdgeTable(lif), Pos(i, j)) && Get(EdgeTable(lif), Pos(i, j)) == l.edges[j];
        }
        forall j | 0 <= j < |l.stations| ensures StationOk(l.stations[j]) {
          assert Has(StationTable(lif), Pos(i, j)) && Get(StationTable(lif), Pos(i, j)) == l.stations[j];
        }
      }
    }
  }

  /** The four ids-so-far sets of the first pass. */
  datatype Seen = Seen(layoutIds: set<string>, nodeIds: set<string>, edgeIds: set<string>, stationIds: set<string>)

  ghost predicate SeenUpTo(seen: Seen, lif: LIF, n: nat)
    requires n <= |lif.layouts|
  {
    && SeenRow({}, seen.layoutIds, lif.layouts, LayoutId, n)
    && SeenTable(seen.nodeIds, NodeTable(lif)[..n], NodeId)
    && SeenTable(seen.edgeIds, EdgeTable(lif)[..n], EdgeId)
    && SeenTable(seen.stationIds, StationTable(lif)[..n], StationId)
  }

  ghost predicate SeenLayout(seen: Seen, seen': Seen, l: Layout) {
    && seen'.layoutIds == seen.layoutIds + {LayoutId(l)}
    && SeenRow(seen.nodeIds, seen'.nodeIds, l.nodes, NodeId, |l.nodes|)
    && SeenRow(seen.edgeIds, seen'.edgeIds, l.edges, EdgeId, |l.edges|)
    && SeenRow(seen.stationIds, seen'.stationIds, l.stations, StationId, |l.stations|)
  }

  /** None of the ids of the layout or of its records occurred before. */
  ghost predicate LayoutFresh(l: Layout, seen: Seen) {
    && LayoutId(l) !in seen.layoutIds
    && FreshRow(seen.nodeIds, l.nodes, NodeId, |l.nodes|)
    && FreshRow(seen.edgeIds, l.edges, EdgeId, |l.edges|)
    && FreshRow(seen.stationIds, l.stations, StationId, |l.stations|)
  }

  lemma SeenUpToStep(seen: Seen, seen': Seen, lif: LIF, n: nat)
    requires n < |lif.layouts| && SeenUpTo(seen, lif, n) && SeenLayout(seen, seen', lif.layouts[n])
    ensures SeenUpTo(seen', lif, n + 1)
    ensures IdsUniqueUpTo(lif, n + 1) <==> IdsUniqueUpTo(lif, n) && LayoutFresh(lif.layouts[n], seen)
  {
    SeenRowStep({}, seen.layoutIds, lif.layouts, LayoutId, n);
    SeenStep(NodeTable(lif), n, NodeId, seen.nodeIds, seen'.nodeIds);
    SeenStep(EdgeTable(lif), n, EdgeId, seen.edgeIds, seen'.edgeIds);
    SeenStep(StationTable(lif), n, StationId, seen.stationIds, seen'.stationIds);
    UniqueStep(NodeTable(lif), n, NodeId, seen.nodeIds);
    UniqueStep(EdgeTable(lif), n, EdgeId, seen.edgeIds);
    UniqueStep(StationTable(lif), n, StationId, seen.stationIds);
  }

  ghost predicate LayoutReports(errors: seq<LayoutError>, reported: seq<LayoutError>, l: Layout, seen: Seen) {
    && Reports(errors, reported, DuplicateId, LayoutFresh(l, seen))
    && Reports(errors, reported, EmptyRequiredArray, LayoutFilled(l))
    && Reports(errors, reported, OutOfRange, LayoutInRange(l))
    && Reports(errors, reported, TrajectorySizeMismatch, LayoutSized(l))
    && Reports(errors, reported, DanglingNodeRef, StartsResolve(l))
  }

  ghost predicate ReportsUpTo(errors: seq<LayoutError>, lif: LIF, n: nat)
    requires n <= |lif.layouts|
  {
    && Reports(errors, [], DuplicateId, IdsUniqueUpTo(lif, n))
    && Reports(errors, [], EmptyRequiredArray, All(lif.layouts, n, LayoutFilled))
    && Reports(errors, [], OutOfRange, All(lif.layouts, n, LayoutInRange))
    && Reports(errors, [], TrajectorySizeMismatch, All(lif.layouts, n, LayoutSized))
    && Reports(errors, [], DanglingNodeRef, All(lif.layouts, n, StartsResolve))
  }

  lemma ReportsUpToStep(errors: seq<LayoutError>, reported: seq<LayoutError>, lif: LIF, n: nat, seen: Seen)
    requires n < |lif.layouts| && ReportsUpTo(reported, lif, n) && LayoutReports(errors, reported, lif.layouts[n], seen)
    requires IdsUniqueUpTo(lif, n + 1) <==> IdsUniqueUpTo(lif, n) && LayoutFresh(lif.layouts[n], seen)
    ensures ReportsUpTo(errors, lif, n + 1)
  {
    AllStep(lif.layouts, n, StartsResolve);
    AllStep(lif.layouts, n, LayoutFilled);
    AllStep(lif.layouts, n, LayoutInRange);
    AllStep(lif.layouts, n, LayoutSized);
  }

  /** The nodes, edges and stations of one layout, in this order. */
  method ValidateRecords(reported: seq<LayoutError>, l: Layout, seen: Seen)
      returns (errors: seq<LayoutError>, nodeIds: set<string>, edgeIds: set<string>, stationIds: set<string>)
    ensures SeenRow(seen.nodeIds, nodeIds, l.nodes, NodeId, |l.nodes|)
    ensures SeenRow(seen.edgeIds, edgeIds, l.edges, EdgeId, |l.edges|)
    ensures SeenRow(seen.stationIds, stationIds, l.stations, StationId, |l.stations|)
    ensures Reports(errors, reported, DuplicateId,
                    FreshRow(seen.nodeIds, l.nodes, NodeId, |l.nodes|) && FreshRow(seen.edgeIds, l.edges, EdgeId, |l.edges|)
                    && FreshRow(seen.stationIds, l.stations, StationId, |l.stations|))
    ensures Reports(errors, reported, EmptyRequiredArray,
                    All(l.nodes, |l.nodes|, NodeFilled) && All(l.edges, |l.edges|, EdgeFilled) && All(l.stations, |l.stations|, StationFilled))
    ensures Reports(errors, reported, OutOfRange,
                    All(l.nodes, |l.nodes|, NodeInRange) && All(l.edges, |l.edges|, EdgeInRange) && All(l.stations, |l.stations|, StationInRange))
    ensures Reports(errors, reported, TrajectorySizeMismatch, All(l.edges, |l.edges|, EdgeSized))
    ensures Reports(errors, reported, DanglingNodeRef, StartsResolve(l))
  {
    var here;
    errors, nodeIds, here := ValidateNodes(reported, l, seen.nodeIds);
    errors, edgeIds := ValidateEdges(errors, l, seen.edgeIds, here);
    errors, stationIds := ValidateStations(errors, l, seen.stationIds);
    StartsAllIn(l, here);
  }

  /** One layout of the first pass. */
  method ValidateOneLayout(reported: seq<LayoutError>, l: Layout, seen: Seen)
      returns (errors: seq<LayoutError>, seen': Seen)
    ensures SeenLayout(seen, seen', l)
    ensures LayoutReports(errors, reported, l, seen)
  {
    errors := reported;
    if l.layoutId in seen.layoutIds {
      errors := errors + [DuplicateId];
    }
    var nodeIds, edgeIds, stationIds;
    errors, nodeIds, edgeIds, stationIds := ValidateRecords(errors, l, seen);
    seen' := Seen(seen.layoutIds + {l.layoutId}, nodeIds, edgeIds, stationIds);
    FilledByRow(l);
    InRangeByRow(l);
    assert LayoutSized(l) <==> All(l.edges, |l.edges|, EdgeSized);
  }

  lemma FilledByRow(l: Layout)
    ensures LayoutFilled(l) <==> (All(l.nodes, |l.nodes|, NodeFilled) && All(l.edges, |l.edges|, EdgeFilled)
      && All(l.stations, |l.stations|, StationFilled))
  {
    assert All(l.nodes, |l.nodes|, NodeFilled) <==> forall i :: 0 <= i < |l.nodes| ==> NodeFilled(l.nodes[i]);
    assert All(l.edges, |l.edges|, EdgeFilled) <==> forall i :: 0 <= i < |l.edges| ==> EdgeFilled(l.edges[i]);
    assert All(l.stations, |l.stations|, StationFilled) <==> forall i :: 0 <= i < |l.stations| ==> StationFilled(l.stations[i]);
  }

  lemma InRangeByRow(l: Layout)
    ensures LayoutInRange(l) <==> (All(l.nodes, |l.nodes|, NodeInRange) && All(l.edges, |l.edges|, EdgeInRange)
      && All(l.stations, |l.stations|, StationInRange))
  {
    assert All(l.nodes, |l.nodes|, NodeInRange) <==> forall i :: 0 <= i < |l.nodes| ==> NodeInRange(l.nodes[i]);
    assert All(l.edges, |l.edges|, EdgeInRange) <==> forall i :: 0 <= i < |l.edges| ==> EdgeInRange(l.edges[i]);
    assert All(l.stations, |l.stations|, StationInRange) <==> forall i :: 0 <= i < |l.stations| ==> StationInRange(l.stations[i]);
  }

  lemma StartsAllIn(l: Layout, here: set<string>)
    requires SeenRow({}, here, l.nodes, NodeId, |l.nodes|)
    ensures StartsResolve(l) <==> All(l.edges, |l.edges|, e => StartIn(here, e))
  {
    forall k ensures k in here <==> RowHasNode(l, k) {
      if k in here {
        var i :| 0 <= i < |l.nodes| && NodeId(l.nodes[i]) == k;
      }
      if RowHasNode(l, k) {
        var i :| 0 <= i < |l.nodes| && l.nodes[i].nodeId == k;
        assert NodeId(l.nodes[i]) == k;
      }
    }
  }

  /** Reports a kind of error exactly when the document breaks the rule of that kind. */
  method ValidateLayout(lif: LIF) returns (errors: seq<LayoutError>)
    ensures DuplicateId in errors <==> !IdsUnique(lif)
    ensures DanglingNodeRef in errors <==> !ReferencesResolve(lif)
    ensures EmptyRequiredArray in errors <==> lif.layouts == [] || !All(lif.layouts, |lif.layouts|, LayoutFilled)
    ensures OutOfRange in errors <==> !All(lif.layouts, |lif.layouts|, LayoutInRange)
    ensures TrajectorySizeMismatch in errors <==> !All(lif.layouts, |lif.layouts|, LayoutSized)
    ensures errors == [] <==> ValidLif(lif)
  {
    errors := [];
    if lif.layouts == [] {
      errors := [EmptyRequiredArray];
      return;
    }
    var nodeIds;
    errors, nodeIds := FirstPass(lif);
    errors := SecondPass(errors, lif, nodeIds);
    RulesByLayout(lif);
    NoKindNoError(errors);
  }

  /** Resolve the references of every layout against all nodes seen. */
  method SecondPass(reported: seq<LayoutError>, lif: LIF, nodeIds: set<string>) returns (errors: seq<LayoutError>)
    requires SeenTable(nodeIds, NodeTable(lif), NodeId)
    requires Reports(reported, [], DanglingNodeRef, All(lif.layouts, |lif.layouts|, StartsResolve))
    ensures Reports(errors, [], DanglingNodeRef, ReferencesResolve(lif))
    ensures forall k :: k != DanglingNodeRef ==> (k in errors <==> k in reported)
  {
    errors := reported;
    ghost var targets := l => TargetsResolve(lif, l);
    for li := 0 to |lif.layouts|
      invariant Reports(errors, reported, DanglingNodeRef, All(lif.layouts, li, targets))
      invariant forall k :: k != DanglingNodeRef ==> (k in errors <==> k in reported)
    {
      AllStep(lif.layouts, li, targets);
      errors := ResolveTargets(errors, lif, lif.layouts[li], nodeIds);
    }
    assert ReferencesResolve(lif) <==>
      All(lif.layouts, |lif.layouts|, StartsResolve) && All(lif.layouts, |lif.layouts|, targets);
  }

  method FirstPass(lif: LIF) returns (errors: seq<LayoutError>, nodeIds: set<string>)
    ensures SeenTable(nodeIds, NodeTable(lif), NodeId)
    ensures ReportsUpTo(errors, lif, |lif.layouts|)
  {
    errors := [];
    var seen := Seen({}, {}, {}, {});
    for li := 0 to |lif.layouts|
      invariant SeenUpTo(seen, lif, li)
      invariant ReportsUpTo(errors, lif, li)
    {
      var errors', seen' := ValidateOneLayout(errors, lif.layouts[li], seen);
      SeenUpToStep(seen, seen', lif, li);
      ReportsUpToStep(errors', errors, lif, li, seen);
      errors, seen := errors', seen';
    }
    nodeIds := seen.nodeIds;
    assert NodeTable(lif)[..|lif.layouts|] == NodeTable(lif);
  }

  lemma NoKindNoError(errors: seq<LayoutError>)
    ensures errors == [] <==> (DuplicateId !in errors && DanglingNodeRef !in errors && EmptyRequiredArray !in errors
      && OutOfRange !in errors && TrajectorySizeMismatch !in errors)
  {
    if errors != [] {
      match errors[0] {
        case DuplicateId => assert DuplicateId in errors;
        case DanglingNodeRef => assert DanglingNodeRef in errors;
        case EmptyRequiredArray => assert EmptyRequiredArray in errors;
        case OutOfRange => assert OutOfRange in errors;
        case TrajectorySizeMismatch => assert TrajectorySizeMismatch in errors;
      }
    }
  }
}
