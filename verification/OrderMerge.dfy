/** Merging an order update into the active order at the stitch point. */
module OrderMerge {
  import opened Common
  import opened Orders
  import opened Stitching

  datatype Fault =
    | OrderIdDiffers
    | UpdateNotNewer
    | NoBaseNode
    | StitchPointPassed
    | AltersBaseNode
    | StitchNodeDiffers
    | UnreleasesNode
    | AltersBaseEdge
    | UnreleasesEdge

  datatype CombineResult = Merged(order: Order) | Refused(faults: seq<Fault>)

  // ---- A list kept by sequence id ----

  /** The list so far and the largest id appended at its end. */
  datatype Keyed<T> = Keyed(list: seq<T>, maxSeq: uint32)

  /** Position of the first element satisfying `p`, or the length. */
  function Find<T>(s: seq<T>, p: T -> bool): (i: nat)
    ensures i <= |s| && (i < |s| ==> p(s[i]))
    ensures forall j :: 0 <= j < i ==> !p(s[j])
  {
    if s == [] || p(s[0]) then 0
    else
      assert forall j :: 0 < j < |s| ==> s[j] == s[1..][j - 1];
      1 + Find(s[1..], p)
  }

  /** Append a larger id, replace an equal one, or insert before the first larger one;
      nothing if it would take back a release. */
  function Place<T>(m: Keyed<T>, x: T, key: T -> uint32, released: T -> bool): Option<Keyed<T>> {
    if key(x) > m.maxSeq then Some(Keyed(m.list + [x], key(x)))
    else
      var at := Find(m.list, y => key(y) == key(x));
      if at == |m.list| then
        var before := Find(m.list, y => key(y) > key(x));
        Some(m.(list := m.list[..before] + [x] + m.list[before..]))
      else if released(m.list[at]) && !released(x) then None
      else Some(m.(list := m.list[at := x]))
  }

  function NodeSeq(n: OrderNode): uint32 { n.sequenceId }
  function NodeReleased(n: OrderNode): bool { n.released }
  function EdgeSeq(e: OrderEdge): uint32 { e.sequenceId }
  function EdgeReleased(e: OrderEdge): bool { e.released }

  function LastSeq<T>(s: seq<T>, key: T -> uint32): uint32 {
    if s == [] then 0 else key(s[|s| - 1])
  }

  // ---- The merge as a function ----

  /** What is kept of the base: the horizon, and the first released node carrying the stitch point's id. */
  function Preserved(nodes: seq<OrderNode>, anchor: uint32, seen: bool): seq<OrderNode> {
    if nodes == [] then []
    else if !nodes[0].released then [nodes[0]] + Preserved(nodes[1..], anchor, seen)
    else if nodes[0].sequenceId == anchor && !seen then [nodes[0]] + Preserved(nodes[1..], anchor, true)
    else Preserved(nodes[1..], anchor, seen)
  }

  function HorizonEdges(edges: seq<OrderEdge>): seq<OrderEdge> {
    if edges == [] then []
    else if edges[0].released then HorizonEdges(edges[1..])
    else [edges[0]] + HorizonEdges(edges[1..])
  }

  /** Sequence id of the last released edge. */
  function BaseEdgeSeq(edges: seq<OrderEdge>): (r: Option<uint32>)
    ensures r.Some? ==> exists k :: 0 <= k < |edges| && edges[k].released && edges[k].sequenceId == r.value
                                    && forall i :: k < i < |edges| ==> !edges[i].released
    ensures r.None? ==> forall i :: 0 <= i < |edges| ==> !edges[i].released
  {
    if edges == [] then None
    else if edges[|edges| - 1].released then Some(edges[|edges| - 1].sequenceId)
    else BaseEdgeSeq(edges[..|edges| - 1])
  }

  datatype Progress<T> = Progress(merge: Keyed<T>, faults: seq<Fault>) {
    function Fail(fault: Fault): Progress<T> { this.(faults := faults + [fault]) }
  }

  function AddNode(p: Progress<OrderNode>, anchor: Option<OrderNode>, n: OrderNode): Progress<OrderNode> {
    if anchor.Some? && n.sequenceId < anchor.value.sequenceId then p.Fail(AltersBaseNode)
    else if anchor.Some? && n.sequenceId == anchor.value.sequenceId then
      if SameNode(n, anchor.value) then p else p.Fail(StitchNodeDiffers)
    else
      match Place(p.merge, n, NodeSeq, NodeReleased)
      case Some(merge) => p.(merge := merge)
      case None => p.Fail(UnreleasesNode)
  }

  function AddNodes(p: Progress<OrderNode>, anchor: Option<OrderNode>, nodes: seq<OrderNode>): Progress<OrderNode> {
    if nodes == [] then p
    else AddNode(AddNodes(p, anchor, nodes[..|nodes| - 1]), anchor, nodes[|nodes| - 1])
  }

  function AddEdge(p: Progress<OrderEdge>, base: Option<uint32>, e: OrderEdge): Progress<OrderEdge> {
    if base.Some? && e.sequenceId <= base.value then p.Fail(AltersBaseEdge)
    else
      match Place(p.merge, e, EdgeSeq, EdgeReleased)
      case Some(merge) => p.(merge := merge)
      case None => p.Fail(UnreleasesEdge)
  }

  function AddEdges(p: Progress<OrderEdge>, base: Option<uint32>, edges: seq<OrderEdge>): Progress<OrderEdge> {
    if edges == [] then p
    else AddEdge(AddEdges(p, base, edges[..|edges| - 1]), base, edges[|edges| - 1])
  }

  /** The stitch point: the last released node. */
  function Anchor(base: Order): Option<OrderNode> {
    var k := LastReleasedAt(base.nodes);
    if k.None? then None else Some(base.nodes[k.value])
  }

  function StartNodes(base: Order): Progress<OrderNode> {
    var kept := if Anchor(base).None? then [] else Preserved(base.nodes, Anchor(base).value.sequenceId, false);
    Progress(Keyed(kept, LastSeq(kept, NodeSeq)), [])
  }

  function StartEdges(base: Order): Progress<OrderEdge> {
    var kept := HorizonEdges(base.edges);
    Progress(Keyed(kept, LastSeq(kept, EdgeSeq)), [])
  }

  /** What ends the merge before any list is touched. */
  function EarlyFault(base: Order, update: Order, lastNodeSeq: uint32): Option<Fault> {
    if base.orderId != update.orderId then Some(OrderIdDiffers)
    else if update.orderUpdateId <= base.orderUpdateId then Some(UpdateNotNewer)
    else if Anchor(base).None? && base.nodes != [] then Some(NoBaseNode)
    else if Anchor(base).Some? && lastNodeSeq > Anchor(base).value.sequenceId then Some(StitchPointPassed)
    else None
  }

  function Combined(base: Order, update: Order, lastNodeSeq: uint32): CombineResult {
    if EarlyFault(base, update, lastNodeSeq).Some? then
      Refused([EarlyFault(base, update, lastNodeSeq).value])
    else
      var nodes := AddNodes(StartNodes(base), Anchor(base), update.nodes);
      var edges := AddEdges(StartEdges(base), BaseEdgeSeq(base.edges), update.edges);
      if nodes.faults + edges.faults != [] then Refused(nodes.faults + edges.faults)
      else Merged(Order(base.orderId, update.orderUpdateId, nodes.merge.list, edges.merge.list, update.zoneSetId))
  }

  // ---- The merge as it runs ----

  method PreserveNodes(nodes: seq<OrderNode>, anchor: Option<OrderNode>) returns (kept: seq<OrderNode>)
    requires anchor.None? ==> nodes == []
    ensures kept == if anchor.None? then [] else Preserved(nodes, anchor.value.sequenceId, false)
  {
    kept := [];
    var seen := false;
    for i := 0 to |nodes|
      invariant anchor.None? ==> kept == []
      invariant anchor.Some? ==>
                  Preserved(nodes, anchor.value.sequenceId, false) == kept + Preserved(nodes[i..], anchor.value.sequenceId, seen)
    {
      var n := nodes[i];
      assert nodes[i..][1..] == nodes[i + 1..];
      if !n.released {
        kept := kept + [n];
        continue;
      }
      if anchor.Some? && n.sequenceId == anchor.value.sequenceId && !seen {
        kept := kept + [n];
        seen := true;
      }
    }
  }

  method PreserveEdges(edges: seq<OrderEdge>) returns (kept: seq<OrderEdge>)
    ensures kept == HorizonEdges(edges)
  {
    kept := [];
    for i := 0 to |edges|
      invariant HorizonEdges(edges) == kept + HorizonEdges(edges[i..])
    {
      assert edges[i..][1..] == edges[i + 1..];
      if !edges[i].released {
        kept := kept + [edges[i]];
      }
    }
  }

  method LastBaseEdge(edges: seq<OrderEdge>) returns (seqId: Option<uint32>)
    ensures seqId == BaseEdgeSeq(edges)
  {
    seqId := None;
    for i := 0 to |edges|
      invariant seqId == BaseEdgeSeq(edges[..i])
    {
      assert edges[..i + 1][..i] == edges[..i];
      if edges[i].released {
        seqId := Some(edges[i].sequenceId);
      }
    }
    assert edges[..|edges|] == edges;
  }

  method CombineOrder(base: Order, update: Order, lastNodeSeq: uint32) returns (res: CombineResult)
    ensures res == Combined(base, update, lastNodeSeq)
  {
    if base.orderId != update.orderId {
      return Refused([OrderIdDiffers]);
    }
    if update.orderUpdateId <= base.orderUpdateId {
      return Refused([UpdateNotNewer]);
    }
    var last := LastReleased(base.nodes);
    var anchor := if last.None? then None else Some(base.nodes[last.value]);
    if anchor.None? && base.nodes != [] {
      return Refused([NoBaseNode]);
    }
    var kept := PreserveNodes(base.nodes, anchor);
    if anchor.Some? && lastNodeSeq > anchor.value.sequenceId {
      return Refused([StitchPointPassed]);
    }
    var nodes := MergeNodes(kept, anchor, update.nodes);
    var baseEdge := LastBaseEdge(base.edges);
    var keptEdges := PreserveEdges(base.edges);
    var edges := MergeEdges(keptEdges, baseEdge, update.edges);
    if nodes.faults + edges.faults != [] {
      return Refused(nodes.faults + edges.faults);
    }
    return Merged(Order(base.orderId, update.orderUpdateId, nodes.merge.list, edges.merge.list, update.zoneSetId));
  }

  method MergeNodes(kept: seq<OrderNode>, anchor: Option<OrderNode>, added: seq<OrderNode>) returns (nodes: Progress<OrderNode>)
    ensures nodes == AddNodes(Progress(Keyed(kept, LastSeq(kept, NodeSeq)), []), anchor, added)
  {
    nodes := Progress(Keyed(kept, LastSeq(kept, NodeSeq)), []);
    for i := 0 to |added|
      invariant nodes == AddNodes(Progress(Keyed(kept, LastSeq(kept, NodeSeq)), []), anchor, added[..i])
    {
      assert added[..i + 1][..i] == added[..i];
      nodes := AddNode(nodes, anchor, added[i]);
    }
    assert added[..|added|] == added;
  }

  method MergeEdges(kept: seq<OrderEdge>, baseEdge: Option<uint32>, added: seq<OrderEdge>) returns (edges: Progress<OrderEdge>)
    ensures edges == AddEdges(Progress(Keyed(kept, LastSeq(kept, EdgeSeq)), []), baseEdge, added)
  {
    edges := Progress(Keyed(kept, LastSeq(kept, EdgeSeq)), []);
    for i := 0 to |added|
      invariant edges == AddEdges(Progress(Keyed(kept, LastSeq(kept, EdgeSeq)), []), baseEdge, added[..i])
    {
      assert added[..i + 1][..i] == added[..i];
      edges := AddEdge(edges, baseEdge, added[i]);
    }
    assert added[..|added|] == added;
  }

  // ---- The base is never changed ----

  /** The stitch point is the first node carrying its sequence id; only ids that wrapped all the way around repeat. */
  ghost predicate AnchorFirst(base: Order) {
    Anchor(base).Some? ==>
      forall i :: 0 <= i < LastReleasedAt(base.nodes).value ==> base.nodes[i].sequenceId != Anchor(base).value.sequenceId
  }

  lemma NoEarlyRepeat(s0: nat, i: nat, k: nat)
    requires i < k < 0x8000_0000
    ensures (s0 + 2 * i) % TWO_TO_THE_32 != (s0 + 2 * k) % TWO_TO_THE_32
  {
    AddWraps(s0 + 2 * i, 2 * (k - i));
  }

  lemma ShortOrdersAnchorFirst(base: Order)
    requires WellFormed(base) && |base.nodes| <= 0x8000_0000
    ensures AnchorFirst(base)
  {
    var k := Split(base);
    ShapeAt(base, k);
    forall i | 0 <= i < k ensures base.nodes[i].sequenceId != base.nodes[k].sequenceId {
      assert NodeAt(base.nodes[i], base.nodes[0].sequenceId, i, k) && NodeAt(base.nodes[k], base.nodes[0].sequenceId, k, k);
      NoEarlyRepeat(base.nodes[0].sequenceId, i, k);
    }
  }

  lemma {:induction false} PreservedReleased(nodes: seq<OrderNode>, anchor: uint32, k: nat)
    requires k < |nodes| && nodes[k].sequenceId == anchor
    requires forall i :: 0 <= i < |nodes| ==> (nodes[i].released <==> i <= k)
    requires forall i :: 0 <= i < k ==> nodes[i].sequenceId != anchor
    ensures Preserved(nodes, anchor, false) == nodes[k..]
  {
    if k > 0 {
      PreservedReleased(nodes[1..], anchor, k - 1);
      assert nodes[1..][k - 1..] == nodes[k..];
    } else {
      PreservedHorizon(nodes[1..], anchor, true);
      assert nodes == [nodes[0]] + nodes[1..];
    }
  }

  lemma {:induction false} PreservedHorizon(nodes: seq<OrderNode>, anchor: uint32, seen: bool)
    requires forall i :: 0 <= i < |nodes| ==> !nodes[i].released
    ensures Preserved(nodes, anchor, seen) == nodes
  {
    if nodes != [] {
      PreservedHorizon(nodes[1..], anchor, seen);
    }
  }

  lemma {:induction false} HorizonEdgesOf(edges: seq<OrderEdge>, k: nat)
    requires k <= |edges| && forall i :: 0 <= i < |edges| ==> (edges[i].released <==> i < k)
    ensures HorizonEdges(edges) == edges[k..]
  {
    if edges != [] {
      HorizonEdgesOf(edges[1..], if k > 0 then k - 1 else 0);
      if k > 0 {
        assert edges[1..][k - 1..] == edges[k..];
      } else {
        assert edges == [edges[0]] + edges[1..];
      }
    }
  }

  lemma {:induction false} BaseEdgeOf(edges: seq<OrderEdge>, k: nat)
    requires k <= |edges| && forall i :: 0 <= i < |edges| ==> (edges[i].released <==> i < k)
    ensures BaseEdgeSeq(edges) == if k == 0 then None else Some(edges[k - 1].sequenceId)
  {
    if edges != [] && k < |edges| {
      BaseEdgeOf(edges[..|edges| - 1], k);
    }
  }

  lemma StartOfShape(base: Order, k: nat)
    requires Shape(base, k) && AnchorFirst(base)
    ensures Anchor(base) == Some(base.nodes[k])
    ensures StartNodes(base).merge.list == base.nodes[k..]
    ensures StartEdges(base).merge.list == base.edges[k..]
    ensures BaseEdgeSeq(base.edges) == if k == 0 then None else Some(base.edges[k - 1].sequenceId)
  {
    LastReleasedIsSplit(base, k);
    PreservedReleased(base.nodes, base.nodes[k].sequenceId, k);
    HorizonEdgesOf(base.edges, k);
    BaseEdgeOf(base.edges, k);
  }

  lemma PlaceKeepsFirst<T>(m: Keyed<T>, x: T, key: T -> uint32, released: T -> bool)
    requires m.list != [] && key(m.list[0]) < key(x)
    ensures var r := Place(m, x, key, released); r.Some? ==> r.value.list != [] && r.value.list[0] == m.list[0]
  {
  }

  /** Whatever the update holds, the merged list starts with the stitch point of the base. */
  lemma {:induction false} AnchorStays(p: Progress<OrderNode>, anchor: OrderNode, nodes: seq<OrderNode>)
    requires p.merge.list != [] && p.merge.list[0] == anchor
    ensures var r := AddNodes(p, Some(anchor), nodes); r.merge.list != [] && r.merge.list[0] == anchor
    decreases |nodes|
  {
    if nodes != [] {
      var init, n := nodes[..|nodes| - 1], nodes[|nodes| - 1];
      AnchorStays(p, anchor, init);
      if n.sequenceId > anchor.sequenceId {
        PlaceKeepsFirst(AddNodes(p, Some(anchor), init).merge, n, NodeSeq, NodeReleased);
      }
    }
  }

  /** For every update at all: if merging it into a valid order gives a valid order, then the result is itself
      an accepted update of that order, so the released base is continued and never changed. */
  lemma MergedIsAcceptedUpdate(base: Order, update: Order, lastNodeSeq: uint32)
    requires WellFormed(base) && AnchorFirst(base)
    requires Combined(base, update, lastNodeSeq).Merged? && WellFormed(Combined(base, update, lastNodeSeq).order)
    ensures AcceptedUpdate(base, Combined(base, update, lastNodeSeq).order)
    ensures lastNodeSeq <= base.nodes[Split(base)].sequenceId
  {
    StartOfShape(base, Split(base));
    AnchorStays(StartNodes(base), base.nodes[Split(base)], update.nodes);
  }

  lemma PlaceMembers<T>(m: Keyed<T>, x: T, key: T -> uint32, released: T -> bool, y: T)
    requires Place(m, x, key, released).Some? && y in Place(m, x, key, released).value.list
    ensures y in m.list || y == x
  {
  }

  lemma {:induction false} NodesMembers(p: Progress<OrderNode>, anchor: Option<OrderNode>, nodes: seq<OrderNode>, y: OrderNode)
    requires y in AddNodes(p, anchor, nodes).merge.list
    ensures y in p.merge.list || y in nodes
    decreases |nodes|
  {
    if nodes != [] {
      var init, n := nodes[..|nodes| - 1], nodes[|nodes| - 1];
      var before := AddNodes(p, anchor, init);
      if y in before.merge.list {
        NodesMembers(p, anchor, init, y);
      } else {
        PlaceMembers(before.merge, n, NodeSeq, NodeReleased, y);
      }
    }
  }

  lemma {:induction false} EdgesMembers(p: Progress<OrderEdge>, base: Option<uint32>, edges: seq<OrderEdge>, y: OrderEdge)
    requires y in AddEdges(p, base, edges).merge.list
    ensures y in p.merge.list || y in edges
    decreases |edges|
  {
    if edges != [] {
      var init, e := edges[..|edges| - 1], edges[|edges| - 1];
      var before := AddEdges(p, base, init);
      if y in before.merge.list {
        EdgesMembers(p, base, init, y);
      } else {
        PlaceMembers(before.merge, e, EdgeSeq, EdgeReleased, y);
      }
    }
  }

  lemma {:induction false} PreservedMembers(nodes: seq<OrderNode>, anchor: uint32, seen: bool, y: OrderNode)
    requires y in Preserved(nodes, anchor, seen)
    ensures y in nodes
  {
    if nodes != [] && y != nodes[0] {
      PreservedMembers(nodes[1..], anchor, seen || (nodes[0].released && nodes[0].sequenceId == anchor), y);
    }
  }

  lemma {:induction false} HorizonMembers(edges: seq<OrderEdge>, y: OrderEdge)
    requires y in HorizonEdges(edges)
    ensures y in edges
  {
    if edges != [] && y != edges[0] {
      HorizonMembers(edges[1..], y);
    }
  }

  /** Every node and edge of a merged order comes from the base or the update. */
  lemma MergeInventsNothing(base: Order, update: Order, lastNodeSeq: uint32)
    requires Combined(base, update, lastNodeSeq).Merged?
    ensures var g := Combined(base, update, lastNodeSeq).order;
            && (forall n :: n in g.nodes ==> n in base.nodes || n in update.nodes)
            && (forall e :: e in g.edges ==> e in base.edges || e in update.edges)
  {
    var g := Combined(base, update, lastNodeSeq).order;
    forall n | n in g.nodes ensures n in base.nodes || n in update.nodes {
      NodesMembers(StartNodes(base), Anchor(base), update.nodes, n);
      if n in StartNodes(base).merge.list {
        PreservedMembers(base.nodes, Anchor(base).value.sequenceId, false, n);
      }
    }
    forall e | e in g.edges ensures e in base.edges || e in update.edges {
      EdgesMembers(StartEdges(base), BaseEdgeSeq(base.edges), update.edges, e);
      if e in StartEdges(base).merge.list {
        HorizonMembers(base.edges, e);
      }
    }
  }

  // ---- What a merge finds fault with ----

  lemma {:induction false} NodeFaults(p: Progress<OrderNode>, anchor: OrderNode, nodes: seq<OrderNode>)
    requires p.faults == []
    ensures var faults := AddNodes(p, Some(anchor), nodes).faults;
            && (AltersBaseNode in faults <==> exists n :: n in nodes && n.sequenceId < anchor.sequenceId)
            && (StitchNodeDiffers in faults <==> exists n :: n in nodes && n.sequenceId == anchor.sequenceId && Bare(n) != Bare(anchor))
            && (forall f :: f in faults ==> f in {AltersBaseNode, StitchNodeDiffers, UnreleasesNode})
    decreases |nodes|
  {
    if nodes != [] {
      var init, n := nodes[..|nodes| - 1], nodes[|nodes| - 1];
      assert nodes == init + [n];
      NodeFaults(p, anchor, init);
      SameNodeIffBare(n, anchor);
      OneMoreNodeFault(AddNodes(p, Some(anchor), init), anchor, n);
    }
  }

  lemma OneMoreNodeFault(p: Progress<OrderNode>, anchor: OrderNode, n: OrderNode)
    ensures AddNode(p, Some(anchor), n).faults == p.faults +
            if n.sequenceId < anchor.sequenceId then [AltersBaseNode]
            else if n.sequenceId == anchor.sequenceId then if SameNode(n, anchor) then [] else [StitchNodeDiffers]
            else if Place(p.merge, n, NodeSeq, NodeReleased).Some? then [] else [UnreleasesNode]
  {
  }

  lemma {:induction false} EdgeFaults(p: Progress<OrderEdge>, base: Option<uint32>, edges: seq<OrderEdge>)
    requires p.faults == []
    ensures var faults := AddEdges(p, base, edges).faults;
            && (AltersBaseEdge in faults <==> exists e :: e in edges && base.Some? && e.sequenceId <= base.value)
            && (forall f :: f in faults ==> f in {AltersBaseEdge, UnreleasesEdge})
    decreases |edges|
  {
    if edges != [] {
      var init, e := edges[..|edges| - 1], edges[|edges| - 1];
      assert edges == init + [e];
      EdgeFaults(p, base, init);
    }
  }

  /** With a stitch point the vehicle has not passed, a newer update of the same order is faulted for altering the base exactly
      if it names a node before the stitch point, for the stitch node exactly if it names it with other content (actions up
      to type and id), and for a base edge exactly if it names one. */
  lemma MergeFaults(base: Order, update: Order, lastNodeSeq: uint32)
    requires base.orderId == update.orderId && base.orderUpdateId < update.orderUpdateId
    requires Anchor(base).Some? && lastNodeSeq <= Anchor(base).value.sequenceId
    ensures var res, anchor := Combined(base, update, lastNodeSeq), Anchor(base).value;
            var faults := if res.Refused? then res.faults else [];
            && (AltersBaseNode in faults <==> exists n :: n in update.nodes && n.sequenceId < anchor.sequenceId)
            && (StitchNodeDiffers in faults <==>
                  exists n :: n in update.nodes && n.sequenceId == anchor.sequenceId && Bare(n) != Bare(anchor))
            && (AltersBaseEdge in faults <==>
                  exists e :: e in update.edges && BaseEdgeSeq(base.edges).Some? && e.sequenceId <= BaseEdgeSeq(base.edges).value)
  {
    NodeFaults(StartNodes(base), Anchor(base).value, update.nodes);
    EdgeFaults(StartEdges(base), BaseEdgeSeq(base.edges), update.edges);
  }

  /** Increasing sequence ids, the largest of which is known. */
  ghost predicate Ascending<T>(m: Keyed<T>, key: T -> uint32) {
    && (forall i, j :: 0 <= i < j < |m.list| ==> key(m.list[i]) < key(m.list[j]))
    && m.maxSeq == LastSeq(m.list, key)
  }

  /** Into an ascending list an element goes where its id belongs, replacing an element of that id and keeping all others;
      it is turned down only for taking back the release of one. */
  lemma PlaceKeepsAscending<T>(m: Keyed<T>, x: T, key: T -> uint32, released: T -> bool)
    requires Ascending(m, key)
    ensures var r := Place(m, x, key, released);
            if exists y :: y in m.list && key(y) == key(x) && released(y) && !released(x) then r == None
            else
              r.Some? && Ascending(r.value, key) && forall y :: y in r.value.list <==> y == x || (y in m.list && key(y) != key(x))
  {
    var at, before := Find(m.list, y => key(y) == key(x)), Find(m.list, y => key(y) > key(x));
    if key(x) > m.maxSeq {
      AppendsAscending(m, x, key);
    } else if at < |m.list| {
      ReplacesAscending(m, at, x, key);
    } else if m.list == [] {
      assert m.list[..before] + [x] + m.list[before..] == [x];
    } else {
      InsertsAscending(m, before, x, key);
    }
  }

  lemma AppendsAscending<T>(m: Keyed<T>, x: T, key: T -> uint32)
    requires Ascending(m, key) && key(x) > m.maxSeq
    ensures Ascending(Keyed(m.list + [x], key(x)), key) && forall y :: y in m.list ==> key(y) < key(x)
  {
    if m.list != [] {
      assert key(m.list[|m.list| - 1]) == m.maxSeq;
    }
  }

  lemma ReplacesAscending<T>(m: Keyed<T>, at: nat, x: T, key: T -> uint32)
    requires Ascending(m, key) && at < |m.list| && key(m.list[at]) == key(x)
    ensures var list := m.list[at := x];
            Ascending(m.(list := list), key) && forall y :: y in list <==> y == x || (y in m.list && key(y) != key(x))
  {
    var list := m.list[at := x];
    forall y ensures y in list <==> y == x || (y in m.list && key(y) != key(x)) {
      if y in m.list && key(y) != key(x) {
        var i :| 0 <= i < |m.list| && m.list[i] == y;
        assert list[i] == y;
      }
      if y in list && y != x {
        var i :| 0 <= i < |list| && list[i] == y;
        assert m.list[i] == y;
      }
      assert list[at] == x;
    }
  }

  lemma InsertsAscending<T>(m: Keyed<T>, before: nat, x: T, key: T -> uint32)
    requires Ascending(m, key) && key(x) <= m.maxSeq && m.list != [] && before == Find(m.list, y => key(y) > key(x))
    requires forall i :: 0 <= i < |m.list| ==> key(m.list[i]) != key(x)
    ensures var list := m.list[..before] + [x] + m.list[before..];
            Ascending(m.(list := list), key) && forall y :: y in list <==> y == x || y in m.list
  {
    FirstLarger(m.list, before, x, key);
    InsertedAscending(m.list, before, x, key);
    InsertedMembers(m.list, before, x);
  }

  lemma FirstLarger<T>(list: seq<T>, before: nat, x: T, key: T -> uint32)
    requires forall i, j :: 0 <= i < j < |list| ==> key(list[i]) < key(list[j])
    requires list != [] && key(x) <= key(list[|list| - 1]) && before == Find(list, y => key(y) > key(x))
    requires forall i :: 0 <= i < |list| ==> key(list[i]) != key(x)
    ensures before < |list| && (forall i :: 0 <= i < before ==> key(list[i]) < key(x))
    ensures forall i :: before <= i < |list| ==> key(x) < key(list[i])
  {
    var last := |list| - 1;
    assert key(list[last]) != key(x) && key(list[last]) > key(x);
    forall i | before <= i < |list| ensures key(x) < key(list[i]) {
      LaterIsLarger(list, before, i, key);
    }
    forall i | 0 <= i < before ensures key(list[i]) < key(x) {
      assert !(key(list[i]) > key(x)) && key(list[i]) != key(x);
    }
  }

  lemma LaterIsLarger<T>(list: seq<T>, i: nat, j: nat, key: T -> uint32)
    requires forall i, j :: 0 <= i < j < |list| ==> key(list[i]) < key(list[j])
    requires i <= j < |list|
    ensures key(list[i]) <= key(list[j])
  {
  }

  lemma InsertedAscending<T>(list: seq<T>, at: nat, x: T, key: T -> uint32)
    requires at < |list| && forall i, j :: 0 <= i < j < |list| ==> key(list[i]) < key(list[j])
    requires forall i :: 0 <= i < at ==> key(list[i]) < key(x)
    requires forall i :: at <= i < |list| ==> key(x) < key(list[i])
    ensures var all := list[..at] + [x] + list[at..];
            && (forall i, j :: 0 <= i < j < |all| ==> key(all[i]) < key(all[j]))
            && LastSeq(all, key) == LastSeq(list, key)
  {
    var all := list[..at] + [x] + list[at..];
    assert all[|all| - 1] == list[|list| - 1];
    forall i, j | 0 <= i < j < |all| ensures key(all[i]) < key(all[j]) {
      assert all[i] == if i < at then list[i] else if i == at then x else list[i - 1];
      assert all[j] == if j < at then list[j] else if j == at then x else list[j - 1];
    }
  }

  lemma InsertedMembers<T>(list: seq<T>, at: nat, x: T)
    requires at <= |list|
    ensures forall y :: y in list[..at] + [x] + list[at..] <==> y == x || y in list
  {
    assert list == list[..at] + list[at..];
  }

  // ---- What is left of the base ----

  /** Horizon nodes stay unless the update renumbers them, and so does the first released node carrying the stitch point's id. */
  ghost predicate NodeStays(base: Order, update: Order, i: nat)
    requires i < |base.nodes|
  {
    if base.nodes[i].released then Anchor(base).Some? && FirstAt(base.nodes, Anchor(base).value.sequenceId, i)
    else forall n :: n in update.nodes ==> n.sequenceId != base.nodes[i].sequenceId
  }

  /** Horizon edges stay unless the update renumbers them. */
  ghost predicate EdgeStays(base: Order, update: Order, i: nat)
    requires i < |base.edges|
  {
    !base.edges[i].released && forall e :: e in update.edges ==> e.sequenceId != base.edges[i].sequenceId
  }

  /** The first released node of that id. */
  ghost predicate FirstAt(nodes: seq<OrderNode>, id: uint32, i: nat)
    requires i < |nodes|
  {
    nodes[i].released && nodes[i].sequenceId == id && forall j :: 0 <= j < i ==> !(nodes[j].released && nodes[j].sequenceId == id)
  }

  ghost predicate IsPreserved(nodes: seq<OrderNode>, anchor: uint32, seen: bool, i: nat)
    requires i < |nodes|
  {
    !nodes[i].released || (!seen && FirstAt(nodes, anchor, i))
  }

  lemma {:induction false} PreservedHas(nodes: seq<OrderNode>, anchor: uint32, seen: bool, i: nat)
    requires i < |nodes| && IsPreserved(nodes, anchor, seen, i)
    ensures nodes[i] in Preserved(nodes, anchor, seen)
    decreases |nodes|
  {
    if i > 0 {
      assert forall j :: 0 <= j < i - 1 ==> nodes[1..][j] == nodes[j + 1];
      PreservedHas(nodes[1..], anchor, seen || (nodes[0].released && nodes[0].sequenceId == anchor), i - 1);
    }
  }

  lemma {:induction false} PreservedIsAt(nodes: seq<OrderNode>, anchor: uint32, seen: bool, y: OrderNode)
    requires y in Preserved(nodes, anchor, seen)
    ensures exists i :: 0 <= i < |nodes| && nodes[i] == y && IsPreserved(nodes, anchor, seen, i)
    decreases |nodes|
  {
    var seen' := seen || (nodes[0].released && nodes[0].sequenceId == anchor);
    if y in Preserved(nodes[1..], anchor, seen') {
      PreservedIsAt(nodes[1..], anchor, seen', y);
      var i :| 0 <= i < |nodes[1..]| && nodes[1..][i] == y && IsPreserved(nodes[1..], anchor, seen', i);
      assert forall j :: 0 < j <= i ==> nodes[j] == nodes[1..][j - 1];
      assert nodes[i + 1] == y && IsPreserved(nodes, anchor, seen, i + 1);
    } else {
      assert nodes[0] == y && IsPreserved(nodes, anchor, seen, 0);
    }
  }

  lemma {:induction false} HorizonHas(edges: seq<OrderEdge>, i: nat)
    requires i < |edges| && !edges[i].released
    ensures edges[i] in HorizonEdges(edges)
    decreases |edges|
  {
    if i > 0 {
      HorizonHas(edges[1..], i - 1);
    }
  }

  lemma {:induction false} HorizonIsUnreleased(edges: seq<OrderEdge>, y: OrderEdge)
    requires y in HorizonEdges(edges)
    ensures !y.released
    decreases |edges|
  {
    if y in HorizonEdges(edges[1..]) {
      HorizonIsUnreleased(edges[1..], y);
    }
  }

  lemma PlaceKeepsOthers<T>(m: Keyed<T>, x: T, key: T -> uint32, released: T -> bool, y: T)
    requires Place(m, x, key, released).Some? && y in m.list && key(y) != key(x)
    ensures y in Place(m, x, key, released).value.list
  {
    var i :| 0 <= i < |m.list| && m.list[i] == y;
    var r := Place(m, x, key, released).value.list;
    if key(x) > m.maxSeq {
      assert r[i] == y;
    } else if Find(m.list, z => key(z) == key(x)) < |m.list| {
      assert r[i] == y;
    } else {
      var before := Find(m.list, z => key(z) > key(x));
      assert r[if i < before then i else i + 1] == y;
    }
  }

  lemma PlacePuts<T>(m: Keyed<T>, x: T, key: T -> uint32, released: T -> bool)
    requires Place(m, x, key, released).Some?
    ensures x in Place(m, x, key, released).value.list
  {
    var r := Place(m, x, key, released).value.list;
    if key(x) > m.maxSeq {
      assert r[|m.list|] == x;
    } else {
      var at, before := Find(m.list, z => key(z) == key(x)), Find(m.list, z => key(z) > key(x));
      assert r[if at < |m.list| then at else before] == x;
    }
  }

  /** A node stays in the list as long as no added node but the stitch node has its id. */
  lemma {:induction false} NodesKeep(p: Progress<OrderNode>, anchor: OrderNode, nodes: seq<OrderNode>, y: OrderNode)
    requires y in p.merge.list && (y.sequenceId == anchor.sequenceId || forall n :: n in nodes ==> n.sequenceId != y.sequenceId)
    ensures y in AddNodes(p, Some(anchor), nodes).merge.list
    decreases |nodes|
  {
    if nodes != [] {
      var init, n := nodes[..|nodes| - 1], nodes[|nodes| - 1];
      NodesKeep(p, anchor, init, y);
      var before := AddNodes(p, Some(anchor), init);
      if n.sequenceId > anchor.sequenceId && Place(before.merge, n, NodeSeq, NodeReleased).Some? {
        PlaceKeepsOthers(before.merge, n, NodeSeq, NodeReleased, y);
      }
    }
  }

  lemma {:induction false} EdgesKeep(p: Progress<OrderEdge>, base: Option<uint32>, edges: seq<OrderEdge>, y: OrderEdge)
    requires y in p.merge.list && forall e :: e in edges ==> e.sequenceId != y.sequenceId
    ensures y in AddEdges(p, base, edges).merge.list
    decreases |edges|
  {
    if edges != [] {
      var init, e := edges[..|edges| - 1], edges[|edges| - 1];
      EdgesKeep(p, base, init, y);
      var before := AddEdges(p, base, init);
      if Place(before.merge, e, EdgeSeq, EdgeReleased).Some? {
        PlaceKeepsOthers(before.merge, e, EdgeSeq, EdgeReleased, y);
      }
    }
  }

  /** Without a fault, every added node but the stitch node is in the list, or a later one of its id is. */
  lemma {:induction false} NodesArrive(p: Progress<OrderNode>, anchor: OrderNode, nodes: seq<OrderNode>, n: OrderNode)
      returns (x: OrderNode)
    requires AddNodes(p, Some(anchor), nodes).faults == [] && n in nodes && n.sequenceId != anchor.sequenceId
    ensures x in nodes && x in AddNodes(p, Some(anchor), nodes).merge.list && x.sequenceId == n.sequenceId
    decreases |nodes|
  {
    var init, last := nodes[..|nodes| - 1], nodes[|nodes| - 1];
    var before := AddNodes(p, Some(anchor), init);
    if last.sequenceId == n.sequenceId {
      PlacePuts(before.merge, last, NodeSeq, NodeReleased);
      x := last;
    } else {
      x := NodesArrive(p, anchor, init, n);
      if last.sequenceId > anchor.sequenceId {
        PlaceKeepsOthers(before.merge, last, NodeSeq, NodeReleased, x);
      }
    }
  }

  lemma {:induction false} EdgesArrive(p: Progress<OrderEdge>, base: Option<uint32>, edges: seq<OrderEdge>, e: OrderEdge)
      returns (x: OrderEdge)
    requires AddEdges(p, base, edges).faults == [] && e in edges
    ensures x in edges && x in AddEdges(p, base, edges).merge.list && x.sequenceId == e.sequenceId
    decreases |edges|
  {
    var init, last := edges[..|edges| - 1], edges[|edges| - 1];
    var before := AddEdges(p, base, init);
    if last.sequenceId == e.sequenceId {
      PlacePuts(before.merge, last, EdgeSeq, EdgeReleased);
      x := last;
    } else {
      x := EdgesArrive(p, base, init, e);
      PlaceKeepsOthers(before.merge, last, EdgeSeq, EdgeReleased, x);
    }
  }

  /** What stays of the base is in the merged order. */
  lemma StayingIsMerged(base: Order, update: Order, lastNodeSeq: uint32)
    requires Combined(base, update, lastNodeSeq).Merged?
    ensures var g := Combined(base, update, lastNodeSeq).order;
            && (forall i :: 0 <= i < |base.nodes| && NodeStays(base, update, i) ==> base.nodes[i] in g.nodes)
            && (forall i :: 0 <= i < |base.edges| && EdgeStays(base, update, i) ==> base.edges[i] in g.edges)
  {
    var g := Combined(base, update, lastNodeSeq).order;
    forall i | 0 <= i < |base.nodes| && NodeStays(base, update, i) ensures base.nodes[i] in g.nodes {
      PreservedHas(base.nodes, Anchor(base).value.sequenceId, false, i);
      NodesKeep(StartNodes(base), Anchor(base).value, update.nodes, base.nodes[i]);
    }
    forall i | 0 <= i < |base.edges| && EdgeStays(base, update, i) ensures base.edges[i] in g.edges {
      HorizonHas(base.edges, i);
      EdgesKeep(StartEdges(base), BaseEdgeSeq(base.edges), update.edges, base.edges[i]);
    }
  }

  lemma NodeIdsDiffer(o: Order, i: nat, j: nat)
    requires WellFormed(o) && i < j < |o.nodes| <= 0x8000_0000
    ensures o.nodes[i].sequenceId != o.nodes[j].sequenceId
  {
    var k, s := Split(o), o.nodes[0].sequenceId;
    ShapeAt(o, k);
    assert NodeAt(o.nodes[i], s, i, k) && NodeAt(o.nodes[j], s, j, k);
    NoEarlyRepeat(s, i, j);
  }

  lemma EdgeIdsDiffer(o: Order, i: nat, j: nat)
    requires WellFormed(o) && i < j < |o.edges| && |o.nodes| <= 0x8000_0000
    ensures o.edges[i].sequenceId != o.edges[j].sequenceId
  {
    var k, s := Split(o), o.nodes[0].sequenceId;
    ShapeAt(o, k);
    assert EdgeAt(o.edges[i], o.nodes[i], o.nodes[i + 1], s, i, k) && EdgeAt(o.edges[j], o.nodes[j], o.nodes[j + 1], s, j, k);
    NoEarlyRepeat(s + 1, i, j);
  }

  /** In a valid order of at most 2^31 nodes no two nodes have the same sequence id. */
  lemma SameIdSameNode(o: Order, x: OrderNode, y: OrderNode)
    requires WellFormed(o) && |o.nodes| <= 0x8000_0000 && x in o.nodes && y in o.nodes && x.sequenceId == y.sequenceId
    ensures x == y
  {
    var i :| 0 <= i < |o.nodes| && o.nodes[i] == x;
    var j :| 0 <= j < |o.nodes| && o.nodes[j] == y;
    if i != j {
      NodeIdsDiffer(o, if i < j then i else j, if i < j then j else i);
    }
  }

  lemma SameIdSameEdge(o: Order, x: OrderEdge, y: OrderEdge)
    requires WellFormed(o) && |o.nodes| <= 0x8000_0000 && x in o.edges && y in o.edges && x.sequenceId == y.sequenceId
    ensures x == y
  {
    var i :| 0 <= i < |o.edges| && o.edges[i] == x;
    var j :| 0 <= j < |o.edges| && o.edges[j] == y;
    if i != j {
      EdgeIdsDiffer(o, if i < j then i else j, if i < j then j else i);
    }
  }

  lemma {:induction false} PreservedShrinks(nodes: seq<OrderNode>, anchor: uint32, seen: bool)
    ensures |Preserved(nodes, anchor, seen)| <= |nodes|
  {
    if nodes != [] {
      PreservedShrinks(nodes[1..], anchor, seen || (nodes[0].released && nodes[0].sequenceId == anchor));
    }
  }

  lemma {:induction false} NodesGrow(p: Progress<OrderNode>, anchor: Option<OrderNode>, nodes: seq<OrderNode>)
    ensures |AddNodes(p, anchor, nodes).merge.list| <= |p.merge.list| + |nodes|
    decreases |nodes|
  {
    if nodes != [] {
      NodesGrow(p, anchor, nodes[..|nodes| - 1]);
    }
  }

  /** A merged order has no more nodes than base and update together. */
  lemma MergeIsNoLonger(base: Order, update: Order, lastNodeSeq: uint32)
    requires Combined(base, update, lastNodeSeq).Merged?
    ensures |Combined(base, update, lastNodeSeq).order.nodes| <= |base.nodes| + |update.nodes|
  {
    NodesGrow(StartNodes(base), Anchor(base), update.nodes);
    if Anchor(base).Some? {
      PreservedShrinks(base.nodes, Anchor(base).value.sequenceId, false);
    }
  }

  /** A valid merged order holds nothing of the base but what stays. */
  lemma MergedIsRestOrUpdate(base: Order, update: Order, lastNodeSeq: uint32)
    requires MergeIsValid(base, update, lastNodeSeq) && |Combined(base, update, lastNodeSeq).order.nodes| <= 0x8000_0000
    ensures var g := Combined(base, update, lastNodeSeq).order;
            && (forall y :: y in g.nodes ==> y in update.nodes || exists i :: 0 <= i < |base.nodes| && base.nodes[i] == y && NodeStays(base, update, i))
            && (forall y :: y in g.edges ==> y in update.edges || exists i :: 0 <= i < |base.edges| && base.edges[i] == y && EdgeStays(base, update, i))
  {
    var g := Combined(base, update, lastNodeSeq).order;
    forall y | y in g.nodes
      ensures y in update.nodes || exists i :: 0 <= i < |base.nodes| && base.nodes[i] == y && NodeStays(base, update, i)
    {
      MergedNodeOrigin(base, update, lastNodeSeq, y);
    }
    forall y | y in g.edges
      ensures y in update.edges || exists i :: 0 <= i < |base.edges| && base.edges[i] == y && EdgeStays(base, update, i)
    {
      MergedEdgeOrigin(base, update, lastNodeSeq, y);
    }
  }

  lemma MergedNodeOrigin(base: Order, update: Order, lastNodeSeq: uint32, y: OrderNode)
    requires MergeIsValid(base, update, lastNodeSeq) && |Combined(base, update, lastNodeSeq).order.nodes| <= 0x8000_0000
    requires y in Combined(base, update, lastNodeSeq).order.nodes
    ensures y in update.nodes || exists i :: 0 <= i < |base.nodes| && base.nodes[i] == y && NodeStays(base, update, i)
  {
    NodesMembers(StartNodes(base), Anchor(base), update.nodes, y);
    if y !in update.nodes {
      var a := Anchor(base).value;
      PreservedIsAt(base.nodes, a.sequenceId, false, y);
      var i :| 0 <= i < |base.nodes| && base.nodes[i] == y && IsPreserved(base.nodes, a.sequenceId, false, i);
      if !y.released && exists n :: n in update.nodes && n.sequenceId == y.sequenceId {
        var n :| n in update.nodes && n.sequenceId == y.sequenceId;
        if n.sequenceId == a.sequenceId {
          StitchNodeStays(base, update, lastNodeSeq, y);
        } else {
          var x := NodesArrive(StartNodes(base), a, update.nodes, n);
          SameIdSameNode(Combined(base, update, lastNodeSeq).order, x, y);
        }
        assert false;
      }
    }
  }

  /** No other node of the merged order has the stitch point's id. */
  lemma StitchNodeStays(base: Order, update: Order, lastNodeSeq: uint32, y: OrderNode)
    requires MergeIsValid(base, update, lastNodeSeq) && |Combined(base, update, lastNodeSeq).order.nodes| <= 0x8000_0000
    requires y in Combined(base, update, lastNodeSeq).order.nodes && Anchor(base).Some? && y.sequenceId == Anchor(base).value.sequenceId
    ensures y.released
  {
    var i := FirstStitchNode(base, update);
    StayingIsMerged(base, update, lastNodeSeq);
    SameIdSameNode(Combined(base, update, lastNodeSeq).order, base.nodes[i], y);
  }

  lemma FirstStitchNode(base: Order, update: Order) returns (i: nat)
    requires Anchor(base).Some?
    ensures i < |base.nodes| && NodeStays(base, update, i)
    ensures base.nodes[i].released && base.nodes[i].sequenceId == Anchor(base).value.sequenceId
  {
    var id := Anchor(base).value.sequenceId;
    i := Find(base.nodes, (n: OrderNode) => n.released && n.sequenceId == id);
  }

  lemma MergedEdgeOrigin(base: Order, update: Order, lastNodeSeq: uint32, y: OrderEdge)
    requires MergeIsValid(base, update, lastNodeSeq) && |Combined(base, update, lastNodeSeq).order.nodes| <= 0x8000_0000
    requires y in Combined(base, update, lastNodeSeq).order.edges
    ensures y in update.edges || exists i :: 0 <= i < |base.edges| && base.edges[i] == y && EdgeStays(base, update, i)
  {
    EdgesMembers(StartEdges(base), BaseEdgeSeq(base.edges), update.edges, y);
    if y !in update.edges {
      HorizonMembers(base.edges, y);
      HorizonIsUnreleased(base.edges, y);
      var i :| 0 <= i < |base.edges| && base.edges[i] == y;
      if exists e :: e in update.edges && e.sequenceId == y.sequenceId {
        var e :| e in update.edges && e.sequenceId == y.sequenceId;
        var x := EdgesArrive(StartEdges(base), BaseEdgeSeq(base.edges), update.edges, e);
        SameIdSameEdge(Combined(base, update, lastNodeSeq).order, x, y);
        assert false;
      }
    }
  }

  // ---- What merging an accepted update yields ----

  /** No sequence id of the order wraps past 2^32 from node `from` on. */
  ghost predicate NoWrapFrom(o: Order, from: nat)
    requires from < |o.nodes|
  {
    o.nodes[from].sequenceId + 2 * (|o.edges| - from) < TWO_TO_THE_32
  }

  ghost predicate NoWrap(o: Order)
    requires o.nodes != []
  {
    NoWrapFrom(o, 0)
  }

  /** `over` laid on top of `under`, position by position. */
  function Overlay<T>(over: seq<T>, under: seq<T>): seq<T> {
    if |over| >= |under| then over else over + under[|over|..]
  }

  ghost predicate Spaced<T>(s: seq<T>, key: T -> uint32, start: nat) {
    forall i :: 0 <= i < |s| ==> key(s[i]) == start + 2 * i
  }

  /** Placing the next element of a run either replaces the one below it or extends the list. */
  lemma PlaceNext<T>(over: seq<T>, under: seq<T>, x: T, key: T -> uint32, released: T -> bool, start: nat, maxSeq: uint32)
    requires Spaced(over, key, start) && Spaced(under, key, start) && key(x) == start + 2 * |over|
    requires maxSeq == LastSeq(Overlay(over, under), key)
    requires Overlay(over, under) == [] ==> 0 < start
    requires |over| < |under| ==> !released(under[|over|])
    ensures Place(Keyed(Overlay(over, under), maxSeq), x, key, released)
         == Some(Keyed(Overlay(over + [x], under), LastSeq(Overlay(over + [x], under), key)))
  {
    var list := Overlay(over, under);
    OverlayNext(over, under, x);
    OverlaySpaced(over, under, key, start);
    if |over| < |under| {
      PlaceBelow(list, maxSeq, x, key, released, start, |over|);
    }
  }

  lemma OverlayNext<T>(over: seq<T>, under: seq<T>, x: T)
    ensures Overlay(over + [x], under) ==
            if |over| < |under| then Overlay(over, under)[|over| := x] else Overlay(over, under) + [x]
    ensures |over| < |under| ==> Overlay(over, under)[|over|] == under[|over|]
  {
  }

  lemma OverlaySpaced<T>(over: seq<T>, under: seq<T>, key: T -> uint32, start: nat)
    requires Spaced(over, key, start) && Spaced(under, key, start)
    ensures Spaced(Overlay(over, under), key, start)
  {
  }

  /** In a run, an element is placed where its id already is. */
  lemma PlaceBelow<T>(list: seq<T>, maxSeq: uint32, x: T, key: T -> uint32, released: T -> bool, start: nat, at: nat)
    requires Spaced(list, key, start) && at < |list| && key(x) == start + 2 * at
    requires maxSeq == LastSeq(list, key) && !released(list[at])
    ensures Place(Keyed(list, maxSeq), x, key, released) == Some(Keyed(list[at := x], LastSeq(list[at := x], key)))
  {
    assert key(list[|list| - 1]) == start + 2 * (|list| - 1);
    assert Find(list, y => key(y) == key(x)) == at;
  }

  /** Edges numbered like the kept horizon are laid over it. */
  lemma {:induction false} EdgesOverlay(under: seq<OrderEdge>, over: seq<OrderEdge>, base: Option<uint32>, start: nat)
    requires Spaced(under, EdgeSeq, start) && Spaced(over, EdgeSeq, start) && 0 < start
    requires base.Some? ==> base.value < start
    requires forall i :: 0 <= i < |under| ==> !under[i].released
    ensures AddEdges(Progress(Keyed(under, LastSeq(under, EdgeSeq)), []), base, over)
         == Progress(Keyed(Overlay(over, under), LastSeq(Overlay(over, under), EdgeSeq)), [])
    decreases |over|
  {
    if over == [] {
      assert Overlay(over, under) == under;
    } else {
      var n := |over| - 1;
      var init, e := over[..n], over[n];
      assert over == init + [e];
      EdgesOverlay(under, init, base, start);
      PlaceNext(init, under, e, EdgeSeq, EdgeReleased, start, LastSeq(Overlay(init, under), EdgeSeq));
    }
  }

  function OverlayOfNodes(under: seq<OrderNode>, over: seq<OrderNode>): Progress<OrderNode>
    requires under != [] && over != []
  {
    var merged := Overlay([under[0]] + over[1..], under);
    Progress(Keyed(merged, LastSeq(merged, NodeSeq)), [])
  }

  /** Nodes numbered like the kept ones are laid over them, behind the base's own copy of the stitch node. */
  lemma {:induction false} NodesOverlay(under: seq<OrderNode>, over: seq<OrderNode>, start: nat, n: nat)
    requires Spaced(under, NodeSeq, start) && Spaced(over, NodeSeq, start)
    requires under != [] && 0 < n <= |over| && SameNode(over[0], under[0])
    requires forall i :: 0 < i < |under| ==> !under[i].released
    ensures AddNodes(Progress(Keyed(under, LastSeq(under, NodeSeq)), []), Some(under[0]), over[..n])
         == OverlayOfNodes(under, over[..n])
  {
    if n == 1 {
      OnlyStitchNode(under, over[..n]);
    } else {
      NodesOverlay(under, over, start, n - 1);
      NodesOverlayStep(under, over[..n - 1], over[n - 1], start);
      LastOf(over, n);
    }
  }

  lemma LastOf<T>(s: seq<T>, n: nat)
    requires 0 < n <= |s|
    ensures s[..n] == s[..n - 1] + [s[n - 1]]
  {
  }

  lemma NodesOverlayStep(under: seq<OrderNode>, init: seq<OrderNode>, x: OrderNode, start: nat)
    requires Spaced(under, NodeSeq, start) && Spaced(init, NodeSeq, start)
    requires under != [] && init != [] && NodeSeq(x) == start + 2 * |init|
    requires forall i :: 0 < i < |under| ==> !under[i].released
    requires AddNodes(Progress(Keyed(under, LastSeq(under, NodeSeq)), []), Some(under[0]), init) == OverlayOfNodes(under, init)
    ensures AddNodes(Progress(Keyed(under, LastSeq(under, NodeSeq)), []), Some(under[0]), init + [x])
         == OverlayOfNodes(under, init + [x])
  {
    OneMoreNode(under, init, x, start);
    LastNode(Progress(Keyed(under, LastSeq(under, NodeSeq)), []), Some(under[0]), init, x);
  }

  lemma OneNode(p: Progress<OrderNode>, anchor: OrderNode, nodes: seq<OrderNode>)
    requires |nodes| == 1 && SameNode(nodes[0], anchor)
    ensures AddNodes(p, Some(anchor), nodes) == p
  {
    LastNode(p, Some(anchor), [], nodes[0]);
    assert [] + [nodes[0]] == nodes;
  }

  lemma OnlyStitchNode(under: seq<OrderNode>, over: seq<OrderNode>)
    requires under != [] && |over| == 1 && SameNode(over[0], under[0])
    ensures AddNodes(Progress(Keyed(under, LastSeq(under, NodeSeq)), []), Some(under[0]), over) == OverlayOfNodes(under, over)
  {
    OneNode(Progress(Keyed(under, LastSeq(under, NodeSeq)), []), under[0], over);
    NothingOnTop(under, over);
  }

  lemma NothingOnTop(under: seq<OrderNode>, over: seq<OrderNode>)
    requires under != [] && |over| == 1
    ensures Overlay([under[0]] + over[1..], under) == under
  {
  }

  lemma LastNode(p: Progress<OrderNode>, anchor: Option<OrderNode>, init: seq<OrderNode>, x: OrderNode)
    ensures AddNodes(p, anchor, init + [x]) == AddNode(AddNodes(p, anchor, init), anchor, x)
  {
    assert (init + [x])[..|init|] == init;
  }

  lemma HeadReplaced(head: OrderNode, nodes: seq<OrderNode>, start: nat)
    requires Spaced(nodes, NodeSeq, start) && nodes != [] && NodeSeq(head) == start
    ensures Spaced([head] + nodes[1..], NodeSeq, start)
  {
  }

  lemma OneMoreNode(under: seq<OrderNode>, init: seq<OrderNode>, x: OrderNode, start: nat)
    requires Spaced(under, NodeSeq, start) && Spaced(init, NodeSeq, start)
    requires under != [] && init != [] && NodeSeq(x) == start + 2 * |init|
    requires forall i :: 0 < i < |under| ==> !under[i].released
    ensures AddNode(OverlayOfNodes(under, init), Some(under[0]), x) == OverlayOfNodes(under, init + [x])
  {
    var placed := [under[0]] + init[1..];
    HeadReplaced(under[0], init, start);
    PlaceNext(placed, under, x, NodeSeq, NodeReleased, start, LastSeq(Overlay(placed, under), NodeSeq));
    OneMorePlaced(under, init, x);
    assert NodeSeq(under[0]) == start;
  }

  lemma OneMorePlaced(under: seq<OrderNode>, init: seq<OrderNode>, x: OrderNode)
    requires under != [] && init != []
    ensures var merged := Overlay([under[0]] + init[1..] + [x], under);
            OverlayOfNodes(under, init + [x]) == Progress(Keyed(merged, LastSeq(merged, NodeSeq)), [])
  {
    assert [under[0]] + init[1..] + [x] == [under[0]] + (init + [x])[1..];
  }

  /** Counting on from a node is counting on without wrapping, as long as there is room. */
  lemma CountsOn(s0: nat, from: nat, at: uint32, d: nat)
    requires at == (s0 + 2 * from) % TWO_TO_THE_32 && at + d < TWO_TO_THE_32
    ensures (s0 + 2 * from + d) % TWO_TO_THE_32 == at + d
  {
    AddWraps(s0 + 2 * from, d);
  }

  lemma ShapeNode(o: Order, k: nat, from: nat, i: nat)
    requires Shape(o, k) && from <= i < |o.nodes| && NoWrapFrom(o, from)
    ensures o.nodes[i].sequenceId == o.nodes[from].sequenceId + 2 * (i - from)
  {
    ShapeAt(o, k);
    assert NodeAt(o.nodes[i], o.nodes[0].sequenceId, i, k) && NodeAt(o.nodes[from], o.nodes[0].sequenceId, from, k);
    CountsOn(o.nodes[0].sequenceId, from, o.nodes[from].sequenceId, 2 * (i - from));
  }

  lemma ShapeEdge(o: Order, k: nat, from: nat, i: nat)
    requires Shape(o, k) && from <= i < |o.edges| && NoWrapFrom(o, from)
    ensures o.edges[i].sequenceId == o.nodes[from].sequenceId + 2 * (i - from) + 1
  {
    ShapeAt(o, k);
    assert EdgeAt(o.edges[i], o.nodes[i], o.nodes[i + 1], o.nodes[0].sequenceId, i, k);
    assert NodeAt(o.nodes[from], o.nodes[0].sequenceId, from, k);
    CountsOn(o.nodes[0].sequenceId, from, o.nodes[from].sequenceId, 2 * (i - from) + 1);
  }

  lemma ShapeSpaced(o: Order, k: nat, from: nat)
    requires Shape(o, k) && from < |o.nodes| && NoWrapFrom(o, from)
    ensures Spaced(o.nodes[from..], NodeSeq, o.nodes[from].sequenceId)
    ensures Spaced(o.edges[from..], EdgeSeq, o.nodes[from].sequenceId + 1)
  {
    var nodes, edges := o.nodes[from..], o.edges[from..];
    forall i | 0 <= i < |nodes| ensures NodeSeq(nodes[i]) == o.nodes[from].sequenceId + 2 * i {
      ShapeNode(o, k, from, from + i);
    }
    forall i | 0 <= i < |edges| ensures EdgeSeq(edges[i]) == o.nodes[from].sequenceId + 1 + 2 * i {
      ShapeEdge(o, k, from, from + i);
    }
  }

  /** The edge before a node has the id before the node's, modulo 2^32. */
  lemma EdgeBefore(o: Order, k: nat, i: nat)
    requires Shape(o, k) && 0 < i < |o.nodes|
    ensures o.nodes[i].sequenceId == Inc(o.edges[i - 1].sequenceId)
  {
    SequencesClean(o, k, i - 1);
    assert !Bad(SequenceJump, o, i - 1);
  }

  /** Sequence ids do not wrap where the update and the horizon of the base overlap. */
  ghost predicate Unwrapped(base: Order, update: Order)
    requires WellFormed(base) && update.nodes != []
  {
    var k := Split(base);
    NoWrap(update) && NoWrapFrom(base, k) && (k > 0 ==> base.nodes[k].sequenceId > 0)
  }

  /** An accepted update of the same order whose ids do not wrap where the two overlap. */
  ghost predicate Mergeable(base: Order, update: Order) {
    && WellFormed(base) && AnchorFirst(base)
    && AcceptedUpdate(base, update) && update.orderId == base.orderId
    && Unwrapped(base, update)
  }

  /** The order that merging an accepted update yields: the update laid over the kept part of the base,
      behind the base's copy of the stitch node. */
  ghost function MergedOrder(base: Order, update: Order): Order
    requires WellFormed(base) && update.nodes != []
  {
    var k := Split(base);
    Order(base.orderId, update.orderUpdateId,
          Overlay([base.nodes[k]] + update.nodes[1..], base.nodes[k..]),
          Overlay(update.edges, base.edges[k..]),
          update.zoneSetId)
  }

  /** Merging an accepted update fails only when the vehicle has passed the stitch point;
      otherwise it lays the update over the old horizon. */
  lemma MergeOfAcceptedUpdate(base: Order, update: Order, lastNodeSeq: uint32)
    requires Mergeable(base, update)
    ensures lastNodeSeq > base.nodes[Split(base)].sequenceId ==>
              Combined(base, update, lastNodeSeq) == Refused([StitchPointPassed])
    ensures lastNodeSeq <= base.nodes[Split(base)].sequenceId ==>
              Combined(base, update, lastNodeSeq) == Merged(MergedOrder(base, update))
  {
    StartOfShape(base, Split(base));
    if lastNodeSeq <= base.nodes[Split(base)].sequenceId {
      MergedNodeList(base, update);
      MergedEdgeList(base, update);
      CombinedFrom(base, update, lastNodeSeq,
                   AddNodes(StartNodes(base), Anchor(base), update.nodes),
                   AddEdges(StartEdges(base), BaseEdgeSeq(base.edges), update.edges));
    }
  }

  /** Without an early fault the merge is what the two lists say. */
  lemma CombinedFrom(base: Order, update: Order, lastNodeSeq: uint32, nodes: Progress<OrderNode>, edges: Progress<OrderEdge>)
    requires EarlyFault(base, update, lastNodeSeq).None?
    requires nodes == AddNodes(StartNodes(base), Anchor(base), update.nodes)
    requires edges == AddEdges(StartEdges(base), BaseEdgeSeq(base.edges), update.edges)
    requires nodes.faults == [] && edges.faults == []
    ensures Combined(base, update, lastNodeSeq)
         == Merged(Order(base.orderId, update.orderUpdateId, nodes.merge.list, edges.merge.list, update.zoneSetId))
  {
  }

  lemma MergedNodeList(base: Order, update: Order)
    requires Mergeable(base, update)
    ensures AddNodes(StartNodes(base), Anchor(base), update.nodes) == OverlayOfNodes(base.nodes[Split(base)..], update.nodes)
  {
    var k, under := Split(base), base.nodes[Split(base)..];
    StartOfShape(base, k);
    ShapeSpaced(base, k, k);
    UpdateSpaced(base, update);
    NodesOverlay(under, update.nodes, base.nodes[k].sequenceId, |update.nodes|);
    WholeSlice(update.nodes);
  }

  lemma WholeSlice<T>(s: seq<T>)
    ensures s[..|s|] == s && s[0..] == s
  {
  }

  /** An accepted update is numbered from the stitch point on. */
  lemma UpdateSpaced(base: Order, update: Order)
    requires Mergeable(base, update)
    ensures SameNode(update.nodes[0], base.nodes[Split(base)])
    ensures Spaced(update.nodes, NodeSeq, base.nodes[Split(base)].sequenceId)
    ensures Spaced(update.edges, EdgeSeq, base.nodes[Split(base)].sequenceId + 1)
  {
    ShapeSpaced(update, Split(update), 0);
    WholeSlice(update.nodes);
    WholeSlice(update.edges);
    assert SameNode(update.nodes[0], base.nodes[Split(base)]);
  }

  lemma BaseEdgeAtSplit(base: Order)
    requires WellFormed(base)
    ensures BaseEdgeSeq(base.edges) == if Split(base) == 0 then None else Some(base.edges[Split(base) - 1].sequenceId)
  {
    BaseEdgeOf(base.edges, Split(base));
  }

  /** The base's last released edge is numbered below what the update brings. */
  lemma BaseEdgeIsBelow(base: Order)
    requires WellFormed(base) && (Split(base) > 0 ==> base.nodes[Split(base)].sequenceId > 0)
    ensures var last := BaseEdgeSeq(base.edges); last.Some? ==> last.value < base.nodes[Split(base)].sequenceId + 1
  {
    BaseEdgeAtSplit(base);
    if Split(base) > 0 {
      EdgeBefore(base, Split(base), Split(base));
      IncIsAbove(base.edges[Split(base) - 1].sequenceId);
    }
  }

  lemma IncIsAbove(x: uint32)
    ensures Inc(x) > 0 ==> x < Inc(x)
  {
  }

  lemma MergedEdgeList(base: Order, update: Order)
    requires Mergeable(base, update)
    ensures var r := AddEdges(StartEdges(base), BaseEdgeSeq(base.edges), update.edges);
            r.faults == [] && r.merge.list == Overlay(update.edges, base.edges[Split(base)..])
  {
    var k := Split(base);
    BaseEdgeIsBelow(base);
    StartOfShape(base, k);
    ShapeSpaced(base, k, k);
    UpdateSpaced(base, update);
    EdgesOverlay(base.edges[k..], update.edges, BaseEdgeSeq(base.edges), base.nodes[k].sequenceId + 1);
  }

  /** Ids are compared as plain numbers, so an accepted update whose ids wrap past 2^32 is refused:
      its last node looks like a part of the base. */
  lemma WrappingUpdateIsRefused(base: Order, update: Order, lastNodeSeq: uint32)
    requires WellFormed(base) && AcceptedUpdate(base, update) && update.orderId == base.orderId
    requires !NoWrap(update) && |update.nodes| <= 0x8000_0000
    ensures Combined(base, update, lastNodeSeq).Refused?
  {
    assert SameNode(update.nodes[0], base.nodes[Split(base)]);
    LastIdIsSmall(update, Split(update));
  }

  lemma LastIdIsSmall(o: Order, j: nat)
    requires Shape(o, j) && !NoWrap(o) && |o.nodes| <= 0x8000_0000
    ensures o.nodes[|o.nodes| - 1].sequenceId < o.nodes[0].sequenceId
  {
    var s, m := o.nodes[0].sequenceId, |o.nodes| - 1;
    ShapeAt(o, j);
    assert NodeAt(o.nodes[m], s, m, j);
  }

  /** The update reaches past the old horizon, or ends at the node the old horizon has in that place. */
  ghost predicate JoinsHorizon(base: Order, update: Order)
    requires WellFormed(base) && update.nodes != []
  {
    var k, m := Split(base), |update.nodes| - 1;
    k + m < |base.nodes| - 1 ==> update.nodes[m].nodeId == base.nodes[k + m].nodeId
  }

  lemma MergedNodes(under: seq<OrderNode>, over: seq<OrderNode>, start: nat, j: nat)
    requires Spaced(under, NodeSeq, start) && Spaced(over, NodeSeq, start)
    requires under != [] && over != [] && j < |over| && under[0].released
    requires forall i :: 0 < i < |under| ==> !under[i].released
    requires forall i :: 0 <= i < |over| ==> (over[i].released <==> i <= j)
    ensures Spaced(Overlay([under[0]] + over[1..], under), NodeSeq, start)
    ensures var g := Overlay([under[0]] + over[1..], under); forall i :: 0 <= i < |g| ==> (g[i].released <==> i <= j)
  {
    var placed := [under[0]] + over[1..];
    assert forall i :: 0 < i < |over| ==> placed[i] == over[i];
  }

  lemma MergedEdges(under: seq<OrderEdge>, over: seq<OrderEdge>, start: nat, j: nat)
    requires Spaced(under, EdgeSeq, start) && Spaced(over, EdgeSeq, start) && j <= |over|
    requires forall i :: 0 <= i < |under| ==> !under[i].released
    requires forall i :: 0 <= i < |over| ==> (over[i].released <==> i < j)
    ensures Spaced(Overlay(over, under), EdgeSeq, start)
    ensures var g := Overlay(over, under); forall i :: 0 <= i < |g| ==> (g[i].released <==> i < j)
  {
  }

  /** Edge `i` joins nodes `i` and `i + 1`. */
  ghost predicate Joined(nodes: seq<OrderNode>, edges: seq<OrderEdge>, i: nat)
    requires i < |edges| && i + 1 < |nodes|
  {
    edges[i].startNodeId == nodes[i].nodeId && edges[i].endNodeId == nodes[i + 1].nodeId
  }

  ghost predicate Connected(nodes: seq<OrderNode>, edges: seq<OrderEdge>) {
    |nodes| == |edges| + 1 && forall i :: 0 <= i < |edges| ==> Joined(nodes, edges, i)
  }

  /** Laying one connected stretch over another keeps every join but the one where the upper stretch ends. */
  lemma MergedJoins(under: seq<OrderNode>, underEdges: seq<OrderEdge>, over: seq<OrderNode>, overEdges: seq<OrderEdge>)
    requires Connected(under, underEdges) && Connected(over, overEdges) && over[0].nodeId == under[0].nodeId
    ensures var m := |overEdges|;
            Connected(Overlay([under[0]] + over[1..], under), Overlay(overEdges, underEdges))
            <==> (m < |underEdges| ==> over[m].nodeId == under[m].nodeId)
  {
    var placed := [under[0]] + over[1..];
    var nodes, edges, m := Overlay(placed, under), Overlay(overEdges, underEdges), |overEdges|;
    assert forall i :: 0 <= i < |over| ==> placed[i].nodeId == over[i].nodeId;
    forall i | 0 <= i < |edges| && i != m ensures Joined(nodes, edges, i) {
      if i < m {
        assert Joined(over, overEdges, i);
      } else {
        assert Joined(under, underEdges, i);
      }
    }
    if m < |underEdges| {
      assert Joined(under, underEdges, m);
      assert Joined(nodes, edges, m) <==> over[m].nodeId == under[m].nodeId;
    }
  }

  /** The part of an order from its split on. */
  lemma ShapeSuffix(o: Order, k: nat, from: nat)
    requires Shape(o, k) && from <= k
    ensures Connected(o.nodes[from..], o.edges[from..])
    ensures forall i :: 0 <= i < |o.nodes[from..]| ==> (o.nodes[from..][i].released <==> i <= k - from)
    ensures forall i :: 0 <= i < |o.edges[from..]| ==> (o.edges[from..][i].released <==> i < k - from)
  {
    var nodes, edges := o.nodes[from..], o.edges[from..];
    forall i | 0 <= i < |edges| ensures Joined(nodes, edges, i) {
      assert edges[i] == o.edges[from + i] && nodes[i] == o.nodes[from + i] && nodes[i + 1] == o.nodes[from + (i + 1)];
    }
  }

  /** A run of consecutive ids from an even start, connected and split at `j`, is a valid order. */
  lemma RunIsShape(g: Order, start: nat, j: nat)
    requires g.nodes != [] && start % 2 == 0 && Spaced(g.nodes, NodeSeq, start) && Spaced(g.edges, EdgeSeq, start + 1)
    requires |g.nodes| == |g.edges| + 1 && j < |g.nodes|
    requires forall i :: 0 <= i < |g.nodes| ==> (g.nodes[i].released <==> i <= j)
    requires forall i :: 0 <= i < |g.edges| ==> (g.edges[i].released <==> i < j)
    ensures Shape(g, j) <==> Connected(g.nodes, g.edges)
  {
    assert NodeSeq(g.nodes[0]) == start;
    forall i | 0 <= i < |g.nodes| ensures g.nodes[i].sequenceId == (g.nodes[0].sequenceId + 2 * i) % TWO_TO_THE_32 {
      assert NodeSeq(g.nodes[i]) == start + 2 * i;
    }
    forall i | 0 <= i < |g.edges| ensures g.edges[i].sequenceId == (g.nodes[0].sequenceId + 2 * i + 1) % TWO_TO_THE_32 {
      assert EdgeSeq(g.edges[i]) == start + 1 + 2 * i;
    }
    if Shape(g, j) {
      forall i | 0 <= i < |g.edges| ensures Joined(g.nodes, g.edges, i) {
      }
    }
    if Connected(g.nodes, g.edges) {
      forall i | 0 <= i < |g.edges|
        ensures g.edges[i].startNodeId == g.nodes[i].nodeId && g.edges[i].endNodeId == g.nodes[i + 1].nodeId
      {
        assert Joined(g.nodes, g.edges, i);
      }
    }
  }

  lemma MergedNodeRun(base: Order, update: Order, k: nat, j: nat)
    requires Mergeable(base, update) && k == Split(base) && j == Split(update)
    ensures var nodes := Overlay([base.nodes[k]] + update.nodes[1..], base.nodes[k..]);
            && nodes != [] && j < |nodes| && Spaced(nodes, NodeSeq, base.nodes[k].sequenceId)
            && forall i :: 0 <= i < |nodes| ==> (nodes[i].released <==> i <= j)
  {
    ShapeSpaced(base, k, k);
    ShapeSpaced(update, j, 0);
    ShapeSuffix(base, k, k);
    assert SameNode(update.nodes[0], base.nodes[k]);
    assert update.nodes[0..] == update.nodes;
    MergedNodes(base.nodes[k..], update.nodes, base.nodes[k].sequenceId, j);
  }

  lemma MergedEdgeRun(base: Order, update: Order, k: nat, j: nat)
    requires Mergeable(base, update) && k == Split(base) && j == Split(update)
    ensures var edges := Overlay(update.edges, base.edges[k..]);
            && Spaced(edges, EdgeSeq, base.nodes[k].sequenceId + 1)
            && forall i :: 0 <= i < |edges| ==> (edges[i].released <==> i < j)
  {
    ShapeSpaced(base, k, k);
    ShapeSpaced(update, j, 0);
    ShapeSuffix(base, k, k);
    assert SameNode(update.nodes[0], base.nodes[k]);
    assert update.edges[0..] == update.edges;
    MergedEdges(base.edges[k..], update.edges, base.nodes[k].sequenceId + 1, j);
  }

  lemma MergedIsConnected(base: Order, update: Order)
    requires Mergeable(base, update)
    ensures Connected(MergedOrder(base, update).nodes, MergedOrder(base, update).edges) <==> JoinsHorizon(base, update)
  {
    var k, j := Split(base), Split(update);
    ShapeSuffix(base, k, k);
    ShapeSuffix(update, j, 0);
    assert SameNode(update.nodes[0], base.nodes[k]);
    assert update.nodes[0..] == update.nodes && update.edges[0..] == update.edges;
    MergedJoins(base.nodes[k..], base.edges[k..], update.nodes, update.edges);
  }

  /** Merging an accepted update gives a valid order exactly when the update joins the old horizon:
      one that is shorter than the horizon and ends elsewhere leaves a broken route. */
  lemma MergeIsValidIffJoined(base: Order, update: Order)
    requires Mergeable(base, update)
    ensures WellFormed(MergedOrder(base, update)) <==> JoinsHorizon(base, update)
  {
    var k, j, g := Split(base), Split(update), MergedOrder(base, update);
    MergedNodeRun(base, update, k, j);
    MergedEdgeRun(base, update, k, j);
    MergedIsConnected(base, update);
    assert base.nodes[k].sequenceId % 2 == 0 by {
      SequencesClean(base, k, k);
    }
    RunIsValid(g, base.nodes[k].sequenceId, j);
  }

  /** Such a run that is not the first version of its order is valid iff it is connected. */
  lemma RunIsValid(g: Order, start: nat, j: nat)
    requires g.nodes != [] && start % 2 == 0 && Spaced(g.nodes, NodeSeq, start) && Spaced(g.edges, EdgeSeq, start + 1)
    requires |g.nodes| == |g.edges| + 1 && j < |g.nodes| && g.orderUpdateId > 0
    requires forall i :: 0 <= i < |g.nodes| ==> (g.nodes[i].released <==> i <= j)
    requires forall i :: 0 <= i < |g.edges| ==> (g.edges[i].released <==> i < j)
    ensures WellFormed(g) <==> Connected(g.nodes, g.edges)
  {
    RunIsShape(g, start, j);
    if WellFormed(g) {
      SplitIsLastReleased(g, j);
    }
  }

  lemma SplitIsLastReleased(g: Order, j: nat)
    requires WellFormed(g) && j < |g.nodes| && forall i :: 0 <= i < |g.nodes| ==> (g.nodes[i].released <==> i <= j)
    ensures Shape(g, j)
  {
    var k := Split(g);
    assert g.nodes[k].released && g.nodes[j].released;
  }

  // ---- Sequence ids that wrap ----

  lemma LastEdge(p: Progress<OrderEdge>, base: Option<uint32>, edges: seq<OrderEdge>)
    requires edges != [] && base.Some? && edges[|edges| - 1].sequenceId <= base.value
    ensures AddEdges(p, base, edges).faults != []
  {
  }

  /** An update that brings something, with the base wrapping exactly at its stitch point: every edge of the update
      is numbered like the base, or below. */
  lemma WrapAtStitchRefuses(base: Order, update: Order, lastNodeSeq: uint32)
    requires WellFormed(base) && update.edges != [] && Split(base) > 0 && base.nodes[Split(base)].sequenceId == 0
    ensures Combined(base, update, lastNodeSeq).Refused?
  {
    LastBaseEdgeIsTop(base);
    LastEdge(StartEdges(base), BaseEdgeSeq(base.edges), update.edges);
    FaultyEdgesRefuse(base, update, lastNodeSeq);
  }

  /** The edge before a node numbered 0 has the largest id there is. */
  lemma LastBaseEdgeIsTop(base: Order)
    requires WellFormed(base) && Split(base) > 0 && base.nodes[Split(base)].sequenceId == 0
    ensures BaseEdgeSeq(base.edges) == Some(TWO_TO_THE_32 - 1)
  {
    var k := Split(base);
    BaseEdgeAtSplit(base);
    EdgeBefore(base, k, k);
    OnlyTopWraps(base.edges[k - 1].sequenceId);
  }

  lemma OnlyTopWraps(x: uint32)
    requires Inc(x) == 0
    ensures x == TWO_TO_THE_32 - 1
  {
  }

  lemma FaultyEdgesRefuse(base: Order, update: Order, lastNodeSeq: uint32)
    requires AddEdges(StartEdges(base), BaseEdgeSeq(base.edges), update.edges).faults != []
    ensures Combined(base, update, lastNodeSeq).Refused?
  {
  }

  lemma WrapIsBelow(a: nat, d: nat)
    requires a < TWO_TO_THE_32 && d < TWO_TO_THE_32 && TWO_TO_THE_32 <= a + d
    ensures (a + d) % TWO_TO_THE_32 < a
  {
  }

  lemma LastWrapped(base: Order, k: nat)
    requires Shape(base, k) && |base.nodes| <= 0x8000_0000 && !NoWrapFrom(base, k)
    ensures base.nodes[|base.nodes| - 1].sequenceId < base.nodes[k].sequenceId
    ensures k < |base.nodes| - 1
  {
    var s0, m := base.nodes[0].sequenceId, |base.nodes| - 1;
    ShapeAt(base, k);
    assert NodeAt(base.nodes[m], s0, m, k) && NodeAt(base.nodes[k], s0, k, k);
    AddWraps(s0 + 2 * k, 2 * (m - k));
    assert s0 + 2 * k + 2 * (m - k) == s0 + 2 * m;
    WrapIsBelow(base.nodes[k].sequenceId, 2 * (m - k));
  }

  /** Behind the stitch node, the merged list holds horizon nodes and nodes of the update numbered above it. */
  lemma {:induction false} TailMembers(p: Progress<OrderNode>, anchor: OrderNode, nodes: seq<OrderNode>, i: nat)
    requires p.merge.list != [] && p.merge.list[0] == anchor && 0 < i < |AddNodes(p, Some(anchor), nodes).merge.list|
    ensures var y := AddNodes(p, Some(anchor), nodes).merge.list[i];
            y.sequenceId > anchor.sequenceId || exists j :: 0 < j < |p.merge.list| && p.merge.list[j] == y
    decreases |nodes|
  {
    if nodes == [] {
      assert p.merge.list[i] == AddNodes(p, Some(anchor), nodes).merge.list[i];
    } else {
      var init, n := nodes[..|nodes| - 1], nodes[|nodes| - 1];
      var before := AddNodes(p, Some(anchor), init);
      AnchorStays(p, anchor, init);
      if n.sequenceId > anchor.sequenceId && Place(before.merge, n, NodeSeq, NodeReleased).Some? {
        var j := PlacedAt(before.merge, n, NodeSeq, NodeReleased, i);
        if j < |before.merge.list| {
          TailMembers(p, anchor, init, j);
        }
      } else {
        TailMembers(p, anchor, init, i);
      }
    }
  }

  /** Where an element of the list behind its first was before; out of range for the placed one. */
  lemma PlacedAt<T>(m: Keyed<T>, x: T, key: T -> uint32, released: T -> bool, i: nat) returns (j: nat)
    requires m.list != [] && key(m.list[0]) < key(x) && Place(m, x, key, released).Some?
    requires 0 < i < |Place(m, x, key, released).value.list|
    ensures var y := Place(m, x, key, released).value.list[i];
            if j < |m.list| then 0 < j && m.list[j] == y else y == x
  {
    var at, before := Find(m.list, z => key(z) == key(x)), Find(m.list, z => key(z) > key(x));
    if key(x) > m.maxSeq {
      j := i;
    } else if at < |m.list| {
      j := if i == at then |m.list| else i;
    } else {
      j := if i < before then i else if i == before then |m.list| else i - 1;
    }
  }

  /** A list that ends below the stitch point grows with the first node added behind it. */
  lemma {:induction false} FirstNodeAppends(p: Progress<OrderNode>, anchor: OrderNode, nodes: seq<OrderNode>)
    requires p.faults == [] && p.merge.maxSeq < anchor.sequenceId && AddNodes(p, Some(anchor), nodes).faults == []
    ensures var r := AddNodes(p, Some(anchor), nodes);
            if forall n :: n in nodes ==> n.sequenceId == anchor.sequenceId then r == p else |p.merge.list| < |r.merge.list|
    decreases |nodes|
  {
    if nodes != [] {
      var init, n := nodes[..|nodes| - 1], nodes[|nodes| - 1];
      assert nodes == init + [n];
      FirstNodeAppends(p, anchor, init);
    }
  }

  /** If the horizon of the base wraps, a merge that brings any node behind the stitch node is never a valid order:
      the id the route would have to go on with lies below the stitch point. */
  lemma WrappedHorizonBreaks(base: Order, update: Order, lastNodeSeq: uint32)
    requires WellFormed(base) && |base.nodes| <= 0x8000_0000 && !NoWrapFrom(base, Split(base))
    requires MergeIsValid(base, update, lastNodeSeq)
    ensures forall n :: n in update.nodes ==> n.sequenceId == base.nodes[Split(base)].sequenceId
  {
    var k, g := Split(base), Combined(base, update, lastNodeSeq).order;
    WrappedStart(base, k);
    MergedList(base, update, lastNodeSeq, base.nodes[k]);
    FirstNodeAppends(StartNodes(base), base.nodes[k], update.nodes);
    WrappedRouteEnds(base, k, g);
    NothingFollows(StartNodes(base), base.nodes[k], update.nodes, g.nodes);
  }

  lemma WrappedStart(base: Order, k: nat)
    requires WellFormed(base) && k == Split(base) && |base.nodes| <= 0x8000_0000 && !NoWrapFrom(base, k)
    ensures Anchor(base) == Some(base.nodes[k]) && StartNodes(base).merge.list == base.nodes[k..]
    ensures StartNodes(base).faults == [] && StartNodes(base).merge.maxSeq < base.nodes[k].sequenceId
  {
    ShortOrdersAnchorFirst(base);
    StartOfShape(base, k);
    StartEndsAt(base, k);
    LastWrapped(base, k);
  }

  lemma StartEndsAt(base: Order, k: nat)
    requires k < |base.nodes| && StartNodes(base).merge.list == base.nodes[k..]
    ensures StartNodes(base).faults == [] && StartNodes(base).merge.maxSeq == base.nodes[|base.nodes| - 1].sequenceId
  {
    assert base.nodes[k..][|base.nodes| - k - 1] == base.nodes[|base.nodes| - 1];
  }

  lemma MergedList(base: Order, update: Order, lastNodeSeq: uint32, anchor: OrderNode)
    requires Combined(base, update, lastNodeSeq).Merged? && Anchor(base) == Some(anchor)
    requires StartNodes(base).merge.list != [] && StartNodes(base).merge.list[0] == anchor
    ensures var r := AddNodes(StartNodes(base), Some(anchor), update.nodes);
            r.faults == [] && r.merge.list == Combined(base, update, lastNodeSeq).order.nodes && r.merge.list != [] && r.merge.list[0] == anchor
  {
    AnchorStays(StartNodes(base), anchor, update.nodes);
  }

  /** A list is as long as it was, if what would follow it is neither of it nor numbered above the stitch point. */
  lemma NothingFollows(p: Progress<OrderNode>, anchor: OrderNode, nodes: seq<OrderNode>, all: seq<OrderNode>)
    requires p.merge.list != [] && p.merge.list[0] == anchor && all == AddNodes(p, Some(anchor), nodes).merge.list
    requires |p.merge.list| < |all| ==>
               var y := all[|p.merge.list|];
               y.sequenceId <= anchor.sequenceId && forall j :: 0 < j < |p.merge.list| ==> p.merge.list[j] != y
    ensures |all| <= |p.merge.list|
  {
    if |p.merge.list| < |all| {
      TailMembers(p, anchor, nodes, |p.merge.list|);
    }
  }

  /** No valid order goes on behind the wrapped horizon with a node of it, or one numbered above the stitch point. */
  lemma WrappedRouteEnds(base: Order, k: nat, g: Order)
    requires Shape(base, k) && |base.nodes| <= 0x8000_0000 && !NoWrapFrom(base, k) && WellFormed(g)
    requires g.nodes != [] && g.nodes[0] == base.nodes[k]
    ensures |base.nodes| - k < |g.nodes| ==>
              && g.nodes[|base.nodes| - k].sequenceId <= base.nodes[k].sequenceId
              && forall j :: 0 < j < |base.nodes[k..]| ==> base.nodes[k..][j] != g.nodes[|base.nodes| - k]
  {
    if |base.nodes| - k < |g.nodes| {
      NextIsBelow(base, k, g.nodes[|base.nodes| - k].sequenceId, g);
    }
  }

  /** What follows the wrapped horizon in a valid order has an id that is not above the stitch point, nor one of the horizon's. */
  lemma NextIsBelow(base: Order, k: nat, id: uint32, g: Order)
    requires Shape(base, k) && |base.nodes| <= 0x8000_0000 && !NoWrapFrom(base, k) && WellFormed(g)
    requires |base.nodes| - k < |g.nodes| && g.nodes[0] == base.nodes[k] && g.nodes[|base.nodes| - k].sequenceId == id
    ensures id <= base.nodes[k].sequenceId
    ensures forall j :: k < j < |base.nodes| ==> base.nodes[j].sequenceId != id
  {
    var a, h := base.nodes[k].sequenceId, |base.nodes| - k;
    ShapeAt(g, Split(g));
    assert NodeAt(g.nodes[h], a, h, Split(g));
    WrapsBelow(a, 2 * h);
    forall j | k < j < |base.nodes| ensures base.nodes[j].sequenceId != id {
      RestNode(base, k, j - k);
      NoEarlyRepeat(a, if h < 0x8000_0000 then j - k else 0, if h < 0x8000_0000 then h else j - k);
    }
  }

  lemma WrapsBelow(a: nat, d: nat)
    requires a < TWO_TO_THE_32 && d <= TWO_TO_THE_32 <= a + d
    ensures (a + d) % TWO_TO_THE_32 <= a
    ensures d == TWO_TO_THE_32 ==> (a + d) % TWO_TO_THE_32 == a
  {
  }

  /** An update that brings nothing merges into the rest of the base from the stitch point on. */
  lemma EmptyUpdateMerges(base: Order, update: Order, lastNodeSeq: uint32)
    requires WellFormed(base) && AnchorFirst(base) && AcceptedUpdate(base, update) && update.orderId == base.orderId
    requires update.edges == [] && lastNodeSeq <= base.nodes[Split(base)].sequenceId
    ensures Combined(base, update, lastNodeSeq)
         == Merged(Order(base.orderId, update.orderUpdateId, base.nodes[Split(base)..], base.edges[Split(base)..], update.zoneSetId))
  {
    StartOfShape(base, Split(base));
    assert SameNode(update.nodes[0], base.nodes[Split(base)]) && |update.nodes| == 1;
    OneNode(StartNodes(base), base.nodes[Split(base)], update.nodes);
  }

  lemma RestNode(base: Order, k: nat, i: nat)
    requires Shape(base, k) && k + i < |base.nodes|
    ensures NodeAt(base.nodes[k + i], base.nodes[k].sequenceId, i, 0)
  {
    var s0 := base.nodes[0].sequenceId;
    ShapeAt(base, k);
    assert NodeAt(base.nodes[k], s0, k, k) && NodeAt(base.nodes[k + i], s0, k + i, k);
    AddWraps(s0 + 2 * k, 2 * i);
  }

  lemma RestEdge(base: Order, k: nat, i: nat)
    requires Shape(base, k) && k + i < |base.edges|
    ensures EdgeAt(base.edges[k + i], base.nodes[k + i], base.nodes[k + i + 1], base.nodes[k].sequenceId, i, 0)
  {
    var s0 := base.nodes[0].sequenceId;
    ShapeAt(base, k);
    assert NodeAt(base.nodes[k], s0, k, k);
    assert EdgeAt(base.edges[k + i], base.nodes[k + i], base.nodes[k + i + 1], s0, k + i, k);
    AddWraps(s0 + 2 * k, 2 * i + 1);
  }

  lemma RestIsValid(base: Order, rest: Order)
    requires WellFormed(base) && rest.orderUpdateId > 0
    requires rest.nodes == base.nodes[Split(base)..] && rest.edges == base.edges[Split(base)..]
    ensures WellFormed(rest)
  {
    var k := Split(base);
    SequencesClean(base, k, k);
    forall i | 0 <= i < |rest.nodes| ensures NodeAt(rest.nodes[i], rest.nodes[0].sequenceId, i, 0) {
      RestNode(base, k, i);
    }
    forall i | 0 <= i < |rest.edges|
      ensures EdgeAt(rest.edges[i], rest.nodes[i], rest.nodes[i + 1], rest.nodes[0].sequenceId, i, 0)
    {
      RestEdge(base, k, i);
      assert rest.nodes[i + 1] == base.nodes[k + (i + 1)];
    }
    AtIsShape(rest, 0);
  }

  /** When a merge is refused as passed, or lays the update over the base without any wrap. */
  lemma UnwrappedMergeIsValidIff(base: Order, update: Order, lastNodeSeq: uint32)
    requires Mergeable(base, update)
    ensures MergeIsValid(base, update, lastNodeSeq) <==>
            lastNodeSeq <= base.nodes[Split(base)].sequenceId && JoinsHorizon(base, update)
  {
    MergeOfAcceptedUpdate(base, update, lastNodeSeq);
    MergeIsValidIffJoined(base, update);
  }

  ghost predicate MergeIsValid(base: Order, update: Order, lastNodeSeq: uint32) {
    Combined(base, update, lastNodeSeq).Merged? && WellFormed(Combined(base, update, lastNodeSeq).order)
  }

  /** An update that brings an edge brings a node behind the stitch node. */
  lemma SecondNode(base: Order, update: Order)
    requires WellFormed(base) && AcceptedUpdate(base, update) && update.edges != [] && NoWrap(update)
    ensures |update.nodes| > 1 && update.nodes[1] in update.nodes
    ensures update.nodes[1].sequenceId != base.nodes[Split(base)].sequenceId
  {
    assert SameNode(update.nodes[0], base.nodes[Split(base)]);
    ShapeNode(update, Split(update), 0, 1);
  }

  /** Whatever the sequence ids do: merging an accepted update of the same order gives a valid order exactly when the vehicle
      has not passed the stitch point, the update joins the old horizon, and either it brings nothing or no id wraps
      where the two overlap. */
  lemma AcceptedUpdateMergesIff(base: Order, update: Order, lastNodeSeq: uint32)
    requires WellFormed(base) && AcceptedUpdate(base, update) && update.orderId == base.orderId
    requires |base.nodes| <= 0x8000_0000 && |update.nodes| <= 0x8000_0000
    ensures MergeIsValid(base, update, lastNodeSeq) <==>
            && lastNodeSeq <= base.nodes[Split(base)].sequenceId && JoinsHorizon(base, update)
            && (update.edges == [] || Unwrapped(base, update))
  {
    var k := Split(base);
    ShortOrdersAnchorFirst(base);
    StartOfShape(base, k);
    if lastNodeSeq > base.nodes[k].sequenceId {
    } else if update.edges == [] {
      EmptyUpdateMerges(base, update, lastNodeSeq);
      RestIsValid(base, Combined(base, update, lastNodeSeq).order);
      assert SameNode(update.nodes[0], base.nodes[k]);
    } else if Unwrapped(base, update) {
      UnwrappedMergeIsValidIff(base, update, lastNodeSeq);
    } else if !NoWrap(update) {
      WrappingUpdateIsRefused(base, update, lastNodeSeq);
    } else if !NoWrapFrom(base, k) {
      if MergeIsValid(base, update, lastNodeSeq) {
        WrappedHorizonBreaks(base, update, lastNodeSeq);
        SecondNode(base, update);
        assert false;
      }
    } else {
      WrapAtStitchRefuses(base, update, lastNodeSeq);
    }
  }

  // ---- An accepted update that cannot be merged ----

  function Waypoint(id: string, seqId: uint32, released: bool): OrderNode {
    OrderNode(id, seqId, released, [], None, None)
  }

  function Leg(id: string, seqId: uint32, from: string, to: string, released: bool): OrderEdge {
    OrderEdge(id, seqId, from, to, released, [], None)
  }

  /** Base a-b, horizon b-c-d. */
  function Planned(): Order {
    Order("o", 0,
          [Waypoint("a", 0, true), Waypoint("b", 2, true), Waypoint("c", 4, false), Waypoint("d", 6, false)],
          [Leg("ab", 1, "a", "b", true), Leg("bc", 3, "b", "c", false), Leg("cd", 5, "c", "d", false)], None)
  }

  /** Go to x instead of c. */
  function Detour(): Order {
    Order("o", 1, [Waypoint("b", 2, true), Waypoint("x", 4, true)], [Leg("bx", 3, "b", "x", true)], None)
  }

  lemma ValidAt(o: Order, k: nat)
    requires Shape(o, k) && (o.orderUpdateId == 0 ==> o.nodes[0].sequenceId == 0)
    ensures WellFormed(o) && Split(o) == k
  {
    ShapeUnique(o, k, Split(o));
  }

  lemma PlannedShape()
    ensures Shape(Planned(), 1)
  {
    var o := Planned();
    assert Spaced(o.nodes, NodeSeq, 0) && Spaced(o.edges, EdgeSeq, 1);
    assert Joined(o.nodes, o.edges, 0) && Joined(o.nodes, o.edges, 1) && Joined(o.nodes, o.edges, 2);
    assert Connected(o.nodes, o.edges);
    RunIsShape(o, 0, 1);
  }

  lemma DetourShape()
    ensures Shape(Detour(), 1)
  {
    var o := Detour();
    assert Spaced(o.nodes, NodeSeq, 2) && Spaced(o.edges, EdgeSeq, 3);
    assert Joined(o.nodes, o.edges, 0);
    RunIsShape(o, 2, 1);
  }

  lemma PlannedIsValid()
    ensures WellFormed(Planned()) && Split(Planned()) == 1 && NoWrap(Planned())
  {
    PlannedShape();
    ValidAt(Planned(), 1);
  }

  lemma DetourIsAccepted()
    ensures AcceptedUpdate(Planned(), Detour()) && NoWrap(Detour())
  {
    PlannedIsValid();
    LastReleasedIsSplit(Planned(), 1);
    DetourShape();
    assert SameNode(Detour().nodes[0], Planned().nodes[1]);
  }

  lemma RefusedMerge(base: Order, update: Order, lastNodeSeq: uint32)
    requires Mergeable(base, update) && lastNodeSeq <= base.nodes[Split(base)].sequenceId && !JoinsHorizon(base, update)
    ensures Combined(base, update, lastNodeSeq) == Merged(MergedOrder(base, update))
    ensures !WellFormed(MergedOrder(base, update))
  {
    MergeOfAcceptedUpdate(base, update, lastNodeSeq);
    MergeIsValidIffJoined(base, update);
  }

  /** The update check accepts the detour and the merge of it raises no error,
      but the merged route jumps from x to the edge c-d, so the detour is never sent. */
  lemma DetourIsRefused(lastNodeSeq: uint32)
    requires lastNodeSeq <= 2
    ensures WellFormed(Planned()) && AcceptedUpdate(Planned(), Detour())
    ensures Combined(Planned(), Detour(), lastNodeSeq) == Merged(MergedOrder(Planned(), Detour()))
    ensures !WellFormed(MergedOrder(Planned(), Detour()))
  {
    PlannedIsValid();
    DetourIsAccepted();
    assert Planned().nodes[2].nodeId == "c" && Detour().nodes[1].nodeId == "x";
    assert !JoinsHorizon(Planned(), Detour());
    RefusedMerge(Planned(), Detour(), lastNodeSeq);
  }
}
