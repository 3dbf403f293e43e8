/** VDA 5050 orders and the base/horizon rules of sections 6.6.1 and 6.6.2. */
module Orders {
  import opened Common

  const TWO_TO_THE_32 := 0x1_0000_0000
  type uint32 = x: int | 0 <= x < TWO_TO_THE_32

  /** `x + 1` on a 32-bit unsigned integer. */
  function Inc(x: uint32): uint32 {
    (x + 1) % TWO_TO_THE_32
  }

  datatype BlockingType = NONE | SOFT | HARD

  datatype Action = Action(
    actionType: string,
    actionId: string,
    blockingType: BlockingType,
    actionDescription: Option<string>,
    actionParameters: Option<seq<(string, string)>>)

  datatype NodePosition = NodePosition(
    x: real,
    y: real,
    theta: Option<real>,
    allowedDeviationXY: Option<real>,
    allowedDeviationTheta: Option<real>,
    mapId: string,
    mapDescription: Option<string>)

  datatype OrderNode = OrderNode(
    nodeId: string,
    sequenceId: uint32,
    released: bool,
    actions: seq<Action>,
    nodePosition: Option<NodePosition>,
    nodeDescription: Option<string>)

  datatype OrderEdge = OrderEdge(
    edgeId: string,
    sequenceId: uint32,
    startNodeId: string,
    endNodeId: string,
    released: bool,
    actions: seq<Action>,
    edgeDescription: Option<string>)

  datatype Order = Order(
    orderId: string,
    orderUpdateId: uint32,
    nodes: seq<OrderNode>,
    edges: seq<OrderEdge>,
    zoneSetId: Option<string>)

  /** The program's equality on actions looks at type and id only. */
  predicate SameAction(a: Action, b: Action) {
    a.actionType == b.actionType && a.actionId == b.actionId
  }

  /** The program's equality on nodes, with actions compared by `SameAction`. */
  predicate SameNode(a: OrderNode, b: OrderNode) {
    && a.nodeId == b.nodeId
    && a.sequenceId == b.sequenceId
    && a.released == b.released
    && |a.actions| == |b.actions|
    && (forall i :: 0 <= i < |a.actions| ==> SameAction(a.actions[i], b.actions[i]))
    && a.nodePosition == b.nodePosition
    && a.nodeDescription == b.nodeDescription
  }

  /** A node with each action reduced to its type and id. */
  function Bare(n: OrderNode): OrderNode {
    n.(actions := seq(|n.actions|, i requires 0 <= i < |n.actions| => Action(n.actions[i].actionType, n.actions[i].actionId, NONE, None, None)))
  }

  /** Nodes count as the same exactly if they agree in every field, actions up to type and id. */
  lemma SameNodeIffBare(a: OrderNode, b: OrderNode)
    ensures SameNode(a, b) <==> Bare(a) == Bare(b)
  {
    if Bare(a) == Bare(b) {
      forall i | 0 <= i < |a.actions| ensures SameAction(a.actions[i], b.actions[i]) {
        assert Bare(a).actions[i] == Bare(b).actions[i];
      }
      assert a.nodeId == Bare(a).nodeId == Bare(b).nodeId == b.nodeId;
    }
    if SameNode(a, b) {
      assert Bare(a).actions == Bare(b).actions;
    }
  }

  // ---- Findings ----

  datatype Kind =
    | NoNodes
    | CountMismatch
    | InitialSequence
    | FirstUnreleased
    | NodeParity
    | ReleasedNodeInHorizon
    | HorizonAtNode
    | EdgeParity
    | SequenceJump
    | EdgeConnectivity
    | ReleasedEdgeInHorizon
    | UpdateNotIncreasing
    | StitchMismatch
    | NodeNotInLayout
    | MapMismatch
    | EdgeNotInLayout
    | EndpointsMismatch
    | IntegrityCheckSkipped

  datatype Level = WARNING | FATAL

  /** Hard failures and advisories; only hard failures invalidate. */
  datatype ValidationResult = ValidationResult(fatal: seq<Kind>, warnings: seq<Kind>) {
    function AddError(kind: Kind, level: Level): ValidationResult {
      if level == WARNING then this.(warnings := warnings + [kind]) else this.(fatal := fatal + [kind])
    }

    predicate Ok() { fatal == [] }
  }

  const NO_FINDINGS := ValidationResult([], [])

  // ---- One position of the loop ----

  /** Some edge before position `i` is unreleased. */
  ghost predicate Horizon(o: Order, i: nat) {
    exists j :: 0 <= j < i && j < |o.edges| && !o.edges[j].released
  }

  /** What is wrong at position `i`: node `i`, edge `i` and the join to node `i + 1`. */
  ghost predicate Bad(kind: Kind, o: Order, i: nat)
    requires |o.nodes| == |o.edges| + 1 && i < |o.nodes|
  {
    match kind
    case NodeParity => o.nodes[i].sequenceId % 2 != 0
    case ReleasedNodeInHorizon => o.nodes[i].released && Horizon(o, i)
    case HorizonAtNode => !o.nodes[i].released && !Horizon(o, i)
    case EdgeParity => i < |o.edges| && o.edges[i].sequenceId % 2 == 0
    case SequenceJump =>
      i < |o.edges| && (o.edges[i].sequenceId != Inc(o.nodes[i].sequenceId)
                        || o.nodes[i + 1].sequenceId != Inc(o.edges[i].sequenceId))
    case EdgeConnectivity =>
      i < |o.edges| && (o.edges[i].startNodeId != o.nodes[i].nodeId || o.edges[i].endNodeId != o.nodes[i + 1].nodeId)
    case ReleasedEdgeInHorizon => i < |o.edges| && o.edges[i].released && Horizon(o, i)
    case _ => false
  }

  /** The first finding that ends the check before the loop, if any. */
  function HeaderFault(o: Order): Option<Kind> {
    if o.nodes == [] then Some(NoNodes)
    else if |o.nodes| != |o.edges| + 1 then Some(CountMismatch)
    else if o.orderUpdateId == 0 && o.nodes[0].sequenceId != 0 then Some(InitialSequence)
    else if !o.nodes[0].released then Some(FirstUnreleased)
    else None
  }

  // ---- The global shape ----

  /** `k` is the last released position: nodes up to `k` and edges before `k` form the base, the rest the horizon;
      sequence ids run consecutively modulo 2^32 from an even start; edges join consecutive nodes. */
  ghost predicate Shape(o: Order, k: nat) {
    && |o.nodes| == |o.edges| + 1
    && k < |o.nodes|
    && o.nodes[0].sequenceId % 2 == 0
    && (forall i :: 0 <= i < |o.nodes| ==> o.nodes[i].sequenceId == (o.nodes[0].sequenceId + 2 * i) % TWO_TO_THE_32)
    && (forall i :: 0 <= i < |o.edges| ==> o.edges[i].sequenceId == (o.nodes[0].sequenceId + 2 * i + 1) % TWO_TO_THE_32)
    && (forall i :: 0 <= i < |o.edges| ==>
          o.edges[i].startNodeId == o.nodes[i].nodeId && o.edges[i].endNodeId == o.nodes[i + 1].nodeId)
    && (forall i :: 0 <= i < |o.nodes| ==> (o.nodes[i].released <==> i <= k))
    && (forall i :: 0 <= i < |o.edges| ==> (o.edges[i].released <==> i < k))
  }

  /** A valid order graph: one base/horizon split, and update 0 starts at sequence 0. */
  ghost predicate WellFormed(o: Order) {
    (exists k :: Shape(o, k)) && (o.orderUpdateId == 0 ==> o.nodes[0].sequenceId == 0)
  }

  /** The split is unique. */
  lemma ShapeUnique(o: Order, j: nat, k: nat)
    requires Shape(o, j) && Shape(o, k)
    ensures j == k
  {
    assert o.nodes[j].released && o.nodes[k].released;
  }

  // ---- The loop's local checks decide the global shape ----

  ghost predicate LoopClean(o: Order)
    requires |o.nodes| == |o.edges| + 1
  {
    forall kind, i :: 0 <= i < |o.nodes| ==> !Bad(kind, o, i)
  }

  lemma IncWraps(a: nat)
    ensures (a % TWO_TO_THE_32 + 1) % TWO_TO_THE_32 == (a + 1) % TWO_TO_THE_32
  {
  }

  lemma WrapKeepsParity(a: nat)
    ensures (a % TWO_TO_THE_32) % 2 == a % 2
  {
    assert a == TWO_TO_THE_32 * (a / TWO_TO_THE_32) + a % TWO_TO_THE_32;
    assert TWO_TO_THE_32 * (a / TWO_TO_THE_32) == 2 * (0x8000_0000 * (a / TWO_TO_THE_32));
  }

  lemma {:induction false} SequencesRun(o: Order, i: nat)
    requires |o.nodes| == |o.edges| + 1 && i < |o.nodes| && LoopClean(o)
    ensures o.nodes[i].sequenceId == (o.nodes[0].sequenceId + 2 * i) % TWO_TO_THE_32
    ensures i < |o.edges| ==> o.edges[i].sequenceId == (o.nodes[0].sequenceId + 2 * i + 1) % TWO_TO_THE_32
  {
    var s0 := o.nodes[0].sequenceId;
    if i > 0 {
      SequencesRun(o, i - 1);
      assert !Bad(SequenceJump, o, i - 1);
      IncWraps(s0 + 2 * (i - 1) + 1);
    }
    if i < |o.edges| {
      assert !Bad(SequenceJump, o, i);
      IncWraps(s0 + 2 * i);
    }
  }

  /** Position of the first unreleased edge, or the number of edges. */
  ghost function FirstHorizonEdge(es: seq<OrderEdge>): (k: nat)
    ensures k <= |es|
    ensures k < |es| ==> !es[k].released
    ensures forall i :: 0 <= i < k ==> es[i].released
  {
    if es == [] || !es[0].released then 0
    else
      assert forall i :: 0 < i < |es| ==> es[i] == es[1..][i - 1];
      1 + FirstHorizonEdge(es[1..])
  }

  lemma CleanHasShape(o: Order)
    requires |o.nodes| == |o.edges| + 1 && LoopClean(o)
    ensures Shape(o, FirstHorizonEdge(o.edges))
  {
    var k := FirstHorizonEdge(o.edges);
    assert !Bad(NodeParity, o, 0);
    forall i | 0 <= i < |o.nodes|
      ensures o.nodes[i].sequenceId == (o.nodes[0].sequenceId + 2 * i) % TWO_TO_THE_32
      ensures o.nodes[i].released <==> i <= k
    {
      SequencesRun(o, i);
      assert !Bad(ReleasedNodeInHorizon, o, i) && !Bad(HorizonAtNode, o, i);
      assert Horizon(o, i) <==> k < i;
    }
    forall i | 0 <= i < |o.edges|
      ensures o.edges[i].sequenceId == (o.nodes[0].sequenceId + 2 * i + 1) % TWO_TO_THE_32
      ensures o.edges[i].startNodeId == o.nodes[i].nodeId && o.edges[i].endNodeId == o.nodes[i + 1].nodeId
      ensures o.edges[i].released <==> i < k
    {
      SequencesRun(o, i);
      assert !Bad(EdgeConnectivity, o, i) && !Bad(ReleasedEdgeInHorizon, o, i);
      assert Horizon(o, i) <==> k < i;
    }
  }

  lemma HorizonStartsAfter(o: Order, k: nat, i: nat)
    requires Shape(o, k) && i < |o.nodes|
    ensures Horizon(o, i) <==> k < i
  {
    if k < i {
      assert !o.edges[k].released;
    }
  }

  lemma SequenceArithmetic(s0: nat, i: nat, a: nat, b: nat, c: nat)
    requires s0 % 2 == 0
    requires a == (s0 + 2 * i) % TWO_TO_THE_32 && b == (s0 + 2 * i + 1) % TWO_TO_THE_32
    requires c == (s0 + 2 * (i + 1)) % TWO_TO_THE_32
    ensures a % 2 == 0 && b % 2 == 1
    ensures b == (a + 1) % TWO_TO_THE_32 && c == (b + 1) % TWO_TO_THE_32
  {
    WrapKeepsParity(s0 + 2 * i);
    WrapKeepsParity(s0 + 2 * i + 1);
    IncWraps(s0 + 2 * i);
    IncWraps(s0 + 2 * i + 1);
    assert s0 + 2 * (i + 1) == s0 + 2 * i + 1 + 1;
  }

  lemma SequencesClean(o: Order, k: nat, i: nat)
    requires Shape(o, k) && i < |o.nodes|
    ensures !Bad(NodeParity, o, i) && !Bad(EdgeParity, o, i) && !Bad(SequenceJump, o, i)
  {
    var s0 := o.nodes[0].sequenceId;
    var a, b, c := o.nodes[i].sequenceId, (s0 + 2 * i + 1) % TWO_TO_THE_32, (s0 + 2 * (i + 1)) % TWO_TO_THE_32;
    assert a == (s0 + 2 * i) % TWO_TO_THE_32;
    SequenceArithmetic(s0, i, a, b, c);
    if i < |o.edges| {
      assert o.edges[i].sequenceId == b;
      assert o.nodes[i + 1].sequenceId == c;
    }
  }

  lemma ShapeIsClean(o: Order, k: nat)
    requires Shape(o, k)
    ensures LoopClean(o)
  {
    forall kind, i | 0 <= i < |o.nodes| ensures !Bad(kind, o, i) {
      HorizonStartsAfter(o, k, i);
      SequencesClean(o, k, i);
    }
  }

  /** Passing the header checks and the loop is exactly having the global shape. */
  lemma ChecksDecideShape(o: Order)
    ensures WellFormed(o) <==> HeaderFault(o) == None && LoopClean(o)
  {
    if WellFormed(o) {
      var k :| Shape(o, k);
      ShapeIsClean(o, k);
    }
    if HeaderFault(o) == None && LoopClean(o) {
      CleanHasShape(o);
    }
  }

  // ---- The checks ----

  method CheckPosition(o: Order, i: nat, horizonReached: bool) returns (found: seq<Kind>, horizon: bool)
    requires |o.nodes| == |o.edges| + 1 && i < |o.nodes| && (horizonReached <==> Horizon(o, i))
    ensures forall kind :: kind in found <==> Bad(kind, o, i)
    ensures horizon <==> Horizon(o, i + 1)
  {
    found, horizon := [], horizonReached;
    var node := o.nodes[i];
    if node.sequenceId % 2 != 0 {
      found := found + [NodeParity];
    }
    if node.released && horizonReached {
      found := found + [ReleasedNodeInHorizon];
    } else if !node.released && !horizonReached {
      found := found + [HorizonAtNode];
    }
    if i < |o.edges| {
      var edge, next := o.edges[i], o.nodes[i + 1];
      if edge.sequenceId % 2 == 0 {
        found := found + [EdgeParity];
      }
      if edge.sequenceId != Inc(node.sequenceId) || next.sequenceId != Inc(edge.sequenceId) {
        found := found + [SequenceJump];
      }
      if edge.startNodeId != node.nodeId || edge.endNodeId != next.nodeId {
        found := found + [EdgeConnectivity];
      }
      if !edge.released {
        horizon := true;
      } else if horizonReached {
        found := found + [ReleasedEdgeInHorizon];
      }
    }
  }

  /** A header fault is reported alone; otherwise a kind is reported exactly when it occurs at some position. */
  ghost predicate GraphFindings(o: Order, fatal: seq<Kind>) {
    match HeaderFault(o)
    case Some(kind) => fatal == [kind]
    case None => forall kind :: kind in fatal <==> exists i :: 0 <= i < |o.nodes| && Bad(kind, o, i)
  }

  method IsValidGraph(o: Order) returns (res: ValidationResult)
    ensures res.warnings == [] && GraphFindings(o, res.fatal)
    ensures res.Ok() <==> WellFormed(o)
  {
    res := NO_FINDINGS;
    ChecksDecideShape(o);
    if o.nodes == [] {
      return res.AddError(NoNodes, FATAL);
    }
    if |o.nodes| != |o.edges| + 1 {
      return res.AddError(CountMismatch, FATAL);
    }
    if o.orderUpdateId == 0 && o.nodes[0].sequenceId != 0 {
      return res.AddError(InitialSequence, FATAL);
    }
    if !o.nodes[0].released {
      return res.AddError(FirstUnreleased, FATAL);
    }
    var horizonReached := false;
    for i := 0 to |o.nodes|
      invariant res.warnings == []
      invariant horizonReached <==> Horizon(o, i)
      invariant forall kind :: kind in res.fatal <==> exists j :: 0 <= j < i && Bad(kind, o, j)
    {
      var found, horizon := CheckPosition(o, i, horizonReached);
      res := res.(fatal := res.fatal + found);
      horizonReached := horizon;
    }
    NoKindNoFinding(o, res.fatal);
  }

  lemma NoKindNoFinding(o: Order, fatal: seq<Kind>)
    requires |o.nodes| == |o.edges| + 1
    requires forall kind :: kind in fatal <==> exists i :: 0 <= i < |o.nodes| && Bad(kind, o, i)
    ensures fatal == [] <==> LoopClean(o)
  {
    if fatal != [] {
      assert fatal[0] in fatal;
    } else {
      forall kind, i | 0 <= i < |o.nodes| ensures !Bad(kind, o, i) {
        assert kind !in fatal;
      }
    }
  }

  /** Position of the last released node, if any. */
  method LastReleased(nodes: seq<OrderNode>) returns (k: Option<nat>)
    ensures k == LastReleasedAt(nodes)
  {
    var i := |nodes|;
    while i > 0 && !nodes[i - 1].released
      invariant 0 <= i <= |nodes|
      invariant LastReleasedAt(nodes) == LastReleasedAt(nodes[..i])
    {
      assert nodes[..i][..i - 1] == nodes[..i - 1];
      i := i - 1;
    }
    if i == 0 {
      return None;
    }
    return Some(i - 1);
  }

  function LastReleasedAt(nodes: seq<OrderNode>): (k: Option<nat>)
    ensures k.Some? ==> k.value < |nodes| && nodes[k.value].released
    ensures k.Some? ==> forall i :: k.value < i < |nodes| ==> !nodes[i].released
    ensures k.None? ==> forall i :: 0 <= i < |nodes| ==> !nodes[i].released
  {
    if nodes == [] then None
    else if nodes[|nodes| - 1].released then Some(|nodes| - 1)
    else LastReleasedAt(nodes[..|nodes| - 1])
  }

  /** An update of `base`: higher update id if it keeps the order id, a valid graph of its own,
      and it starts at the last released node of the base. */
  ghost predicate AcceptedUpdate(base: Order, next: Order) {
    && (next.orderId == base.orderId ==> base.orderUpdateId < next.orderUpdateId)
    && WellFormed(next)
    && (forall k :: LastReleasedAt(base.nodes) == Some(k) ==> SameNode(next.nodes[0], base.nodes[k]))
  }

  method IsValidUpdate(base: Order, next: Order) returns (res: ValidationResult)
    ensures res.warnings == []
    ensures res.Ok() <==> AcceptedUpdate(base, next)
    ensures UpdateNotIncreasing in res.fatal <==>
              next.orderId == base.orderId && next.orderUpdateId <= base.orderUpdateId
    ensures UpdateNotIncreasing !in res.fatal && !WellFormed(next) ==> GraphFindings(next, res.fatal)
    ensures StitchMismatch in res.fatal <==>
              && UpdateNotIncreasing !in res.fatal && WellFormed(next)
              && exists k :: LastReleasedAt(base.nodes) == Some(k) && Bare(next.nodes[0]) != Bare(base.nodes[k])
    ensures StitchMismatch in res.fatal ==> res.fatal == [StitchMismatch]
  {
    res := NO_FINDINGS;
    if next.orderId == base.orderId {
      if next.orderUpdateId <= base.orderUpdateId {
        return res.AddError(UpdateNotIncreasing, FATAL);
      }
    }
    res := IsValidGraph(next);
    GraphKinds(next, res.fatal);
    if !res.Ok() {
      return;
    }
    var last := LastReleased(base.nodes);
    if last.None? {
      return;
    }
    SameNodeIffBare(next.nodes[0], base.nodes[last.value]);
    if !SameNode(next.nodes[0], base.nodes[last.value]) {
      return res.AddError(StitchMismatch, FATAL);
    }
  }

  lemma GraphKinds(o: Order, fatal: seq<Kind>)
    requires GraphFindings(o, fatal)
    ensures UpdateNotIncreasing !in fatal && StitchMismatch !in fatal
  {
  }

  lemma LastReleasedIsSplit(o: Order, k: nat)
    requires Shape(o, k)
    ensures LastReleasedAt(o.nodes) == Some(k)
  {
    var j := LastReleasedAt(o.nodes);
    assert o.nodes[k].released;
  }
}
