/** Chains of accepted updates glue, at their shared nodes, into one path. */
module Stitching {
  import opened Common
  import opened Orders

  /** The last released position of a valid order. */
  ghost function Split(o: Order): (k: nat)
    requires WellFormed(o)
    ensures Shape(o, k) && LastReleasedAt(o.nodes) == Some(k)
  {
    var k :| Shape(o, k);
    LastReleasedIsSplit(o, k);
    k
  }

  /** A first valid order, each later one accepted as an update of the one before. */
  ghost predicate Chain(orders: seq<Order>) {
    && orders != []
    && WellFormed(orders[0])
    && forall i :: 0 < i < |orders| ==> Follows(orders, i)
  }

  /** Order `i` is an accepted update of the one before. */
  ghost predicate Follows(orders: seq<Order>, i: nat)
    requires 0 < i < |orders|
  {
    AcceptedUpdate(orders[i - 1], orders[i])
  }

  /** The released prefix of `base` continued by `next`, sharing the node they have in common. */
  ghost function Glue(base: Order, next: Order): Order
    requires WellFormed(base)
  {
    var k := Split(base);
    base.(nodes := base.nodes[..k] + next.nodes, edges := base.edges[..k] + next.edges)
  }

  lemma AddWraps(a: nat, b: nat)
    ensures (a % TWO_TO_THE_32 + b) % TWO_TO_THE_32 == (a + b) % TWO_TO_THE_32
  {
    var q := a / TWO_TO_THE_32;
    assert a == TWO_TO_THE_32 * q + a % TWO_TO_THE_32;
  }

  /** Node `i` of a run that starts at sequence id `s0` and is released up to position `k`. */
  ghost predicate NodeAt(n: OrderNode, s0: nat, i: nat, k: nat) {
    n.sequenceId == (s0 + 2 * i) % TWO_TO_THE_32 && (n.released <==> i <= k)
  }

  /** Edge `i` of such a run, between two nodes. */
  ghost predicate EdgeAt(e: OrderEdge, from: OrderNode, to: OrderNode, s0: nat, i: nat, k: nat) {
    && e.sequenceId == (s0 + 2 * i + 1) % TWO_TO_THE_32
    && e.startNodeId == from.nodeId && e.endNodeId == to.nodeId
    && (e.released <==> i < k)
  }

  lemma ShapeAt(o: Order, k: nat)
    requires Shape(o, k)
    ensures forall i :: 0 <= i < |o.nodes| ==> NodeAt(o.nodes[i], o.nodes[0].sequenceId, i, k)
    ensures forall i :: 0 <= i < |o.edges| ==> EdgeAt(o.edges[i], o.nodes[i], o.nodes[i + 1], o.nodes[0].sequenceId, i, k)
  {
  }

  lemma AtIsShape(o: Order, k: nat)
    requires |o.nodes| == |o.edges| + 1 && k < |o.nodes| && o.nodes[0].sequenceId % 2 == 0
    requires forall i :: 0 <= i < |o.nodes| ==> NodeAt(o.nodes[i], o.nodes[0].sequenceId, i, k)
    requires forall i :: 0 <= i < |o.edges| ==> EdgeAt(o.edges[i], o.nodes[i], o.nodes[i + 1], o.nodes[0].sequenceId, i, k)
    ensures Shape(o, k)
  {
    forall i | 0 <= i < |o.nodes|
      ensures o.nodes[i].sequenceId == (o.nodes[0].sequenceId + 2 * i) % TWO_TO_THE_32 && (o.nodes[i].released <==> i <= k)
    {
      assert NodeAt(o.nodes[i], o.nodes[0].sequenceId, i, k);
    }
    forall i | 0 <= i < |o.edges|
      ensures o.edges[i].sequenceId == (o.nodes[0].sequenceId + 2 * i + 1) % TWO_TO_THE_32 && (o.edges[i].released <==> i < k)
      ensures o.edges[i].startNodeId == o.nodes[i].nodeId && o.edges[i].endNodeId == o.nodes[i + 1].nodeId
    {
      assert EdgeAt(o.edges[i], o.nodes[i], o.nodes[i + 1], o.nodes[0].sequenceId, i, k);
    }
  }

  /** A run that starts where position `j` of an earlier run was continues its numbering. */
  lemma NodeShift(n: OrderNode, s0: nat, s: nat, i: nat, j: nat, k: nat)
    requires s == (s0 + 2 * j) % TWO_TO_THE_32 && NodeAt(n, s, i, k)
    ensures NodeAt(n, s0, i + j, j + k)
  {
    AddWraps(s0 + 2 * j, 2 * i);
  }

  lemma EdgeShift(e: OrderEdge, from: OrderNode, to: OrderNode, s0: nat, s: nat, i: nat, j: nat, k: nat)
    requires s == (s0 + 2 * j) % TWO_TO_THE_32 && EdgeAt(e, from, to, s, i, k)
    ensures EdgeAt(e, from, to, s0, i + j, j + k)
  {
    AddWraps(s0 + 2 * j, 2 * i + 1);
  }

  lemma GlueShape(base: Order, next: Order, j: nat, k: nat)
    requires WellFormed(base) && Split(base) == j && Shape(next, k) && SameNode(next.nodes[0], base.nodes[j])
    ensures Shape(Glue(base, next), j + k)
  {
    var g, s0, s := Glue(base, next), base.nodes[0].sequenceId, next.nodes[0].sequenceId;
    ShapeAt(base, j);
    ShapeAt(next, k);
    assert NodeAt(base.nodes[j], s0, j, j);
    GlueStart(base, next, j);
    forall i | 0 <= i < |g.nodes| ensures NodeAt(g.nodes[i], s0, i, j + k) {
      if i < j {
        assert NodeAt(base.nodes[i], s0, i, j);
      } else {
        NodeShift(next.nodes[i - j], s0, s, i - j, j, k);
      }
    }
    forall i | 0 <= i < |g.edges| ensures EdgeAt(g.edges[i], g.nodes[i], g.nodes[i + 1], s0, i, j + k) {
      if i < j {
        GluedBaseEdge(base, next, j, i);
        assert EdgeAt(base.edges[i], base.nodes[i], base.nodes[i + 1], s0, i, j);
      } else {
        EdgeShift(next.edges[i - j], next.nodes[i - j], next.nodes[i - j + 1], s0, s, i - j, j, k);
      }
    }
    AtIsShape(g, j + k);
  }

  lemma GlueStart(base: Order, next: Order, j: nat)
    requires WellFormed(base) && Split(base) == j && next.nodes != [] && SameNode(next.nodes[0], base.nodes[j])
    ensures Glue(base, next).nodes != [] && Glue(base, next).nodes[0].sequenceId == base.nodes[0].sequenceId
    ensures Glue(base, next).nodes[0].nodeId == base.nodes[0].nodeId
  {
  }

  lemma GluedBaseEdge(base: Order, next: Order, j: nat, i: nat)
    requires WellFormed(base) && Split(base) == j && i < j && next.nodes != [] && SameNode(next.nodes[0], base.nodes[j])
    ensures var g := Glue(base, next);
            && g.edges[i] == base.edges[i] && g.nodes[i] == base.nodes[i]
            && g.nodes[i + 1].nodeId == base.nodes[i + 1].nodeId
  {
  }

  /** All orders of the chain glued left to right. */
  ghost function GlueAll(orders: seq<Order>): Order
    requires orders != []
    decreases |orders|
  {
    if |orders| == 1 then orders[0]
    else
      var g := GlueAll(orders[..|orders| - 1]);
      if WellFormed(g) then Glue(g, orders[|orders| - 1]) else g
  }

  /** The released edges of all orders of the chain, in order. */
  ghost function ReleasedEdges(orders: seq<Order>): seq<OrderEdge>
    decreases |orders|
  {
    if orders == [] then []
    else
      var o := orders[|orders| - 1];
      ReleasedEdges(orders[..|orders| - 1]) + if WellFormed(o) then o.edges[..Split(o)] else []
  }

  lemma ChainPrefix(orders: seq<Order>)
    requires Chain(orders) && |orders| > 1
    ensures Chain(orders[..|orders| - 1])
    ensures AcceptedUpdate(orders[|orders| - 2], orders[|orders| - 1])
  {
    var init := orders[..|orders| - 1];
    assert init[0] == orders[0];
    forall i | 0 < i < |init| ensures Follows(init, i) {
      assert Follows(orders, i);
    }
    assert Follows(orders, |orders| - 1);
  }

  lemma OneMore(g: Order, prev: Order, next: Order, off0: nat) returns (off: nat)
    requires WellFormed(g) && WellFormed(prev) && WellFormed(next) && AcceptedUpdate(prev, next)
    requires Shape(g, off0 + Split(prev)) && off0 <= |g.nodes| && g.nodes[off0..] == prev.nodes
    ensures off == off0 + Split(prev) == Split(g)
    ensures Shape(Glue(g, next), off + Split(next)) && WellFormed(Glue(g, next))
    ensures Glue(g, next).nodes[off..] == next.nodes && Glue(g, next).edges[off..] == next.edges
    ensures Glue(g, next).nodes[0].nodeId == g.nodes[0].nodeId
    ensures Glue(g, next).nodes[0].sequenceId == g.nodes[0].sequenceId
  {
    off := off0 + Split(prev);
    ShapeUnique(g, off, Split(g));
    assert g.nodes[off] == g.nodes[off0..][Split(prev)] == prev.nodes[Split(prev)];
    assert SameNode(next.nodes[0], prev.nodes[Split(prev)]);
    GlueShape(g, next, off, Split(next));
  }

  lemma EdgesGrow(g: Order, next: Order, off: nat, edges: seq<OrderEdge>)
    requires WellFormed(g) && Split(g) == off && WellFormed(next) && g.edges[..off] == edges
    ensures Split(next) <= |next.edges| && off + Split(next) <= |Glue(g, next).edges|
    ensures Glue(g, next).edges[..off + Split(next)] == edges + next.edges[..Split(next)]
  {
  }

  /** `g` has the shape of one order: it starts where `first` starts, ends with the whole of `last`,
      which begins at position `off`, and its base edges are `edges`. */
  ghost predicate Glued(first: Order, last: Order, edges: seq<OrderEdge>, g: Order, off: nat) {
    && WellFormed(g) && WellFormed(last)
    && Shape(g, off + Split(last))
    && off <= |g.nodes| && off <= |g.edges| && g.nodes[off..] == last.nodes && g.edges[off..] == last.edges
    && g.edges[..off + Split(last)] == edges
    && first.nodes != []
    && g.orderId == first.orderId && g.orderUpdateId == first.orderUpdateId
    && g.nodes[0].nodeId == first.nodes[0].nodeId
    && g.nodes[0].sequenceId == first.nodes[0].sequenceId
  }

  lemma GluedStart(o: Order)
    requires WellFormed(o)
    ensures Glued(o, o, o.edges[..Split(o)], o, 0)
  {
  }

  lemma GluedStep(first: Order, prev: Order, next: Order, edges: seq<OrderEdge>, g: Order, off0: nat) returns (off: nat)
    requires Glued(first, prev, edges, g, off0) && AcceptedUpdate(prev, next)
    ensures Glued(first, next, edges + next.edges[..Split(next)], Glue(g, next), off)
  {
    off := OneMore(g, prev, next, off0);
    EdgesGrow(g, next, off, edges);
  }

  lemma GlueAllStep(orders: seq<Order>)
    requires |orders| > 1
    requires WellFormed(GlueAll(orders[..|orders| - 1])) && WellFormed(orders[|orders| - 1])
    ensures var init, next := orders[..|orders| - 1], orders[|orders| - 1];
            && GlueAll(orders) == Glue(GlueAll(init), next)
            && ReleasedEdges(orders) == ReleasedEdges(init) + next.edges[..Split(next)]
  {
  }

  lemma {:induction false} ChainGlues(orders: seq<Order>) returns (off: nat, g: Order, edges: seq<OrderEdge>)
    requires Chain(orders)
    ensures g == GlueAll(orders) && edges == ReleasedEdges(orders)
    ensures Glued(orders[0], orders[|orders| - 1], edges, g, off)
    decreases |orders|
  {
    if |orders| == 1 {
      off, g, edges := 0, orders[0], orders[0].edges[..Split(orders[0])];
      assert ReleasedEdges(orders[..0]) == [] && orders[..|orders| - 1] == orders[..0];
      GluedStart(orders[0]);
    } else {
      var init, next := orders[..|orders| - 1], orders[|orders| - 1];
      ChainPrefix(orders);
      var off0, g0, edges0 := ChainGlues(init);
      off := GluedStep(orders[0], orders[|orders| - 2], next, edges0, g0, off0);
      g, edges := Glue(g0, next), edges0 + next.edges[..Split(next)];
      GlueAllStep(orders);
    }
  }

  /** The base of an order: its released nodes and edges. */
  ghost function Base(o: Order): Order
    requires WellFormed(o)
  {
    o.(nodes := o.nodes[..Split(o) + 1], edges := o.edges[..Split(o)])
  }

  lemma BaseIsReleased(o: Order)
    requires WellFormed(o)
    ensures Shape(Base(o), Split(o)) && WellFormed(Base(o))
    ensures forall n :: n in Base(o).nodes ==> n.released
    ensures forall e :: e in Base(o).edges ==> e.released
  {
    var b, k := Base(o), Split(o);
    assert forall i :: 0 <= i < |b.nodes| ==> b.nodes[i] == o.nodes[i];
    assert forall i :: 0 <= i < |b.edges| ==> b.edges[i] == o.edges[i];
    assert Shape(b, k);
  }

  lemma GluedBase(first: Order, last: Order, edges: seq<OrderEdge>, g: Order, off: nat)
    requires Glued(first, last, edges, g, off)
    ensures Base(g).edges == edges
    ensures Base(g).nodes[0].nodeId == first.nodes[0].nodeId
    ensures Base(g).nodes[|Base(g).nodes| - 1] == last.nodes[Split(last)]
  {
    ShapeUnique(g, off + Split(last), Split(g));
    assert g.nodes[off + Split(last)] == g.nodes[off..][Split(last)];
  }

  /** A fully released, valid path from the first node of `first` to the last released node of `last`. */
  ghost predicate ReleasedPath(path: Order, first: Order, last: Order) {
    && WellFormed(path) && WellFormed(last)
    && (forall n :: n in path.nodes ==> n.released) && (forall e :: e in path.edges ==> e.released)
    && first.nodes != [] && path.nodes[0].nodeId == first.nodes[0].nodeId
    && path.nodes[|path.nodes| - 1] == last.nodes[Split(last)]
  }

  /** Any chain of accepted updates glues into one contiguous, fully released, valid path
      made of exactly the released edges of its orders. */
  lemma ChainIsOnePath(orders: seq<Order>)
    requires Chain(orders)
    ensures WellFormed(GlueAll(orders))
    ensures ReleasedPath(Base(GlueAll(orders)), orders[0], orders[|orders| - 1])
    ensures Base(GlueAll(orders)).edges == ReleasedEdges(orders)
  {
    var off, g, edges := ChainGlues(orders);
    GluedBase(orders[0], orders[|orders| - 1], edges, g, off);
    BaseIsReleased(g);
  }

  /** Along a stretch of the chain with one order id, update ids strictly increase. */
  lemma {:induction false} UpdateIdsIncrease(orders: seq<Order>, i: nat, j: nat)
    requires Chain(orders) && i < j < |orders|
    requires forall m :: i <= m <= j ==> orders[m].orderId == orders[i].orderId
    ensures orders[i].orderUpdateId < orders[j].orderUpdateId
    decreases j - i
  {
    assert Follows(orders, j);
    if i + 1 < j {
      UpdateIdsIncrease(orders, i, j - 1);
    }
  }
}
