/** Routing an outgoing order against the active order and the last State. */
module OrderStitcher {
  import opened Orders

  datatype Snapshot = Snapshot(
    hasActive: bool,
    orderId: string,
    orderUpdateId: uint32,
    nodes: seq<OrderNode>,
    edges: seq<OrderEdge>,
    lastNodeSequenceId: uint32,
    stateOrderUpdateId: uint32,
    stateOrderId: string,
    orderComplete: bool)

  datatype Guard = NO_STATE_YET | ORDER_ID_MISMATCH | PREV_UPDATE_NOT_CONFIRMED

  datatype Decision = SEND_NOW | QUEUE_PENDING(guard: Guard) | IGNORE | REJECT

  function Decide(candidate: Order, snap: Snapshot): Decision {
    if !snap.hasActive then SEND_NOW
    else if candidate.nodes == [] then REJECT
    else if candidate.orderId != snap.orderId then
      if snap.orderComplete then SEND_NOW else REJECT
    else if candidate.orderUpdateId == snap.orderUpdateId then IGNORE
    else if candidate.orderUpdateId < snap.orderUpdateId then REJECT
    else if snap.stateOrderId == "" then QUEUE_PENDING(NO_STATE_YET)
    else
      var stitch := LastReleasedAt(snap.nodes);
      if stitch.None? then REJECT
      else if snap.stateOrderId != snap.orderId then QUEUE_PENDING(ORDER_ID_MISMATCH)
      else if !snap.orderComplete && snap.lastNodeSequenceId > snap.nodes[stitch.value].sequenceId then REJECT
      else if snap.stateOrderUpdateId < snap.orderUpdateId then QUEUE_PENDING(PREV_UPDATE_NOT_CONFIRMED)
      else SEND_NOW
  }

  /** The stitch point of the active order exists, and the vehicle is not beyond it, unless the order is complete. */
  ghost predicate InTime(snap: Snapshot) {
    exists k :: 0 <= k < |snap.nodes| && snap.nodes[k].released
      && (forall i :: k < i < |snap.nodes| ==> !snap.nodes[i].released)
      && (snap.orderComplete || snap.lastNodeSequenceId <= snap.nodes[k].sequenceId)
  }

  /** With nothing active anything goes; another order only once the active one is complete; an update of the active order
      only if it is newer, in time, and a State has confirmed the active order with its last update. */
  ghost predicate MayGo(candidate: Order, snap: Snapshot) {
    snap.hasActive ==>
      && candidate.nodes != []
      && (candidate.orderId != snap.orderId ==> snap.orderComplete)
      && (candidate.orderId == snap.orderId ==>
            && snap.orderUpdateId < candidate.orderUpdateId && InTime(snap)
            && snap.stateOrderId == snap.orderId != "" && snap.orderUpdateId <= snap.stateOrderUpdateId)
  }

  /** A newer update of the active order waits until a State has confirmed that order and its last update,
      as long as it is not too late for it. */
  ghost predicate MustWait(candidate: Order, snap: Snapshot) {
    && snap.hasActive && candidate.nodes != []
    && candidate.orderId == snap.orderId && snap.orderUpdateId < candidate.orderUpdateId
    && (|| snap.stateOrderId == ""
        || (snap.stateOrderId != snap.orderId && exists n :: n in snap.nodes && n.released)
        || (snap.stateOrderId == snap.orderId && InTime(snap) && snap.stateOrderUpdateId < snap.orderUpdateId))
  }

  lemma StitchPointInTime(snap: Snapshot)
    ensures var k := LastReleasedAt(snap.nodes);
            InTime(snap) <==> k.Some? && (snap.orderComplete || snap.lastNodeSequenceId <= snap.nodes[k.value].sequenceId)
    ensures LastReleasedAt(snap.nodes).Some? <==> exists n :: n in snap.nodes && n.released
  {
    var k := LastReleasedAt(snap.nodes);
    if k.Some? {
      assert snap.nodes[k.value] in snap.nodes;
    }
  }

  /** When the stitch decision lets an order go, and when it makes it wait; a repeated update is ignored. */
  lemma DecisionsAreExact(candidate: Order, snap: Snapshot)
    ensures Decide(candidate, snap) == SEND_NOW <==> MayGo(candidate, snap)
    ensures Decide(candidate, snap).QUEUE_PENDING? <==> MustWait(candidate, snap)
    ensures Decide(candidate, snap) == IGNORE <==>
            snap.hasActive && candidate.nodes != [] && candidate.orderId == snap.orderId && candidate.orderUpdateId == snap.orderUpdateId
  {
    StitchPointInTime(snap);
  }

  // ---- Draining the updates that wait ----

  datatype Pending = Pending(order: Order, waits: nat)

  const PENDING_MAX_WAITS := 60

  function PendingOrders(pending: seq<Pending>): (r: seq<Order>)
    ensures |r| == |pending| && forall i :: 0 <= i < |r| ==> r[i] == pending[i].order
  {
    seq(|pending|, i requires 0 <= i < |pending| => pending[i].order)
  }

  datatype Drained = Drained(ready: seq<Order>, dropped: seq<Order>, rest: seq<Pending>)

  function Advance(snap: Snapshot, released: Order): Snapshot {
    snap.(orderUpdateId := released.orderUpdateId, nodes := released.nodes)
  }

  /** Take updates off the head: send, drop, or stop at the first that must wait, ageing it. */
  function Drain(pending: seq<Pending>, snap: Snapshot): Drained {
    if pending == [] then Drained([], [], [])
    else
      var head := pending[0];
      match Decide(head.order, snap)
      case SEND_NOW =>
        var d := Drain(pending[1..], Advance(snap, head.order));
        d.(ready := [head.order] + d.ready)
      case QUEUE_PENDING(_) =>
        if head.waits + 1 > PENDING_MAX_WAITS then
          var d := Drain(pending[1..], snap);
          d.(dropped := [head.order] + d.dropped)
        else Drained([], [], [head.(waits := head.waits + 1)] + pending[1..])
      case _ =>
        var d := Drain(pending[1..], snap);
        d.(dropped := [head.order] + d.dropped)
  }

  /** The drain with what was sent and dropped before it. */
  function Following(ready: seq<Order>, dropped: seq<Order>, d: Drained): Drained {
    Drained(ready + d.ready, dropped + d.dropped, d.rest)
  }

  /** One turn of the drain at the head. */
  lemma DrainTurn(pending: seq<Pending>, snap: Snapshot, ready: seq<Order>, dropped: seq<Order>)
    requires pending != []
    ensures var head, decision := pending[0], Decide(pending[0].order, snap);
            Following(ready, dropped, Drain(pending, snap)) ==
            if decision == SEND_NOW then Following(ready + [head.order], dropped, Drain(pending[1..], Advance(snap, head.order)))
            else if decision.QUEUE_PENDING? && head.waits + 1 <= PENDING_MAX_WAITS then
              Drained(ready, dropped, [head.(waits := head.waits + 1)] + pending[1..])
            else Following(ready, dropped + [head.order], Drain(pending[1..], snap))
  {
    var head, decision := pending[0], Decide(pending[0].order, snap);
    if decision == SEND_NOW {
      var d := Drain(pending[1..], Advance(snap, head.order));
      assert ready + ([head.order] + d.ready) == ready + [head.order] + d.ready;
    } else if decision.QUEUE_PENDING? && head.waits + 1 <= PENDING_MAX_WAITS {
      assert ready + [] == ready && dropped + [] == dropped;
    } else {
      var d := Drain(pending[1..], snap);
      assert dropped + ([head.order] + d.dropped) == dropped + [head.order] + d.dropped;
    }
  }

  /** What becomes of the oldest waiting update: it leaves if it may go, and the next is judged as if it were the active one
      already; it stays, and everything behind it, if it must wait and has not done so sixty times; otherwise it is dropped. */
  lemma HeadOfDrain(pending: seq<Pending>, snap: Snapshot)
    requires pending != []
    ensures var head, tail, d := pending[0], pending[1..], Drain(pending, snap);
            if MayGo(head.order, snap) then
              var next := Drain(tail, snap.(orderUpdateId := head.order.orderUpdateId, nodes := head.order.nodes));
              d == Drained([head.order] + next.ready, next.dropped, next.rest)
            else if MustWait(head.order, snap) && head.waits < 60 then
              d == Drained([], [], [Pending(head.order, head.waits + 1)] + tail)
            else
              d == Drained(Drain(tail, snap).ready, [head.order] + Drain(tail, snap).dropped, Drain(tail, snap).rest)
  {
    DecisionsAreExact(pending[0].order, snap);
  }

  /** Nothing lost or duplicated, and what stays is the unchanged end of the queue. */
  ghost predicate Conserved(queue: seq<Order>, d: Drained) {
    && multiset(queue) == multiset(d.ready) + multiset(d.dropped) + multiset(PendingOrders(d.rest))
    && |d.rest| <= |queue|
    && PendingOrders(d.rest) == queue[|queue| - |d.rest|..]
  }

  lemma MultisetCons(head: Order, tail: seq<Order>)
    ensures multiset([head] + tail) == multiset{head} + multiset(tail)
  {
  }

  lemma ConservedStep(head: Order, queue: seq<Order>, tail: Drained, d: Drained)
    requires Conserved(queue, tail)
    requires d == tail.(ready := [head] + tail.ready) || d == tail.(dropped := [head] + tail.dropped)
    ensures Conserved([head] + queue, d)
  {
    MultisetCons(head, queue);
    if d == tail.(ready := [head] + tail.ready) {
      MultisetCons(head, tail.ready);
    } else {
      MultisetCons(head, tail.dropped);
    }
    assert ([head] + queue)[1 + |queue| - |d.rest|..] == queue[|queue| - |d.rest|..];
  }

  lemma DrainConservesHead(pending: seq<Pending>, snap: Snapshot, after: Snapshot)
    requires pending != [] && Conserved(PendingOrders(pending[1..]), Drain(pending[1..], after))
    requires after == if Decide(pending[0].order, snap) == SEND_NOW then Advance(snap, pending[0].order) else snap
    requires !(Decide(pending[0].order, snap).QUEUE_PENDING? && pending[0].waits + 1 <= PENDING_MAX_WAITS)
    ensures Conserved(PendingOrders(pending), Drain(pending, snap))
  {
    assert PendingOrders(pending) == [pending[0].order] + PendingOrders(pending[1..]);
    ConservedStep(pending[0].order, PendingOrders(pending[1..]), Drain(pending[1..], after), Drain(pending, snap));
  }

  lemma {:induction false} DrainConserves(pending: seq<Pending>, snap: Snapshot)
    ensures Conserved(PendingOrders(pending), Drain(pending, snap))
  {
    if pending != [] {
      var decision := Decide(pending[0].order, snap);
      if decision.QUEUE_PENDING? && pending[0].waits + 1 <= PENDING_MAX_WAITS {
        assert PendingOrders(Drain(pending, snap).rest) == PendingOrders(pending);
      } else {
        var after := if decision == SEND_NOW then Advance(snap, pending[0].order) else snap;
        DrainConserves(pending[1..], after);
        DrainConservesHead(pending, snap, after);
      }
    }
  }

  /** `a` is what is left of `b` when some elements are crossed out. */
  ghost predicate InOrder(a: seq<Order>, b: seq<Order>)
    decreases |b|
  {
    a == [] || (b != [] && ((a[0] == b[0] && InOrder(a[1..], b[1..])) || InOrder(a, b[1..])))
  }

  lemma InOrderCons(x: Order, a: seq<Order>, b: seq<Order>)
    requires InOrder(a, b)
    ensures InOrder([x] + a, [x] + b) && InOrder(a, [x] + b)
  {
    assert ([x] + a)[1..] == a && ([x] + b)[1..] == b;
  }

  lemma {:induction false} InOrderSelf(a: seq<Order>)
    ensures InOrder(a, a)
  {
    if a != [] {
      InOrderSelf(a[1..]);
    }
  }

  lemma {:induction false} InOrderBehind(a: seq<Order>, front: seq<Order>, b: seq<Order>)
    requires InOrder(a, b)
    ensures InOrder(a, front + b)
  {
    if front == [] {
      assert front + b == b;
    } else {
      InOrderBehind(a, front[1..], b);
      InOrderCons(front[0], a, front[1..] + b);
      assert [front[0]] + (front[1..] + b) == front + b;
    }
  }

  /** What follows in order may be appended on both sides. */
  lemma {:induction false} InOrderAppend(a: seq<Order>, b: seq<Order>, c: seq<Order>, d: seq<Order>)
    requires InOrder(a, b) && InOrder(c, d)
    ensures InOrder(a + c, b + d)
    decreases |b|
  {
    if a == [] {
      assert a + c == c;
      InOrderBehind(c, b, d);
    } else {
      assert b + d == [b[0]] + (b[1..] + d);
      if a[0] == b[0] && InOrder(a[1..], b[1..]) {
        InOrderAppend(a[1..], b[1..], c, d);
        InOrderCons(a[0], a[1..] + c, b[1..] + d);
        assert a + c == [a[0]] + (a[1..] + c);
      } else {
        InOrderAppend(a, b[1..], c, d);
        InOrderCons(b[0], a + c, b[1..] + d);
      }
    }
  }

  lemma {:induction false} InOrderTrans(a: seq<Order>, b: seq<Order>, c: seq<Order>)
    requires InOrder(a, b) && InOrder(b, c)
    ensures InOrder(a, c)
    decreases |c|
  {
    if a != [] && b != [] {
      if b[0] == c[0] && InOrder(b[1..], c[1..]) {
        if a[0] == b[0] && InOrder(a[1..], b[1..]) {
          InOrderTrans(a[1..], b[1..], c[1..]);
        } else {
          InOrderTrans(a, b[1..], c[1..]);
        }
      } else {
        InOrderTrans(a, b, c[1..]);
      }
    }
  }

  /** Updates are sent in the order they were queued, and before those that stay. */
  lemma {:induction false} DrainInOrder(pending: seq<Pending>, snap: Snapshot)
    ensures InOrder(Drain(pending, snap).ready + PendingOrders(Drain(pending, snap).rest), PendingOrders(pending))
  {
    if pending != [] {
      var decision := Decide(pending[0].order, snap);
      if decision.QUEUE_PENDING? && pending[0].waits + 1 <= PENDING_MAX_WAITS {
        BlockedInOrder(pending, snap);
      } else {
        var after := if decision == SEND_NOW then Advance(snap, pending[0].order) else snap;
        DrainInOrder(pending[1..], after);
        DrainInOrderHead(pending, snap, after);
      }
    }
  }

  lemma BlockedInOrder(pending: seq<Pending>, snap: Snapshot)
    requires pending != [] && Decide(pending[0].order, snap).QUEUE_PENDING? && pending[0].waits + 1 <= PENDING_MAX_WAITS
    ensures InOrder(Drain(pending, snap).ready + PendingOrders(Drain(pending, snap).rest), PendingOrders(pending))
  {
    assert [] + PendingOrders(Drain(pending, snap).rest) == PendingOrders(pending);
    InOrderSelf(PendingOrders(pending));
  }

  lemma DrainInOrderHead(pending: seq<Pending>, snap: Snapshot, after: Snapshot)
    requires pending != [] && after == if Decide(pending[0].order, snap) == SEND_NOW then Advance(snap, pending[0].order) else snap
    requires !(Decide(pending[0].order, snap).QUEUE_PENDING? && pending[0].waits + 1 <= PENDING_MAX_WAITS)
    requires var d := Drain(pending[1..], after); InOrder(d.ready + PendingOrders(d.rest), PendingOrders(pending[1..]))
    ensures InOrder(Drain(pending, snap).ready + PendingOrders(Drain(pending, snap).rest), PendingOrders(pending))
  {
    var d := Drain(pending[1..], after);
    assert PendingOrders(pending) == [pending[0].order] + PendingOrders(pending[1..]);
    DrainedInOrder(pending[0].order, PendingOrders(pending[1..]), d);
  }

  lemma DrainedInOrder(head: Order, tail: seq<Order>, d: Drained)
    requires InOrder(d.ready + PendingOrders(d.rest), tail)
    ensures InOrder(([head] + d.ready) + PendingOrders(d.rest), [head] + tail)
    ensures InOrder(d.ready + PendingOrders(d.rest), [head] + tail)
  {
    InOrderCons(head, d.ready + PendingOrders(d.rest), tail);
    assert ([head] + d.ready) + PendingOrders(d.rest) == [head] + (d.ready + PendingOrders(d.rest));
  }

  /** A drain, and the updates queued behind the waiting ones after it. */
  datatype Round = Round(snap: Snapshot, joined: seq<Order>)

  function Fresh(orders: seq<Order>): (r: seq<Pending>)
    ensures |r| == |orders| && forall i :: 0 <= i < |r| ==> r[i] == Pending(orders[i], 0)
  {
    seq(|orders|, i requires 0 <= i < |orders| => Pending(orders[i], 0))
  }

  /** What all rounds together sent and dropped, and what still waits after them. */
  function AfterRounds(pending: seq<Pending>, rounds: seq<Round>): Drained
    decreases |rounds|
  {
    if rounds == [] then Drained([], [], pending)
    else
      var d := Drain(pending, rounds[0].snap);
      Following(d.ready, d.dropped, AfterRounds(d.rest + Fresh(rounds[0].joined), rounds[1..]))
  }

  function JoinedIn(rounds: seq<Round>): seq<Pending> {
    if rounds == [] then [] else Fresh(rounds[0].joined) + JoinedIn(rounds[1..])
  }

  ghost predicate BlockedIn(order: Order, rounds: seq<Round>) {
    forall i :: 0 <= i < |rounds| ==> Decide(order, rounds[i].snap).QUEUE_PENDING?
  }

  /** Rounds left before an update blocked in all of them is given up. */
  function RoundsLeft(head: Pending): int {
    PENDING_MAX_WAITS + 1 - head.waits
  }

  /** While a blocked head has rounds left, nothing moves and its counter grows by one a round. */
  lemma {:induction false} BlockedHeadStays(head: Pending, tail: seq<Pending>, rounds: seq<Round>)
    requires |rounds| < RoundsLeft(head) && BlockedIn(head.order, rounds)
    ensures AfterRounds([head] + tail, rounds)
         == Drained([], [], [head.(waits := head.waits + |rounds|)] + (tail + JoinedIn(rounds)))
    decreases |rounds|
  {
    if rounds == [] {
      assert tail + JoinedIn(rounds) == tail;
      assert [head] + tail == [head.(waits := head.waits + |rounds|)] + tail;
    } else {
      var older, joined := head.(waits := head.waits + 1), Fresh(rounds[0].joined);
      assert ([head] + tail)[1..] == tail;
      assert Drain([head] + tail, rounds[0].snap) == Drained([], [], [older] + tail);
      BlockedHeadStays(older, tail + joined, rounds[1..]);
      assert ([older] + tail) + joined == [older] + (tail + joined);
      assert (tail + joined) + JoinedIn(rounds[1..]) == tail + JoinedIn(rounds);
    }
  }

  lemma FollowingNothing(d: Drained)
    ensures Following([], [], d) == d && Following(d.ready, d.dropped, Drained([], [], d.rest)) == d
  {
  }

  lemma FollowingTwice(r1: seq<Order>, d1: seq<Order>, r2: seq<Order>, d2: seq<Order>, d: Drained)
    ensures Following(r1, d1, Following(r2, d2, d)) == Following(r1 + r2, d1 + d2, d)
  {
  }

  /** The rounds up to the last, and then the last. */
  lemma {:induction false} LastRound(pending: seq<Pending>, rounds: seq<Round>, last: Round)
    ensures var before := AfterRounds(pending, rounds);
            var d := Drain(before.rest, last.snap);
            AfterRounds(pending, rounds + [last]) == Following(before.ready, before.dropped, d.(rest := d.rest + Fresh(last.joined)))
    decreases |rounds|
  {
    if rounds == [] {
      var d := Drain(pending, last.snap);
      assert [last][1..] == [] && [] + [last] == [last];
      FollowingNothing(d.(rest := d.rest + Fresh(last.joined)));
    } else {
      var d, next := Drain(pending, rounds[0].snap), Drain(pending, rounds[0].snap).rest + Fresh(rounds[0].joined);
      assert (rounds + [last])[1..] == rounds[1..] + [last];
      LastRound(next, rounds[1..], last);
      var before := AfterRounds(next, rounds[1..]);
      var e := Drain(before.rest, last.snap);
      FollowingTwice(d.ready, d.dropped, before.ready, before.dropped, e.(rest := e.rest + Fresh(last.joined)));
    }
  }

  /** An update at the head that is blocked in 61 rounds is dropped in the last of them, not earlier,
      and that drain goes on behind it; only putting updates back in front of it could delay this. */
  lemma BlockedHeadIsDropped(head: Pending, tail: seq<Pending>, rounds: seq<Round>, last: Round)
    requires head.waits + |rounds| == 60 && BlockedIn(head.order, rounds) && Decide(head.order, last.snap).QUEUE_PENDING?
    ensures AfterRounds([head] + tail, rounds).dropped == []
    ensures var d := Drain(tail + JoinedIn(rounds), last.snap);
            AfterRounds([head] + tail, rounds + [last])
            == Drained(d.ready, [head.order] + d.dropped, d.rest + Fresh(last.joined))
  {
    BlockedHeadStays(head, tail, rounds);
    LastRound([head] + tail, rounds, last);
    var oldest, rest := head.(waits := PENDING_MAX_WAITS), tail + JoinedIn(rounds);
    assert ([oldest] + rest)[1..] == rest;
    var d := Drain(rest, last.snap);
    assert [] + d.ready == d.ready && [] + ([head.order] + d.dropped) == [head.order] + d.dropped;
  }

  /** Updates of the active order leave in increasing order, and each only after the State has confirmed
      whatever was sent before it: at most one update per State goes out unconfirmed. */
  lemma {:induction false} DrainConfirms(pending: seq<Pending>, snap: Snapshot, i: nat)
    requires snap.hasActive && i < |Drain(pending, snap).ready| && Drain(pending, snap).ready[i].orderId == snap.orderId
    ensures var ready := Drain(pending, snap).ready;
            var before := if i == 0 then snap.orderUpdateId else ready[i - 1].orderUpdateId;
            before < ready[i].orderUpdateId && before <= snap.stateOrderUpdateId
  {
    var head := pending[0];
    if Decide(head.order, snap) == SEND_NOW {
      if i > 0 {
        DrainConfirms(pending[1..], Advance(snap, head.order), i - 1);
      }
    } else {
      DrainConfirms(pending[1..], snap, i);
    }
  }
}
