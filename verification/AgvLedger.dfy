/** Where every order goes, and in which order, over any run of one vehicle. */
module AgvLedger {
  import opened Orders
  import opened MasterTypes
  import opened OrderStitcher
  import opened OrderLifecycle
  import opened AgvSpec
  import opened AgvEvents

  // ---- Reading the log ----

  /** Ways into and out of the master's hands; `JOINED` and `LEFT` are about the live queue alone, `WIPED` about what is
      cleared from the queue or the buffer, `POSTPONED` and `RELEASED` about the updates that wait. */
  datatype Fate = ACCEPTED | SENT | EVICTED | CLEARED | REFUSED | JOINED | LEFT | WIPED | POSTPONED | RELEASED

  function Part(fate: Fate, e: OrderEvent): seq<Order> {
    match fate
    case ACCEPTED => if e.Accepted? then [e.order] else []
    case SENT => if e.Sent? then [e.order] else []
    case EVICTED => if e.Evicted? then [e.order] else []
    case CLEARED => if e.Cleared? then e.orders else []
    case REFUSED => if e.Refused? then e.orders else []
    case JOINED => if e.Accepted? then [e.order] else if e.Released? then e.orders else []
    case LEFT => if e.Evicted? || e.Taken? then [e.order] else []
    case WIPED => if e.Cleared? && e.place != BACKLOG then e.orders else []
    case POSTPONED => if e.Postponed? then [e.order] else []
    case RELEASED => if e.Released? then e.orders else []
  }

  /** The orders with that fate, in the order it met them. */
  function Listed(fate: Fate, events: seq<OrderEvent>): seq<Order> {
    if events == [] then [] else Listed(fate, events[..|events| - 1]) + Part(fate, events[|events| - 1])
  }

  lemma ListedLast(fate: Fate, events: seq<OrderEvent>, e: OrderEvent)
    ensures Listed(fate, events + [e]) == Listed(fate, events) + Part(fate, e)
  {
    assert (events + [e])[..|events|] == events;
  }

  lemma AppendLast(a: seq<OrderEvent>, b: seq<OrderEvent>)
    requires b != []
    ensures a + b == (a + b[..|b| - 1]) + [b[|b| - 1]]
  {
  }

  lemma {:induction false} ListedAppend(fate: Fate, a: seq<OrderEvent>, b: seq<OrderEvent>)
    ensures Listed(fate, a + b) == Listed(fate, a) + Listed(fate, b)
    decreases |b|
  {
    if b == [] {
      assert a + b == a;
    } else {
      var init, last := b[..|b| - 1], b[|b| - 1];
      ListedAppend(fate, a, init);
      AppendLast(a, b);
      ListedLast(fate, a + init, last);
      Associate(Listed(fate, a), Listed(fate, init), Part(fate, last));
    }
  }

  lemma Associate(a: seq<Order>, b: seq<Order>, c: seq<Order>)
    ensures (a + b) + c == a + (b + c)
  {
  }

  lemma {:induction false} NoneListed(fate: Fate, events: seq<OrderEvent>)
    requires forall e :: e in events ==> Part(fate, e) == []
    ensures Listed(fate, events) == []
    decreases |events|
  {
    if events != [] {
      assert forall e :: e in events[..|events| - 1] ==> e in events;
      NoneListed(fate, events[..|events| - 1]);
    }
  }

  // ---- What the log does ----

  /** Where the orders are: parked, in the live queue, waiting for the vehicle, or in the processor's hand. */
  datatype Places = Places(parked: seq<Order>, live: seq<Order>, waiting: seq<Order>, hand: seq<Order>)

  function PlacesOf(v: Vehicle): Places {
    Places(v.modeCancelledQueue.orders, OrdersOf(v.orderQueue), PendingOrders(v.tracker.pending), [])
  }

  /** What one entry of the log says about where the orders are. */
  ghost predicate Moves(p: Places, e: OrderEvent, q: Places) {
    match e
    case Accepted(order) => q == p.(live := p.live + [order])
    case Evicted(order) => p.live == [order] + q.live && q == p.(live := q.live)
    case Taken(order) => p.hand == [] && p.live == [order] + q.live && q == p.(live := q.live, hand := [order])
    case Sent(order) => p.hand == [order] && q == p.(hand := [])
    case Postponed(order) => p.hand == [order] && q == p.(hand := [], waiting := p.waiting + [order])
    case Refused(orders) => if p.hand != [] then orders == p.hand && q == p.(hand := []) else GivesUp(p, orders, q)
    case Released(orders) => p.waiting == orders + q.waiting && q == p.(live := p.live + orders, waiting := q.waiting)
    case Captured => p.parked == [] && q == p.(parked := p.live, live := [])
    case Restored => q == p.(parked := [], live := p.parked + p.live)
    case Cleared(place, orders) => orders == At(p, place) && q == Emptied(p, place)
  }

  /** Some of the waiting updates are given up. */
  ghost predicate GivesUp(p: Places, orders: seq<Order>, q: Places) {
    && q == p.(waiting := q.waiting)
    && InOrder(q.waiting, p.waiting) && multiset(p.waiting) == multiset(q.waiting) + multiset(orders)
  }

  function At(p: Places, place: Spot): seq<Order> {
    match place
    case QUEUE => p.live
    case BUFFER => p.parked
    case BACKLOG => p.waiting
  }

  function Emptied(p: Places, place: Spot): Places {
    match place
    case QUEUE => p.(live := [])
    case BUFFER => p.(parked := [])
    case BACKLOG => p.(waiting := [])
  }

  /** The log leads from one state of the places to another. */
  ghost predicate Played(p: Places, events: seq<OrderEvent>, q: Places)
    decreases |events|
  {
    if events == [] then q == p
    else
      var init, e := events[..|events| - 1], events[|events| - 1];
      exists m :: Played(p, init, m) && Moves(m, e, q)
  }

  lemma PlayedMore(p: Places, events: seq<OrderEvent>, m: Places, e: OrderEvent, q: Places)
    requires Played(p, events, m) && Moves(m, e, q)
    ensures Played(p, events + [e], q)
  {
    assert (events + [e])[..|events|] == events;
  }

  lemma PlayedOne(p: Places, e: OrderEvent, q: Places)
    requires Moves(p, e, q)
    ensures Played(p, [e], q)
  {
    assert [e][..0] == [];
    assert Played(p, [], p);
  }

  lemma PlayedTwo(p: Places, e: OrderEvent, m: Places, f: OrderEvent, q: Places)
    requires Moves(p, e, m) && Moves(m, f, q)
    ensures Played(p, [e, f], q)
  {
    PlayedOne(p, e, m);
    PlayedMore(p, [e], m, f, q);
    assert [e] + [f] == [e, f];
  }

  lemma {:induction false} PlayedThen(p: Places, a: seq<OrderEvent>, m: Places, b: seq<OrderEvent>, q: Places)
    requires Played(p, a, m) && Played(m, b, q)
    ensures Played(p, a + b, q)
    decreases |b|
  {
    if b == [] {
      assert a + b == a;
    } else {
      var init := b[..|b| - 1];
      var n :| Played(m, init, n) && Moves(n, b[|b| - 1], q);
      PlayedThen(p, a, m, init, n);
      AppendLast(a, b);
      PlayedMore(p, a + init, n, b[|b| - 1], q);
    }
  }

  // ---- Every step does what it logs ----

  ghost predicate Plays(v: Vehicle, o: Outcome) {
    Played(PlacesOf(v), o.log.orders, PlacesOf(o.v))
  }

  lemma PlaysThen(v: Vehicle, first: Outcome, next: Outcome)
    requires Plays(v, first) && Plays(first.v, next)
    ensures Plays(v, Then(first.log, next))
  {
    PlayedThen(PlacesOf(v), first.log.orders, PlacesOf(first.v), next.log.orders, PlacesOf(next.v));
  }

  lemma IdlePlays(v: Vehicle, o: Outcome)
    requires SameHoldings(v, o.v) && o.log.orders == []
    ensures Plays(v, o)
  {
  }

  lemma SendPlays(v: Vehicle, order: Order)
    ensures Plays(v, AgvSpec.SendOrder(v, order))
  {
    var o, p := AgvSpec.SendOrder(v, order), PlacesOf(v);
    if !Full(v.orderQueue, v.maxQueueSize) {
      assert PlacesOf(o.v).live == p.live + [order];
      PlayedOne(p, Accepted(order), PlacesOf(o.v));
      assert o.log.orders == [Accepted(order)];
    } else if v.dropOldest {
      var oldest := v.orderQueue[0].order;
      assert p.live == [oldest] + p.live[1..] && PlacesOf(o.v).live == p.live[1..] + [order];
      PlayedTwo(p, Evicted(oldest), p.(live := p.live[1..]), Accepted(order), PlacesOf(o.v));
      assert o.log.orders == [Evicted(oldest), Accepted(order)];
    }
  }

  lemma CapturePlays(v: Vehicle, from: OperatingMode, to: OperatingMode, now: int)
    ensures Plays(v, Capture(v, from, to, now))
  {
    var o, p := Capture(v, from, to, now), PlacesOf(v);
    assert PlacesOf(o.v).live == [];
    PlayedTwo(p, Cleared(BUFFER, p.parked), p.(parked := []), Captured, PlacesOf(o.v));
  }

  lemma ResumePlays(v: Vehicle)
    ensures Plays(v, ResumeParked(v))
  {
    assert PlacesOf(ResumeParked(v).v).live == PlacesOf(v).parked + PlacesOf(v).live;
    PlayedOne(PlacesOf(v), Restored, PlacesOf(ResumeParked(v).v));
  }

  lemma DiscardPlays(v: Vehicle)
    ensures Plays(v, DiscardParked(v))
  {
    PlayedOne(PlacesOf(v), Cleared(BUFFER, PlacesOf(v).parked), PlacesOf(DiscardParked(v).v));
  }

  lemma CancelPlays(v: Vehicle)
    ensures Plays(v, CancelPending(v))
  {
    assert PlacesOf(CancelPending(v).v).live == [];
    PlayedOne(PlacesOf(v), Cleared(QUEUE, PlacesOf(v).live), PlacesOf(CancelPending(v).v));
  }

  /** The waiting updates are dropped. */
  lemma BacklogPlays(v: Vehicle, o: Outcome)
    requires SameHoldings(v.(tracker := o.v.tracker), o.v) && o.v.tracker.pending == []
    requires o.log.orders == [Cleared(BACKLOG, PendingOrders(v.tracker.pending))]
    ensures Plays(v, o)
  {
    assert PlacesOf(o.v).waiting == [];
    PlayedOne(PlacesOf(v), o.log.orders[0], PlacesOf(o.v));
  }

  lemma StopPlays(v: Vehicle)
    ensures Plays(v, AgvSpec.Stop(v))
  {
    StopProcessorIsIdle(v);
    var idle := StopProcessor(v);
    var first := Outcome(Halted(idle.v, STATE_UNKNOWN), Plus(idle.log, QUIET.(signals := [Stopped])));
    IdlePlays(v, first);
    CancelPlays(first.v);
    PlaysThen(v, first, CancelPending(first.v));
  }

  lemma ForgetPlays(v: Vehicle)
    ensures Plays(v, ForgetAll(v))
  {
    var untracked := ForgetTracking(ForgetMessages(v));
    BacklogPlays(v, untracked);
    DiscardPlays(untracked.v);
    PlaysThen(v, untracked, DiscardParked(untracked.v));
  }

  lemma RestartPlays(v: Vehicle)
    ensures Plays(v, AgvSpec.Restart(v))
  {
    StopPlays(v);
    var stopped := AgvSpec.Stop(v);
    ForgetPlays(stopped.v);
    PlaysThen(v, stopped, ForgetAll(stopped.v));
  }

  lemma DropPlays(v: Vehicle)
    ensures Plays(v, DropOutbound(v))
  {
    CancelPlays(v);
    var emptied := CancelPending(v);
    var dropped := Outcome(DropOutbound(v).v, QUIET.(orders := [Cleared(BACKLOG, PendingOrders(v.tracker.pending))]));
    BacklogPlays(emptied.v, dropped);
    PlaysThen(v, emptied, dropped);
  }

  lemma ConnectionPlays(v: Vehicle, status: ConnectionState, schemaOk: bool)
    ensures Plays(v, AgvSpec.HandleConnection(v, status, schemaOk))
  {
    if !schemaOk || status == ONLINE {
      IdlePlays(v, AgvSpec.HandleConnection(v, status, schemaOk));
    } else {
      OfflineIsIdle(v, status);
      var offline := GoOffline(v, status);
      IdlePlays(v, offline);
      if status == CONNECTIONBROKEN {
        DropPlays(offline.v);
        PlaysThen(v, offline, DropOutbound(offline.v));
      }
    }
  }

  lemma FreshInFront(orders: seq<Order>, pending: seq<Pending>)
    ensures PendingOrders(Fresh(orders) + pending) == orders + PendingOrders(pending)
  {
  }

  lemma QueuedAtEnd(queue: seq<QueuedOrder>, orders: seq<Order>)
    ensures OrdersOf(queue + Queued(orders, true)) == OrdersOf(queue) + orders
  {
  }

  /** The updates given up leave the waiting ones; then the released ones that fit leave their front for the queue. */
  lemma TrackPlays(v: Vehicle, seen: Observation)
    requires Kept(PendingOrders(v.tracker.pending), seen.ready, seen.dropped, PendingOrders(seen.tracker.pending))
    ensures Plays(v, Track(v, seen))
  {
    var o, k := Track(v, seen), Room(v.maxQueueSize, |v.orderQueue|, |seen.ready|);
    var p, out, rest := PlacesOf(v), seen.ready[..k], seen.ready[k..];
    var m := p.(waiting := seen.ready + PendingOrders(seen.tracker.pending));
    FreshInFront(rest, seen.tracker.pending);
    QueuedAtEnd(v.orderQueue, out);
    SplitWaiting(seen.ready, k, PendingOrders(seen.tracker.pending));
    assert GivesUp(p, seen.dropped, m);
    PlayedTwo(p, Refused(seen.dropped), m, Released(out), PlacesOf(o.v));
    assert o.log.orders == [Refused(seen.dropped), Released(out)];
  }

  lemma SplitWaiting(ready: seq<Order>, k: nat, rest: seq<Order>)
    requires k <= |ready|
    ensures ready + rest == ready[..k] + (ready[k..] + rest)
  {
  }

  lemma StatePlays(v: Vehicle, msg: State, schemaOk: bool, now: int)
    ensures Plays(v, AgvSpec.HandleState(v, msg, schemaOk, now))
  {
    var o := AgvSpec.HandleState(v, msg, schemaOk, now);
    if schemaOk && !Stale(v.haveStateBaseline, v.lastStateHeaderId, msg) {
      ObservedKeeps(v.tracker, msg);
      TrackPlays(Cached(v, msg), Observed(v.tracker, msg));
      TakeStatePlays(v, msg, now, Track(Cached(v, msg), Observed(v.tracker, msg)));
      LoggedBefore(v, TakeState(v, msg, now), QUIET.(gates := [StateSeen(msg.headerId)]));
    } else {
      IdlePlays(v, o);
    }
  }

  lemma LoggedBefore(v: Vehicle, o: Outcome, first: Log)
    requires Plays(v, o) && first.orders == []
    ensures Plays(v, Then(first, o))
  {
    assert Plus(first, o.log).orders == o.log.orders;
  }

  lemma TakeStatePlays(v: Vehicle, msg: State, now: int, tracked: Outcome)
    requires tracked == Track(Cached(v, msg), Observed(v.tracker, msg)) && Plays(Cached(v, msg), tracked)
    ensures Plays(v, TakeState(v, msg, now))
  {
    var o := Outcome(tracked.v, Plus(tracked.log, Recover(v, v.operationalState)));
    assert o.log.orders == tracked.log.orders && PlacesOf(Cached(v, msg)) == PlacesOf(v);
    if LeavesControl(v.lastState, msg) {
      var captured := Capture(o.v, v.lastState.value.operatingMode, msg.operatingMode, now);
      CapturePlays(o.v, v.lastState.value.operatingMode, msg.operatingMode, now);
      PlaysThen(v, o, captured);
    }
  }

  lemma WaitsLast(pending: seq<Pending>, order: Order)
    ensures PendingOrders(pending + [Pending(order, 0)]) == PendingOrders(pending) + [order]
  {
  }

  lemma NextOrderPlays(v: Vehicle, adapter: bool, passes: bool)
    requires v.orderQueue != [] && (passes ==> HeadRoute(v).Some?)
    ensures Plays(v, NextOrder(v, adapter, passes))
  {
    var o, p, head := NextOrder(v, adapter, passes), PlacesOf(v), v.orderQueue[0].order;
    DisposalLeaves(Popped(v), v.orderQueue[0], adapter, passes);
    var e := Disposed(Popped(v), v.orderQueue[0], adapter, passes).log.orders[0];
    WaitsLast(v.tracker.pending, head);
    assert p.live == [head] + p.live[1..] && PlacesOf(o.v).live == p.live[1..];
    PlayedTwo(p, Taken(head), p.(live := p.live[1..], hand := [head]), e, PlacesOf(o.v));
    assert o.log.orders == [Taken(head), e];
  }

  lemma TurnPlays(v: Vehicle, adapter: bool, passes: bool)
    requires passes ==> HeadRoute(v).Some?
    ensures Plays(v, AgvSpec.Turn(v, adapter, passes))
  {
    if v.inFlight.Some? {
      LandIsIdle(v);
    } else if v.processorRunning && v.instantActionsQueue == [] && v.orderQueue != [] {
      NextOrderPlays(v, adapter, passes);
    }
  }

  lemma ClientPlays(v: Vehicle, call: ClientCall)
    ensures Plays(v, AgvSpec.ClientStep(v, call))
  {
    match call
    case SendAnOrder(order) => SendPlays(v, order);
    case SendActions(actions) =>
    case CancelQueued => CancelPlays(v);
    case ResumeBuffer => ResumePlays(v);
    case DiscardBuffer => DiscardPlays(v);
  }

  lemma LifePlays(v: Vehicle, event: LifeEvent)
    ensures Plays(v, AgvSpec.LifeStep(v, event))
  {
    match event
    case StopAgv => StopPlays(v);
    case RestartAgv => RestartPlays(v);
    case PauseAgv => StopProcessorIsIdle(v);
    case _ =>
  }

  lemma StepPlays(v: Vehicle, move: Move)
    ensures Plays(v, AgvSpec.Step(v, move))
  {
    match move
    case Client(call) => ClientPlays(v, call);
    case Life(event) => LifePlays(v, event);
    case ConnectionMessage(status, schemaOk) => ConnectionPlays(v, status, schemaOk);
    case StateMessage(msg, schemaOk, now) => StatePlays(v, msg, schemaOk, now);
    case VisualizationMessage(headerId, schemaOk) => IdlePlays(v, AgvSpec.Step(v, move));
    case ProcessorTurn(adapter, layout, verdicts) => TurnPlays(v, adapter, HeadPasses(v, layout, verdicts));
  }

  /** Over any run, the log accounts for every order in the queue, in the buffer and among the waiting updates:
      played from where the orders were, it leads to where they are. */
  lemma {:induction false} RunPlays(v: Vehicle, moves: seq<Move>)
    ensures Plays(v, Run(v, moves))
    decreases |moves|
  {
    if moves != [] {
      var before := Run(v, moves[..|moves| - 1]);
      RunPlays(v, moves[..|moves| - 1]);
      StepPlays(before.v, moves[|moves| - 1]);
      PlaysThen(v, before, AgvSpec.Step(before.v, moves[|moves| - 1]));
    }
  }

  // ---- How often each entry is logged ----

  lemma ListedOne(fate: Fate, e: OrderEvent)
    ensures Listed(fate, [e]) == Part(fate, e)
  {
    assert [e][..0] == [];
  }

  lemma ListedTwo(fate: Fate, e: OrderEvent, f: OrderEvent)
    ensures Listed(fate, [e, f]) == Part(fate, e) + Part(fate, f)
  {
    assert [e, f] == [e] + [f];
    ListedAppend(fate, [e], [f]);
    ListedOne(fate, e);
    ListedOne(fate, f);
  }

  lemma FatesOfOne(e: OrderEvent)
    ensures Listed(ACCEPTED, [e]) == Part(ACCEPTED, e) && Listed(EVICTED, [e]) == Part(EVICTED, e) && Listed(SENT, [e]) == Part(SENT, e)
  {
    ListedOne(ACCEPTED, e);
    ListedOne(EVICTED, e);
    ListedOne(SENT, e);
  }

  lemma FatesOfTwo(e: OrderEvent, f: OrderEvent)
    ensures Listed(ACCEPTED, [e, f]) == Part(ACCEPTED, e) + Part(ACCEPTED, f)
    ensures Listed(EVICTED, [e, f]) == Part(EVICTED, e) + Part(EVICTED, f)
    ensures Listed(SENT, [e, f]) == Part(SENT, e) + Part(SENT, f)
  {
    ListedTwo(ACCEPTED, e, f);
    ListedTwo(EVICTED, e, f);
    ListedTwo(SENT, e, f);
  }

  lemma EvictionFates(oldest: Order, order: Order)
    ensures var events := [Evicted(oldest), Accepted(order)];
            Listed(ACCEPTED, events) == [order] && Listed(EVICTED, events) == [oldest] && Listed(SENT, events) == []
  {
    FatesOfTwo(Evicted(oldest), Accepted(order));
  }

  /** What a step does not log is not listed. */
  lemma Unlisted(v: Vehicle, move: Move, events: seq<OrderEvent>)
    requires LogsExactly(v, move, events)
    ensures !Admits(v, move) ==> Listed(ACCEPTED, events) == Listed(EVICTED, events) == []
    ensures !Takes(v, move) ==> Listed(SENT, events) == []
    ensures !Admits(v, move) && !Takes(v, move) ==> Listed(LEFT, events) == []
  {
    if !Admits(v, move) {
      NothingAdmitted(v, move, events);
      NoneListed(ACCEPTED, events);
      NoneListed(EVICTED, events);
    }
    if !Takes(v, move) {
      NothingTaken(v, move, events);
      NoneListed(SENT, events);
      if !Admits(v, move) {
        NoneListed(LEFT, events);
      }
    }
  }

  lemma NothingAdmitted(v: Vehicle, move: Move, events: seq<OrderEvent>)
    requires LogsExactly(v, move, events) && !Admits(v, move)
    ensures forall e :: e in events ==> !e.Accepted? && !e.Evicted?
  {
    forall e | e in events ensures !e.Accepted? && !e.Evicted? {
      assert Occurs(v, move, e);
    }
  }

  lemma NothingTaken(v: Vehicle, move: Move, events: seq<OrderEvent>)
    requires LogsExactly(v, move, events) && !Takes(v, move)
    ensures forall e :: e in events ==> !e.Taken? && !e.Sent?
  {
    forall e | e in events ensures !e.Taken? && !e.Sent? {
      assert Occurs(v, move, e);
    }
  }

  /** A step that captures takes nothing off the queue. */
  lemma CaptureTakesNothing(v: Vehicle, move: Move)
    requires Captured in AgvSpec.Step(v, move).log.orders
    ensures Listed(LEFT, AgvSpec.Step(v, move).log.orders) == []
  {
    EventsAreExact(v, move);
    assert Occurs(v, move, Captured);
    Unlisted(v, move, AgvSpec.Step(v, move).log.orders);
  }

  /** An order is accepted, evicted or sent once at a step at which that occurs, and otherwise not at all. */
  lemma FatesAreExact(v: Vehicle, move: Move)
    ensures var events := AgvSpec.Step(v, move).log.orders;
            && Listed(ACCEPTED, events) == (if Admits(v, move) then [move.call.order] else [])
            && Listed(EVICTED, events) == (if Admits(v, move) && |v.orderQueue| >= v.maxQueueSize then [v.orderQueue[0].order] else [])
            && Listed(SENT, events) == (if Dispatches(v, move) then [v.orderQueue[0].order] else [])
  {
    EventsAreExact(v, move);
    Unlisted(v, move, AgvSpec.Step(v, move).log.orders);
    if Admits(v, move) {
      SendLogs(v, move.call.order);
      if |v.orderQueue| < v.maxQueueSize {
        FatesOfOne(Accepted(move.call.order));
      } else {
        EvictionFates(v.orderQueue[0].order, move.call.order);
      }
    } else if Takes(v, move) {
      TurnLogs(v, move.adapter, move.layout, move.verdicts);
      FatesOfTwo(Taken(v.orderQueue[0].order), Disposal(v, move));
    }
  }

  // ---- Conservation ----

  /** The orders the master has accepted and not yet dealt with. */
  function Holdings(v: Vehicle): multiset<Order> {
    multiset(OrdersOf(v.orderQueue)) + multiset(v.modeCancelledQueue.orders) + multiset(PendingOrders(v.tracker.pending))
  }

  function Total(p: Places): multiset<Order> {
    multiset(p.live) + multiset(p.parked) + multiset(p.waiting) + multiset(p.hand)
  }

  function Gone(events: seq<OrderEvent>): multiset<Order> {
    multiset(Listed(SENT, events)) + multiset(Listed(EVICTED, events)) + multiset(Listed(CLEARED, events)) + multiset(Listed(REFUSED, events))
  }

  /** The orders that go out with an event. */
  function Out(e: OrderEvent): seq<Order> {
    match e
    case Sent(order) => [order]
    case Evicted(order) => [order]
    case Cleared(_, orders) => orders
    case Refused(orders) => orders
    case _ => []
  }

  lemma MovesBalance(p: Places, e: OrderEvent, q: Places)
    requires Moves(p, e, q)
    ensures Total(p) + multiset(Part(ACCEPTED, e)) == Total(q) + multiset(Out(e))
  {
  }

  lemma GoneMore(events: seq<OrderEvent>, e: OrderEvent)
    ensures Gone(events + [e]) == Gone(events) + multiset(Out(e))
  {
    SumMore(SENT, events, e);
    SumMore(EVICTED, events, e);
    SumMore(CLEARED, events, e);
    SumMore(REFUSED, events, e);
    OutIsOneOf(e);
    FourSums(multiset(Listed(SENT, events)), multiset(Listed(EVICTED, events)), multiset(Listed(CLEARED, events)), multiset(Listed(REFUSED, events)),
             multiset(Part(SENT, e)), multiset(Part(EVICTED, e)), multiset(Part(CLEARED, e)), multiset(Part(REFUSED, e)));
  }

  lemma SumMore(fate: Fate, events: seq<OrderEvent>, e: OrderEvent)
    ensures multiset(Listed(fate, events + [e])) == multiset(Listed(fate, events)) + multiset(Part(fate, e))
  {
    ListedLast(fate, events, e);
  }

  lemma OutIsOneOf(e: OrderEvent)
    ensures multiset(Part(SENT, e)) + multiset(Part(EVICTED, e)) + multiset(Part(CLEARED, e)) + multiset(Part(REFUSED, e)) == multiset(Out(e))
  {
  }

  lemma FourSums(s1: multiset<Order>, e1: multiset<Order>, c1: multiset<Order>, r1: multiset<Order>,
                 s2: multiset<Order>, e2: multiset<Order>, c2: multiset<Order>, r2: multiset<Order>)
    ensures (s1 + s2) + (e1 + e2) + (c1 + c2) + (r1 + r2) == (s1 + e1 + c1 + r1) + (s2 + e2 + c2 + r2)
  {
  }

  lemma Balance(h0: multiset<Order>, a1: multiset<Order>, h1: multiset<Order>, g1: multiset<Order>,
                a2: multiset<Order>, h2: multiset<Order>, g2: multiset<Order>)
    requires h0 + a1 == h1 + g1 && h1 + a2 == h2 + g2
    ensures h0 + (a1 + a2) == h2 + (g1 + g2)
  {
    assert h0 + (a1 + a2) == (h0 + a1) + a2;
    assert (h1 + g1) + a2 == (h1 + a2) + g1;
    assert (h2 + g2) + g1 == h2 + (g1 + g2);
  }

  ghost predicate Balanced(p: Places, events: seq<OrderEvent>, q: Places) {
    Total(p) + multiset(Listed(ACCEPTED, events)) == Total(q) + Gone(events)
  }

  lemma NothingBalanced(p: Places)
    ensures Balanced(p, [], p)
  {
  }

  lemma BalancedMore(p: Places, events: seq<OrderEvent>, m: Places, e: OrderEvent, q: Places, all: seq<OrderEvent>)
    requires Balanced(p, events, m) && Moves(m, e, q) && all == events + [e]
    ensures Balanced(p, all, q)
  {
    MovesBalance(m, e, q);
    SumMore(ACCEPTED, events, e);
    GoneMore(events, e);
    Balance(Total(p), multiset(Listed(ACCEPTED, events)), Total(m), Gone(events), multiset(Part(ACCEPTED, e)), Total(q), multiset(Out(e)));
  }

  lemma {:induction false} LogConserves(p: Places, events: seq<OrderEvent>, q: Places)
    requires Played(p, events, q)
    ensures Balanced(p, events, q)
    decreases |events|
  {
    if events == [] {
      NothingBalanced(p);
    } else {
      var init, e := events[..|events| - 1], events[|events| - 1];
      var m :| Played(p, init, m) && Moves(m, e, q);
      LogConserves(p, init, m);
      BalancedMore(p, init, m, e, q, events);
    }
  }

  lemma TotalIsHeld(v: Vehicle)
    ensures Total(PlacesOf(v)) == Holdings(v)
  {
  }

  /** Whatever happens in whatever order: what was held and what was accepted is held still, or was sent, evicted,
      cleared or refused, each order as often as it was accepted. */
  lemma OrdersAreConserved(v: Vehicle, moves: seq<Move>)
    ensures var run := Run(v, moves);
            Holdings(v) + multiset(Listed(ACCEPTED, run.log.orders)) ==
            Holdings(run.v) + multiset(Listed(SENT, run.log.orders)) + multiset(Listed(EVICTED, run.log.orders))
            + multiset(Listed(CLEARED, run.log.orders)) + multiset(Listed(REFUSED, run.log.orders))
  {
    var run := Run(v, moves);
    RunPlays(v, moves);
    LogConserves(PlacesOf(v), run.log.orders, PlacesOf(run.v));
    TotalIsHeld(v);
    TotalIsHeld(run.v);
    FiveSums(Holdings(run.v), multiset(Listed(SENT, run.log.orders)), multiset(Listed(EVICTED, run.log.orders)),
             multiset(Listed(CLEARED, run.log.orders)), multiset(Listed(REFUSED, run.log.orders)));
  }

  lemma FiveSums(h: multiset<Order>, s: multiset<Order>, e: multiset<Order>, c: multiset<Order>, r: multiset<Order>)
    ensures h + s + e + c + r == h + (s + e + c + r)
  {
  }

  // ---- First in, first out ----

  lemma Regroup<T>(q0: seq<T>, j1: seq<T>, j2: seq<T>, l1: seq<T>, l2: seq<T>, q1: seq<T>, q2: seq<T>)
    requires q0 + j1 == l1 + q1 && q1 + j2 == l2 + q2
    ensures q0 + (j1 + j2) == (l1 + l2) + q2
  {
    assert q0 + (j1 + j2) == (q0 + j1) + j2;
    assert (l1 + q1) + j2 == l1 + (q1 + j2);
    assert l1 + (l2 + q2) == (l1 + l2) + q2;
  }

  lemma NothingMoves(line: seq<Order>)
    ensures line + [] == [] + line
  {
  }

  lemma NothingAppended(line: seq<Order>)
    ensures line + [] == line && [] + line == line
  {
  }

  /** The live queue was not captured, resumed or cleared. */
  ghost predicate Undisturbed(events: seq<OrderEvent>) {
    forall e :: e in events ==> !e.Captured? && !e.Restored? && !(e.Cleared? && e.place == QUEUE)
  }

  lemma {:induction false} LogIsFifo(p: Places, events: seq<OrderEvent>, q: Places)
    requires Played(p, events, q) && Undisturbed(events)
    ensures p.live + Listed(JOINED, events) == Listed(LEFT, events) + q.live
    decreases |events|
  {
    if events == [] {
      NothingMoves(p.live);
    } else {
      var init, e := events[..|events| - 1], events[|events| - 1];
      var m :| Played(p, init, m) && Moves(m, e, q);
      assert e in events && forall d :: d in init ==> d in events;
      LogIsFifo(p, init, m);
      EntryIsFifo(m, e, q);
      Regroup(p.live, Listed(JOINED, init), Part(JOINED, e), Listed(LEFT, init), Part(LEFT, e), m.live, q.live);
    }
  }

  lemma EntryIsFifo(p: Places, e: OrderEvent, q: Places)
    requires Moves(p, e, q) && !e.Captured? && !e.Restored? && !(e.Cleared? && e.place == QUEUE)
    ensures p.live + Part(JOINED, e) == Part(LEFT, e) + q.live
  {
    NothingMoves(p.live);
    NothingAppended(p.live);
    NothingAppended(q.live);
  }

  /** Over any run in which the live queue is not captured, resumed or cleared, what was queued and then what joined
      is what left and then what is queued: first in, first out. */
  lemma QueueIsFifo(v: Vehicle, moves: seq<Move>)
    ensures var run := Run(v, moves);
            Undisturbed(run.log.orders) ==>
              OrdersOf(v.orderQueue) + Listed(JOINED, run.log.orders) == Listed(LEFT, run.log.orders) + OrdersOf(run.v.orderQueue)
  {
    RunPlays(v, moves);
    if Undisturbed(Run(v, moves).log.orders) {
      LogIsFifo(PlacesOf(v), Run(v, moves).log.orders, PlacesOf(Run(v, moves).v));
    }
  }

  function Line(p: Places): seq<Order> {
    p.parked + p.live
  }

  /** Nothing was cleared, and nothing left the queue past parked orders. */
  ghost predicate Smooth(v: Vehicle, events: seq<OrderEvent>) {
    Listed(WIPED, events) == [] && (Listed(LEFT, events) != [] ==> v.modeCancelledQueue.orders == [])
  }

  /** No step of the run clears orders, and none takes orders off the queue while others are parked. */
  ghost predicate SmoothRun(v: Vehicle, moves: seq<Move>)
    decreases |moves|
  {
    moves == [] ||
    var init, last := moves[..|moves| - 1], moves[|moves| - 1];
    SmoothRun(v, init) && Smooth(Run(v, init).v, AgvSpec.Step(Run(v, init).v, last).log.orders)
  }

  lemma {:induction false} LogKeepsLine(p: Places, events: seq<OrderEvent>, q: Places)
    requires Played(p, events, q) && Listed(WIPED, events) == []
    requires Listed(LEFT, events) == [] || (p.parked == [] && Captured !in events)
    ensures Line(p) + Listed(JOINED, events) == Listed(LEFT, events) + Line(q)
    ensures p.parked == [] && Captured !in events ==> q.parked == []
    decreases |events|
  {
    if events == [] {
      NothingMoves(Line(p));
    } else {
      var init, e := events[..|events| - 1], events[|events| - 1];
      var m :| Played(p, init, m) && Moves(m, e, q);
      assert e in events && forall d :: d in init ==> d in events;
      LogKeepsLine(p, init, m);
      EntryKeepsLine(m, e, q);
      Regroup(Line(p), Listed(JOINED, init), Part(JOINED, e), Listed(LEFT, init), Part(LEFT, e), Line(m), Line(q));
    }
  }

  lemma EntryKeepsLine(p: Places, e: OrderEvent, q: Places)
    requires Moves(p, e, q) && Part(WIPED, e) == [] && (Part(LEFT, e) == [] || p.parked == [])
    ensures Line(p) + Part(JOINED, e) == Part(LEFT, e) + Line(q)
    ensures p.parked == [] && !e.Captured? ==> q.parked == []
  {
    NothingMoves(Line(p));
    if e.Accepted? || e.Released? {
      assert p.parked + (p.live + Part(JOINED, e)) == Line(p) + Part(JOINED, e);
      assert [] + Line(q) == Line(q);
    } else if e.Evicted? || e.Taken? {
      assert [] + p.live == p.live && [] + q.live == q.live;
    } else if e.Captured? || e.Restored? {
      assert p.live + [] == p.live && [] + p.live == p.live && [] + (p.parked + p.live) == p.parked + p.live;
    }
  }

  /** Over any run that clears nothing and takes nothing off the queue while orders are parked, parked and live orders
      together are first in, first out, captures and resumes included. */
  lemma {:induction false} LineIsFifo(v: Vehicle, moves: seq<Move>)
    requires SmoothRun(v, moves)
    ensures var run := Run(v, moves);
            OrderLine(v) + Listed(JOINED, run.log.orders) == Listed(LEFT, run.log.orders) + OrderLine(run.v)
    decreases |moves|
  {
    if moves == [] {
      NothingMoves(OrderLine(v));
    } else {
      var before := Run(v, moves[..|moves| - 1]);
      var step := AgvSpec.Step(before.v, moves[|moves| - 1]);
      LineIsFifo(v, moves[..|moves| - 1]);
      StepPlays(before.v, moves[|moves| - 1]);
      if Captured in step.log.orders {
        CaptureTakesNothing(before.v, moves[|moves| - 1]);
      }
      LogKeepsLine(PlacesOf(before.v), step.log.orders, PlacesOf(step.v));
      ListedAppend(JOINED, before.log.orders, step.log.orders);
      ListedAppend(LEFT, before.log.orders, step.log.orders);
      Regroup(OrderLine(v), Listed(JOINED, before.log.orders), Listed(JOINED, step.log.orders),
              Listed(LEFT, before.log.orders), Listed(LEFT, step.log.orders), OrderLine(before.v), OrderLine(step.v));
    }
  }

  // ---- Nothing overtakes ----

  /** The line is what was in it and what joined, in that order, some crossed out. */
  ghost predicate LineInOrder(p: Places, events: seq<OrderEvent>, q: Places) {
    InOrder(Line(q), Line(p) + Listed(JOINED, events))
  }

  /** What was released and then what waits is what waited and what was postponed, in that order, some crossed out. */
  ghost predicate WaitingInOrder(p: Places, events: seq<OrderEvent>, q: Places) {
    InOrder(Listed(RELEASED, events) + q.waiting, p.waiting + Listed(POSTPONED, events))
  }

  lemma FrontCrossedOut(parked: seq<Order>, head: Order, live: seq<Order>)
    ensures InOrder(parked + live, parked + ([head] + live))
  {
    InOrderSelf(parked);
    InOrderSelf(live);
    InOrderCons(head, live, live);
    InOrderAppend(parked, parked, live, [head] + live);
  }

  lemma HalfCrossedOut(parked: seq<Order>, live: seq<Order>)
    ensures InOrder(parked + [], parked + live) && InOrder([] + live, parked + live)
  {
    InOrderSelf(parked);
    InOrderSelf(live);
    InOrderAppend(parked, parked, [], live);
    InOrderAppend([], parked, live, live);
  }

  /** The same lines, written differently. */
  lemma InOrderAs(a: seq<Order>, b: seq<Order>, a': seq<Order>, b': seq<Order>)
    requires InOrder(a, b) && a' == a && b' == b
    ensures InOrder(a', b')
  {
  }

  lemma JoiningKeepsOrder(p: Places, e: OrderEvent, q: Places)
    requires Moves(p, e, q) && (e.Accepted? || e.Released?)
    ensures InOrder(Line(q), Line(p) + Part(JOINED, e))
  {
    Associate(p.parked, p.live, Part(JOINED, e));
    InOrderSelf(Line(q));
    InOrderAs(Line(q), Line(q), Line(q), Line(p) + Part(JOINED, e));
  }

  lemma LeavingKeepsOrder(p: Places, e: OrderEvent, q: Places)
    requires Moves(p, e, q) && (e.Evicted? || e.Taken?)
    ensures InOrder(Line(q), Line(p))
  {
    FrontCrossedOut(p.parked, e.order, q.live);
    InOrderAs(p.parked + q.live, p.parked + ([e.order] + q.live), Line(q), Line(p));
  }

  lemma ClearingKeepsOrder(p: Places, e: OrderEvent, q: Places)
    requires Moves(p, e, q) && e.Cleared? && e.place != BACKLOG
    ensures InOrder(Line(q), Line(p))
  {
    HalfCrossedOut(p.parked, p.live);
  }

  lemma SameLine(p: Places, e: OrderEvent, q: Places)
    requires Moves(p, e, q) && !e.Accepted? && !e.Released? && !e.Evicted? && !e.Taken? && !(e.Cleared? && e.place != BACKLOG)
    ensures Line(q) == Line(p)
  {
    NothingAppended(p.live);
    NothingAppended(p.parked + p.live);
  }

  lemma EntryLineInOrder(p: Places, e: OrderEvent, q: Places)
    requires Moves(p, e, q)
    ensures InOrder(Line(q), Line(p) + Part(JOINED, e))
  {
    NothingAppended(Line(p));
    if e.Accepted? || e.Released? {
      JoiningKeepsOrder(p, e, q);
    } else if e.Evicted? || e.Taken? {
      LeavingKeepsOrder(p, e, q);
      InOrderAs(Line(q), Line(p), Line(q), Line(p) + Part(JOINED, e));
    } else if e.Cleared? && e.place != BACKLOG {
      ClearingKeepsOrder(p, e, q);
      InOrderAs(Line(q), Line(p), Line(q), Line(p) + Part(JOINED, e));
    } else {
      SameLine(p, e, q);
      InOrderSelf(Line(p));
      InOrderAs(Line(p), Line(p), Line(q), Line(p) + Part(JOINED, e));
    }
  }

  /** What waits is some of what waited, or the front was released, or one was added. */
  lemma WaitingAfter(p: Places, e: OrderEvent, q: Places)
    requires Moves(p, e, q)
    ensures || Part(RELEASED, e) + q.waiting == p.waiting + Part(POSTPONED, e)
            || (Part(RELEASED, e) == Part(POSTPONED, e) == [] && (q.waiting == [] || InOrder(q.waiting, p.waiting)))
  {
    NothingAppended(p.waiting);
    NothingAppended(q.waiting);
  }

  lemma EntryWaitingInOrder(p: Places, e: OrderEvent, q: Places)
    requires Moves(p, e, q)
    ensures InOrder(Part(RELEASED, e) + q.waiting, p.waiting + Part(POSTPONED, e))
  {
    WaitingAfter(p, e, q);
    if Part(RELEASED, e) + q.waiting == p.waiting + Part(POSTPONED, e) {
      InOrderSelf(Part(RELEASED, e) + q.waiting);
    } else {
      NothingAppended(p.waiting);
      NothingAppended(q.waiting);
      InOrderAs(q.waiting, p.waiting, Part(RELEASED, e) + q.waiting, p.waiting + Part(POSTPONED, e));
    }
  }

  /** Two stretches in which nothing overtakes make one. */
  lemma InOrderChain(out1: seq<Order>, mid: seq<Order>, first: seq<Order>, in1: seq<Order>,
                     out2: seq<Order>, last: seq<Order>, in2: seq<Order>)
    requires InOrder(out1 + mid, first + in1) && InOrder(out2 + last, mid + in2)
    ensures InOrder((out1 + out2) + last, first + (in1 + in2))
  {
    InOrderUnder(out1, out2 + last, mid + in2);
    InOrderOver(out1 + mid, first + in1, in2);
    Associate(out1, out2, last);
    Associate(out1, mid, in2);
    Associate(first, in1, in2);
    InOrderTrans(out1 + (out2 + last), (out1 + mid) + in2, (first + in1) + in2);
  }

  lemma InOrderUnder(front: seq<Order>, a: seq<Order>, b: seq<Order>)
    requires InOrder(a, b)
    ensures InOrder(front + a, front + b)
  {
    InOrderSelf(front);
    InOrderAppend(front, front, a, b);
  }

  lemma InOrderOver(a: seq<Order>, b: seq<Order>, end: seq<Order>)
    requires InOrder(a, b)
    ensures InOrder(a + end, b + end)
  {
    InOrderSelf(end);
    InOrderAppend(a, b, end, end);
  }

  lemma {:induction false} LogKeepsOrder(p: Places, events: seq<OrderEvent>, q: Places)
    requires Played(p, events, q)
    ensures LineInOrder(p, events, q) && WaitingInOrder(p, events, q)
    decreases |events|
  {
    if events == [] {
      InOrderSelf(Line(p));
      InOrderSelf(p.waiting);
      NothingAppended(Line(p));
      NothingAppended(p.waiting);
    } else {
      var init, e := events[..|events| - 1], events[|events| - 1];
      var m :| Played(p, init, m) && Moves(m, e, q);
      LogKeepsOrder(p, init, m);
      EntryLineInOrder(m, e, q);
      EntryWaitingInOrder(m, e, q);
      LineChain(Line(m), Line(p), Listed(JOINED, init), Line(q), Part(JOINED, e));
      InOrderChain(Listed(RELEASED, init), m.waiting, p.waiting, Listed(POSTPONED, init), Part(RELEASED, e), q.waiting, Part(POSTPONED, e));
    }
  }

  lemma LineChain(mid: seq<Order>, first: seq<Order>, in1: seq<Order>, last: seq<Order>, in2: seq<Order>)
    requires InOrder(mid, first + in1) && InOrder(last, mid + in2)
    ensures InOrder(last, first + (in1 + in2))
  {
    NothingAppended(mid);
    NothingAppended(last);
    InOrderChain([], mid, first, in1, [], last, in2);
  }

  /** Over any run at all, whatever is captured, resumed, cleared, evicted or taken past parked orders on the way:
      the orders in line are some of those that were in it and then of those that joined, in that order.
      Orders accepted while others are parked stay behind them. */
  lemma LineKeepsOrder(v: Vehicle, moves: seq<Move>)
    ensures InOrder(OrderLine(Run(v, moves).v), OrderLine(v) + Listed(JOINED, Run(v, moves).log.orders))
  {
    RunPlays(v, moves);
    LogKeepsOrder(PlacesOf(v), Run(v, moves).log.orders, PlacesOf(Run(v, moves).v));
  }

  /** Over any run at all, the updates released to the queue, and then those still waiting, are some of those that waited
      and then of those that were postponed, in that order: no update overtakes another, however often
      released ones are put back for want of room. */
  lemma WaitingKeepsOrder(v: Vehicle, moves: seq<Move>)
    ensures var run := Run(v, moves);
            InOrder(Listed(RELEASED, run.log.orders) + PendingOrders(run.v.tracker.pending),
                    PendingOrders(v.tracker.pending) + Listed(POSTPONED, run.log.orders))
  {
    RunPlays(v, moves);
    LogKeepsOrder(PlacesOf(v), Run(v, moves).log.orders, PlacesOf(Run(v, moves).v));
  }

  // ---- Turns of the processor ----

  /** Turns of the processor only take orders off the queue. */
  ghost predicate OnlyTakes(events: seq<OrderEvent>) {
    forall e :: e in events ==> e.Taken? || e.Sent? || e.Refused? || e.Postponed?
  }

  lemma TurnOnlyTakes(v: Vehicle, adapter: bool, passes: bool)
    requires passes ==> HeadRoute(v).Some?
    ensures OnlyTakes(AgvSpec.Turn(v, adapter, passes).log.orders)
  {
    if v.inFlight.Some? {
      LandIsIdle(v);
    } else if v.orderQueue != [] {
      DisposalLeaves(Popped(v), v.orderQueue[0], adapter, passes);
    }
  }

  lemma {:induction false} TurnsOnlyTake(v: Vehicle, turns: seq<Move>)
    requires forall i :: 0 <= i < |turns| ==> turns[i].ProcessorTurn?
    ensures OnlyTakes(Run(v, turns).log.orders)
    decreases |turns|
  {
    if turns != [] {
      var init, last := turns[..|turns| - 1], turns[|turns| - 1];
      assert forall i :: 0 <= i < |init| ==> init[i] == turns[i];
      TurnsOnlyTake(v, init);
      TurnOnlyTakes(Run(v, init).v, last.adapter, HeadPasses(Run(v, init).v, last.layout, last.verdicts));
    }
  }

  lemma TakingIsFifo(events: seq<OrderEvent>)
    requires OnlyTakes(events)
    ensures Undisturbed(events) && Listed(JOINED, events) == []
  {
    NoneListed(JOINED, events);
  }

  /** However many turns the processor takes, the orders it has taken, followed by those still queued,
      are the orders that were queued. */
  lemma TurnsTakeInOrder(v: Vehicle, turns: seq<Move>)
    requires forall i :: 0 <= i < |turns| ==> turns[i].ProcessorTurn?
    ensures OrdersOf(v.orderQueue) == Listed(LEFT, Run(v, turns).log.orders) + OrdersOf(Run(v, turns).v.orderQueue)
  {
    QueueIsFifo(v, turns);
    TurnsOnlyTake(v, turns);
    TakingIsFifo(Run(v, turns).log.orders);
    assert OrdersOf(v.orderQueue) + [] == OrdersOf(v.orderQueue);
  }

  lemma AllTaken(v: Vehicle, turns: seq<Move>)
    requires forall i :: 0 <= i < |turns| ==> turns[i].ProcessorTurn?
    requires Run(v, turns).v.orderQueue == []
    ensures Listed(LEFT, Run(v, turns).log.orders) == OrdersOf(v.orderQueue)
  {
    TurnsTakeInOrder(v, turns);
    assert Listed(LEFT, Run(v, turns).log.orders) + [] == Listed(LEFT, Run(v, turns).log.orders);
  }

  // ---- Instant actions ----

  function ActionsIn(joined: bool, events: seq<ActionEvent>): seq<InstantActions> {
    if events == [] then []
    else
      var e := events[|events| - 1];
      ActionsIn(joined, events[..|events| - 1]) +
      if joined && e.Enqueued? then [e.actions] else if !joined && e.Dequeued? then [e.actions] else []
  }

  lemma {:induction false} ActionsAppend(joined: bool, a: seq<ActionEvent>, b: seq<ActionEvent>)
    ensures ActionsIn(joined, a + b) == ActionsIn(joined, a) + ActionsIn(joined, b)
    decreases |b|
  {
    if b == [] {
      assert a + b == a;
    } else {
      ActionsAppend(joined, a, b[..|b| - 1]);
      assert (a + b)[..|a + b| - 1] == a + b[..|b| - 1];
    }
  }

  lemma ActionsOne(joined: bool, e: ActionEvent)
    ensures ActionsIn(joined, [e]) == if joined && e.Enqueued? then [e.actions] else if !joined && e.Dequeued? then [e.actions] else []
  {
    assert [e][..0] == [];
  }

  ghost predicate ActionsFifo(v: Vehicle, o: Outcome) {
    Moved !in o.log.actions ==>
      v.instantActionsQueue + ActionsIn(true, o.log.actions) == ActionsIn(false, o.log.actions) + o.v.instantActionsQueue
  }

  lemma ActionsFifoThen(v: Vehicle, first: Outcome, next: Outcome)
    requires ActionsFifo(v, first) && ActionsFifo(first.v, next)
    ensures ActionsFifo(v, Then(first.log, next))
  {
    var a, b := first.log.actions, next.log.actions;
    ActionsAppend(true, a, b);
    ActionsAppend(false, a, b);
    if Moved !in a + b {
      assert Moved !in a && Moved !in b;
      Regroup(v.instantActionsQueue, ActionsIn(true, a), ActionsIn(true, b), ActionsIn(false, a), ActionsIn(false, b),
              first.v.instantActionsQueue, next.v.instantActionsQueue);
    }
  }

  lemma IdleActions(v: Vehicle, o: Outcome)
    requires o.v.instantActionsQueue == v.instantActionsQueue && o.log.actions == []
    ensures ActionsFifo(v, o)
  {
    assert v.instantActionsQueue + [] == [] + v.instantActionsQueue;
  }

  lemma MovedActions(v: Vehicle, o: Outcome)
    requires Moved in o.log.actions
    ensures ActionsFifo(v, o)
  {
  }

  lemma ActionsTwo(joined: bool, e: ActionEvent, f: ActionEvent)
    ensures ActionsIn(joined, [e, f]) == ActionsIn(joined, [e]) + ActionsIn(joined, [f])
  {
    ActionsAppend(joined, [e], [f]);
    assert [e] + [f] == [e, f];
  }

  lemma JoinsLast<T>(queue: seq<T>, last: T)
    ensures queue + [last] == [] + (queue + [last])
  {
  }

  lemma LeavesFirst<T>(queue: seq<T>, last: T)
    requires queue != []
    ensures queue + ([] + [last]) == ([queue[0]] + []) + (queue[1..] + [last])
  {
  }

  lemma ReplacedActions(oldest: InstantActions, newest: InstantActions)
    ensures ActionsIn(true, [Dequeued(oldest), Enqueued(newest)]) == [] + [newest]
    ensures ActionsIn(false, [Dequeued(oldest), Enqueued(newest)]) == [oldest] + []
  {
    ActionsTwo(true, Dequeued(oldest), Enqueued(newest));
    ActionsTwo(false, Dequeued(oldest), Enqueued(newest));
    ActionsOne(true, Dequeued(oldest));
    ActionsOne(false, Dequeued(oldest));
    ActionsOne(true, Enqueued(newest));
    ActionsOne(false, Enqueued(newest));
  }

  lemma SendActionsIsFifo(v: Vehicle, actions: InstantActions)
    ensures ActionsFifo(v, AgvSpec.SendInstantActions(v, actions))
  {
    var o, queue := AgvSpec.SendInstantActions(v, actions), v.instantActionsQueue;
    if !Full(queue, v.maxQueueSize) {
      assert o.log.actions == [Enqueued(actions)];
      ActionsOne(true, Enqueued(actions));
      ActionsOne(false, Enqueued(actions));
      JoinsLast(queue, actions);
    } else if v.dropOldest {
      assert o.log.actions == [Dequeued(queue[0]), Enqueued(actions)];
      ReplacedActions(queue[0], actions);
      LeavesFirst(queue, actions);
    } else {
      IdleActions(v, o);
    }
  }

  lemma NextActionsIsFifo(v: Vehicle)
    requires v.instantActionsQueue != []
    ensures ActionsFifo(v, NextActions(v))
  {
    ActionsOne(true, Dequeued(v.instantActionsQueue[0]));
    ActionsOne(false, Dequeued(v.instantActionsQueue[0]));
    assert v.instantActionsQueue + [] == [v.instantActionsQueue[0]] + v.instantActionsQueue[1..];
  }

  lemma TurnKeepsActions(v: Vehicle, adapter: bool, passes: bool)
    requires passes ==> HeadRoute(v).Some?
    ensures ActionsFifo(v, AgvSpec.Turn(v, adapter, passes))
  {
    if v.inFlight.None? && v.processorRunning && v.instantActionsQueue != [] {
      NextActionsIsFifo(v);
    } else {
      IdleActions(v, AgvSpec.Turn(v, adapter, passes));
    }
  }

  lemma StepKeepsActions(v: Vehicle, move: Move)
    ensures ActionsFifo(v, AgvSpec.Step(v, move))
  {
    match move
    case Client(call) =>
      if call.SendActions? {
        SendActionsIsFifo(v, call.actions);
      } else if call.SendAnOrder? || call.DiscardBuffer? {
        IdleActions(v, AgvSpec.Step(v, move));
      }
    case Life(event) => LifeKeepsActions(v, event);
    case ConnectionMessage(status, schemaOk) => ConnectionKeepsActions(v, status, schemaOk);
    case StateMessage(msg, schemaOk, now) => StateKeepsActions(v, msg, schemaOk, now);
    case VisualizationMessage(headerId, schemaOk) => IdleActions(v, AgvSpec.Step(v, move));
    case ProcessorTurn(adapter, layout, verdicts) => TurnKeepsActions(v, adapter, HeadPasses(v, layout, verdicts));
  }

  lemma LandKeepsActions(v: Vehicle)
    ensures StopProcessor(v).v.instantActionsQueue == v.instantActionsQueue && StopProcessor(v).log.actions == []
  {
  }

  lemma LifeKeepsActions(v: Vehicle, event: LifeEvent)
    ensures ActionsFifo(v, AgvSpec.LifeStep(v, event))
  {
    LandKeepsActions(v);
    var o := AgvSpec.LifeStep(v, event);
    if event.StopAgv? || event.RestartAgv? {
      assert Moved in AgvSpec.Stop(v).log.actions;
      MovedActions(v, o);
    } else {
      IdleActions(v, o);
    }
  }

  lemma ConnectionKeepsActions(v: Vehicle, status: ConnectionState, schemaOk: bool)
    ensures ActionsFifo(v, AgvSpec.HandleConnection(v, status, schemaOk))
  {
    LandKeepsActions(WithConnection(v, status));
    var o := AgvSpec.HandleConnection(v, status, schemaOk);
    if schemaOk && status == CONNECTIONBROKEN {
      assert Moved in DropOutbound(GoOffline(v, status).v).log.actions;
      MovedActions(v, o);
    } else {
      IdleActions(v, o);
    }
  }

  lemma StateKeepsActions(v: Vehicle, msg: State, schemaOk: bool, now: int)
    ensures ActionsFifo(v, AgvSpec.HandleState(v, msg, schemaOk, now))
  {
    var o := AgvSpec.HandleState(v, msg, schemaOk, now);
    TrackKeepsActions(Cached(v, msg), Observed(v.tracker, msg));
    if schemaOk && !Stale(v.haveStateBaseline, v.lastStateHeaderId, msg) && LeavesControl(v.lastState, msg) {
      assert Moved in o.log.actions;
      MovedActions(v, o);
    } else {
      IdleActions(v, o);
    }
  }

  lemma TrackKeepsActions(v: Vehicle, seen: Observation)
    ensures Track(v, seen).v.instantActionsQueue == v.instantActionsQueue && Track(v, seen).log.actions == []
  {
  }

  /** Instant actions too leave in the order they joined, as long as the queue is not captured, resumed or cleared. */
  lemma {:induction false} ActionsAreFifo(v: Vehicle, moves: seq<Move>)
    ensures ActionsFifo(v, Run(v, moves))
    decreases |moves|
  {
    if moves == [] {
      IdleActions(v, Run(v, moves));
    } else {
      var before := Run(v, moves[..|moves| - 1]);
      ActionsAreFifo(v, moves[..|moves| - 1]);
      StepKeepsActions(before.v, moves[|moves| - 1]);
      ActionsFifoThen(v, before, AgvSpec.Step(before.v, moves[|moves| - 1]));
    }
  }
}
