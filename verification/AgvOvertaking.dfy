/** A run in which an update under the stitch flag replaces an order that is not complete. */
module AgvOvertaking {
  import opened Common
  import opened Orders
  import opened OrderInLayout
  import opened OrderMerge
  import opened OrderStitcher
  import opened OrderLifecycle
  import opened OrderPublisher
  import opened AgvSpec
  import opened AgvExamples

  /** Stand at a. */
  function Standing(id: string, update: uint32): Order {
    Order(id, update, [Waypoint("a", 0, true)], [], None)
  }

  function First(): Order { Standing("o", 0) }
  function Later(): Order { Standing("o", 1) }
  function Other(): Order { Standing("d", 0) }

  lemma StandingIsValid(id: string, update: uint32)
    ensures WellFormed(Standing(id, update)) && Integral(OldPlan(), Standing(id, update))
  {
    var o := Standing(id, update);
    assert Shape(o, 0);
    KnownNode([Site("a"), Site("b")], [Lane("ab", "a", "b")], 0, o.nodes[0]);
  }

  // ---- The vehicle, step by step ----

  function Started(): Vehicle {
    Tracking(Ready(), First())
  }

  /** The update was set aside: no State has named an order yet. */
  function Aside(): Vehicle {
    Started().(tracker := Started().tracker.(pending := [Pending(Later(), 0)]))
  }

  /** A State reports the end of the first order: the update is released behind the other order. */
  function Finished(): Vehicle {
    var heard := Heard(Aside(), Report(1, "o"));
    heard.(orderQueue := [QueuedOrder(Other(), false), QueuedOrder(Later(), true)],
           tracker := heard.tracker.(pending := [], orderComplete := true))
  }

  function OtherSent(): Vehicle {
    Flying(Finished().(orderQueue := [QueuedOrder(Later(), true)]), Other(), None)
  }

  function OtherActive(): Vehicle {
    var v := Tracking(OtherSent(), Other());
    v.(tracker := v.tracker.(previousOrderId := "o", orderComplete := false))
  }

  function LaterSent(): Vehicle {
    Flying(OtherActive().(orderQueue := []), Later(), None)
  }

  lemma SetsLaterAside()
    ensures var o := Step(Given(Started(), Later()), TurnWith(OldPlan()));
            o.v == Aside() && o.log.tracking == []
  {
    assert Decide(Later(), ViewOf(Started().tracker)) == QUEUE_PENDING(NO_STATE_YET);
    assert Given(Started(), Later()).orderQueue[1..] == [];
    assert [] + [Pending(Later(), 0)] == [Pending(Later(), 0)];
  }

  lemma EndIsObserved()
    ensures Observed(Aside().tracker, Report(1, "o"))
         == Observation(Mirrored(Aside().tracker, Report(1, "o")).(pending := [], orderComplete := true), [Later()], [], Some("o"), false)
  {
    var tracked := Mirrored(Aside().tracker, Report(1, "o")).(orderComplete := true);
    assert ReportsCompletion(Aside().tracker, Report(1, "o"));
    assert LastReleasedAt(First().nodes) == Some(0);
    assert Decide(Later(), ViewOf(tracked)) == SEND_NOW;
    assert tracked.pending[1..] == [];
    assert Drain(tracked.pending, ViewOf(tracked)) == Drained([Later()], [], []);
  }

  lemma HearsTheEnd()
    ensures var o := Step(Aside().(orderQueue := [QueuedOrder(Other(), false)]), StateMessage(Report(1, "o"), true, 0));
            o.v == Finished() && o.log.tracking == []
  {
    EndIsObserved();
    assert [Later()][..1] == [Later()] && [Later()][1..] == [];
    assert Queued([Later()], true) == [QueuedOrder(Later(), true)];
    assert [QueuedOrder(Other(), false)] + [QueuedOrder(Later(), true)] == Finished().orderQueue;
    assert Fresh([]) + [] == [];
  }

  /** A turn at which an order that is no update goes out. */
  lemma GoesAlone(v: Vehicle, order: Order, flagged: bool, rest: seq<QueuedOrder>)
    requires v.orderQueue == [QueuedOrder(order, flagged)] + rest && v.instantActionsQueue == [] && v.inFlight.None? && v.processorRunning
    requires flagged || Decide(order, ViewOf(v.tracker)) == SEND_NOW
    requires !IsUpdate(ActiveOf(v.tracker), order) && Sendable(ContextOf(v), order, ActiveOf(v.tracker), Some(OldPlan()), ALL_WELL)
    ensures var o := Step(v, TurnWith(OldPlan()));
            && o.v == Flying(v.(orderQueue := rest), order, None) && o.log.orders == [Taken(order), Sent(order)]
            && o.log.tracking == [Published(order)]
  {
    assert HeadPasses(v, Some(OldPlan()), ALL_WELL);
    assert v.orderQueue[1..] == rest;
  }

  /** Recording an order in flight that is no update. */
  lemma Begins(v: Vehicle, order: Order)
    requires v.inFlight.Some? && v.inFlight.value.order == order && v.inFlight.value.merged.None? && v.tracker.activeOrderId != order.orderId
    ensures var o := Step(v, TurnWith(OldPlan()));
            && o.v == v.(inFlight := None, tracker := Recorded(v.tracker, order, None)) && o.log.tracking == [Began(order)]
  {
  }

  lemma FirstGoes()
    ensures Step(Given(Ready(), First()), TurnWith(OldPlan())).v == Flying(Ready(), First(), None)
    ensures Step(Given(Ready(), First()), TurnWith(OldPlan())).log.tracking == [Published(First())]
    ensures Step(Flying(Ready(), First(), None), TurnWith(OldPlan())).v == Started()
    ensures Step(Flying(Ready(), First(), None), TurnWith(OldPlan())).log.tracking == [Began(First())]
  {
    StandingIsValid("o", 0);
    assert Given(Ready(), First()).orderQueue == [QueuedOrder(First(), false)] + [];
    GoesAlone(Given(Ready(), First()), First(), false, []);
    assert Ready().(orderQueue := []) == Ready();
    Begins(Flying(Ready(), First(), None), First());
  }

  lemma OtherGoes()
    ensures Step(Finished(), TurnWith(OldPlan())).v == OtherSent()
    ensures Step(Finished(), TurnWith(OldPlan())).log.tracking == [Published(Other())]
    ensures Step(OtherSent(), TurnWith(OldPlan())).v == OtherActive()
    ensures Step(OtherSent(), TurnWith(OldPlan())).log.tracking == [Began(Other())]
  {
    StandingIsValid("d", 0);
    assert "o"[0] != "d"[0];
    GoesAlone(Finished(), Other(), false, [QueuedOrder(Later(), true)]);
    Begins(OtherSent(), Other());
  }

  lemma LaterGoes()
    ensures Step(OtherActive(), TurnWith(OldPlan())).v == LaterSent()
    ensures Step(OtherActive(), TurnWith(OldPlan())).log.tracking == [Published(Later())]
    ensures Step(LaterSent(), TurnWith(OldPlan())).log.tracking == [Began(Later())]
  {
    StandingIsValid("o", 1);
    assert "o"[0] != "d"[0];
    assert OtherActive().orderQueue == [QueuedOrder(Later(), true)] + [];
    GoesAlone(OtherActive(), Later(), true, []);
    Begins(LaterSent(), Later());
  }

  // ---- The run ----

  /** Connect, report, send the first order and record it. */
  lemma GetStarted() returns (moves: seq<Move>)
    ensures After(moves, Started(), [Published(First()), Began(First())])
  {
    moves := GetReady();
    IsGiven(Ready(), First());
    AfterMore(moves, Ready(), [], Client(SendAnOrder(First())));
    moves := moves + [Client(SendAnOrder(First()))];
    FirstGoes();
    AfterMore(moves, Given(Ready(), First()), [] + [], TurnWith(OldPlan()));
    moves := moves + [TurnWith(OldPlan())];
    AfterMore(moves, Flying(Ready(), First(), None), [] + [] + [Published(First())], TurnWith(OldPlan()));
    moves := moves + [TurnWith(OldPlan())];
    assert [] + [] + [Published(First())] + [Began(First())] == [Published(First()), Began(First())];
  }

  /** Send the update, set it aside, send another order, and hear the end of the first. */
  lemma Finish(before: seq<Move>, events: seq<TrackEvent>) returns (moves: seq<Move>)
    requires After(before, Started(), events)
    ensures After(moves, Finished(), events)
  {
    assert events + [] == events;
    IsGiven(Started(), Later());
    AfterMore(before, Started(), events, Client(SendAnOrder(Later())));
    moves := before + [Client(SendAnOrder(Later()))];
    SetsLaterAside();
    AfterMore(moves, Given(Started(), Later()), events, TurnWith(OldPlan()));
    moves := moves + [TurnWith(OldPlan())];
    IsGiven(Aside(), Other());
    AfterMore(moves, Aside(), events, Client(SendAnOrder(Other())));
    moves := moves + [Client(SendAnOrder(Other()))];
    HearsTheEnd();
    AfterMore(moves, Given(Aside(), Other()), events, StateMessage(Report(1, "o"), true, 0));
    moves := moves + [StateMessage(Report(1, "o"), true, 0)];
  }

  /** From the dispatch of the other order on. */
  lemma Overtakes(before: seq<Move>, events: seq<TrackEvent>)
    requires After(before, OtherSent(), events)
    ensures var turn, begun := TurnWith(OldPlan()), events + [Began(Other())];
            && After(before + [turn], OtherActive(), begun)
            && Run(NewVehicle(2, true, true), before + [turn] + [turn] + [turn]).log.tracking == begun + [Published(Later()), Began(Later())]
  {
    var turn, begun := TurnWith(OldPlan()), events + [Began(Other())];
    OtherGoes();
    AfterMore(before, OtherSent(), events, turn);
    LaterGoes();
    AfterMore(before + [turn], OtherActive(), begun, turn);
    AfterMore(before + [turn] + [turn], LaterSent(), begun + [Published(Later())], turn);
    assert begun + [Published(Later())] + [Began(Later())] == begun + [Published(Later()), Began(Later())];
  }

  /** A run in which the other order is recorded, and two turns later, with no State in between and with that order
      still active and not complete, the update released before replaces it. */
  lemma FlaggedUpdateOvertakes() returns (before: seq<Move>, events: seq<TrackEvent>)
    ensures var turn, begun := TurnWith(OldPlan()), events + [Began(Other())];
            && First().orderId == Later().orderId != Other().orderId && WellFormed(Later()) && WellFormed(Other())
            && After(before + [turn], OtherActive(), begun)
            && OtherActive().tracker.activeOrder == Some(Other()) && !OtherActive().tracker.orderComplete
            && Run(NewVehicle(2, true, true), before + [turn] + [turn] + [turn]).log.tracking == begun + [Published(Later()), Began(Later())]
  {
    var start: seq<TrackEvent> := [Published(First()), Began(First())];
    before := GetStarted();
    before := Finish(before, start);
    OtherGoes();
    AfterMore(before, Finished(), start, TurnWith(OldPlan()));
    before := before + [TurnWith(OldPlan())];
    events := start + [Published(Other())];
    Overtakes(before, events);
    StandingIsValid("o", 1);
    StandingIsValid("d", 0);
    assert "o"[0] != "d"[0];
  }
}
