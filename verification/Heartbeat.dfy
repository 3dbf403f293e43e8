/** Watching for a silent vehicle: a loop that polls the age of the last report. */
module Heartbeat {
  import opened Common

  /** Nanoseconds. */
  const SECOND := 1_000_000_000
  const POLLS_PER_INTERVAL := 4
  const TIMEOUT_GRACE_DIVISOR := 10

  function CheckInterval(h: nat): nat {
    (if h / POLLS_PER_INTERVAL > 1 then h / POLLS_PER_INTERVAL else 1) * SECOND
  }

  function TimeoutAge(h: nat): nat {
    (h + h / TIMEOUT_GRACE_DIVISOR) * SECOND
  }

  /** The grace is a tenth of the interval, and polls are a quarter of it apart, both in whole seconds rounded down,
      polls at least one second. */
  lemma GraceAndPolls(h: nat)
    ensures h * SECOND <= TimeoutAge(h) && 10 * TimeoutAge(h) <= 11 * h * SECOND < 10 * TimeoutAge(h) + 10 * SECOND
    ensures if h < 8 then CheckInterval(h) == SECOND
            else 4 * CheckInterval(h) <= h * SECOND < 4 * CheckInterval(h) + 4 * SECOND
    ensures TimeoutAge(h) % SECOND == 0 && CheckInterval(h) % SECOND == 0
  {
    assert TimeoutAge(h) == h * SECOND + (h / 10) * SECOND;
  }

  /** What reaches the listener, in order. */
  datatype Event = Report(at: int) | Poll(at: int) | StopRequest(at: int)

  datatype HeartbeatState = STOPPED | RUNNING | STOPPING

  /** What the loop remembers: the last report, and whether this silence was already reported. */
  datatype Watch = Watch(last: int, fired: bool)

  predicate TimedOut(h: nat, last: int, now: int) {
    now - last >= TimeoutAge(h)
  }

  function After(h: nat, w: Watch, e: Event): Watch {
    match e
    case Report(t) => w.(last := t)
    case Poll(t) => w.(fired := TimedOut(h, w.last, t))
    case StopRequest(_) => w
  }

  /** The memory just before event `i`. */
  function WatchAt(h: nat, start: int, events: seq<Event>, i: nat): Watch
    requires i <= |events|
  {
    if i == 0 then Watch(start, false) else After(h, WatchAt(h, start, events, i - 1), events[i - 1])
  }

  /** The callback runs at event `i`. */
  predicate FiresAt(h: nat, start: int, events: seq<Event>, i: nat)
    requires i < |events|
  {
    var w := WatchAt(h, start, events, i);
    events[i].Poll? && TimedOut(h, w.last, events[i].at) && !w.fired
  }

  /** How much of the schedule is played before the listener is stopped. */
  function Played(events: seq<Event>): (n: nat)
    ensures n <= |events| && (n < |events| ==> events[n].StopRequest?)
    ensures forall i :: 0 <= i < n ==> !events[i].StopRequest?
  {
    if events == [] || events[0].StopRequest? then 0
    else
      assert forall i :: 0 < i < |events| ==> events[i] == events[1..][i - 1];
      1 + Played(events[1..])
  }

  class HeartbeatListener {
    const interval: nat
    var state: HeartbeatState
    var lastConnectionReport: int

    constructor (interval: nat, now: int)
      requires interval > 0
      ensures this.interval == interval && state == STOPPED && lastConnectionReport == now
    {
      this.interval, state, lastConnectionReport := interval, STOPPED, now;
    }

    /** An interval that is not positive is refused. */
    static method Create(interval: int, now: int) returns (listener: Option<HeartbeatListener>)
      ensures listener.Some? <==> interval > 0
      ensures listener.Some? ==> fresh(listener.value) && listener.value.interval == interval && listener.value.state == STOPPED
    {
      if interval <= 0 {
        return None;
      }
      var l := new HeartbeatListener(interval, now);
      return Some(l);
    }

    /** A report counts only while the listener runs. */
    method ReceivedConnection(now: int)
      modifies `lastConnectionReport
      ensures lastConnectionReport == if state == RUNNING then now else old(lastConnectionReport)
    {
      if state != RUNNING {
        return;
      }
      lastConnectionReport := now;
    }

    method IsTimeout(now: int) returns (timedOut: bool)
      ensures timedOut <==> TimedOut(interval, lastConnectionReport, now)
    {
      var age := now - lastConnectionReport;
      return age >= TimeoutAge(interval);
    }

    /** The loop, from a start at `now` to a stop or the end of the schedule; `calls` are the events at which
        the callback ran. A listener that is not stopped ignores the start. */
    method Listen(now: int, events: seq<Event>) returns (calls: seq<nat>)
      modifies this
      ensures old(state) != STOPPED ==> calls == [] && unchanged(this)
      ensures old(state) == STOPPED ==>
                forall i :: i in calls <==> 0 <= i < Played(events) && FiresAt(interval, now, events, i)
      ensures forall i, j :: 0 <= i < j < |calls| ==> calls[i] < calls[j]
      ensures old(state) == STOPPED ==>
                lastConnectionReport == WatchAt(interval, now, events, Played(events)).last
                && state == if Played(events) < |events| then STOPPED else RUNNING
    {
      calls := [];
      if state != STOPPED {
        return;
      }
      lastConnectionReport, state := now, RUNNING;
      var timeoutFired := false;
      var i := 0;
      while i < |events| && !events[i].StopRequest?
        invariant i <= Played(events) && state == RUNNING
        invariant WatchAt(interval, now, events, i) == Watch(lastConnectionReport, timeoutFired)
        invariant forall j :: j in calls <==> 0 <= j < i && FiresAt(interval, now, events, j)
        invariant forall j, k :: 0 <= j < k < |calls| ==> calls[j] < calls[k]
      {
        var event := events[i];
        if event.Report? {
          ReceivedConnection(event.at);
        } else {
          var timedOut := IsTimeout(event.at);
          if timedOut {
            if !timeoutFired {
              assert forall j :: 0 <= j < |calls| ==> calls[j] in calls;
              calls := calls + [i];
              timeoutFired := true;
            }
          } else {
            timeoutFired := false;
          }
        }
        i := i + 1;
      }
      if i < |events| {
        state := STOPPED;
      }
    }
  }

  // ---- Silences ----

  /** Time never runs backwards. */
  ghost predicate InTime(start: int, events: seq<Event>) {
    && (forall i :: 0 <= i < |events| ==> start <= events[i].at)
    && (forall i, j :: 0 <= i <= j < |events| ==> events[i].at <= events[j].at)
  }

  /** The poll before event `i`, or -1. */
  function PollBefore(events: seq<Event>, i: nat): (p: int)
    requires i <= |events|
    ensures -1 <= p < i && (p >= 0 ==> events[p].Poll?)
    ensures forall j :: p < j < i ==> !events[j].Poll?
  {
    if i == 0 then -1 else if events[i - 1].Poll? then i - 1 else PollBefore(events, i - 1)
  }

  /** The report that the silence around event `i` began with, or -1 for the start. */
  function ReportBefore(events: seq<Event>, i: nat): (r: int)
    requires i <= |events|
    ensures -1 <= r < i && (r >= 0 ==> events[r].Report?)
    ensures forall j :: r < j < i ==> !events[j].Report?
  {
    if i == 0 then -1 else if events[i - 1].Report? then i - 1 else ReportBefore(events, i - 1)
  }

  /** Time of an event, or of the start. */
  function TimeOf(start: int, events: seq<Event>, i: int): int
    requires -1 <= i < |events|
  {
    if i < 0 then start else events[i].at
  }

  /** Polls come at most `gap` apart: the wait, plus whatever the callback takes. */
  ghost predicate Paced(gap: int, start: int, events: seq<Event>) {
    && InTime(start, events)
    && forall i :: 0 <= i < |events| && events[i].Poll? ==>
         events[i].at <= TimeOf(start, events, PollBefore(events, i)) + gap
  }

  /** Polls come exactly one check interval apart. */
  ghost predicate Regular(h: nat, start: int, events: seq<Event>) {
    && InTime(start, events)
    && forall i :: 0 <= i < |events| && events[i].Poll? ==>
         events[i].at == TimeOf(start, events, PollBefore(events, i)) + CheckInterval(h)
  }

  /** Poll `i` sees the timeout age elapsed in its silence. */
  ghost predicate Overdue(h: nat, start: int, events: seq<Event>, i: nat)
    requires i < |events|
  {
    events[i].Poll? && events[i].at - TimeOf(start, events, ReportBefore(events, i)) >= TimeoutAge(h)
  }

  /** Poll `i` is the first of its silence that does. */
  ghost predicate FirstOverdue(h: nat, start: int, events: seq<Event>, i: nat)
    requires i < |events|
  {
    Overdue(h, start, events, i) && forall j :: ReportBefore(events, i) < j < i ==> !Overdue(h, start, events, j)
  }

  /** The callback runs once for every silence long enough for a poll to see, and never else. */
  ghost predicate Exact(h: nat, start: int, events: seq<Event>) {
    forall i :: 0 <= i < |events| ==> (FiresAt(h, start, events, i) <==> FirstOverdue(h, start, events, i))
  }

  lemma {:induction false} LastIsReport(h: nat, start: int, events: seq<Event>, i: nat)
    requires i <= |events|
    ensures WatchAt(h, start, events, i).last == TimeOf(start, events, ReportBefore(events, i))
  {
    if i > 0 {
      LastIsReport(h, start, events, i - 1);
    }
  }

  /** Between polls the loop only remembers what the last poll saw. */
  lemma {:induction false} FiredIsLastPoll(h: nat, start: int, events: seq<Event>, i: nat)
    requires i <= |events|
    ensures var p := PollBefore(events, i); WatchAt(h, start, events, i).fired == (p >= 0 && Overdue(h, start, events, p))
  {
    if i > 0 {
      if events[i - 1].Poll? {
        LastIsReport(h, start, events, i - 1);
      } else {
        FiredIsLastPoll(h, start, events, i - 1);
      }
    }
  }

  /** Polls come more often than the timeout age exactly when the interval is at least two seconds. */
  lemma PollsAreDenser(h: nat)
    requires h > 0
    ensures CheckInterval(h) < TimeoutAge(h) <==> h >= 2
    ensures CheckInterval(h) <= TimeoutAge(h)
    ensures TimeoutAge(h) + CheckInterval(h) <= 2 * h * SECOND
  {
  }

  /** A poll whose predecessor was before the report comes too early to see a timeout. */
  lemma FirstPollIsEarly(h: nat, gap: int, start: int, events: seq<Event>, i: nat)
    requires Paced(gap, start, events) && gap < TimeoutAge(h) && i < |events| && events[i].Poll?
    requires PollBefore(events, i) <= ReportBefore(events, i)
    ensures !Overdue(h, start, events, i)
  {
  }

  /** Within a silence the ages only grow. */
  lemma OverdueStays(h: nat, start: int, events: seq<Event>, i: nat, j: nat)
    requires InTime(start, events) && i < j < |events| && events[j].Poll?
    requires ReportBefore(events, j) < i && Overdue(h, start, events, i)
    ensures Overdue(h, start, events, j)
  {
    SameSilence(events, i, j);
  }

  lemma {:induction false} SameSilence(events: seq<Event>, i: nat, j: nat)
    requires i <= j <= |events| && ReportBefore(events, j) < i
    ensures ReportBefore(events, i) == ReportBefore(events, j)
  {
    if i < j {
      SameSilence(events, i, j - 1);
    }
  }

  /** If polls come closer than the timeout age, the callback runs exactly at the first poll of a silence that sees it. */
  lemma FiresAtFirst(h: nat, gap: int, start: int, events: seq<Event>, i: nat)
    requires Paced(gap, start, events) && gap < TimeoutAge(h) && i < |events|
    ensures FiresAt(h, start, events, i) <==> FirstOverdue(h, start, events, i)
  {
    var p, r := PollBefore(events, i), ReportBefore(events, i);
    LastIsReport(h, start, events, i);
    FiredIsLastPoll(h, start, events, i);
    if events[i].Poll? {
      if p <= r {
        FirstPollIsEarly(h, gap, start, events, i);
      } else {
        forall j | r < j < i && Overdue(h, start, events, j) ensures Overdue(h, start, events, p) {
          if j < p {
            SameSilence(events, p, i);
            OverdueStays(h, start, events, j, p);
          }
        }
      }
    }
  }

  /** The first poll of the silence around `i` that sees the timeout age. */
  lemma {:induction false} SomeFirst(h: nat, start: int, events: seq<Event>, i: nat) returns (k: nat)
    requires InTime(start, events) && i < |events| && Overdue(h, start, events, i)
    ensures k <= i && FirstOverdue(h, start, events, k) && ReportBefore(events, k) == ReportBefore(events, i)
  {
    if j: nat :| ReportBefore(events, i) < j < i && Overdue(h, start, events, j) {
      SameSilence(events, j, i);
      k := SomeFirst(h, start, events, j);
    } else {
      k := i;
    }
  }

  /** A silence that some poll sees long enough is reported exactly once. */
  lemma OncePerSilence(h: nat, gap: int, start: int, events: seq<Event>, i: nat) returns (k: nat)
    requires Paced(gap, start, events) && gap < TimeoutAge(h) && i < |events| && Overdue(h, start, events, i)
    ensures k <= i && ReportBefore(events, k) == ReportBefore(events, i) && FiresAt(h, start, events, k)
    ensures forall m :: 0 <= m < |events| && ReportBefore(events, m) == ReportBefore(events, i) && FiresAt(h, start, events, m) ==>
              m == k
  {
    k := SomeFirst(h, start, events, i);
    FiresAtFirst(h, gap, start, events, k);
    forall m | 0 <= m < |events| && ReportBefore(events, m) == ReportBefore(events, i) && FiresAt(h, start, events, m)
      ensures m == k
    {
      FiresAtFirst(h, gap, start, events, m);
    }
  }

  /** Every schedule with polls at most `gap` apart is reported exactly if and only if the gap is below the timeout age. */
  lemma ExactIffDense(h: nat, gap: int)
    ensures (forall start, events :: Paced(gap, start, events) ==> Exact(h, start, events)) <==> gap < TimeoutAge(h)
  {
    if gap < TimeoutAge(h) {
      forall start, events | Paced(gap, start, events) ensures Exact(h, start, events) {
        forall i | 0 <= i < |events| ensures FiresAt(h, start, events, i) <==> FirstOverdue(h, start, events, i) {
          FiresAtFirst(h, gap, start, events, i);
        }
      }
    } else {
      SparsePollsMiss(h);
      assert Paced(gap, 0, UnluckySchedule(TimeoutAge(h)));
    }
  }

  /** Every regular schedule is reported exactly if and only if the interval is at least two seconds. */
  lemma ExactIffTwoSeconds(h: nat)
    requires h > 0
    ensures (forall start, events :: Regular(h, start, events) ==> Exact(h, start, events)) <==> h >= 2
  {
    PollsAreDenser(h);
    if h >= 2 {
      ExactIffDense(h, CheckInterval(h));
      forall start, events | Regular(h, start, events) ensures Exact(h, start, events) {
        assert Paced(CheckInterval(h), start, events);
      }
    } else {
      OneSecondMisses();
    }
  }

  /** A report arrives together with a poll that has just seen the timeout, and the next poll comes a whole timeout later:
      the second silence is never reported. */
  function UnluckySchedule(gap: int): seq<Event> {
    [Poll(gap), Report(gap), Poll(2 * gap)]
  }

  lemma UnluckyBefore(gap: int)
    ensures var events := UnluckySchedule(gap);
            && PollBefore(events, 0) == -1 && PollBefore(events, 2) == 0
            && ReportBefore(events, 0) == -1 && ReportBefore(events, 2) == 1
  {
    var events := UnluckySchedule(gap);
    assert events[0] == Poll(gap) && events[1] == Report(gap) && events[2] == Poll(2 * gap);
  }

  lemma SparsePollsMiss(h: nat)
    ensures Paced(TimeoutAge(h), 0, UnluckySchedule(TimeoutAge(h)))
    ensures FirstOverdue(h, 0, UnluckySchedule(TimeoutAge(h)), 2) && !FiresAt(h, 0, UnluckySchedule(TimeoutAge(h)), 2)
    ensures !Exact(h, 0, UnluckySchedule(TimeoutAge(h)))
  {
    var events := UnluckySchedule(TimeoutAge(h));
    UnluckyBefore(TimeoutAge(h));
    assert events[0] == Poll(TimeoutAge(h)) && events[1] == Report(TimeoutAge(h)) && events[2] == Poll(2 * TimeoutAge(h));
    LastIsReport(h, 0, events, 2);
    FiredIsLastPoll(h, 0, events, 2);
    assert Overdue(h, 0, events, 0);
  }

  /** With an interval of one second even regular polls are too sparse. */
  lemma OneSecondMisses()
    ensures Regular(1, 0, UnluckySchedule(SECOND))
    ensures FirstOverdue(1, 0, UnluckySchedule(SECOND), 2) && !FiresAt(1, 0, UnluckySchedule(SECOND), 2)
    ensures !Exact(1, 0, UnluckySchedule(SECOND))
  {
    SparsePollsMiss(1);
    UnluckyBefore(SECOND);
    assert TimeoutAge(1) == SECOND == CheckInterval(1);
  }

  /** The callback never comes before the timeout age, and always less than one gap after it; so never before the
      interval has passed, and less than one gap after eleven tenths of it. */
  lemma FiresInTime(h: nat, gap: int, start: int, events: seq<Event>, i: nat)
    requires Paced(gap, start, events) && gap < TimeoutAge(h) && i < |events| && FiresAt(h, start, events, i)
    ensures var silentSince := TimeOf(start, events, ReportBefore(events, i));
            silentSince + TimeoutAge(h) <= events[i].at < silentSince + TimeoutAge(h) + gap
            && h * SECOND <= events[i].at - silentSince && 10 * (events[i].at - silentSince) < 11 * h * SECOND + 10 * gap
  {
    GraceAndPolls(h);
    FiresAtFirst(h, gap, start, events, i);
    var p, r := PollBefore(events, i), ReportBefore(events, i);
    if p <= r {
      FirstPollIsEarly(h, gap, start, events, i);
    } else {
      SameSilence(events, p, i);
      assert !Overdue(h, start, events, p);
    }
  }

  /** With polls one check interval apart and an interval of at least two seconds, that is within twice the interval. */
  lemma FiresWithinTwice(h: nat, start: int, events: seq<Event>, i: nat)
    requires h >= 2 && Paced(CheckInterval(h), start, events) && i < |events| && FiresAt(h, start, events, i)
    ensures events[i].at < TimeOf(start, events, ReportBefore(events, i)) + 2 * h * SECOND
  {
    PollsAreDenser(h);
    FiresInTime(h, CheckInterval(h), start, events, i);
  }
}
