/**
  The single-flight guard of `refreshDisplay` as a state machine over values:
  whether a display write is in flight (`bRefreshing`), how many refreshes are
  owed (`iDisplayRefreshQueue`) and how many deferred refreshes have been
  scheduled with `setTimeout(refreshDisplay, 0)` and not yet run.
*/
module RefreshGuard {

  datatype Guard = Guard(refreshing: bool, queue: nat, scheduled: nat)

  const IDLE: Guard := Guard(false, 0, 0)

  /**
    Request: `refreshDisplay` is called (a route update or a deferred refresh).
    WriteDone: the display command of the write in flight completes, with or
    without an error. TimerFires: a scheduled deferred refresh runs.
  */
  datatype Event = Request | WriteDone | TimerFires

  /** The guard after an event, and whether the event wrote the display. */
  datatype Outcome = Outcome(next: Guard, wrote: bool)

  /**
    The states the daemon can reach: in simulation mode the guard is always
    released before `refreshDisplay` returns, and owed refreshes never stall,
    since while no write is in flight a deferred refresh is on its way.
  */
  predicate Valid(g: Guard, simulation: bool) {
    && (simulation ==> g == IDLE)
    && (g.queue > 0 ==> g.refreshing || g.scheduled > 0)
  }

  /** Refreshes issued or owed: the owed ones and the scheduled ones. */
  function Owed(g: Guard): nat { g.queue + g.scheduled }

  /**
    `refreshDisplay`: while a write is in flight it only counts the request;
    otherwise it writes the display, and the guard stays taken until the write
    completes (in simulation the write is a log line and the guard is released
    at once).
  */
  function OnRequest(g: Guard, simulation: bool): (o: Outcome)
    ensures o.wrote <==> !g.refreshing
    ensures o.wrote ==> o.next.refreshing == !simulation && o.next.queue == g.queue
    ensures !o.wrote ==> o.next.refreshing && o.next.queue == g.queue + 1
    ensures o.next.scheduled == g.scheduled
  {
    if g.refreshing then Outcome(g.(queue := g.queue + 1), false)
    else Outcome(g.(refreshing := !simulation), true)
  }

  /**
    The completion callback of a display write: releases the guard and, if a
    refresh is owed, takes exactly one off the queue and schedules it.
  */
  function OnWriteDone(g: Guard): (o: Outcome)
    requires g.refreshing
    ensures !o.next.refreshing && !o.wrote
    ensures g.queue > 0 ==> o.next.queue == g.queue - 1 && o.next.scheduled == g.scheduled + 1
    ensures g.queue == 0 ==> o.next.queue == 0 && o.next.scheduled == g.scheduled
  {
    if g.queue > 0 then Outcome(Guard(false, g.queue - 1, g.scheduled + 1), false)
    else Outcome(g.(refreshing := false), false)
  }

  /** A scheduled deferred refresh runs `refreshDisplay`. */
  function OnTimer(g: Guard, simulation: bool): (o: Outcome)
    requires g.scheduled > 0
    ensures o.next.scheduled == g.scheduled - 1
    ensures o.wrote <==> !g.refreshing
    ensures o.wrote ==> o.next.refreshing == !simulation && o.next.queue == g.queue
    ensures !o.wrote ==> o.next.refreshing && o.next.queue == g.queue + 1
  {
    OnRequest(g.(scheduled := g.scheduled - 1), simulation)
  }

  /** A completion needs a write in flight; a timer needs a scheduled refresh. */
  predicate Enabled(g: Guard, e: Event) {
    match e
    case Request => true
    case WriteDone => g.refreshing
    case TimerFires => g.scheduled > 0
  }

  function Step(g: Guard, e: Event, simulation: bool): Outcome
    requires Enabled(g, e)
  {
    match e
    case Request => OnRequest(g, simulation)
    case WriteDone => OnWriteDone(g)
    case TimerFires => OnTimer(g, simulation)
  }

  /** Every event of `events` can happen in turn from `g`. */
  predicate Feasible(g: Guard, events: seq<Event>, simulation: bool)
    decreases |events|
  {
    events == [] ||
      (Enabled(g, events[0]) && Feasible(Step(g, events[0], simulation).next, events[1..], simulation))
  }

  datatype RunResult = RunResult(final: Guard, writes: nat)

  /** The guard after `events` and the number of display writes they issued. */
  function Run(g: Guard, events: seq<Event>, simulation: bool): RunResult
    requires Feasible(g, events, simulation)
    decreases |events|
  {
    if events == [] then RunResult(g, 0)
    else
      var o := Step(g, events[0], simulation);
      var rest := Run(o.next, events[1..], simulation);
      RunResult(rest.final, rest.writes + (if o.wrote then 1 else 0))
  }

  function Requests(events: seq<Event>): nat {
    if events == [] then 0 else (if events[0] == Request then 1 else 0) + Requests(events[1..])
  }

  function Repeat(e: Event, n: nat): (s: seq<Event>)
    ensures |s| == n && forall i :: 0 <= i < n ==> s[i] == e
  {
    if n == 0 then [] else [e] + Repeat(e, n - 1)
  }

  /** Every event keeps the guard in a reachable state. */
  lemma StepValid(g: Guard, e: Event, simulation: bool)
    requires Valid(g, simulation) && Enabled(g, e)
    ensures Valid(Step(g, e, simulation).next, simulation)
  {
  }

  /**
    No request is lost or duplicated by one event: a request either writes or
    adds one owed refresh, and the other events only move owed refreshes
    between the queue and the timers or turn a scheduled one into a write.
  */
  lemma StepConserves(g: Guard, e: Event, simulation: bool)
    requires Enabled(g, e)
    ensures var o := Step(g, e, simulation);
      Owed(o.next) + (if o.wrote then 1 else 0) == Owed(g) + (if e == Request then 1 else 0)
  {
  }

  lemma {:induction false} RunValid(g: Guard, events: seq<Event>, simulation: bool)
    requires Valid(g, simulation) && Feasible(g, events, simulation)
    ensures Valid(Run(g, events, simulation).final, simulation)
    decreases |events|
  {
    if events != [] {
      StepValid(g, events[0], simulation);
      RunValid(Step(g, events[0], simulation).next, events[1..], simulation);
    }
  }

  /** Over any run, writes issued plus refreshes still owed grow by exactly the requests made. */
  lemma {:induction false} RunConserves(g: Guard, events: seq<Event>, simulation: bool)
    requires Feasible(g, events, simulation)
    ensures Run(g, events, simulation).writes + Owed(Run(g, events, simulation).final)
            == Owed(g) + Requests(events)
    decreases |events|
  {
    if events != [] {
      StepConserves(g, events[0], simulation);
      RunConserves(Step(g, events[0], simulation).next, events[1..], simulation);
    }
  }

  /**
    Starting idle and ending idle, the display was written exactly once per
    request: never more, never fewer.
  */
  lemma IdleRunWritesOncePerRequest(events: seq<Event>, simulation: bool)
    requires Feasible(IDLE, events, simulation)
    requires Run(IDLE, events, simulation).final == IDLE
    ensures Run(IDLE, events, simulation).writes == Requests(events)
  {
    RunConserves(IDLE, events, simulation);
  }

  /** Measure that every draining step decreases. */
  function DrainMeasure(g: Guard): nat {
    2 * Owed(g) + (if g.refreshing then 1 else 0)
  }

  /**
    The events that follow when no new request arrives: the write in flight
    completes, then the scheduled refresh runs, and so on until nothing is owed.
  */
  function DrainEvents(g: Guard, simulation: bool): seq<Event>
    decreases DrainMeasure(g)
  {
    if g.refreshing then [WriteDone] + DrainEvents(OnWriteDone(g).next, simulation)
    else if g.scheduled > 0 then [TimerFires] + DrainEvents(OnTimer(g, simulation).next, simulation)
    else []
  }

  /**
    Without new requests the guard always settles idle, and on the way it
    writes the display exactly once for every refresh that was owed.
  */
  lemma {:induction false} DrainSettles(g: Guard, simulation: bool)
    requires Valid(g, simulation)
    ensures Feasible(g, DrainEvents(g, simulation), simulation)
    ensures Requests(DrainEvents(g, simulation)) == 0
    ensures Run(g, DrainEvents(g, simulation), simulation) == RunResult(IDLE, Owed(g))
    decreases DrainMeasure(g)
  {
    if g.refreshing || g.scheduled > 0 {
      var e := if g.refreshing then WriteDone else TimerFires;
      var o := Step(g, e, simulation);
      assert DrainEvents(g, simulation) == [e] + DrainEvents(o.next, simulation);
      StepValid(g, e, simulation);
      StepConserves(g, e, simulation);
      DrainSettles(o.next, simulation);
      RunCons(g, e, DrainEvents(o.next, simulation), simulation);
    }
  }

  /** Running one enabled event and then the rest. */
  lemma RunCons(g: Guard, e: Event, rest: seq<Event>, simulation: bool)
    requires Enabled(g, e) && Feasible(Step(g, e, simulation).next, rest, simulation)
    ensures Feasible(g, [e] + rest, simulation)
    ensures Requests([e] + rest) == (if e == Request then 1 else 0) + Requests(rest)
    ensures var o := Step(g, e, simulation);
      var r := Run(o.next, rest, simulation);
      Run(g, [e] + rest, simulation) == RunResult(r.final, r.writes + (if o.wrote then 1 else 0))
  {
    assert ([e] + rest)[0] == e && ([e] + rest)[1..] == rest;
  }

  /**
    From an idle guard, one refresh starts a write and k more requests arrive
    while it is in flight: they are queued, and draining then issues exactly k
    follow-up writes.
  */
  lemma {:induction false} QueuedRequestsYieldFollowUps(k: nat)
    ensures Feasible(IDLE, Repeat(Request, k + 1), false)
    ensures Run(IDLE, Repeat(Request, k + 1), false) == RunResult(Guard(true, k, 0), 1)
    ensures var busy := Guard(true, k, 0);
      && Valid(busy, false)
      && Feasible(busy, DrainEvents(busy, false), false)
      && Requests(DrainEvents(busy, false)) == 0
      && Run(busy, DrainEvents(busy, false), false) == RunResult(IDLE, k)
  {
    RequestsWhileBusy(Guard(true, 0, 0), k);
    assert Repeat(Request, k + 1)[1..] == Repeat(Request, k);
    DrainSettles(Guard(true, k, 0), false);
  }

  /** Requests that arrive while a write is in flight only add to the queue. */
  lemma {:induction false} RequestsWhileBusy(g: Guard, k: nat)
    requires g.refreshing
    ensures Feasible(g, Repeat(Request, k), false)
    ensures Run(g, Repeat(Request, k), false) == RunResult(g.(queue := g.queue + k), 0)
    decreases k
  {
    if k > 0 {
      var next := OnRequest(g, false).next;
      RequestsWhileBusy(next, k - 1);
      assert Repeat(Request, k)[1..] == Repeat(Request, k - 1);
    }
  }
}
