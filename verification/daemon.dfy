/**
  The daemon's module state (`bRefreshing`, `bSleeping`, `iDisplayRefreshQueue`,
  `oDisplayTexts.sRoutes`) as the fields of one object. Every asynchronous
  completion in `index.js` (the power command, the directions reply, the
  display command, the deferred refresh) is an explicit method call, and the
  clock, the reply and the command results are parameters.
*/
module Daemon {
  import opened Results
  import opened Routes
  import opened DisplayText
  import opened SleepSchedule
  import RefreshGuard

  /** `loop` asks for this many routes. */
  const ROUTES_TO_DISPLAY: nat := 3

  class Daemon {
    const config: Config
    var refreshing: bool
    var sleeping: bool
    var refreshQueue: nat
    var routesText: string
    /** Deferred refreshes scheduled with a zero timeout that have not yet run. */
    var scheduledRefreshes: nat
    /** The payloads written to the display (or, in simulation, logged), oldest first. */
    ghost var writes: seq<string>

    function GuardState(): RefreshGuard.Guard
      reads this
    {
      RefreshGuard.Guard(refreshing, refreshQueue, scheduledRefreshes)
    }

    ghost predicate Valid()
      reads this
    {
      RefreshGuard.Valid(GuardState(), config.simulation)
    }

    constructor (config: Config)
      ensures Valid() && this.config == config
      ensures GuardState() == RefreshGuard.IDLE && !sleeping && routesText == "" && writes == []
    {
      this.config := config;
      refreshing, sleeping := false, false;
      refreshQueue, scheduledRefreshes := 0, 0;
      routesText := "";
      writes := [];
    }

    /**
      `refreshDisplay`: while a write is in flight, only one more refresh is
      owed; otherwise the guard is taken and the payload is built from the
      current routes text and the given clock time and written. In simulation
      the write is a log line and the guard is released before returning.
    */
    method RefreshDisplay(hour: nat, minute: nat)
      requires config.simulation ==> GuardState() == RefreshGuard.IDLE
      modifies this`refreshing, this`refreshQueue, this`writes
      ensures Valid()
      ensures var o := RefreshGuard.OnRequest(old(GuardState()), config.simulation);
        && GuardState() == o.next
        && writes == old(writes) + (if o.wrote then [Payload(routesText, hour, minute)] else [])
    {
      if refreshing {
        refreshQueue := refreshQueue + 1;
        return;
      }
      refreshing := true;
      var hh, mm := EnsureLeadingZero(hour), EnsureLeadingZero(minute);
      var text := "";
      text := text + HEADER + SEPARATOR;
      assert text == HEADER + SEPARATOR;
      text := text + routesText;
      text := text + SEPARATOR + SEPARATOR;
      text := text + UPDATED + hh + ":" + mm;
      assert text == Payload(routesText, hour, minute);
      writes := writes + [text];
      if config.simulation {
        refreshing := false;
        return;
      }
    }

    /**
      The completion of a display write, failed or not (a failure is only
      logged): the guard is released and, if refreshes are owed, exactly one is
      taken off the queue and scheduled.
    */
    method WriteCompleted(failed: bool)
      requires Valid() && refreshing
      modifies this`refreshing, this`refreshQueue, this`scheduledRefreshes
      ensures Valid()
      ensures GuardState() == RefreshGuard.OnWriteDone(old(GuardState())).next
    {
      refreshing := false;
      if refreshQueue > 0 {
        refreshQueue := refreshQueue - 1;
        scheduledRefreshes := scheduledRefreshes + 1;
      }
    }

    /** A scheduled deferred refresh runs `refreshDisplay` with the routes text current now. */
    method DeferredRefreshFires(hour: nat, minute: nat)
      requires Valid() && scheduledRefreshes > 0
      modifies this`refreshing, this`refreshQueue, this`scheduledRefreshes, this`writes
      ensures Valid()
      ensures var o := RefreshGuard.OnTimer(old(GuardState()), config.simulation);
        && GuardState() == o.next
        && writes == old(writes) + (if o.wrote then [Payload(routesText, hour, minute)] else [])
    {
      scheduledRefreshes := scheduledRefreshes - 1;
      RefreshDisplay(hour, minute);
    }

    /**
      One tick of `loop`: `checkSleep` for the current hour, which updates the
      sleeping state whatever the power command reports, then the decision to
      fetch routes, taken only when the check succeeded and reported awake.
    */
    method Tick(hour: int, commandFailed: bool) returns (command: PowerCommand, fetchRoutes: bool)
      modifies this`sleeping
      ensures var check := CheckSleep(config, hour, old(sleeping));
        && sleeping == check.sleeping
        && command == check.command
        && fetchRoutes == RefreshAfterCheck(check, commandFailed)
    {
      var failed, reportedSleeping;
      if config.simulation || config.activeHoursStart == 0 || config.activeHoursEnd == 0 {
        command, failed, reportedSleeping := NoCommand, false, false;
      } else if hour < config.activeHoursStart || hour < config.activeHoursEnd {
        if !sleeping {
          sleeping := true;
          command, failed := PowerOff, commandFailed;
        } else {
          command, failed := NoCommand, false;
        }
        reportedSleeping := sleeping;
      } else {
        if sleeping {
          command, failed := PowerOn, commandFailed;
          sleeping := false;
        } else {
          command, failed := NoCommand, false;
        }
        reportedSleeping := sleeping;
      }
      fetchRoutes := !failed && !reportedSleeping;
    }

    /** `updateRouteDisplay`: stores the routes text and refreshes the display. */
    method UpdateRouteDisplay(text: string, hour: nat, minute: nat)
      requires Valid()
      modifies this`routesText, this`refreshing, this`refreshQueue, this`writes
      ensures Valid() && routesText == text
      ensures var o := RefreshGuard.OnRequest(old(GuardState()), config.simulation);
        && GuardState() == o.next
        && writes == old(writes) + (if o.wrote then [Payload(text, hour, minute)] else [])
    {
      routesText := text;
      RefreshDisplay(hour, minute);
    }

    /**
      `refreshRoutes` once the directions reply is in: an error or an empty
      route list changes nothing; otherwise the fastest `routesToDisplay` routes
      become the routes text and the display is refreshed.
    */
    method RoutesReceived(reply: DirectionsReply, routesToDisplay: nat, hour: nat, minute: nat)
      requires Valid() && LegsPresent(reply)
      modifies this`routesText, this`refreshing, this`refreshQueue, this`writes
      ensures Valid()
      ensures var fetched := RouteTimes(reply);
        if fetched.Failure? || fetched.value == [] then
          routesText == old(routesText) && GuardState() == old(GuardState()) && writes == old(writes)
        else
          var o := RefreshGuard.OnRequest(old(GuardState()), config.simulation);
          && routesText == RouteDisplayText(SelectRoutes(fetched.value, routesToDisplay))
          && GuardState() == o.next
          && writes == old(writes) + (if o.wrote then [Payload(routesText, hour, minute)] else [])
    {
      var fetched := GetRouteTimes(reply);
      if fetched.Failure? {
        return;
      }
      var routes := fetched.value;
      if |routes| == 0 {
        return;
      }
      ghost var original := routes;
      routes := SortByDuration(routes);
      SortLength(original);
      routes := Splice(routes, routesToDisplay, |routes| - routesToDisplay);
      var text := CreateRouteDisplayText(routes);
      UpdateRouteDisplay(text, hour, minute);
    }
  }

  /**
    A write in flight, two more refreshes while it runs: they are coalesced into
    the queue and drained one write at a time, each built from the routes text
    current when it runs.
  */
  method CoalescingScenario() returns (queuedDuringWrite: nat, idleAfterDrain: bool)
    ensures queuedDuringWrite == 2 && idleAfterDrain
  {
    var d := new Daemon(Config(false, 0, 0));
    d.RefreshDisplay(9, 5);
    d.RefreshDisplay(9, 5);
    d.RefreshDisplay(9, 6);
    assert |d.writes| == 1;
    queuedDuringWrite := d.refreshQueue;
    d.WriteCompleted(false);
    d.DeferredRefreshFires(9, 6);
    d.WriteCompleted(true);
    d.DeferredRefreshFires(9, 7);
    d.WriteCompleted(false);
    idleAfterDrain := !d.refreshing && d.refreshQueue == 0 && d.scheduledRefreshes == 0;
    assert |d.writes| == 3;
    assert d.writes[1] == Payload("", 9, 6) && d.writes[2] == Payload("", 9, 7);
  }

  /**
    Two fetched routes, the slower first: the selection puts the faster first
    and the routes text joins them with one separator.
  */
  lemma SelectionExample()
    ensures var x, y := RouteTime("X", 1200, "20 min"), RouteTime("Y", 600, "10 min");
      && SelectRoutes([x, y], ROUTES_TO_DISPLAY) == [y, x]
      && RouteDisplayText([y, x]) == "Y: 10 min\\nX: 20 min"
  {
    var x, y := RouteTime("X", 1200, "20 min"), RouteTime("Y", 600, "10 min");
    assert SortByDuration([x, y]) == [y, x] by {
      assert [x, y][1..] == [y];
      assert [y][1..] == [];
      assert SortByDuration([y]) == [y];
      assert InsertByDuration(x, [y]) == [y] + InsertByDuration(x, []);
    }
    assert RouteDisplayText([y, x]) == Join(["Y: 10 min", "X: 20 min"]) by {
      assert RouteLine(y) == "Y: 10 min" && RouteLine(x) == "X: 20 min";
      assert Lines([y, x]) == ["Y: 10 min", "X: 20 min"];
    }
    assert ["Y: 10 min", "X: 20 min"][..1] == ["Y: 10 min"];
  }

  /** Clock times render as two digits each: 9:05 as "09:05", 14:00 as "14:00". */
  lemma ClockExample()
    ensures EnsureLeadingZero(9) + ":" + EnsureLeadingZero(5) == "09:05"
    ensures EnsureLeadingZero(14) + ":" + EnsureLeadingZero(0) == "14:00"
  {
  }
}
