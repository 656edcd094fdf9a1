# libra-display: refresh coordination, sleep schedule and route display

A Dafny model of the core of `index.js`, a small daemon that asks a
directions service for travel times between two fixed places and writes the
fastest routes to an 11x8 character OLED display, switching the display off
outside its active hours. The model covers four pieces of logic:

- the single-flight guard of `refreshDisplay`. A refresh that arrives while a
  display write is in flight only adds one to `iDisplayRefreshQueue`. Each
  completed write releases the guard and, if refreshes are owed, schedules
  exactly one deferred refresh (`refresh_guard.dfy` as a state machine over
  values, `daemon.dfy` as the class that holds the module globals);
- the sleep/wake machine of `checkSleep` and the gating in `loop`
  (`sleep_schedule.dfy`, `Daemon.Tick`);
- the conversion of a directions reply into route records, and the selection
  of the fastest routes by a stable sort followed by `splice` (`routes.dfy`);
- the display text: route lines joined by the two-character separator `\n`
  (a backslash and an `n`, as the daemon writes it), two-digit clock fields, and
  the full payload (`display_text.dfy`).

The clock (`new Date()`), the directions reply, the outcome of each shell
command and the firing of the zero-delay timer are parameters or explicit
method calls. The ghost field `Daemon.writes` logs every payload handed to
the display.

Two behaviours of `index.js` worth stating explicitly:
- The sleep condition is `hour < start || hour < end` (index.js:52). The
  display therefore sleeps unless the hour has reached BOTH bounds, not only
  when it is below both. `SleepSchedule.InSleepWindow` states this: the
  condition holds exactly when the hour is below the larger bound.
- A queued refresh rebuilds the whole payload, including a fresh `Updated:`
  time, from the routes text current when it runs. It does not resend the
  previous text.

## Model

| member | source | states |
|---|---|---|
| Routes.RouteTimes | index.js:181-200 | errors in precedence order: a client error first, then "No data received" when data or `routes` is missing (even with status OK), then "Bad status"; success exactly for OK with routes, and then the same length, element i built from route len-1-i and its first leg |
| Routes.ReverseConvertSpec | index.js:188-199 | the reverse loop yields one record per route, element i from routes[len-1-i] with `legs[0].duration` value and text |
| Routes.GetRouteTimes | index.js:181-200 | the imperative reverse `for` loop computes exactly `RouteTimes` |
| Routes.SortSpec | index.js:161-163 | sorting by `iDuration` gives a non-decreasing order and a permutation of the fetched routes |
| Routes.SortStable | index.js:161-163 | routes of equal duration keep their fetched relative order (the stability ECMAScript 2019 section 22.1.3.27 requires) |
| Routes.Splice | index.js:164 | `splice(start, deleteCount)` keeps the prefix before the clamped start, removes exactly the clamped count there (a negative count removing nothing) and keeps everything after the removed block |
| Routes.SelectIsPrefix | index.js:161-164 | sort then `splice(n, len - n)` keeps exactly the first min(n, len) routes of the sorted list |
| Routes.SelectRoutesOrdered | index.js:161-164 | the kept routes are in non-decreasing duration order and none is slower than any dropped route |
| Routes.SelectRoutesPermutation | index.js:161-164 | kept plus dropped routes are a permutation of the fetched list, so the kept ones are a sub-multiset of it |
| Routes.SelectRoutesStable | index.js:161-164 | per duration, kept then dropped routes are the fetched ones in fetched order, so ties keep the earliest fetched |
| DisplayText.DecimalRoundTrip | index.js:122 | the decimal rendering of a number reads back as that number, one digit below 10, two below 100 |
| DisplayText.EnsureLeadingZero | index.js:142-144 | the result is all digits and denotes the input; below 10 it starts with "0", below 100 it is two characters, from 10 on it is the plain rendering |
| DisplayText.JoinLayout | index.js:205-216 | k >= 1 pieces joined carry exactly k-1 separators, start with the first piece and end with the last |
| DisplayText.JoinAppend | index.js:205-216 | joining two non-empty runs puts exactly one separator between them |
| DisplayText.RouteDisplayTextLayout | index.js:205-216 | no routes give "", one route gives `summary + ": " + duration`, and two runs join with one separator |
| DisplayText.CreateRouteDisplayText | index.js:205-216 | the accumulating loop, separator before every line but the first, computes the joined route lines |
| DisplayText.PayloadParts | index.js:111-122 | the payload is 35 characters longer than the routes text: header and separator, the routes text, two separators, "Updated: ", then two digits denoting the hour, ":" and two digits denoting the minute |
| DisplayText.PayloadDeterminesParts | index.js:111-122 | equal payloads come from equal routes texts, hours and minutes |
| SleepSchedule.InSleepWindow | index.js:52 | the literal condition holds exactly when the hour is below the larger of the two bounds |
| SleepSchedule.CheckSleep | index.js:43-71 | bypass (simulation, or a bound 0/unset) reports awake, issues nothing and keeps the state; otherwise the state follows the condition and is reported; a command is issued exactly on a transition, power-off on falling asleep, power-on on waking |
| SleepSchedule.CheckSleepRepeatIsQuiet | index.js:52-70 | a second check under the same condition issues no command and keeps the state |
| SleepSchedule.RefreshAfterCheck | index.js:33-41 | routes are refreshed exactly when the check reported awake and no issued power command failed |
| SleepSchedule.RefreshOnlyWhenAwake | index.js:33-71 | with a schedule, a refresh happens only at hours at or past both bounds, and does happen there unless waking failed |
| RefreshGuard.OnRequest | index.js:98-128 | a write is issued exactly when none is in flight; otherwise the queue grows by one and nothing else changes; in simulation the guard is released at once |
| RefreshGuard.OnWriteDone | index.js:130-139 | completion releases the guard; a positive queue drops by exactly one and one refresh is scheduled, otherwise nothing is scheduled |
| RefreshGuard.OnTimer | index.js:137 | a deferred refresh consumes its timer; with no write in flight it writes and takes the guard (released at once in simulation), otherwise it goes back on the queue |
| RefreshGuard.StepValid | index.js:98-139 | every event keeps the guard reachable: idle in simulation, and owed refreshes never stall without a write or timer pending |
| RefreshGuard.StepConserves | index.js:101-139 | per event, writes plus owed refreshes grow by one for a request and stay equal otherwise |
| RefreshGuard.RunValid | index.js:98-139 | any feasible run keeps the guard reachable |
| RefreshGuard.RunConserves | index.js:101-139 | over any run, writes issued plus refreshes still owed equal the owed ones at the start plus the requests made |
| RefreshGuard.IdleRunWritesOncePerRequest | index.js:101-139 | a run from idle back to idle writes the display exactly once per request |
| RefreshGuard.DrainSettles | index.js:130-139 | with no new request, completions and timers always bring the guard back to idle, writing once per owed refresh |
| RefreshGuard.RequestsWhileBusy | index.js:101-105 | k requests during an in-flight write only add k to the queue and write nothing |
| RefreshGuard.QueuedRequestsYieldFollowUps | index.js:101-139 | one write plus k requests during it leave k queued, and the drain then issues exactly k follow-up writes |
| Daemon.Daemon.constructor | index.js:12-18 | the globals start not refreshing, not sleeping, with an empty queue and empty routes text |
| Daemon.Daemon.RefreshDisplay | index.js:98-140 | the guard moves as `OnRequest`, and a write logs the payload built from the current routes text and clock |
| Daemon.Daemon.WriteCompleted | index.js:130-139 | the guard moves as `OnWriteDone`, failed write or not |
| Daemon.Daemon.DeferredRefreshFires | index.js:137 | the guard moves as `OnTimer`, and a write uses the routes text current when the timer runs |
| Daemon.Daemon.Tick | index.js:33-71 | the sleeping state and power command are those of `CheckSleep`, and routes are fetched exactly as `RefreshAfterCheck` says |
| Daemon.Daemon.UpdateRouteDisplay | index.js:218-221 | stores the routes text, then refreshes as `OnRequest` with a payload built from the new text |
| Daemon.Daemon.RoutesReceived | index.js:152-169 | an error or an empty list changes nothing; otherwise the routes text becomes the joined selection of the fastest n routes and one refresh request follows |
| Daemon.CoalescingScenario | index.js:101-139 | a write plus two requests during it queue two refreshes, which drain one write at a time, each built from the clock of its own run, leaving the guard idle after three writes |
| Daemon.SelectionExample | index.js:161-166 | routes X (1200 s) and Y (600 s) select as [Y, X] and render "Y: 10 min", separator, "X: 20 min" |
| Daemon.ClockExample | index.js:122 | 9:05 renders as "09:05" and 14:00 as "14:00" |

## Left out

- Shell commands of the display driver (`oled-exp`, index.js:81, 87, 93, 130): only their success or failure enters the model, as a parameter of `Daemon.Tick` and `Daemon.WriteCompleted`.
- The maps client and its HTTP request (index.js:147-150, 173-177): only the shape of the reply it hands back is modelled (`Routes.DirectionsReply`).
- Timers and real asynchrony (`setInterval`, `setTimeout`, index.js:26-28, 137): deferred work is an explicit call, and the zero-delay timers are counted in `scheduledRefreshes`.
- `new Date()` (index.js:51, 121): the hour and minute are parameters.
- Log messages other than the fetch error messages, configuration loading and its abort (index.js:4-9), and display initialisation and startup (`initializeDisplay`, `setup`, index.js:20-31, 74-84).
- Unset active-hours bounds are written as 0. Both are falsy, so the source treats them alike.
- Routes.RouteTimes: a successful reply whose route has no legs makes the source throw when it reads `legs[0]`; the model requires every such route to have a leg (`Routes.LegsPresent`).
- Daemon.Daemon.Tick: the power command's completion is folded into the same call as the state update. In the source, the reported sleeping value is read from the global when the command completes; the model reports the state the check just set.
- Routes.SortSpec: `Array.prototype.sort` and `splice` mutate the local route array in place; the model reassigns a local sequence, which is the same here because the array is not shared.
