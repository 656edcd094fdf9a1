/**
  Route times: conversion of a directions reply into route records (the result
  handling of `getRouteTimes`) and the selection of the fastest routes
  (`refreshRoutes`: a stable sort by duration followed by `splice`).
*/
module Routes {
  import opened Results

  /** One route as the daemon keeps it: `sSummary`, `iDuration` (seconds), `sDuration`. */
  datatype RouteTime = RouteTime(summary: string, duration: int, durationText: string)

  /** The parts of a directions reply the daemon reads. */
  datatype Duration = Duration(value: int, text: string)
  datatype Leg = Leg(duration: Duration)
  datatype DirectionsRoute = DirectionsRoute(summary: string, legs: seq<Leg>)
  /** `routes == None` stands for a missing or null `routes` field. */
  datatype DirectionsData = DirectionsData(status: string, routes: Option<seq<DirectionsRoute>>)
  /** What the maps client hands to its callback: an error, or data that may be null. */
  datatype DirectionsReply = ClientError(message: string) | Reply(data: Option<DirectionsData>)

  datatype FetchError = RequestFailed(message: string) | NoDataReceived | BadStatus(status: string)
  {
    /** The message the daemon logs for this error. */
    function Message(): string {
      match this
      case RequestFailed(m) => m
      case NoDataReceived => "No data received"
      case BadStatus(s) => "Bad status: " + s
    }
  }

  const OK_STATUS: string := "OK"

  predicate HasLegs(routes: seq<DirectionsRoute>) {
    forall i :: 0 <= i < |routes| ==> |routes[i].legs| > 0
  }

  /**
    The conversion reads `legs[0]` of every route of a successful reply; a route
    without legs would make it throw, so such replies are outside the model.
  */
  predicate LegsPresent(reply: DirectionsReply) {
    match reply
    case Reply(Some(DirectionsData(status, Some(routes)))) => status == OK_STATUS ==> HasLegs(routes)
    case _ => true
  }

  function FromDirections(route: DirectionsRoute): RouteTime
    requires |route.legs| > 0
  {
    RouteTime(route.summary, route.legs[0].duration.value, route.legs[0].duration.text)
  }

  /** The converted routes, last reply route first. */
  function ReverseConvert(routes: seq<DirectionsRoute>): seq<RouteTime>
    requires HasLegs(routes)
  {
    if routes == [] then [] else ReverseConvert(routes[1..]) + [FromDirections(routes[0])]
  }

  lemma {:induction false} ReverseConvertSpec(routes: seq<DirectionsRoute>)
    requires HasLegs(routes)
    ensures |ReverseConvert(routes)| == |routes|
    ensures forall i :: 0 <= i < |routes| ==>
      ReverseConvert(routes)[i] == FromDirections(routes[|routes| - 1 - i])
  {
    if routes != [] {
      ReverseConvertSpec(routes[1..]);
      var tail := ReverseConvert(routes[1..]);
      forall i | 0 <= i < |routes|
        ensures ReverseConvert(routes)[i] == FromDirections(routes[|routes| - 1 - i])
      {
        if i < |tail| {
          assert routes[1..][|routes[1..]| - 1 - i] == routes[|routes| - 1 - i];
        }
      }
    }
  }

  /**
    The outcome `getRouteTimes` passes to its callback. Errors are checked in a
    fixed order: client error, then missing data or routes, then a status other
    than "OK"; otherwise every route becomes a record built from its first leg,
    in reverse order.
  */
  function RouteTimes(reply: DirectionsReply): (r: Result<seq<RouteTime>, FetchError>)
    requires LegsPresent(reply)
    ensures reply.ClientError? ==> r == Failure(RequestFailed(reply.message))
    ensures reply.Reply? && (reply.data.None? || reply.data.value.routes.None?) ==>
      r == Failure(NoDataReceived)
    ensures reply.Reply? && reply.data.Some? && reply.data.value.routes.Some?
            && reply.data.value.status != OK_STATUS ==>
      r == Failure(BadStatus(reply.data.value.status))
    ensures r.Success? <==>
      reply.Reply? && reply.data.Some? && reply.data.value.routes.Some?
      && reply.data.value.status == OK_STATUS
    ensures r.Success? ==>
      var routes := reply.data.value.routes.value;
      && |r.value| == |routes|
      && forall i :: 0 <= i < |routes| ==> r.value[i] == FromDirections(routes[|routes| - 1 - i])
  {
    match reply
    case ClientError(m) => Failure(RequestFailed(m))
    case Reply(None) => Failure(NoDataReceived)
    case Reply(Some(DirectionsData(_, None))) => Failure(NoDataReceived)
    case Reply(Some(DirectionsData(status, Some(routes)))) =>
      if status != OK_STATUS then Failure(BadStatus(status))
      else
        ReverseConvertSpec(routes);
        Success(ReverseConvert(routes))
  }

  /** The reply handling of `getRouteTimes`, filling the list with a reverse loop. */
  method GetRouteTimes(reply: DirectionsReply) returns (r: Result<seq<RouteTime>, FetchError>)
    requires LegsPresent(reply)
    ensures r == RouteTimes(reply)
  {
    if reply.ClientError? {
      return Failure(RequestFailed(reply.message));
    } else if reply.data.None? || reply.data.value.routes.None? {
      return Failure(NoDataReceived);
    } else if reply.data.value.status != OK_STATUS {
      return Failure(BadStatus(reply.data.value.status));
    }
    var routes := reply.data.value.routes.value;
    var routeTimes: seq<RouteTime> := [];
    var i := |routes| - 1;
    while i >= 0
      invariant -1 <= i < |routes|
      invariant routeTimes == ReverseConvert(routes[i + 1..])
    {
      assert routes[i..][1..] == routes[i + 1..];
      routeTimes := routeTimes + [FromDirections(routes[i])];
      i := i - 1;
    }
    assert routes[0..] == routes;
    return Success(routeTimes);
  }

  // ---------------------------------------------------------------------------
  // Selection: Array.prototype.sort with `a.iDuration - b.iDuration`, which
  // ECMAScript 2019 (section 22.1.3.27) requires to be stable, then splice.

  predicate SortedByDuration(s: seq<RouteTime>) {
    forall i, j :: 0 <= i < j < |s| ==> s[i].duration <= s[j].duration
  }

  /** Inserts `x` in front of the first route that is not faster than it. */
  function InsertByDuration(x: RouteTime, s: seq<RouteTime>): seq<RouteTime> {
    if s == [] || x.duration <= s[0].duration then [x] + s
    else [s[0]] + InsertByDuration(x, s[1..])
  }

  /** A stable sort by ascending duration. */
  function SortByDuration(s: seq<RouteTime>): seq<RouteTime> {
    if s == [] then [] else InsertByDuration(s[0], SortByDuration(s[1..]))
  }

  /** The routes of `s` whose duration is `d`, in their order in `s`. */
  function WithDuration(s: seq<RouteTime>, d: int): seq<RouteTime> {
    if s == [] then []
    else (if s[0].duration == d then [s[0]] else []) + WithDuration(s[1..], d)
  }

  lemma {:induction false} WithDurationAppend(a: seq<RouteTime>, b: seq<RouteTime>, d: int)
    ensures WithDuration(a + b, d) == WithDuration(a, d) + WithDuration(b, d)
  {
    if a == [] {
      assert a + b == b;
    } else {
      var ab, head := a + b, if a[0].duration == d then [a[0]] else [];
      assert ab[0] == a[0] && ab[1..] == a[1..] + b;
      WithDurationAppend(a[1..], b, d);
      assert WithDuration(ab, d) == head + WithDuration(a[1..] + b, d);
      assert WithDuration(a, d) == head + WithDuration(a[1..], d);
    }
  }

  lemma {:induction false} InsertPermutes(x: RouteTime, s: seq<RouteTime>)
    ensures multiset(InsertByDuration(x, s)) == multiset([x] + s)
  {
    if s != [] && x.duration > s[0].duration {
      InsertPermutes(x, s[1..]);
      assert s == [s[0]] + s[1..];
    }
  }

  lemma {:induction false} InsertSorted(x: RouteTime, s: seq<RouteTime>)
    requires SortedByDuration(s)
    ensures SortedByDuration(InsertByDuration(x, s))
  {
    if s != [] && x.duration > s[0].duration {
      var rest := InsertByDuration(x, s[1..]);
      InsertSorted(x, s[1..]);
      InsertPermutes(x, s[1..]);
      forall j | 0 <= j < |rest|
        ensures s[0].duration <= rest[j].duration
      {
        assert rest[j] in multiset([x] + s[1..]);
        if rest[j] != x {
          assert rest[j] in s[1..];
        }
      }
      var r := [s[0]] + rest;
      forall i, j | 0 <= i < j < |r|
        ensures r[i].duration <= r[j].duration
      {
        if i > 0 {
          assert r[i] == rest[i - 1] && r[j] == rest[j - 1];
        }
      }
    }
  }

  lemma {:induction false} InsertStable(x: RouteTime, s: seq<RouteTime>, d: int)
    ensures WithDuration(InsertByDuration(x, s), d) == WithDuration([x] + s, d)
  {
    if s != [] && x.duration > s[0].duration {
      var rest := InsertByDuration(x, s[1..]);
      InsertStable(x, s[1..], d);
      assert ([s[0]] + rest)[1..] == rest;
      assert ([x] + s[1..])[1..] == s[1..];
      assert ([x] + s)[1..] == s;
    }
  }

  /** The sort orders by duration and returns a permutation of its input. */
  lemma {:induction false} SortSpec(s: seq<RouteTime>)
    ensures SortedByDuration(SortByDuration(s))
    ensures multiset(SortByDuration(s)) == multiset(s)
  {
    if s != [] {
      SortSpec(s[1..]);
      InsertSorted(s[0], SortByDuration(s[1..]));
      InsertPermutes(s[0], SortByDuration(s[1..]));
      assert s == [s[0]] + s[1..];
    }
  }

  /** The sort is stable: routes of equal duration keep their relative order. */
  lemma {:induction false} SortStable(s: seq<RouteTime>, d: int)
    ensures WithDuration(SortByDuration(s), d) == WithDuration(s, d)
  {
    if s != [] {
      SortStable(s[1..], d);
      InsertStable(s[0], SortByDuration(s[1..]), d);
      WithDurationAppend([s[0]], SortByDuration(s[1..]), d);
      WithDurationAppend([s[0]], s[1..], d);
      assert s == [s[0]] + s[1..];
    }
  }

  /**
    `Array.prototype.splice(start, deleteCount)` with no items to insert, as it
    leaves the array: `start` is clamped to the length, a negative `deleteCount`
    deletes nothing and one past the end deletes up to the end.
  */
  function Splice(s: seq<RouteTime>, start: nat, deleteCount: int): (r: seq<RouteTime>)
    ensures var from := if start < |s| then start else |s|;
      var count := if deleteCount < 0 then 0 else if deleteCount < |s| - from then deleteCount else |s| - from;
      && |r| == |s| - count
      && r[..from] == s[..from]
      && r[from..] == s[from + count..]
  {
    var from := if start < |s| then start else |s|;
    var count := if deleteCount < 0 then 0 else if deleteCount < |s| - from then deleteCount else |s| - from;
    s[..from] + s[from + count..]
  }

  function Min(a: int, b: int): int { if a < b then a else b }

  /** The routes `refreshRoutes` keeps: sorted, then `splice(n, length - n)`. */
  function SelectRoutes(routes: seq<RouteTime>, n: nat): seq<RouteTime> {
    Splice(SortByDuration(routes), n, |routes| - n)
  }

  lemma SortLength(s: seq<RouteTime>)
    ensures |SortByDuration(s)| == |s|
  {
    SortSpec(s);
    assert |multiset(SortByDuration(s))| == |multiset(s)|;
  }

  /** `splice(n, length - n)` truncates the sorted list to its first min(n, length) routes. */
  lemma SelectIsPrefix(routes: seq<RouteTime>, n: nat)
    ensures |SelectRoutes(routes, n)| == Min(n, |routes|)
    ensures SelectRoutes(routes, n) == SortByDuration(routes)[..Min(n, |routes|)]
  {
    SortLength(routes);
  }

  /**
    The kept routes are ordered by duration and none of them is slower than a
    route `splice` dropped.
  */
  lemma SelectRoutesOrdered(routes: seq<RouteTime>, n: nat)
    ensures SortedByDuration(SelectRoutes(routes, n))
    ensures var sorted, k := SortByDuration(routes), |SelectRoutes(routes, n)|;
      forall i, j :: 0 <= i < k <= j < |sorted| ==> sorted[i].duration <= sorted[j].duration
  {
    var sorted, r := SortByDuration(routes), SelectRoutes(routes, n);
    SortSpec(routes);
    SelectIsPrefix(routes, n);
    forall i, j | 0 <= i < j < |r|
      ensures r[i].duration <= r[j].duration
    {
      assert r[i] == sorted[i] && r[j] == sorted[j];
    }
  }

  /** The kept routes and the dropped ones together are a permutation of the fetched list. */
  lemma SelectRoutesPermutation(routes: seq<RouteTime>, n: nat)
    ensures var sorted, r := SortByDuration(routes), SelectRoutes(routes, n);
      && multiset(r) + multiset(sorted[|r|..]) == multiset(routes)
      && multiset(r) <= multiset(routes)
  {
    var sorted, r := SortByDuration(routes), SelectRoutes(routes, n);
    SortSpec(routes);
    SelectIsPrefix(routes, n);
    assert sorted == r + sorted[|r|..];
    assert multiset(sorted) == multiset(r) + multiset(sorted[|r|..]);
  }

  /**
    For every duration, the kept routes of that duration followed by the dropped
    ones are those of the fetched list in fetched order: the selection keeps
    the earliest fetched routes among equal durations.
  */
  lemma SelectRoutesStable(routes: seq<RouteTime>, n: nat, d: int)
    ensures var sorted, r := SortByDuration(routes), SelectRoutes(routes, n);
      WithDuration(r, d) + WithDuration(sorted[|r|..], d) == WithDuration(routes, d)
  {
    var sorted, r := SortByDuration(routes), SelectRoutes(routes, n);
    SelectIsPrefix(routes, n);
    assert sorted == r + sorted[|r|..];
    WithDurationAppend(r, sorted[|r|..], d);
    SortStable(routes, d);
  }
}
