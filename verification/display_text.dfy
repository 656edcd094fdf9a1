/**
  The text the daemon writes to the 11x8 character display: the route lines of
  `createRouteDisplayText`, the two-digit clock of `ensureLeadingZero` and the
  full payload that `refreshDisplay` assembles.
*/
module DisplayText {
  import opened Routes

  /**
    The line separator exactly as the daemon writes it: a backslash followed by
    `n` (two characters), which the display driver turns into a line break.
  */
  const SEPARATOR: string := "\\n"
  const HEADER: string := "Routes to work:"
  const UPDATED: string := "Updated: "

  predicate IsDigit(c: char) { '0' <= c <= '9' }

  predicate AllDigits(s: string) { forall i :: 0 <= i < |s| ==> IsDigit(s[i]) }

  function DigitChar(d: nat): char
    requires d < 10
  {
    (48 + d) as char
  }

  /** The decimal rendering JavaScript gives a non-negative integer. */
  function DecimalText(n: nat): string
    decreases n
  {
    if n < 10 then [DigitChar(n)] else DecimalText(n / 10) + [DigitChar(n % 10)]
  }

  /** The number a string of decimal digits denotes (leading zeros allowed). */
  function DigitsValue(s: string): nat
    requires AllDigits(s)
  {
    if s == [] then 0 else DigitsValue(s[..|s| - 1]) * 10 + (s[|s| - 1] as int - 48)
  }

  /** Decimal rendering is read back as the same number. */
  lemma {:induction false} DecimalRoundTrip(n: nat)
    ensures AllDigits(DecimalText(n))
    ensures DigitsValue(DecimalText(n)) == n
    ensures n < 10 ==> |DecimalText(n)| == 1
    ensures 10 <= n < 100 ==> |DecimalText(n)| == 2
    decreases n
  {
    if n >= 10 {
      DecimalRoundTrip(n / 10);
      var s := DecimalText(n);
      assert s[..|s| - 1] == DecimalText(n / 10);
    }
  }

  /**
    `ensureLeadingZero`: single-digit values get a leading "0", larger ones are
    rendered unchanged, so hours and minutes always take two characters and the
    digits still denote the value.
  */
  function EnsureLeadingZero(x: nat): (r: string)
    ensures AllDigits(r) && DigitsValue(r) == x
    ensures x < 100 ==> |r| == 2
    ensures x < 10 ==> r[0] == '0'
    ensures x >= 10 ==> r == DecimalText(x)
  {
    DecimalRoundTrip(x);
    if x < 10 then
      var r := "0" + DecimalText(x);
      assert r[..1] == "0";
      r
    else DecimalText(x)
  }

  /** The pieces joined with one separator between neighbours, built left to right. */
  function Join(parts: seq<string>): string {
    if |parts| == 0 then ""
    else if |parts| == 1 then parts[0]
    else Join(parts[..|parts| - 1]) + SEPARATOR + parts[|parts| - 1]
  }

  function TotalLength(parts: seq<string>): nat {
    if parts == [] then 0 else TotalLength(parts[..|parts| - 1]) + |parts[|parts| - 1]|
  }

  /**
    Joining k >= 1 pieces adds exactly k - 1 separators, starts with the first
    piece and ends with the last one (no leading or trailing separator).
  */
  lemma {:induction false} JoinLayout(parts: seq<string>)
    requires |parts| >= 1
    ensures |Join(parts)| == TotalLength(parts) + (|parts| - 1) * |SEPARATOR|
    ensures |parts[0]| <= |Join(parts)| && Join(parts)[..|parts[0]|] == parts[0]
    ensures Join(parts)[|Join(parts)| - |parts[|parts| - 1]|..] == parts[|parts| - 1]
  {
    if |parts| > 1 {
      var init := parts[..|parts| - 1];
      JoinLayout(init);
      assert init[0] == parts[0];
      assert TotalLength(init) == TotalLength(parts) - |parts[|parts| - 1]|;
      var j := Join(parts);
      assert j == Join(init) + SEPARATOR + parts[|parts| - 1];
      assert j[..|parts[0]|] == Join(init)[..|parts[0]|];
    } else {
      assert TotalLength(parts) == TotalLength(parts[..0]) + |parts[0]|;
    }
  }

  /** Joining two non-empty runs puts exactly one separator between them. */
  lemma {:induction false} JoinAppend(a: seq<string>, b: seq<string>)
    requires |a| >= 1 && |b| >= 1
    ensures Join(a + b) == Join(a) + SEPARATOR + Join(b)
    decreases |b|
  {
    var ab := a + b;
    assert ab[..|ab| - 1] == a + b[..|b| - 1];
    if |b| == 1 {
      assert ab[..|ab| - 1] == a;
    } else {
      JoinAppend(a, b[..|b| - 1]);
    }
  }

  /** `summary + ": " + duration` of one route. */
  function RouteLine(route: RouteTime): string {
    route.summary + ": " + route.durationText
  }

  function Lines(routes: seq<RouteTime>): (lines: seq<string>)
    ensures |lines| == |routes|
    ensures forall i :: 0 <= i < |routes| ==> lines[i] == RouteLine(routes[i])
  {
    seq(|routes|, i requires 0 <= i < |routes| => RouteLine(routes[i]))
  }

  /** The routes segment of the display text. */
  function RouteDisplayText(routes: seq<RouteTime>): string {
    Join(Lines(routes))
  }

  /**
    No routes give the empty text; one route gives its line; for two non-empty
    runs the text is theirs with exactly one separator in between.
  */
  lemma RouteDisplayTextLayout(a: seq<RouteTime>, b: seq<RouteTime>)
    ensures RouteDisplayText([]) == ""
    ensures |a| == 1 ==> RouteDisplayText(a) == RouteLine(a[0])
    ensures |a| >= 1 && |b| >= 1 ==>
      RouteDisplayText(a + b) == RouteDisplayText(a) + SEPARATOR + RouteDisplayText(b)
  {
    if |a| >= 1 && |b| >= 1 {
      assert Lines(a + b) == Lines(a) + Lines(b);
      JoinAppend(Lines(a), Lines(b));
    }
  }

  /** `createRouteDisplayText`: accumulates the lines, a separator before every line but the first. */
  method CreateRouteDisplayText(routes: seq<RouteTime>) returns (text: string)
    ensures text == RouteDisplayText(routes)
  {
    ghost var lines := Lines(routes);
    text := "";
    var i := 0;
    while i < |routes|
      invariant 0 <= i <= |routes|
      invariant text == Join(lines[..i])
    {
      if i != 0 {
        text := text + SEPARATOR;
      }
      text := text + RouteLine(routes[i]);
      assert lines[..i + 1][..i] == lines[..i];
      i := i + 1;
    }
    assert lines[..|routes|] == lines;
  }

  /** The full display text: header, routes, two separators and the update time. */
  function Payload(routesText: string, hour: nat, minute: nat): string {
    HEADER + SEPARATOR + routesText + SEPARATOR + SEPARATOR
      + UPDATED + EnsureLeadingZero(hour) + ":" + EnsureLeadingZero(minute)
  }

  /** Characters of the payload besides the routes segment. */
  const PAYLOAD_OVERHEAD: nat := 35

  /**
    For a clock time (hour and minute below 100) the payload can be read back:
    the routes segment follows the header line, and the last five characters are
    the zero-padded `HH:MM` of the update time.
  */
  lemma PayloadParts(routesText: string, hour: nat, minute: nat)
    requires hour < 100 && minute < 100
    ensures var p, k := Payload(routesText, hour, minute), |routesText|;
      && |p| == k + PAYLOAD_OVERHEAD
      && p[..17] == HEADER + SEPARATOR
      && p[17..17 + k] == routesText
      && p[17 + k..30 + k] == SEPARATOR + SEPARATOR + UPDATED
      && AllDigits(p[30 + k..32 + k]) && DigitsValue(p[30 + k..32 + k]) == hour
      && p[32 + k] == ':'
      && AllDigits(p[33 + k..]) && DigitsValue(p[33 + k..]) == minute
  {
    var hh, mm := EnsureLeadingZero(hour), EnsureLeadingZero(minute);
    var p, k := Payload(routesText, hour, minute), |routesText|;
    assert p == (HEADER + SEPARATOR) + routesText + (SEPARATOR + SEPARATOR + UPDATED) + hh + ":" + mm;
    assert p[30 + k..32 + k] == hh;
    assert p[33 + k..] == mm;
  }

  /** Different routes texts or clock times never produce the same payload. */
  lemma PayloadDeterminesParts(a: string, h1: nat, m1: nat, b: string, h2: nat, m2: nat)
    requires h1 < 100 && m1 < 100 && h2 < 100 && m2 < 100
    requires Payload(a, h1, m1) == Payload(b, h2, m2)
    ensures a == b && h1 == h2 && m1 == m2
  {
    PayloadParts(a, h1, m1);
    PayloadParts(b, h2, m2);
  }
}
