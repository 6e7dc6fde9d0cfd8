/** The scroll filter: a small state machine that decides whether a scroll
    event is worth a capture (session grouping, debounce, minimum travel,
    maximum frequency), and the magnitude gate applied to its delta. */
module ScrollFilter {
  import opened Common
  import opened Geometry

  datatype ScrollConfig = ScrollConfig(debounce: real, minDistance: real, maxFrequency: real, sessionTimeout: real)

  /** The observer's constructor defaults. */
  const DefaultScrollConfig := ScrollConfig(0.5, 5.0, 10.0, 2.0)

  /** `eventCount` counts the events of the session that passed the debounce
      and distance checks, including the ones the frequency check rejected. */
  datatype ScrollState = ScrollState(sessionStart: Option<real>, lastTime: Option<real>,
                                     lastPosition: Option<Point>, eventCount: nat)

  const NoScrollSession := ScrollState(None, None, None, 0)

  /** The verdict of one event together with the filter's next state. */
  datatype Filtered = Filtered(accept: bool, next: ScrollState)

  function SquaredDistance(a: Point, b: Point): real {
    (b.x - a.x) * (b.x - a.x) + (b.y - a.y) * (b.y - a.y)
  }

  /** `m` is the Euclidean length whose square is `sq`. */
  ghost predicate IsRoot(m: real, sq: real) {
    m >= 0.0 && m * m == sq
  }

  /** The source compares `sqrt(d2) < minDistance`; the model compares
      squares, which needs the threshold to be positive. */
  predicate TooClose(a: Point, b: Point, minDistance: real) {
    minDistance > 0.0 && SquaredDistance(a, b) < minDistance * minDistance
  }

  /** Ordering of non-negative reals agrees with ordering of their squares. */
  lemma SquareMonotone(a: real, b: real)
    requires a >= 0.0 && b >= 0.0
    ensures a < b <==> a * a < b * b
  {
    var aa, ab, bb := a * a, a * b, b * b;
    if a < b {
      assert aa <= ab;
      assert ab < bb;
    } else {
      assert bb <= ab;
      assert ab <= aa;
    }
  }

  /** The square comparison decides the same as comparing the true distance. */
  lemma TooCloseIsDistanceBelow(a: Point, b: Point, minDistance: real, d: real)
    requires IsRoot(d, SquaredDistance(a, b))
    ensures TooClose(a, b, minDistance) <==> d < minDistance
  {
    if minDistance > 0.0 {
      SquareMonotone(d, minDistance);
    }
  }

  /** The event opens a new session: none is active, or the session started
      more than `sessionTimeout` ago (measured from its start, strictly). */
  predicate OpensSession(c: ScrollConfig, s: ScrollState, now: real) {
    s.sessionStart.None? || now - s.sessionStart.value > c.sessionTimeout
  }

  /** Debounce: too soon after the last accepted event. */
  predicate Bounced(c: ScrollConfig, s: ScrollState, now: real) {
    s.lastTime.Some? && now - s.lastTime.value < c.debounce
  }

  /** Too close to the last accepted position. */
  predicate TooCloseToLast(c: ScrollConfig, s: ScrollState, p: Point) {
    s.lastPosition.Some? && TooClose(s.lastPosition.value, p, c.minDistance)
  }

  /** Too many events for the session's age (checked only once it has one). */
  predicate TooFrequent(c: ScrollConfig, start: real, count: nat, now: real) {
    now - start > 0.0 && (count as real) / (now - start) > c.maxFrequency
  }

  /** One scroll event at time `now`, position `p` (screen coordinates). */
  function ShouldLogScroll(c: ScrollConfig, s: ScrollState, now: real, p: Point): (r: Filtered)
    // a new session always accepts and resets everything
    ensures OpensSession(c, s, now) ==>
              r.accept && r.next == ScrollState(Some(now), Some(now), Some(p), 0)
    // inside a session, a debounced or unmoved event leaves the state alone
    ensures !OpensSession(c, s, now) && (Bounced(c, s, now) || TooCloseToLast(c, s, p)) ==>
              !r.accept && r.next == s
    // a rejection never touches the session start, last time or last position
    ensures !r.accept ==>
              r.next.sessionStart == s.sessionStart && r.next.lastTime == s.lastTime &&
              r.next.lastPosition == s.lastPosition
    // a rejection for frequency still counts the event
    ensures !r.accept && r.next != s ==>
              !Bounced(c, s, now) && !TooCloseToLast(c, s, p) && r.next.eventCount == s.eventCount + 1
    // an event passing debounce and distance is counted, and accepted exactly
    // when the counted rate is within bounds; a frequency rejection changes
    // nothing but the count
    ensures !OpensSession(c, s, now) && !Bounced(c, s, now) && !TooCloseToLast(c, s, p) ==>
              r.next.eventCount == s.eventCount + 1 &&
              (r.accept <==> !TooFrequent(c, s.sessionStart.value, s.eventCount + 1, now)) &&
              (!r.accept ==> r.next == s.(eventCount := s.eventCount + 1))
    // an acceptance records the event
    ensures r.accept ==> r.next.lastTime == Some(now) && r.next.lastPosition == Some(p) && r.next.sessionStart.Some?
    // an acceptance inside a session passed every check
    ensures r.accept && !OpensSession(c, s, now) ==>
              !Bounced(c, s, now) && !TooCloseToLast(c, s, p) &&
              r.next.sessionStart == s.sessionStart && r.next.eventCount == s.eventCount + 1 &&
              !TooFrequent(c, s.sessionStart.value, r.next.eventCount, now)
  {
    if OpensSession(c, s, now) then
      Filtered(true, ScrollState(Some(now), Some(now), Some(p), 0))
    else if Bounced(c, s, now) then
      Filtered(false, s)
    else if TooCloseToLast(c, s, p) then
      Filtered(false, s)
    else
      var count := s.eventCount + 1;
      if TooFrequent(c, s.sessionStart.value, count, now) then
        Filtered(false, s.(eventCount := count))
      else
        Filtered(true, ScrollState(s.sessionStart, Some(now), Some(p), count))
  }

  /** The magnitude gate after filtering: `sqrt(dx² + dy²) < 1.0` drops the
      event; the model keeps it when the squared magnitude is at least one. */
  predicate SignificantScroll(dx: real, dy: real) {
    dx * dx + dy * dy >= 1.0
  }

  /** The square test keeps exactly the events whose true magnitude is
      at least one. */
  lemma SignificantScrollIsMagnitude(dx: real, dy: real, m: real)
    requires IsRoot(m, dx * dx + dy * dy)
    ensures SignificantScroll(dx, dy) <==> m >= 1.0
  {
    SquareMonotone(m, 1.0);
  }

  // ---------------------------------------------------------------- streams

  /** Folding the filter over a stream of `(time, position)` events gives the
      final state and one verdict per event. */
  datatype Run = Run(state: ScrollState, verdicts: seq<bool>)

  function RunFilter(c: ScrollConfig, s: ScrollState, events: seq<(real, Point)>): (r: Run)
    ensures |r.verdicts| == |events|
    decreases |events|
  {
    if |events| == 0 then Run(s, [])
    else
      var f := ShouldLogScroll(c, s, events[0].0, events[0].1);
      var rest := RunFilter(c, f.next, events[1..]);
      Run(rest.state, [f.accept] + rest.verdicts)
  }

  /** Debounce over a stream: after an accepted event at time `t`, every
      further event of the same session that arrives before `t + debounce`
      is rejected and changes nothing. */
  lemma {:induction false} DebounceSuppressesBurst(c: ScrollConfig, s: ScrollState, events: seq<(real, Point)>)
    requires s.sessionStart.Some? && s.lastTime.Some?
    requires forall k :: 0 <= k < |events| ==>
               events[k].0 - s.lastTime.value < c.debounce &&
               events[k].0 - s.sessionStart.value <= c.sessionTimeout
    ensures RunFilter(c, s, events).state == s
    ensures forall k :: 0 <= k < |events| ==> !RunFilter(c, s, events).verdicts[k]
    decreases |events|
  {
    if |events| > 0 {
      DebounceSuppressesBurst(c, s, events[1..]);
    }
  }

  /** Audit of the rate promise: `accepted` is the number of events accepted
      since the current session opened (the opening one included). */
  function Audit(c: ScrollConfig, s: ScrollState, accepted: nat, now: real, p: Point): nat {
    var f := ShouldLogScroll(c, s, now, p);
    if !f.accept then accepted
    else if OpensSession(c, s, now) then 1
    else accepted + 1
  }

  /** The rate invariant: within the current session, the accepted events
      after the opening one never exceed `maxFrequency` per second of
      session time up to the last accepted event. */
  predicate RateBounded(c: ScrollConfig, s: ScrollState, accepted: nat) {
    if s.sessionStart.None? then accepted == 0
    else
      s.lastTime.Some? && s.lastPosition.Some? &&
      s.sessionStart.value <= s.lastTime.value &&
      1 <= accepted <= s.eventCount + 1 &&
      (accepted - 1) as real <= c.maxFrequency * (s.lastTime.value - s.sessionStart.value)
  }

  /** One event preserves the rate invariant, whatever its time. */
  lemma RateBoundedStep(c: ScrollConfig, s: ScrollState, accepted: nat, now: real, p: Point)
    requires c.debounce > 0.0
    requires RateBounded(c, s, accepted)
    ensures RateBounded(c, ShouldLogScroll(c, s, now, p).next, Audit(c, s, accepted, now, p))
  {
    var f := ShouldLogScroll(c, s, now, p);
    if f.accept && !OpensSession(c, s, now) {
      var start := s.sessionStart.value;
      var count := f.next.eventCount;
      assert now - s.lastTime.value >= c.debounce;
      assert now - start > 0.0;
      assert (count as real) / (now - start) <= c.maxFrequency;
      assert count as real <= c.maxFrequency * (now - start) by {
        DivBound(count as real, now - start, c.maxFrequency);
      }
    }
  }

  lemma DivBound(a: real, d: real, m: real)
    requires d > 0.0 && a / d <= m
    ensures a <= m * d
  {
    assert a == (a / d) * d;
  }

  /** Audit of a whole stream, alongside `RunFilter`. */
  function AuditRun(c: ScrollConfig, s: ScrollState, accepted: nat, events: seq<(real, Point)>): nat
    decreases |events|
  {
    if |events| == 0 then accepted
    else
      AuditRun(c, ShouldLogScroll(c, s, events[0].0, events[0].1).next,
               Audit(c, s, accepted, events[0].0, events[0].1), events[1..])
  }

  /** Over any stream, with a positive debounce, the accepted rate within the
      current session stays within `maxFrequency` measured over the session's
      duration. The event clock need not be monotone. */
  lemma {:induction false} RateBoundedRun(c: ScrollConfig, s: ScrollState, accepted: nat, events: seq<(real, Point)>)
    requires c.debounce > 0.0
    requires RateBounded(c, s, accepted)
    ensures RateBounded(c, RunFilter(c, s, events).state, AuditRun(c, s, accepted, events))
    decreases |events|
  {
    if |events| > 0 {
      var e := events[0];
      RateBoundedStep(c, s, accepted, e.0, e.1);
      RateBoundedRun(c, ShouldLogScroll(c, s, e.0, e.1).next, Audit(c, s, accepted, e.0, e.1), events[1..]);
    }
  }

  /** The positive debounce is needed: with none, an event at the very
      instant the session started skips the frequency check (the session has
      no duration yet) and is accepted, which the rate bound cannot allow. */
  lemma ZeroDebounceExceedsRate()
    ensures var c := DefaultScrollConfig.(debounce := 0.0);
            var s := ScrollState(Some(0.0), Some(0.0), Some(Point(0.0, 0.0)), 0);
            RateBounded(c, s, 1) &&
            ShouldLogScroll(c, s, 0.0, Point(10.0, 0.0)).accept &&
            !RateBounded(c, ShouldLogScroll(c, s, 0.0, Point(10.0, 0.0)).next, Audit(c, s, 1, 0.0, Point(10.0, 0.0)))
  {
    var c := DefaultScrollConfig.(debounce := 0.0);
    var s := ScrollState(Some(0.0), Some(0.0), Some(Point(0.0, 0.0)), 0);
    assert !TooClose(Point(0.0, 0.0), Point(10.0, 0.0), c.minDistance);
  }

  /** The filter starts out satisfying the rate invariant. */
  lemma RateBoundedInitially(c: ScrollConfig)
    ensures RateBounded(c, NoScrollSession, 0)
  {
  }
}
