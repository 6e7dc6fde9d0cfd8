/** The screen observer's event handlers and main-loop tick, as pure state
    transitions. Everything the source asks of the operating system arrives
    as a parameter: the display extent, the topmost window at the pointer and
    the current window bounds (`OsView`), whether a frame grab succeeded, and
    whether a guarded application is visible. */
module Recorder {
  import opened Common
  import opened Geometry
  import opened Regions
  import opened ScrollFilter
  import opened KeySession
  import opened Housekeeping

  datatype Settings = Settings(scroll: ScrollConfig, keyTimeout: real, inactivityTimeout: real)

  const DefaultSettings := Settings(DefaultScrollConfig, DefaultKeyTimeout, DefaultInactivityTimeout)

  /** The window server's answers: `gmaxY` is the largest Y over all
      displays, `topmost` the topmost non-system window at the event's
      point, `windows` the on-screen windows' bounds in screen coordinates. */
  datatype OsView = OsView(gmaxY: real, topmost: Option<WindowId>, windows: map<WindowId, Rect>)

  datatype EventKind = Click(button: string) | Scroll(dx: real, dy: real)

  /** A captured "before" frame waiting for its "after" frame. `mon` is the
      one-based number of the tracked region, `region` its screen rectangle
      at capture time and `capture` the rectangle handed to the grabber. */
  datatype Pending = Pending(kind: EventKind, rel: Point, mon: nat, region: Rect, capture: Rect)

  /** The observer's bookkeeping. `pending` is a single slot: a new event
      overwrites an unflushed one. */
  datatype State = State(tracked: seq<Tracked>, scroll: ScrollState, keys: KeySession,
                         pending: Option<Pending>, lastActivity: Option<real>, lastSweep: real)

  predicate Valid(st: State) {
    AllWellFormed(st.tracked) && KeyInv(st.keys)
  }

  /** The worker starting up: activity and sweep clocks are seeded. */
  function Start(tracked: seq<Tracked>, now: real): (st: State)
    requires AllWellFormed(tracked)
    ensures Valid(st) && st.tracked == tracked
    ensures st.lastActivity == Some(now) && st.lastSweep == now
    ensures st.pending.None? && st.keys == Idle && st.scroll == NoScrollSession
  {
    State(tracked, NoScrollSession, Idle, None, Some(now), now)
  }

  // ---------------------------------------------------------------- locating

  /** `index` is the accepting entry's position; `slot` is the position of
      the first entry of the refreshed registry equal to it, which is what
      the handlers report as the window number (minus one). */
  datatype Located = Located(index: nat, slot: nat, tracked: seq<Tracked>, region: Rect, rel: Point)

  /** Resolve the tracked region owning a screen point. A window-bound hit
      refreshes the whole registry first, and the relative position is taken
      against the refreshed rectangle. */
  function Locate(ts: seq<Tracked>, os: OsView, x: real, y: real): (l: Option<Located>)
    requires AllWellFormed(ts)
    ensures l.None? <==> forall j :: 0 <= j < |ts| ==>
              !Contains(ts[j].region, x, y) || (ts[j].id.Some? && ts[j].id != os.topmost)
    ensures l.Some? ==>
              var i := l.value.index;
              i < |ts| && Contains(ts[i].region, x, y) && (ts[i].id.None? || ts[i].id == os.topmost) &&
              (forall j :: 0 <= j < i ==> !Contains(ts[j].region, x, y) || (ts[j].id.Some? && ts[j].id != os.topmost)) &&
              |l.value.tracked| == |ts| &&
              l.value.tracked == (if ts[i].id.Some? then Refresh(ts, os.windows) else ts) &&
              l.value.region == l.value.tracked[i].region &&
              l.value.rel == Point(x - l.value.region.left as real, y - l.value.region.top as real) &&
              l.value.slot <= i && l.value.tracked[l.value.slot] == l.value.tracked[i] &&
              (forall j :: 0 <= j < l.value.slot ==> l.value.tracked[j] != l.value.tracked[i])
  {
    match FindRegion(ts, x, y, os.topmost)
    case None => None
    case Some(i) =>
      var ts' := if ts[i].id.Some? then Refresh(ts, os.windows) else ts;
      var same := (t: Tracked) => t == ts'[i];
      assert same(ts'[i]);
      var slot := FirstMatch(ts', same);
      var r := ts'[i].region;
      Some(Located(i, slot.value, ts', r, Point(x - r.left as real, y - r.top as real)))
  }

  /** The reported window number is the accepting entry's own position
      whenever the refreshed registry holds no two equal entries. */
  lemma SlotIsPosition(ts: seq<Tracked>, os: OsView, x: real, y: real)
    requires AllWellFormed(ts)
    ensures match Locate(ts, os, x, y)
            case None => true
            case Some(l) =>
              (forall j, k :: 0 <= j < k < |l.tracked| ==> l.tracked[j] != l.tracked[k]) ==> l.slot == l.index
  {
  }

  /** When the owning window did not move, the relative position lies inside
      the region: `0 <= rel < size` on both axes. */
  lemma LocatedInside(ts: seq<Tracked>, os: OsView, x: real, y: real)
    requires AllWellFormed(ts)
    ensures match Locate(ts, os, x, y)
            case None => true
            case Some(l) =>
              l.region == ts[l.index].region ==>
                0.0 <= l.rel.x < l.region.width as real && 0.0 <= l.rel.y < l.region.height as real
  {
  }

  // ---------------------------------------------------------------- handlers

  /** `index` in `Captured` is the position of the accepting entry. */
  datatype Outcome = Captured(pending: Pending, index: nat) | FilteredOut | Outside | GrabFailed | TooSmall | Guarded

  datatype Handled = Handled(state: State, outcome: Outcome)

  /** A mouse press at Cocoa `(x, y)`. */
  function HandleClick(st: State, os: OsView, now: real, x: real, y: real, button: string,
                       grabOk: bool, guarded: bool): (h: Handled)
    requires Valid(st)
    ensures Valid(h.state) && |h.state.tracked| == |st.tracked|
    ensures h.state.scroll == st.scroll && h.state.keys == st.keys && h.state.lastSweep == st.lastSweep
    ensures h.outcome.Captured? || h.outcome.Outside? || h.outcome.GrabFailed? || h.outcome.Guarded?
    ensures h.outcome.Outside? <==> FindRegion(st.tracked, x, CocoaToScreenY(os.gmaxY, y), os.topmost).None?
    ensures h.outcome.Outside? ==> h.state == st
    ensures h.outcome.Captured? <==> !h.outcome.Outside? && grabOk && !guarded
    ensures h.outcome.Captured? ==>
              var p := h.outcome.pending;
              h.state.pending == Some(p) && h.state.lastActivity == Some(now) &&
              var i := h.outcome.index;
              p.kind == Click(button) && i < |st.tracked| &&
              Contains(st.tracked[i].region, x, CocoaToScreenY(os.gmaxY, y)) &&
              (st.tracked[i].id.None? || st.tracked[i].id == os.topmost) &&
              1 <= p.mon <= i + 1 && h.state.tracked[p.mon - 1] == h.state.tracked[i] &&
              p.region == h.state.tracked[i].region &&
              p.capture == ScreenToCapture(os.gmaxY, p.region)
    ensures !h.outcome.Captured? ==> h.state.lastActivity == st.lastActivity && h.state.pending == st.pending
    // the lookup decides the registry, the relative position and the window number
    ensures match Locate(st.tracked, os, x, CocoaToScreenY(os.gmaxY, y))
            case None => h.state == st
            case Some(l) =>
              h.state.tracked == l.tracked &&
              (h.outcome.Captured? ==>
                 h.outcome.index == l.index && h.outcome.pending.rel == l.rel &&
                 h.outcome.pending.mon == l.slot + 1)
  {
    match Locate(st.tracked, os, x, CocoaToScreenY(os.gmaxY, y))
    case None => Handled(st, Outside)
    case Some(l) =>
      var st1 := st.(tracked := l.tracked);
      if !grabOk then Handled(st1, GrabFailed)
      else if guarded then Handled(st1, Guarded)
      else
        var p := Pending(Click(button), l.rel, l.slot + 1, l.region, ScreenToCapture(os.gmaxY, l.region));
        Handled(st1.(pending := Some(p), lastActivity := Some(now)), Captured(p, l.index))
  }

  /** A scroll at Cocoa `(x, y)` with delta `(dx, dy)`. The filter runs
      first, so its state advances even for a scroll outside every tracked
      region; the magnitude gate runs after the before-frame grab. */
  function HandleScroll(st: State, s: Settings, os: OsView, now: real, x: real, y: real, dx: real, dy: real,
                        grabOk: bool, guarded: bool): (h: Handled)
    requires Valid(st)
    ensures Valid(h.state) && |h.state.tracked| == |st.tracked|
    ensures h.state.scroll == ShouldLogScroll(s.scroll, st.scroll, now, Point(x, CocoaToScreenY(os.gmaxY, y))).next
    ensures h.state.keys == st.keys && h.state.lastSweep == st.lastSweep
    ensures h.outcome.FilteredOut? <==> !ShouldLogScroll(s.scroll, st.scroll, now, Point(x, CocoaToScreenY(os.gmaxY, y))).accept
    ensures h.outcome.FilteredOut? || h.outcome.Outside? ==> h.state.tracked == st.tracked
    ensures h.outcome.Captured? ==>
              var p := h.outcome.pending;
              SignificantScroll(dx, dy) && grabOk && !guarded &&
              h.state.pending == Some(p) && h.state.lastActivity == Some(now) &&
              var i := h.outcome.index;
              p.kind == Scroll(dx, dy) && i < |st.tracked| &&
              Contains(st.tracked[i].region, x, CocoaToScreenY(os.gmaxY, y)) &&
              (st.tracked[i].id.None? || st.tracked[i].id == os.topmost) &&
              1 <= p.mon <= i + 1 && h.state.tracked[p.mon - 1] == h.state.tracked[i] &&
              p.region == h.state.tracked[i].region &&
              p.capture == ScreenToCapture(os.gmaxY, p.region)
    ensures h.outcome.TooSmall? ==> !SignificantScroll(dx, dy)
    ensures !h.outcome.Captured? ==> h.state.lastActivity == st.lastActivity && h.state.pending == st.pending
    // each outcome in terms of the filter, the lookup, the grab, the magnitude and the guard
    ensures var f := ShouldLogScroll(s.scroll, st.scroll, now, Point(x, CocoaToScreenY(os.gmaxY, y)));
            var hit := FindRegion(st.tracked, x, CocoaToScreenY(os.gmaxY, y), os.topmost).Some?;
            (h.outcome.Outside? <==> f.accept && !hit) &&
            (h.outcome.GrabFailed? <==> f.accept && hit && !grabOk) &&
            (h.outcome.TooSmall? <==> f.accept && hit && grabOk && !SignificantScroll(dx, dy)) &&
            (h.outcome.Guarded? <==> f.accept && hit && grabOk && SignificantScroll(dx, dy) && guarded) &&
            (h.outcome.Captured? <==> f.accept && hit && grabOk && SignificantScroll(dx, dy) && !guarded)
    // after the filter, the lookup decides the registry, the relative position and the window number
    ensures ShouldLogScroll(s.scroll, st.scroll, now, Point(x, CocoaToScreenY(os.gmaxY, y))).accept ==>
              match Locate(st.tracked, os, x, CocoaToScreenY(os.gmaxY, y))
              case None => h.state.tracked == st.tracked
              case Some(l) =>
                h.state.tracked == l.tracked &&
                (h.outcome.Captured? ==>
                   h.outcome.index == l.index && h.outcome.pending.rel == l.rel &&
                   h.outcome.pending.mon == l.slot + 1)
  {
    var sy := CocoaToScreenY(os.gmaxY, y);
    var f := ShouldLogScroll(s.scroll, st.scroll, now, Point(x, sy));
    var st0 := st.(scroll := f.next);
    if !f.accept then Handled(st0, FilteredOut)
    else
      match Locate(st.tracked, os, x, sy)
      case None => Handled(st0, Outside)
      case Some(l) =>
        var st1 := st0.(tracked := l.tracked);
        if !grabOk then Handled(st1, GrabFailed)
        else if !SignificantScroll(dx, dy) then Handled(st1, TooSmall)
        else if guarded then Handled(st1, Guarded)
        else
          var p := Pending(Scroll(dx, dy), l.rel, l.slot + 1, l.region, ScreenToCapture(os.gmaxY, l.region));
          Handled(st1.(pending := Some(p), lastActivity := Some(now)), Captured(p, l.index))
  }

  datatype KeyOutcome = KeyOutside | KeyGrabFailed | KeyCaptured(step: KeyStep)

  datatype KeyHandled = KeyHandled(state: State, outcome: KeyOutcome)

  /** A keypress while the pointer is at Cocoa `(x, y)`; `stem` names the
      screenshot it saves. The keyboard handler has no guard check. */
  function HandleKey(st: State, s: Settings, os: OsView, now: real, x: real, y: real, stem: string,
                     grabOk: bool): (h: KeyHandled)
    requires Valid(st)
    ensures Valid(h.state) && |h.state.tracked| == |st.tracked|
    ensures h.state.scroll == st.scroll && h.state.pending == st.pending && h.state.lastSweep == st.lastSweep
    ensures h.outcome.KeyOutside? <==> FindRegion(st.tracked, x, CocoaToScreenY(os.gmaxY, y), os.topmost).None?
    ensures h.outcome.KeyOutside? ==> h.state == st
    ensures h.outcome.KeyCaptured? <==> !h.outcome.KeyOutside? && grabOk
    ensures h.outcome.KeyCaptured? ==>
              h.outcome.step == OnKeyPress(st.keys, now, s.keyTimeout, stem) &&
              h.state.keys == h.outcome.step.session && h.state.lastActivity == Some(now)
    ensures !h.outcome.KeyCaptured? ==> h.state.keys == st.keys && h.state.lastActivity == st.lastActivity
    // a hit refreshes the registry as the lookup does
    ensures match Locate(st.tracked, os, x, CocoaToScreenY(os.gmaxY, y))
            case None => true
            case Some(l) => h.state.tracked == l.tracked
  {
    match Locate(st.tracked, os, x, CocoaToScreenY(os.gmaxY, y))
    case None => KeyHandled(st, KeyOutside)
    case Some(l) =>
      var st1 := st.(tracked := l.tracked);
      if !grabOk then KeyHandled(st1, KeyGrabFailed)
      else
        KeyInvOnKeyPress(st.keys, now, s.keyTimeout, stem);
        var step := OnKeyPress(st.keys, now, s.keyTimeout, stem);
        KeyHandled(st1.(keys := step.session, lastActivity := Some(now)), KeyCaptured(step))
  }

  /** An emitted interaction: the event and the rectangle the "after" frame
      was grabbed from. */
  datatype Emission = Emission(kind: EventKind, rel: Point, mon: nat, afterCapture: Rect)

  datatype Flushed = Flushed(state: State, emitted: Option<Emission>)

  /** Consume the pending slot: unless a guarded application is visible,
      refresh the registry, grab the "after" frame from the same screen
      rectangle as the "before" frame, and emit the interaction. */
  function Flush(st: State, os: OsView, guarded: bool, grabOk: bool): (f: Flushed)
    requires Valid(st)
    ensures Valid(f.state)
    ensures f.state.pending.None?
    ensures f.state.scroll == st.scroll && f.state.keys == st.keys && f.state.lastActivity == st.lastActivity
    ensures f.state.lastSweep == st.lastSweep
    ensures f.emitted.Some? <==> st.pending.Some? && !guarded && grabOk
    ensures f.emitted.Some? ==>
              f.emitted.value.kind == st.pending.value.kind && f.emitted.value.rel == st.pending.value.rel &&
              f.emitted.value.mon == st.pending.value.mon &&
              f.emitted.value.afterCapture == ScreenToCapture(os.gmaxY, st.pending.value.region)
    ensures st.pending.None? || guarded ==> f.state.tracked == st.tracked
    ensures st.pending.Some? && !guarded ==> f.state.tracked == Refresh(st.tracked, os.windows)
  {
    match st.pending
    case None => Flushed(st, None)
    case Some(p) =>
      if guarded then Flushed(st.(pending := None), None)
      else
        var st1 := st.(pending := None, tracked := Refresh(st.tracked, os.windows));
        if !grabOk then Flushed(st1, None)
        else Flushed(st1, Some(Emission(p.kind, p.rel, p.mon, ScreenToCapture(os.gmaxY, p.region))))
  }

  /** A click on a tracked region, with a successful grab and no guard, is
      captured; when its flush is not guarded and its grab succeeds too, it
      emits that click at the position the handler measured, and the "after"
      frame comes from the same capture rectangle as the "before" frame
      whenever the display extent is unchanged. */
  lemma ClickThenFlush(st: State, os: OsView, now: real, x: real, y: real, button: string, os': OsView)
    requires Valid(st)
    requires FindRegion(st.tracked, x, CocoaToScreenY(os.gmaxY, y), os.topmost).Some?
    requires os'.gmaxY == os.gmaxY
    ensures var h := HandleClick(st, os, now, x, y, button, true, false);
            var f := Flush(h.state, os', false, true);
            h.outcome.Captured? &&
            f.emitted.Some? &&
            f.emitted.value.kind == Click(button) &&
            f.emitted.value.rel == h.outcome.pending.rel &&
            f.emitted.value.afterCapture == h.outcome.pending.capture
  {
  }

  /** The same for a scroll: one the filter accepts, on a tracked region,
      large enough, with a successful grab and no guard, is captured, and the
      flush emits it with its delta at the measured position, grabbing the
      "after" frame from the "before" frame's rectangle. */
  lemma ScrollThenFlush(st: State, s: Settings, os: OsView, now: real, x: real, y: real, dx: real, dy: real,
                        os': OsView)
    requires Valid(st)
    requires ShouldLogScroll(s.scroll, st.scroll, now, Point(x, CocoaToScreenY(os.gmaxY, y))).accept
    requires FindRegion(st.tracked, x, CocoaToScreenY(os.gmaxY, y), os.topmost).Some?
    requires SignificantScroll(dx, dy)
    requires os'.gmaxY == os.gmaxY
    ensures var h := HandleScroll(st, s, os, now, x, y, dx, dy, true, false);
            var f := Flush(h.state, os', false, true);
            h.outcome.Captured? &&
            f.emitted.Some? &&
            f.emitted.value.kind == Scroll(dx, dy) &&
            f.emitted.value.rel == h.outcome.pending.rel &&
            f.emitted.value.afterCapture == h.outcome.pending.capture
  {
  }

  // ---------------------------------------------------------------- main loop

  datatype Tick = Stopped(closing: Closing) | Continued(state: State, rename: Option<Rename>, sweep: bool)

  /** One iteration of the main loop at time `now`: stop on inactivity
      (finalizing the keyboard session), otherwise refresh the registry, run
      the sweep when due, and expire the keyboard session. */
  function Step(st: State, s: Settings, os: OsView, now: real): (t: Tick)
    requires Valid(st)
    ensures t.Stopped? <==> InactivityExpired(st.lastActivity, now, s.inactivityTimeout)
    ensures t.Stopped? ==> t.closing == Shutdown(st.keys) && t.closing.deleted == []
    ensures t.Continued? ==>
              Valid(t.state) &&
              t.state.tracked == Refresh(st.tracked, os.windows) &&
              t.state.scroll == st.scroll && t.state.pending == st.pending &&
              t.state.lastActivity == st.lastActivity &&
              (t.sweep <==> SweepDue(now, st.lastSweep)) &&
              t.state.lastSweep == (if t.sweep then now else st.lastSweep) &&
              t.state.keys == Expire(st.keys, now, s.keyTimeout).session &&
              t.rename == Expire(st.keys, now, s.keyTimeout).rename
  {
    if InactivityExpired(st.lastActivity, now, s.inactivityTimeout) then
      ShutdownDeletesNothing(st.keys);
      Stopped(Shutdown(st.keys))
    else
      var sweep := SweepDue(now, st.lastSweep);
      var e := Expire(st.keys, now, s.keyTimeout);
      KeyInvExpire(st.keys, now, s.keyTimeout);
      Continued(st.(tracked := Refresh(st.tracked, os.windows), keys := e.session,
                    lastSweep := if sweep then now else st.lastSweep),
                e.rename, sweep)
  }

  /** A loop iteration while no tracked window moved leaves the registry as
      it was. */
  lemma StepKeepsUnmovedRegions(st: State, s: Settings, os: OsView, now: real)
    requires Valid(st) && Unmoved(st.tracked, os.windows)
    requires Step(st, s, os, now).Continued?
    ensures Step(st, s, os, now).state.tracked == st.tracked
  {
    RefreshUnmovedIsIdentity(st.tracked, os.windows);
  }

  /** A keypress over a tracked region continuing a session is recorded;
      a loop iteration after the session's timeout (and before the
      inactivity stop) then renames exactly that keypress's screenshot to
      final and goes idle. */
  lemma KeyThenExpire(st: State, s: Settings, os: OsView, now: real, x: real, y: real, stem: string,
                      os': OsView, later: real)
    requires Valid(st)
    requires FindRegion(st.tracked, x, CocoaToScreenY(os.gmaxY, y), os.topmost).Some?
    requires !OpensKeySession(st.keys, now, s.keyTimeout)
    requires later - st.keys.start.value > s.keyTimeout
    requires !InactivityExpired(Some(now), later, s.inactivityTimeout)
    ensures var h := HandleKey(st, s, os, now, x, y, stem, true);
            var t := Step(h.state, s, os', later);
            h.outcome.KeyCaptured? &&
            t.Continued? && t.state.keys == Idle &&
            t.rename == Some(Rename(h.outcome.step.saved, Shot(stem, Final)))
  {
    var h := HandleKey(st, s, os, now, x, y, stem, true);
    assert |h.state.keys.shots| == 2;
  }

  // ---------------------------------------------------------------- scenarios

  /** A fixed region at (100, 100) of 800 x 600, the display extent 1200:
      a click at Cocoa (500, 700) is at screen (500, 500), inside the region,
      at (400, 400) relative to it. */
  lemma ClickScenario(now: real)
    ensures var st := Start([FromCoordinates(Rect(100, 100, 800, 600))], now);
            var h := HandleClick(st, OsView(1200.0, None, map[]), now, 500.0, 700.0, "left", true, false);
            h.outcome.Captured? && h.outcome.pending.rel == Point(400.0, 400.0) && h.outcome.pending.mon == 1
  {
    var st := Start([FromCoordinates(Rect(100, 100, 800, 600))], now);
    assert Contains(st.tracked[0].region, 500.0, 500.0);
  }

  /** A tracked window covered by another window at the click point does not
      capture the click. */
  lemma OccludedClickIgnored(w: WindowId, r: Rect, other: WindowId, now: real, x: real, y: real)
    requires w != other && w != 0
    ensures var st := Start([FromWindow(w, r)], now);
            HandleClick(st, OsView(0.0, Some(other), map[]), now, x, y, "left", true, false).outcome == Outside
  {
  }

  /** With a one-second inactivity timeout, 1.1 s without activity stops the
      recorder. */
  lemma InactivityScenario(st: State, t: real)
    requires Valid(st) && st.lastActivity == Some(t)
    ensures Step(st, DefaultSettings.(inactivityTimeout := 1.0), OsView(0.0, None, map[]), t + 1.1).Stopped?
  {
  }
}
