# Screen observer interaction capture, modelled in Dafny

This project models the bookkeeping core of the `Screen` observer of
`swe_prod_recorder`. The observer records before/after screenshots around
user interactions inside one or more tracked screen regions. The model
covers:

- the three coordinate systems (screen, Quartz/capture, Cocoa) and the
  truncating flips between them (`Geometry`);
- the tracked-region registry: how it is built from a selection, how
  window-bound entries follow their windows while keeping their selection
  size, and how the region owning a pointer position is found, including
  the check that a tracked window is the topmost one there (`Regions`);
- the scroll filter's state machine (session, debounce, minimum distance,
  maximum frequency) and the magnitude gate (`ScrollFilter`);
- keyboard burst batching: first and last screenshot kept, intermediate
  ones deleted, the last one renamed final when the session ends
  (`KeySession`);
- the inactivity stop and the periodic sweep of old screenshots
  (`Housekeeping`);
- where the position marker lands on a saved frame (`Marker`);
- the click, scroll and key handlers, the flush of the pending
  before/after pair and one main-loop tick as pure state transitions
  (`Recorder`).

Everything the source asks the operating system is a parameter:

- the largest display Y (`gmaxY`);
- the topmost non-system window at a point;
- the current window bounds as a map from window number to rectangle;
- whether a frame grab succeeded;
- whether a guarded application is visible;
- the directory listing with modification times.

Times are reals passed in by the caller.

Where the documentation and the code disagree, the model follows the code:

- Scroll sessions and keyboard sessions both expire measured from the
  session's *start*, with a strict `>`. The class docstring speaks of
  "seconds of inactivity" between events.
- The scroll filter uses the constructor defaults 0.5 s / 5.0 / 10 per
  second / 2.0 s. The class constants 0.8 / 8.0 / 8 / 3.0
  (`screen.py:384-388`) are never read.
- The scroll filter runs before the region lookup. A scroll outside every
  tracked region therefore still consumes filter state.
- The key handler has no guarded-application check.
- After a window-bound hit, the relative position and the capture rectangle
  use the refreshed region.
- The flush grabs the "after" frame from the region stored with the pending
  event, even though it refreshes the registry first.
- The reported window number is `list.index` of the hit entry plus one, so
  it is the first entry *equal* to it (`Recorder.Locate`'s `slot`).

## Model

| member | source | states |
|---|---|---|
| Geometry.Trunc | src/swe_prod_recorder/observers/screen.py:630 | `int(...)` of a float truncates toward zero: the result is at most the argument and within one of it for a non-negative argument, and at least it and within one for a negative one |
| Geometry.Flip | src/swe_prod_recorder/observers/screen.py:610-633 | the screen-to-capture conversion keeps left, width and height, and its top is `gmaxY - top - height` truncated toward zero: within one point, never above a non-negative value and never below a negative one |
| Geometry.FlipRoundTrip | src/swe_prod_recorder/observers/screen.py:358-361 | the documented conversions screen to Quartz and Quartz to screen are inverse for every rectangle when the display extent is a whole number |
| Geometry.FlipRoundTripWithinOne | src/swe_prod_recorder/observers/screen.py:358-361 | for any extent the round trip keeps left, width and height and moves the top by at most one point |
| Geometry.FlipRoundTripCanDrift | src/swe_prod_recorder/observers/screen.py:358-361 | with a fractional extent (0.5) the round trip does move a rectangle's top by one point |
| Geometry.Contains | src/swe_prod_recorder/observers/screen.py:683-688 | the point test is half-open on both axes: left and top edges inside, right and bottom edges outside |
| Geometry.CocoaToScreenY | src/swe_prod_recorder/observers/screen.py:1193-1194 | a pointer Y measured from the bottom becomes `gmaxY - y`, measured from the top |
| Geometry.DegenerateContainsNothing | src/swe_prod_recorder/observers/screen.py:683-688 | the half-open containment test accepts no point of a rectangle with a zero or negative side |
| Geometry.MonFor | src/swe_prod_recorder/observers/screen.py:600-607 | the one-based number of the first monitor containing the point, no earlier monitor containing it, and `None` exactly when no monitor contains it |
| Regions.FromSelection | src/swe_prod_recorder/observers/screen.py:515-540 | a selected rectangle is flipped to screen coordinates; a fullscreen selection loses its window id; the size is pinned exactly when the effective id is present and non-zero, and the pinned size is the selection's |
| Regions.Build | src/swe_prod_recorder/observers/screen.py:508-513 | the registry is no longer than either zipped list and holds no zero-sized region |
| Regions.BuildSound | src/swe_prod_recorder/observers/screen.py:508-540 | every registry entry is the conversion of one non-empty selected pair |
| Regions.BuildComplete | src/swe_prod_recorder/observers/screen.py:508-540 | every non-empty selected pair within the zip's length is in the registry |
| Regions.BuildAppend | src/swe_prod_recorder/observers/screen.py:508-540 | selection order is preserved: building a concatenation of selections gives the concatenation of the registries |
| Regions.BuildLength | src/swe_prod_recorder/observers/screen.py:508-513 | the registry holds exactly one entry per non-empty selected pair |
| Regions.BuildWellFormed | src/swe_prod_recorder/observers/screen.py:535-540 | when no selected id is zero, every window-bound entry has its size pinned, so the refresh can always read it |
| Regions.NullWindowIdIsNotWellFormed | src/swe_prod_recorder/observers/screen.py:535-540 | a non-fullscreen selection with window id zero would be kept window-bound without a pinned size |
| Regions.FromWindow | src/swe_prod_recorder/observers/screen.py:470-480 | tracking a window by name binds the entry to that window's id and pins its current bounds' size |
| Regions.FromCoordinates | src/swe_prod_recorder/observers/screen.py:483-491 | fixed target coordinates give an entry with no window id, never refreshed |
| Regions.Refresh | src/swe_prod_recorder/observers/screen.py:635-681 | ids and pinned sizes never change; fixed entries and entries whose window is gone are untouched; a found window's entry takes the window's position and keeps its pinned size |
| Regions.RefreshIdempotent | src/swe_prod_recorder/observers/screen.py:635-681 | refreshing twice against the same window positions equals refreshing once |
| Regions.RefreshUnmovedIsIdentity | src/swe_prod_recorder/observers/screen.py:635-681 | the refresh leaves the registry unchanged if and only if no tracked window moved or changed size |
| Regions.RefreshSettles | src/swe_prod_recorder/observers/screen.py:635-681 | after a refresh the registry is unmoved with respect to the same positions |
| Regions.FindRegion | src/swe_prod_recorder/observers/screen.py:739-763 | the result is the first entry containing the point whose window, if any, is topmost there; `None` exactly when no entry qualifies |
| Regions.OccludedNeverFound | src/swe_prod_recorder/observers/screen.py:748-758 | a window-bound entry whose window is not topmost at the point is never the answer |
| Regions.FirstRegisteredWins | src/swe_prod_recorder/observers/screen.py:745-763 | of two accepting overlapping entries, the later one is never chosen over the earlier |
| ScrollFilter.TooCloseIsDistanceBelow | src/swe_prod_recorder/observers/screen.py:817-823 | comparing squared distance with the squared threshold decides exactly `sqrt(d2) < minDistance` |
| ScrollFilter.ShouldLogScroll | src/swe_prod_recorder/observers/screen.py:789-837 | a new session accepts and resets; a debounced or too-close event is rejected with no state change; an event passing debounce and distance is always counted and is accepted exactly when the counted rate is within bounds, a frequency rejection changing nothing but the count; an acceptance records the time and position |
| ScrollFilter.SignificantScrollIsMagnitude | src/swe_prod_recorder/observers/screen.py:1367-1372 | the squared-magnitude gate keeps exactly the scrolls whose magnitude is at least one |
| ScrollFilter.DebounceSuppressesBurst | src/swe_prod_recorder/observers/screen.py:808-814 | every event of a session arriving within the debounce of the last accepted one is rejected and leaves the filter state unchanged, for any number of events |
| ScrollFilter.RateBoundedStep | src/swe_prod_recorder/observers/screen.py:825-837 | with a positive debounce, one event preserves the invariant that accepted events after a session's first are at most `maxFrequency` per second of session time |
| ScrollFilter.RateBoundedRun | src/swe_prod_recorder/observers/screen.py:789-837 | with a positive debounce, the rate invariant holds after any event stream |
| ScrollFilter.ZeroDebounceExceedsRate | src/swe_prod_recorder/observers/screen.py:826-837 | with a zero debounce, a second event at the session-start instant that moved far enough is accepted, breaking the rate invariant that holds for any positive debounce |
| KeySession.Record | src/swe_prod_recorder/observers/screen.py:1291-1321 | a press opening a session starts a fresh list with its first screenshot; a press inside one appends an intermediate screenshot and keeps the start |
| KeySession.Prune | src/swe_prod_recorder/observers/screen.py:839-856 | up to two screenshots nothing is deleted; above that the first and last are kept and exactly the middle is deleted |
| KeySession.PruneIsPartition | src/swe_prod_recorder/observers/screen.py:839-856 | pruning loses nothing: the kept and deleted screenshots together are exactly the original list |
| KeySession.PruneIdempotent | src/swe_prod_recorder/observers/screen.py:839-845 | pruning a pruned list deletes nothing |
| KeySession.OnKeyPress | src/swe_prod_recorder/observers/screen.py:1291-1325 | a press saves one screenshot tagged first or intermediate, which is always the session's last; a press opening a session starts a fresh list; inside a session the start and the first screenshot are kept, and the list grows by one or stays at most two |
| KeySession.OnKeyPressPrunes | src/swe_prod_recorder/observers/screen.py:1310-1325 | inside a session a keypress is exactly appending the screenshot and then pruning the list to its first and last |
| KeySession.KeyInvOnKeyPress | src/swe_prod_recorder/observers/screen.py:1291-1325 | a press keeps the session shape (no start and no screenshots, or a first screenshot and at most one intermediate) and deletes at most one file |
| KeySession.Finalized | src/swe_prod_recorder/observers/screen.py:1462 | renaming `_intermediate` to `_final` keeps the stem and changes only an intermediate tag |
| KeySession.Expire | src/swe_prod_recorder/observers/screen.py:1450-1474 | the loop closes a session exactly when it started more than the timeout ago and holds more than one screenshot, renaming the last one final and going idle; otherwise nothing changes |
| KeySession.KeyInvExpire | src/swe_prod_recorder/observers/screen.py:1450-1474 | the timeout check keeps the session shape |
| KeySession.ExpireRenamesIntermediate | src/swe_prod_recorder/observers/screen.py:1450-1474 | an expiring well-shaped session renames its second, intermediate screenshot and never its first |
| KeySession.Shutdown | src/swe_prod_recorder/observers/screen.py:1486-1498 | at shutdown a session with more than one screenshot gets its last renamed final and its list pruned |
| KeySession.ShutdownDeletesNothing | src/swe_prod_recorder/observers/screen.py:1486-1498 | for a well-shaped session the shutdown pruning deletes nothing |
| KeySession.BurstKeepsFirstAndLast | src/swe_prod_recorder/observers/screen.py:1291-1325 | a burst that opens a session and stays within the timeout of its first press ends with exactly its first and last screenshots, and deletes every one in between, in order |
| KeySession.BurstStep | src/swe_prod_recorder/observers/screen.py:1310-1325 | a press inside a running burst replaces the previous intermediate screenshot, which is deleted |
| Housekeeping.InactivityExpired | src/swe_prod_recorder/observers/screen.py:1415-1419 | the loop stops once `now - lastActivity >= timeout`, never before the first activity stamp |
| Housekeeping.SweepDue | src/swe_prod_recorder/observers/screen.py:1446 | a sweep is due when more than 300 seconds passed since the last one |
| Housekeeping.IsStale | src/swe_prod_recorder/observers/screen.py:866-873 | a listed file is swept when it is a `.jpg` whose modification time could be read and whose age is above 3600 seconds |
| Housekeeping.InactivityMonotone | src/swe_prod_recorder/observers/screen.py:1415-1429 | once the inactivity stop is due it stays due, and a fresh activity stamp puts it a full positive timeout away |
| Housekeeping.StaleNamesMembership | src/swe_prod_recorder/observers/screen.py:858-880 | a name is swept exactly when some listed `.jpg` with a readable time is older than an hour |
| Housekeeping.Sweep | src/swe_prod_recorder/observers/screen.py:858-886 | the sweep deletes exactly the stale names, in listing order, and never more names than are listed |
| Housekeeping.SweepScenario | src/swe_prod_recorder/observers/screen.py:866-874 | at 3700 s an image from time 0 is swept while one from 3000 s and a non-image file are kept |
| Marker.ClampPixel | src/swe_prod_recorder/observers/screen.py:931-932 | the clamped pixel is in `[0, size)` for a non-empty frame, unchanged when already there, `0` below the frame and `size - 1` beyond it |
| Marker.ClampIsNearest | src/swe_prod_recorder/observers/screen.py:931-932 | the clamped pixel is the frame pixel nearest to the unclamped one |
| Marker.Around | src/swe_prod_recorder/observers/screen.py:938-941 | a span around a pixel ends exactly `reach` away on each side where that stays inside the frame and at the frame's edge where it would not, and for a non-negative reach contains the pixel |
| Marker.Marks | src/swe_prod_recorder/observers/screen.py:934-961 | box half-size 30 points, crosshair half-length 15 points and line width 3 points (at least two pixels) at the average scale, all clipped to the frame; the box is drawn exactly when non-empty; at a non-negative scale box and crosshair pass through the pixel |
| Marker.Place | src/swe_prod_recorder/observers/screen.py:923-961 | the marked pixel lies in the frame, is exact when the scaled position does and on the nearest edge when it does not; box and crosshair are clipped to the frame; the box is drawn exactly when non-empty; at a positive scale the box surrounds the pixel and the crosshair passes through it; box half-size, crosshair half-length and line width are 30, 15 and 3 points at the average axis scale, the width at least two pixels |
| Recorder.Start | src/swe_prod_recorder/observers/screen.py:1403-1410 | the worker starts with no pending event, no scroll session, an idle keyboard session, and both the activity and the sweep clock set to the start time |
| Recorder.Locate | src/swe_prod_recorder/observers/screen.py:1196-1212 | the handlers' lookup finds the first accepting entry, refreshes the registry only for a window-bound hit, measures the relative position against the (refreshed) region, and reports the first equal entry's number |
| Recorder.SlotIsPosition | src/swe_prod_recorder/observers/screen.py:1212 | the reported window number is the accepting entry's own position whenever the registry holds no two equal entries |
| Recorder.LocatedInside | src/swe_prod_recorder/observers/screen.py:1209-1211 | when the owning region did not move, the relative position lies within the region's size |
| Recorder.HandleClick | src/swe_prod_recorder/observers/screen.py:1191-1242 | a click is captured exactly when some entry accepts the point, the grab succeeds and no guarded application is visible; a hit leaves the registry as the lookup refreshed it; a capture stamps activity and fills the pending slot with the position relative to the (refreshed) accepting region, the `list.index` window number, that region and its capture rectangle; a click outside changes nothing |
| Recorder.HandleScroll | src/swe_prod_recorder/observers/screen.py:1327-1394 | the filter's next state is always kept; each outcome is characterized: filtered out exactly when the filter rejects, outside exactly when it accepts but no entry does, and captured exactly when filter, lookup, grab, magnitude of at least one and guard all pass; a hit leaves the registry as the lookup refreshed it and a capture records the relative position and window number the lookup measured; otherwise activity and the pending slot are unchanged |
| Recorder.HandleKey | src/swe_prod_recorder/observers/screen.py:1245-1325 | a keypress is recorded exactly when some entry accepts the pointer position and the grab succeeds, and then follows the keyboard session step; a hit leaves the registry as the lookup refreshed it; scroll state and the pending slot are never touched |
| Recorder.Flush | src/swe_prod_recorder/observers/screen.py:1136-1188 | the pending slot is always emptied; an interaction is emitted exactly when one was pending, no guard is visible and the grab succeeds, with the pending event's kind, position and window number and its after frame taken from the pending event's own rectangle; the registry is refreshed unless the guard dropped the event; the scroll, keyboard, activity and sweep state never change |
| Recorder.ClickThenFlush | src/swe_prod_recorder/observers/screen.py:1136-1242 | a click on a tracked region with a successful grab and no guard is captured, and an unguarded flush whose grab succeeds then emits that click at the measured position, and its after frame uses the same capture rectangle as its before frame when the display extent is unchanged |
| Recorder.ScrollThenFlush | src/swe_prod_recorder/observers/screen.py:1327-1394 | a scroll the filter accepts, on a tracked region, of magnitude at least one, with a successful grab and no guard is captured, and an unguarded flush whose grab succeeds emits that scroll with its delta at the measured position, its after frame from the same capture rectangle as its before frame when the display extent is unchanged |
| Recorder.Step | src/swe_prod_recorder/observers/screen.py:1412-1474 | the loop stops exactly on inactivity, finalizing the keyboard session without deletions; otherwise it refreshes the registry, sweeps exactly when due and moves the sweep clock then, and applies the keyboard timeout |
| Recorder.StepKeepsUnmovedRegions | src/swe_prod_recorder/observers/screen.py:1433-1434 | a loop iteration while no tracked window moved leaves the registry as it was |
| Recorder.KeyThenExpire | src/swe_prod_recorder/observers/screen.py:1450-1474 | a keypress over a tracked region continuing a session is recorded, and then a loop iteration past the session timeout and before the inactivity stop renames exactly that keypress's screenshot to final and leaves the keyboard idle |
| Recorder.ClickScenario | src/swe_prod_recorder/observers/screen.py:1191-1212 | a click at Cocoa (500, 700) with extent 1200 on a fixed region at (100, 100) of 800 by 600 is captured at (400, 400) in window 1 |
| Recorder.OccludedClickIgnored | src/swe_prod_recorder/observers/screen.py:748-758 | a click over a tracked window covered by another window is not captured |
| Recorder.InactivityScenario | src/swe_prod_recorder/observers/screen.py:1415-1429 | with a one-second timeout, 1.1 s without activity stops the recorder |

## Left out

- Google Drive upload, the selection overlay and listener set-up are not modelled. They are I/O outside the bookkeeping.
- OS queries are inputs, not computations: `_get_global_bounds`, `_get_window_bounds_by_id`, `_get_window_by_name`, `_get_topmost_window_at_point`, `_is_app_visible` and the frame grab. Their answers enter as parameters.
- The topmost-window query is asked once per candidate entry in the source. The model takes one answer per point.
- Tracking a window by a name the window server does not know raises an error at construction. `Regions.FromWindow` takes the found window only.
- Concurrency is not modelled: asyncio tasks, locks, the thread pool and the listener threads. Keyboard pruning is a scheduled task in the source; the model applies it right after the press. A scroll's flush is awaited right after the handler and a click's flush runs as a task; both are the separate `Recorder.Flush`.
- Screenshot file names, the timestamp prefix and the update strings are not modelled. A screenshot is a stem plus a tag.
- JPEG encoding, drawing and the actual file writes are not modelled.
- Failures of `os.remove` and `os.rename` are not modelled. They are swallowed in the source and change no state the model keeps, except that a failed rename leaves the file with its intermediate name.
- The `_key_screenshots[-1] = final_path` assignment (`screen.py:1467`) is not modelled. The list is cleared right after it.
- The frame-rate throttle, garbage collection and high-DPI detection are not modelled. They only tune timing.
- Floats are modelled as reals. `screen_width * 0.95` and the scroll distance square root are exact in the model.
- Regions.Refresh: requires every window-bound entry to have a pinned size, which is more than the source needs. The source reads the size only after it has found the entry's window on screen (`observers/screen.py:655-657`) and fails there when the size is absent. An entry with id `0` has no pinned size, but window `0` is never found, so the source skips it rather than failing. The selection code never keeps id `0` (`observers/window/window_osx.py:250`), so no registry the recorder builds is excluded.
- Marker.Place: requires non-zero region sides. The source divides by them and fails on zero. That never happens at a call site. A window-bound entry's frame uses its refreshed region, which need not contain the pointer but has the pinned size; pinned sizes come from selected regions, which are never zero-sized (`Regions.Build`), or from a window's own positive bounds. A fixed entry's frame uses its own region, which owns the event only by containing the pointer, and a region with a zero side contains no point (`Geometry.DegenerateContainsNothing`); this covers fixed target coordinates, which may be zero-sized.
- ScrollFilter.RateBoundedRun: requires a positive debounce. The command line accepts `--scroll-debounce 0` (`cli.py:23`). With a zero debounce, an event at the very instant the session started skips the frequency check, because the session duration is zero (`screen.py:828`). Every such event that moves far enough is accepted, so the rate bound is not promised then; `ScrollFilter.ZeroDebounceExceedsRate` exhibits one.
