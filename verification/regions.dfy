/** The registry of tracked regions: built once from the selection result,
    refreshed from the window server before captures, and searched for the
    region that owns a pointer position. */
module Regions {
  import opened Common
  import opened Geometry

  /** A window number as reported by the window server; `0` is the null
      window and is falsy in the source. */
  type WindowId = int

  datatype Size = Size(width: int, height: int)

  /** One tracked region. `id` is `None` for a fixed, hand-drawn region;
      `originalSize` pins the selection-time dimensions of a window-bound one. */
  datatype Tracked = Tracked(id: Option<WindowId>, region: Rect, originalSize: Option<Size>)

  /** A window-bound entry carries the size it must keep. The refresh step
      unpacks `originalSize` for an entry whose window it finds on screen and
      fails when it is absent; the model asks it of every window-bound entry,
      which every entry the selection keeps satisfies. */
  predicate WellFormed(t: Tracked) {
    t.id.Some? ==> t.originalSize.Some?
  }

  predicate AllWellFormed(ts: seq<Tracked>) {
    forall i :: 0 <= i < |ts| ==> WellFormed(ts[i])
  }

  // ---------------------------------------------------------------- building

  /** Zero-sized selections come from clicks without a drag. */
  predicate IsEmptySelection(r: Rect) {
    r.width == 0 || r.height == 0
  }

  /** At least 95% of the primary monitor in both dimensions. */
  predicate IsFullscreen(r: Rect, screen: Size) {
    r.width as real >= screen.width as real * 0.95 &&
    r.height as real >= screen.height as real * 0.95
  }

  /** One selected rectangle (Quartz coordinates) with its optional window id,
      turned into a tracked entry in screen coordinates. */
  function FromSelection(gmaxY: real, screen: Size, r: Rect, id: Option<WindowId>): (t: Tracked)
    ensures t.region == QuartzToScreen(gmaxY, r)
    ensures IsFullscreen(r, screen) ==> t.id.None? && t.originalSize.None?
    ensures !IsFullscreen(r, screen) ==> t.id == id
    ensures t.originalSize.Some? <==> t.id.Some? && t.id.value != 0
    ensures t.originalSize.Some? ==> t.originalSize.value == Size(r.width, r.height)
  {
    var effective := if IsFullscreen(r, screen) then None else id;
    var original := if effective.Some? && effective.value != 0 then Some(Size(r.width, r.height)) else None;
    Tracked(effective, QuartzToScreen(gmaxY, r), original)
  }

  /** The registry built from the selection: regions and ids are zipped
      (the shorter list decides), zero-sized regions are skipped. */
  function Build(gmaxY: real, screen: Size, regions: seq<Rect>, ids: seq<Option<WindowId>>): (ts: seq<Tracked>)
    ensures |ts| <= |regions| && |ts| <= |ids|
    ensures forall k :: 0 <= k < |ts| ==> !IsEmptySelection(ts[k].region)
  {
    if |regions| == 0 || |ids| == 0 then []
    else
      var rest := Build(gmaxY, screen, regions[1..], ids[1..]);
      if IsEmptySelection(regions[0]) then rest
      else [FromSelection(gmaxY, screen, regions[0], ids[0])] + rest
  }

  /** Every built entry comes from one non-empty selected pair. */
  lemma {:induction false} BuildSound(gmaxY: real, screen: Size, regions: seq<Rect>, ids: seq<Option<WindowId>>, k: nat)
    returns (i: nat)
    requires k < |Build(gmaxY, screen, regions, ids)|
    ensures i < |regions| && i < |ids| && !IsEmptySelection(regions[i])
    ensures Build(gmaxY, screen, regions, ids)[k] == FromSelection(gmaxY, screen, regions[i], ids[i])
    decreases |regions|
  {
    var rest := Build(gmaxY, screen, regions[1..], ids[1..]);
    if IsEmptySelection(regions[0]) {
      var j := BuildSound(gmaxY, screen, regions[1..], ids[1..], k);
      i := j + 1;
    } else if k == 0 {
      i := 0;
    } else {
      var j := BuildSound(gmaxY, screen, regions[1..], ids[1..], k - 1);
      i := j + 1;
    }
  }

  /** Nothing selected with a positive extent is lost. */
  lemma {:induction false} BuildComplete(gmaxY: real, screen: Size, regions: seq<Rect>, ids: seq<Option<WindowId>>, i: nat)
    requires i < |regions| && i < |ids| && !IsEmptySelection(regions[i])
    ensures FromSelection(gmaxY, screen, regions[i], ids[i]) in Build(gmaxY, screen, regions, ids)
    decreases i
  {
    if i > 0 {
      BuildComplete(gmaxY, screen, regions[1..], ids[1..], i - 1);
    }
  }

  /** Number of non-empty selections among the zipped pairs. */
  function CountKept(regions: seq<Rect>, ids: seq<Option<WindowId>>): nat {
    if |regions| == 0 || |ids| == 0 then 0
    else (if IsEmptySelection(regions[0]) then 0 else 1) + CountKept(regions[1..], ids[1..])
  }

  /** Selection order is kept: building a concatenation of selections is the
      concatenation of the built registries. */
  lemma {:induction false} BuildAppend(gmaxY: real, screen: Size, r1: seq<Rect>, i1: seq<Option<WindowId>>,
                                       r2: seq<Rect>, i2: seq<Option<WindowId>>)
    requires |r1| == |i1|
    ensures Build(gmaxY, screen, r1 + r2, i1 + i2) == Build(gmaxY, screen, r1, i1) + Build(gmaxY, screen, r2, i2)
    ensures CountKept(r1 + r2, i1 + i2) == CountKept(r1, i1) + CountKept(r2, i2)
    decreases |r1|
  {
    if |r1| == 0 {
      assert r1 + r2 == r2 && i1 + i2 == i2;
    } else {
      assert (r1 + r2)[1..] == r1[1..] + r2;
      assert (i1 + i2)[1..] == i1[1..] + i2;
      BuildAppend(gmaxY, screen, r1[1..], i1[1..], r2, i2);
    }
  }

  /** The registry holds exactly one entry per non-empty selection. */
  lemma {:induction false} BuildLength(gmaxY: real, screen: Size, regions: seq<Rect>, ids: seq<Option<WindowId>>)
    ensures |Build(gmaxY, screen, regions, ids)| == CountKept(regions, ids)
    decreases |regions|
  {
    if |regions| > 0 && |ids| > 0 {
      BuildLength(gmaxY, screen, regions[1..], ids[1..]);
    }
  }

  /** When no selected window has the null id, every built entry can be
      refreshed: a window-bound entry always has its size pinned. */
  lemma BuildWellFormed(gmaxY: real, screen: Size, regions: seq<Rect>, ids: seq<Option<WindowId>>)
    requires forall i :: 0 <= i < |ids| ==> ids[i] != Some(0)
    ensures AllWellFormed(Build(gmaxY, screen, regions, ids))
  {
    var ts := Build(gmaxY, screen, regions, ids);
    forall k | 0 <= k < |ts| ensures WellFormed(ts[k]) {
      var i := BuildSound(gmaxY, screen, regions, ids, k);
    }
  }

  /** A window id of zero is kept as a window-bound entry but, being falsy,
      gets no pinned size; such an entry cannot be refreshed. */
  lemma NullWindowIdIsNotWellFormed(gmaxY: real, screen: Size, r: Rect)
    requires !IsFullscreen(r, screen)
    ensures !WellFormed(FromSelection(gmaxY, screen, r, Some(0)))
  {
  }

  /** The registry for a window tracked by name: its current bounds, pinned. */
  function FromWindow(id: WindowId, bounds: Rect): (t: Tracked)
    ensures WellFormed(t) && t.id == Some(id) && t.region == bounds
    ensures t.originalSize == Some(Size(bounds.width, bounds.height))
  {
    Tracked(Some(id), bounds, Some(Size(bounds.width, bounds.height)))
  }

  /** The registry for fixed target coordinates: never refreshed. */
  function FromCoordinates(r: Rect): (t: Tracked)
    ensures WellFormed(t) && t.id.None? && t.region == r
  {
    Tracked(None, r, None)
  }

  // ---------------------------------------------------------------- refresh

  /** New bounds for one entry: window-bound entries whose window is still
      on screen move to the window's position but keep their pinned size. */
  function RefreshOne(t: Tracked, windows: map<WindowId, Rect>): Tracked
    requires WellFormed(t)
  {
    if t.id.None? || t.id.value !in windows then t
    else
      var w := windows[t.id.value];
      t.(region := Rect(w.left, w.top, t.originalSize.value.width, t.originalSize.value.height))
  }

  /** Refresh every window-bound entry from the window server's current
      bounds (`windows`, already in screen coordinates). */
  function Refresh(ts: seq<Tracked>, windows: map<WindowId, Rect>): (rs: seq<Tracked>)
    requires AllWellFormed(ts)
    ensures |rs| == |ts|
    ensures forall i :: 0 <= i < |ts| ==>
              rs[i].id == ts[i].id && rs[i].originalSize == ts[i].originalSize
    ensures forall i :: 0 <= i < |ts| && (ts[i].id.None? || ts[i].id.value !in windows) ==>
              rs[i] == ts[i]
    ensures forall i :: 0 <= i < |ts| && ts[i].id.Some? && ts[i].id.value in windows ==>
              rs[i].region.left == windows[ts[i].id.value].left &&
              rs[i].region.top == windows[ts[i].id.value].top &&
              Size(rs[i].region.width, rs[i].region.height) == ts[i].originalSize.value
    ensures AllWellFormed(rs)
  {
    seq(|ts|, i requires 0 <= i < |ts| => RefreshOne(ts[i], windows))
  }

  /** Refreshing twice against the same window positions is refreshing once. */
  lemma RefreshIdempotent(ts: seq<Tracked>, windows: map<WindowId, Rect>)
    requires AllWellFormed(ts)
    ensures Refresh(Refresh(ts, windows), windows) == Refresh(ts, windows)
  {
  }

  /** Every window-bound entry whose window is still where the registry
      thinks it is, and still has its pinned size. */
  predicate Unmoved(ts: seq<Tracked>, windows: map<WindowId, Rect>)
    requires AllWellFormed(ts)
  {
    forall i :: 0 <= i < |ts| && ts[i].id.Some? && ts[i].id.value in windows ==>
      windows[ts[i].id.value].left == ts[i].region.left &&
      windows[ts[i].id.value].top == ts[i].region.top &&
      ts[i].originalSize.value == Size(ts[i].region.width, ts[i].region.height)
  }

  /** No window moved: the refresh leaves the registry exactly as it was,
      and a registry is unmoved exactly when refreshing it changes nothing. */
  lemma RefreshUnmovedIsIdentity(ts: seq<Tracked>, windows: map<WindowId, Rect>)
    requires AllWellFormed(ts)
    ensures Unmoved(ts, windows) <==> Refresh(ts, windows) == ts
  {
    var rs := Refresh(ts, windows);
    if rs == ts {
      forall i | 0 <= i < |ts| && ts[i].id.Some? && ts[i].id.value in windows
        ensures windows[ts[i].id.value].left == ts[i].region.left &&
                windows[ts[i].id.value].top == ts[i].region.top &&
                ts[i].originalSize.value == Size(ts[i].region.width, ts[i].region.height)
      {
        assert rs[i] == ts[i];
      }
    }
  }

  /** After a refresh the registry is unmoved with respect to the same
      window positions. */
  lemma RefreshSettles(ts: seq<Tracked>, windows: map<WindowId, Rect>)
    requires AllWellFormed(ts)
    ensures Unmoved(Refresh(ts, windows), windows)
  {
    RefreshIdempotent(ts, windows);
    RefreshUnmovedIsIdentity(Refresh(ts, windows), windows);
  }

  // ---------------------------------------------------------------- lookup

  /** An entry accepts a point when the point lies in its rectangle and, for a
      window-bound entry, its window is the topmost one at that point. */
  predicate Accepts(t: Tracked, x: real, y: real, topmost: Option<WindowId>) {
    Contains(t.region, x, y) && (t.id.None? || t.id == topmost)
  }

  /** Index of the first tracked entry that owns the point; `topmost` is the
      window server's answer for the topmost non-system window there. */
  function FindRegion(ts: seq<Tracked>, x: real, y: real, topmost: Option<WindowId>): (r: Option<nat>)
    ensures r.Some? ==> r.value < |ts| && Contains(ts[r.value].region, x, y)
    ensures r.Some? && ts[r.value].id.Some? ==> topmost == ts[r.value].id
    ensures r.Some? ==> forall j :: 0 <= j < r.value ==>
              !Contains(ts[j].region, x, y) || (ts[j].id.Some? && ts[j].id != topmost)
    ensures r.None? <==> forall j :: 0 <= j < |ts| ==>
              !Contains(ts[j].region, x, y) || (ts[j].id.Some? && ts[j].id != topmost)
  {
    FirstMatch(ts, (t: Tracked) => Accepts(t, x, y, topmost))
  }

  /** An entry hidden under another window never captures the interaction,
      even when it is the only one containing the point. */
  lemma OccludedNeverFound(ts: seq<Tracked>, x: real, y: real, topmost: Option<WindowId>, i: nat)
    requires i < |ts| && ts[i].id.Some? && ts[i].id != topmost
    ensures FindRegion(ts, x, y, topmost) != Some(i)
  {
  }

  /** Overlapping fixed regions: the one registered first wins. */
  lemma FirstRegisteredWins(ts: seq<Tracked>, x: real, y: real, topmost: Option<WindowId>, i: nat, j: nat)
    requires i < j < |ts| && Accepts(ts[i], x, y, topmost) && Accepts(ts[j], x, y, topmost)
    ensures FindRegion(ts, x, y, topmost).Some? && FindRegion(ts, x, y, topmost).value <= i
  {
  }
}
