/** Coordinate systems of the screen observer and the conversions between them.

    - screen coordinates: origin at the top-left, used for every stored region;
    - Quartz / capture coordinates: origin at the bottom-left, used by window
      bounds queries and by the frame grabber;
    - Cocoa coordinates: origin at the bottom-left, used by pointer events.

    `gmaxY` is the largest Y extent over all displays. Rectangles hold
    integers (the source casts every bound with `int(...)`); points are real. */
module Geometry {
  import opened Common

  datatype Rect = Rect(left: int, top: int, width: int, height: int)

  datatype Point = Point(x: real, y: real)

  /** Python's `int(...)` on a float: truncation toward zero. */
  function Trunc(r: real): (n: int)
    ensures r >= 0.0 ==> n as real <= r < n as real + 1.0
    ensures r < 0.0 ==> n as real - 1.0 < r <= n as real
  {
    if r >= 0.0 then r.Floor else -((-r).Floor)
  }

  /** True when `g` has no fractional part. */
  predicate Integral(g: real) {
    g == g.Floor as real
  }

  /** The vertical flip between a top-left and a bottom-left origin:
      `top' = int(gmaxY - top - height)`. The same formula maps screen to
      capture coordinates and Quartz window bounds back to screen ones. */
  function Flip(gmaxY: real, r: Rect): (f: Rect)
    ensures f.left == r.left && f.width == r.width && f.height == r.height
    ensures -1.0 < f.top as real - (gmaxY - r.top as real - r.height as real) < 1.0
    // rounded toward zero, as `int(...)` does, not down
    ensures gmaxY - r.top as real - r.height as real >= 0.0 ==>
              f.top as real <= gmaxY - r.top as real - r.height as real
    ensures gmaxY - r.top as real - r.height as real < 0.0 ==>
              gmaxY - r.top as real - r.height as real <= f.top as real
  {
    r.(top := Trunc(gmaxY - r.top as real - r.height as real))
  }

  /** Screen rectangle to the rectangle the frame grabber expects. */
  function ScreenToCapture(gmaxY: real, r: Rect): Rect {
    Flip(gmaxY, r)
  }

  /** Quartz window bounds (or a selection rectangle) to screen coordinates. */
  function QuartzToScreen(gmaxY: real, r: Rect): Rect {
    Flip(gmaxY, r)
  }

  /** A Cocoa pointer Y (origin bottom-left) to a screen Y (origin top-left). */
  function CocoaToScreenY(gmaxY: real, y: real): real {
    gmaxY - y
  }

  /** Converting a screen rectangle to capture coordinates and flipping the
      result back gives the original rectangle when the display extent is a
      whole number of points. */
  lemma FlipRoundTrip(gmaxY: real, r: Rect)
    requires Integral(gmaxY)
    ensures QuartzToScreen(gmaxY, ScreenToCapture(gmaxY, r)) == r
  {
    var g := gmaxY.Floor;
    var c := ScreenToCapture(gmaxY, r);
    TruncOfWhole(g - r.top - r.height);
    assert c.top == g - r.top - r.height;
    TruncOfWhole(g - c.top - c.height);
  }

  /** Truncating a whole number changes nothing. */
  lemma TruncOfWhole(n: int)
    ensures Trunc(n as real) == n
  {
  }

  /** With a fractional display extent the two truncations can drift, but
      by at most one point. */
  lemma FlipRoundTripWithinOne(gmaxY: real, r: Rect)
    ensures var b := QuartzToScreen(gmaxY, ScreenToCapture(gmaxY, r));
            b.left == r.left && b.width == r.width && b.height == r.height &&
            r.top - 1 <= b.top <= r.top + 1
  {
    var c := ScreenToCapture(gmaxY, r);
    var b := QuartzToScreen(gmaxY, c);
    var e := c.top as real - (gmaxY - r.top as real - r.height as real);
    assert -1.0 < e < 1.0;
    var back := gmaxY - c.top as real - c.height as real;
    assert back == r.top as real - e;
    assert -1.0 < b.top as real - back < 1.0;
  }

  /** The drift is real: with a fractional extent the round trip can move a
      rectangle by one point. */
  lemma FlipRoundTripCanDrift()
    ensures QuartzToScreen(0.5, ScreenToCapture(0.5, Rect(0, 1, 0, 0))).top == 0
  {
    assert Trunc(0.5 - 1.0) == 0;
    assert Trunc(0.5 - 0.0) == 0;
  }

  /** Half-open containment: `left <= x < left + width` and
      `top <= y < top + height`. */
  predicate Contains(r: Rect, x: real, y: real) {
    r.left as real <= x < (r.left + r.width) as real &&
    r.top as real <= y < (r.top + r.height) as real
  }

  /** A rectangle with a zero or negative side contains no point. */
  lemma DegenerateContainsNothing(r: Rect, x: real, y: real)
    requires r.width <= 0 || r.height <= 0
    ensures !Contains(r, x, y)
  {
  }

  /** One-based number of the first monitor containing the point, or `None`. */
  function MonFor(x: real, y: real, mons: seq<Rect>): (k: Option<nat>)
    ensures k.Some? ==> 1 <= k.value <= |mons| && Contains(mons[k.value - 1], x, y)
    ensures k.Some? ==> forall j :: 0 <= j < k.value - 1 ==> !Contains(mons[j], x, y)
    ensures k.None? <==> forall j :: 0 <= j < |mons| ==> !Contains(mons[j], x, y)
  {
    match FirstMatch(mons, (m: Rect) => Contains(m, x, y))
    case None => None
    case Some(i) => Some(i + 1)
  }
}
