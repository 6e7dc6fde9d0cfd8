/** Where the position marker lands on a saved frame: the pointer position
    in logical points is scaled to physical pixels, clamped into the frame,
    and a box and a crosshair are placed around it, both clipped to the
    frame. Only the arithmetic is modelled; drawing and encoding are not. */
module Marker {
  import opened Common
  import opened Geometry

  /** A rectangle outline by its corners, in frame pixels. */
  datatype Box = Box(x1: int, y1: int, x2: int, y2: int)

  /** A horizontal or vertical crosshair stroke from `lo` to `hi`. */
  datatype Stroke = Stroke(lo: int, hi: int)

  datatype Placement = Placement(px: int, py: int, box: Box, drawBox: bool,
                                 horizontal: Stroke, vertical: Stroke, lineWidth: int)

  /** `max(0, min(size - 1, v))`. */
  function ClampPixel(v: int, size: int): (c: int)
    ensures c >= 0
    ensures size >= 1 ==> c < size
    ensures 0 <= v < size ==> c == v
    // an out-of-range pixel goes to the nearest edge
    ensures v < 0 ==> c == 0
    ensures size >= 1 && v >= size ==> c == size - 1
  {
    Max(0, Min(size - 1, v))
  }

  /** The clamp picks the pixel of the frame nearest to `v`: no pixel in
      `[0, size)` is closer. */
  lemma ClampIsNearest(v: int, size: int, w: int)
    requires 0 <= w < size
    ensures var c := ClampPixel(v, size); 0 <= c < size && Abs(c - v) <= Abs(w - v)
  {
  }

  /** Physical pixels per logical point along one axis. */
  function Scale(pixels: int, points: int): (s: real)
    requires points != 0
    ensures pixels >= 1 && points >= 1 ==> s > 0.0
  {
    pixels as real / points as real
  }

  /** A logical coordinate in physical pixels, before clamping: `int(v * scale)`. */
  function ToPixel(v: real, scale: real): int {
    Trunc(v * scale)
  }

  /** The average of the two axis scales, which sizes the box, the
      crosshair and the line width. */
  function AvgScale(frameW: int, frameH: int, region: Rect): (a: real)
    requires region.width != 0 && region.height != 0
    ensures frameW >= 1 && frameH >= 1 && region.width > 0 && region.height > 0 ==> a > 0.0
  {
    (Scale(frameW, region.width) + Scale(frameH, region.height)) / 2.0
  }

  /** The frame pixel marking logical coordinate `v` on an axis of `size`
      pixels: scaled, then clamped into the frame. */
  function PixelFor(v: real, scale: real, size: int): (c: int)
    ensures c >= 0
    ensures size >= 1 ==> c < size
    ensures 0 <= ToPixel(v, scale) < size ==> c == ToPixel(v, scale)
    ensures ToPixel(v, scale) < 0 ==> c == 0
    ensures size >= 1 && ToPixel(v, scale) >= size ==> c == size - 1
  {
    ClampPixel(ToPixel(v, scale), size)
  }

  /** A length of `points` logical points at the average scale, in pixels. */
  function Reach(points: real, avgScale: real): (n: int)
    requires points >= 0.0
    ensures avgScale >= 0.0 ==> n >= 0
  {
    Trunc(points * avgScale)
  }

  /** The span `[p - reach, p + reach]` clipped to `[0, size]`. */
  function Around(p: int, reach: int, size: int): (st: Stroke)
    ensures 0 <= st.lo && st.hi <= size
    ensures reach >= 0 && 0 <= p <= size ==> st.lo <= p <= st.hi
    // an end that does not cross the frame's edge is exactly `reach` away
    ensures p - reach >= 0 ==> st.lo == p - reach
    ensures p + reach <= size ==> st.hi == p + reach
    // an end that would cross it stops at the frame's edge
    ensures p - reach < 0 ==> st.lo == 0
    ensures p + reach > size ==> st.hi == size
  {
    Stroke(Max(0, p - reach), Min(size, p + reach))
  }

  /** The box, crosshair and line width around the pixel `(px, py)` of a
      `frameW` x `frameH` frame, at average scale `avg`: box half-size 30
      points, crosshair half-length 15 points, line width 3 points but never
      below two pixels. */
  function Marks(px: int, py: int, avg: real, frameW: int, frameH: int): (m: Placement)
    ensures m.px == px && m.py == py
    ensures m.box == Box(Around(px, Reach(30.0, avg), frameW).lo, Around(py, Reach(30.0, avg), frameH).lo,
                         Around(px, Reach(30.0, avg), frameW).hi, Around(py, Reach(30.0, avg), frameH).hi)
    ensures m.horizontal == Around(px, Reach(15.0, avg), frameW)
    ensures m.vertical == Around(py, Reach(15.0, avg), frameH)
    ensures m.drawBox <==> m.box.x1 < m.box.x2 && m.box.y1 < m.box.y2
    ensures m.lineWidth == Max(2, Reach(3.0, avg))
    // everything is clipped to the frame
    ensures 0 <= m.box.x1 && m.box.x2 <= frameW && 0 <= m.box.y1 && m.box.y2 <= frameH
    ensures 0 <= m.horizontal.lo && m.horizontal.hi <= frameW
    ensures 0 <= m.vertical.lo && m.vertical.hi <= frameH
    // at a non-negative scale box and crosshair pass through a pixel of the frame
    ensures avg >= 0.0 && 0 <= px <= frameW && 0 <= py <= frameH ==>
              m.box.x1 <= px <= m.box.x2 && m.box.y1 <= py <= m.box.y2 &&
              m.horizontal.lo <= px <= m.horizontal.hi && m.vertical.lo <= py <= m.vertical.hi
  {
    var boxX := Around(px, Reach(30.0, avg), frameW);
    var boxY := Around(py, Reach(30.0, avg), frameH);
    var box := Box(boxX.lo, boxY.lo, boxX.hi, boxY.hi);
    Placement(px, py, box, box.x1 < box.x2 && box.y1 < box.y2,
              Around(px, Reach(15.0, avg), frameW), Around(py, Reach(15.0, avg), frameH),
              Max(2, Reach(3.0, avg)))
  }

  /** The marker for a frame of `frameW` x `frameH` pixels showing `region`
      (logical points), with the pointer at `(x, y)` relative to the region.
      The region's sides divide the frame's, so they must not be zero. */
  function Place(frameW: int, frameH: int, region: Rect, x: real, y: real): (m: Placement)
    requires region.width != 0 && region.height != 0
    // the pixel lies inside any non-empty frame
    ensures 0 <= m.px && 0 <= m.py
    ensures frameW >= 1 ==> m.px < frameW
    ensures frameH >= 1 ==> m.py < frameH
    // each axis scales the pointer by frame over region size: a pointer that
    // scales into the frame is marked exactly where it is, one that scales
    // outside it on the nearest edge (the contract of `PixelFor`)
    ensures m.px == PixelFor(x, Scale(frameW, region.width), frameW)
    ensures m.py == PixelFor(y, Scale(frameH, region.height), frameH)
    ensures 0 <= ToPixel(x, Scale(frameW, region.width)) < frameW ==>
              m.px == ToPixel(x, Scale(frameW, region.width))
    ensures 0 <= ToPixel(y, Scale(frameH, region.height)) < frameH ==>
              m.py == ToPixel(y, Scale(frameH, region.height))
    ensures ToPixel(x, Scale(frameW, region.width)) < 0 ==> m.px == 0
    ensures frameW >= 1 && ToPixel(x, Scale(frameW, region.width)) >= frameW ==> m.px == frameW - 1
    ensures ToPixel(y, Scale(frameH, region.height)) < 0 ==> m.py == 0
    ensures frameH >= 1 && ToPixel(y, Scale(frameH, region.height)) >= frameH ==> m.py == frameH - 1
    // the box is clipped to the frame and drawn only when it is non-empty
    ensures 0 <= m.box.x1 && m.box.x2 <= frameW && 0 <= m.box.y1 && m.box.y2 <= frameH
    ensures m.drawBox <==> m.box.x1 < m.box.x2 && m.box.y1 < m.box.y2
    // the crosshair strokes are clipped to the frame too
    ensures 0 <= m.horizontal.lo && m.horizontal.hi <= frameW
    ensures 0 <= m.vertical.lo && m.vertical.hi <= frameH
    // with a non-empty frame shown at a positive scale the box surrounds the
    // pixel and the crosshair passes through it
    ensures frameW >= 1 && frameH >= 1 && region.width > 0 && region.height > 0 ==>
              m.box.x1 <= m.px <= m.box.x2 && m.box.y1 <= m.py <= m.box.y2 &&
              m.horizontal.lo <= m.px <= m.horizontal.hi && m.vertical.lo <= m.py <= m.vertical.hi
    // the sizes are fixed numbers of points at the average axis scale
    ensures m == Marks(m.px, m.py, AvgScale(frameW, frameH, region), frameW, frameH)
    ensures m.lineWidth >= 2
  {
    Marks(PixelFor(x, Scale(frameW, region.width), frameW), PixelFor(y, Scale(frameH, region.height), frameH),
          AvgScale(frameW, frameH, region), frameW, frameH)
  }
}
