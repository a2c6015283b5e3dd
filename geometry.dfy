/** Ratio-space geometry of the annotation engine: converting a pointer
    position to coordinates relative to the displayed image, and the
    rectangle arithmetic of the draw, move and resize gestures. All values
    are exact reals; the image's displayed bounding box is an input. */
module Geometry {

  import opened Common

  /** A pointer position relative to the displayed image: 0 is the left (top)
      edge, 1 the right (bottom) edge. */
  datatype RatioPoint = RatioPoint(xRatio: real, yRatio: real)

  /** A rectangle in ratio space: top-left corner, width and height. */
  datatype Rect = Rect(x: real, y: real, w: real, h: real)

  /** How a region is drawn; the hit test ignores it. */
  datatype Shape = RectShape | CircleShape

  /** An annotated hazard region: its ratio-space box, its shape, the clause
      it cites, a description and the score it is worth. An empty id stands
      for a missing one. */
  datatype Region = Region(id: string, rect: Rect, shape: Shape, clauseId: string,
                           description: string, scoreWeight: int)

  /** The ids of a region list, in list order. */
  function RegionIds(rs: seq<Region>): seq<string>
  {
    seq(|rs|, k requires 0 <= k < |rs| => rs[k].id)
  }

  /** The displayed image's bounding box in client pixels. */
  datatype ImageBox = ImageBox(left: real, top: real, width: real, height: real)

  /** A box of an image that is on screen has a positive size. */
  type DisplayedBox = b: ImageBox | b.width > 0.0 && b.height > 0.0
    witness ImageBox(0.0, 0.0, 1.0, 1.0)

  /** A pointer event: client position, mouse button and modifier keys. */
  datatype PointerEvent = PointerEvent(clientX: real, clientY: real, button: int,
                                       shiftKey: bool, ctrlKey: bool, metaKey: bool)

  /** Shift, Ctrl or Meta held: the gesture keeps a square pixel footprint. */
  predicate AspectLocked(e: PointerEvent)
  {
    e.shiftKey || e.ctrlKey || e.metaKey
  }

  function Min(a: real, b: real): real { if a <= b then a else b }
  function Max(a: real, b: real): real { if a >= b then a else b }
  function Abs(a: real): real { if a >= 0.0 then a else -a }

  /** `Math.max(lo, Math.min(v, hi))`. */
  function Clamp(v: real, lo: real, hi: real): (r: real)
    requires lo <= hi
    ensures lo <= r <= hi
    ensures lo <= v <= hi ==> r == v
    ensures v <= lo ==> r == lo
    ensures hi <= v ==> r == hi
  {
    Max(lo, Min(v, hi))
  }

  lemma DivBounds(a: real, d: real)
    requires d > 0.0 && 0.0 <= a <= d
    ensures 0.0 <= a / d <= 1.0
    ensures a / d * d == a
    ensures a == 0.0 ==> a / d == 0.0
    ensures a == d ==> a / d == 1.0
  {
    assert a / d * d == a;
  }

  /** The pointer position in ratio space: the pixel offset into the image is
      clamped to the image first, so the result never leaves [0,1] x [0,1]. */
  function RatioPos(e: PointerEvent, b: DisplayedBox): (r: RatioPoint)
    ensures 0.0 <= r.xRatio <= 1.0 && 0.0 <= r.yRatio <= 1.0
    ensures 0.0 <= e.clientX - b.left <= b.width ==> r.xRatio * b.width == e.clientX - b.left
    ensures 0.0 <= e.clientY - b.top <= b.height ==> r.yRatio * b.height == e.clientY - b.top
    ensures e.clientX - b.left <= 0.0 ==> r.xRatio == 0.0
    ensures e.clientX - b.left >= b.width ==> r.xRatio == 1.0
    ensures e.clientY - b.top <= 0.0 ==> r.yRatio == 0.0
    ensures e.clientY - b.top >= b.height ==> r.yRatio == 1.0
  {
    var xClick := Clamp(e.clientX - b.left, 0.0, b.width);
    var yClick := Clamp(e.clientY - b.top, 0.0, b.height);
    DivBounds(xClick, b.width);
    DivBounds(yClick, b.height);
    RatioPoint(xClick / b.width, yClick / b.height)
  }

  /** The position as the engine reads it: none while no image is mounted. */
  function RatioPosOf(e: PointerEvent, image: Option<DisplayedBox>): (r: Option<RatioPoint>)
    ensures r.Some? <==> image.Some?
    ensures r.Some? ==> 0.0 <= r.value.xRatio <= 1.0 && 0.0 <= r.value.yRatio <= 1.0
  {
    match image
    case None => None
    case Some(b) => Some(RatioPos(e, b))
  }

  /** Aspect lock: the larger of the two pixel spans becomes the common edge,
      converted back to ratio space on each axis. */
  function AspectLock(w: real, h: real, b: DisplayedBox): (r: (real, real))
    ensures r.0 * b.width == r.1 * b.height
    ensures r.0 * b.width == Max(w * b.width, h * b.height)
    ensures r.0 >= w && r.1 >= h
  {
    var size := Max(w * b.width, h * b.height);
    assert size / b.width * b.width == size;
    assert size / b.height * b.height == size;
    assert size / b.width >= w by {
      assert size >= w * b.width;
    }
    assert size / b.height >= h by {
      assert size >= h * b.height;
    }
    (size / b.width, size / b.height)
  }

  /** The footprint of `m` on the displayed image is square. */
  predicate SquareOn(m: Rect, b: DisplayedBox)
  {
    m.w * b.width == m.h * b.height
  }

  /** The pixel edge of `m` is the larger of the pixel spans of `w` and `h`. */
  predicate LockedSpan(m: Rect, w: real, h: real, b: DisplayedBox)
  {
    m.w * b.width == Max(w * b.width, h * b.height)
  }

  /** The rectangle shown while drawing from `start` to `cur`. Without aspect
      lock it is the bounding box of the two points. With aspect lock the
      pixel footprint is square and `start` stays the fixed corner: the box
      runs forward from it on an axis dragged forward and ends at it on an
      axis dragged backward. The origin is not clamped. */
  function DrawCandidate(start: RatioPoint, cur: RatioPoint, locked: bool, b: DisplayedBox): (r: Rect)
    ensures !locked ==> r.x == Min(start.xRatio, cur.xRatio) && r.x + r.w == Max(start.xRatio, cur.xRatio)
    ensures !locked ==> r.y == Min(start.yRatio, cur.yRatio) && r.y + r.h == Max(start.yRatio, cur.yRatio)
    ensures locked ==> SquareOn(r, b)
    ensures locked ==> LockedSpan(r, Abs(cur.xRatio - start.xRatio), Abs(cur.yRatio - start.yRatio), b)
    ensures locked && cur.xRatio < start.xRatio ==> r.x + r.w == start.xRatio
    ensures locked && cur.xRatio >= start.xRatio ==> r.x == start.xRatio
    ensures locked && cur.yRatio < start.yRatio ==> r.y + r.h == start.yRatio
    ensures locked && cur.yRatio >= start.yRatio ==> r.y == start.yRatio
    ensures r.w >= Abs(cur.xRatio - start.xRatio) && r.h >= Abs(cur.yRatio - start.yRatio)
  {
    var x := Min(start.xRatio, cur.xRatio);
    var y := Min(start.yRatio, cur.yRatio);
    var w := Abs(cur.xRatio - start.xRatio);
    var h := Abs(cur.yRatio - start.yRatio);
    if !locked then Rect(x, y, w, h)
    else
      var side := AspectLock(w, h, b);
      Rect(if cur.xRatio < start.xRatio then start.xRatio - side.0 else start.xRatio,
           if cur.yRatio < start.yRatio then start.yRatio - side.1 else start.yRatio,
           side.0, side.1)
  }

  /** Translating a region by (dx, dy) and clamping the origin so that
      `x` lies in [0, 1-w] (and `y` in [0, 1-h]); the size never changes. */
  function MovedRect(r: Rect, dx: real, dy: real): (m: Rect)
    ensures m.w == r.w && m.h == r.h
    ensures 0.0 <= m.x && 0.0 <= m.y
    ensures r.w <= 1.0 ==> m.x + m.w <= 1.0
    ensures r.h <= 1.0 ==> m.y + m.h <= 1.0
    ensures 0.0 <= r.x + dx <= 1.0 - r.w ==> m.x == r.x + dx
    ensures 0.0 <= r.y + dy <= 1.0 - r.h ==> m.y == r.y + dy
    ensures r.w <= 1.0 ==> m.x == Clamp(r.x + dx, 0.0, 1.0 - r.w)
    ensures r.h <= 1.0 ==> m.y == Clamp(r.y + dy, 0.0, 1.0 - r.h)
    ensures r.w > 1.0 ==> m.x == 0.0
    ensures r.h > 1.0 ==> m.y == 0.0
  {
    Rect(Max(0.0, Min(1.0 - r.w, r.x + dx)), Max(0.0, Min(1.0 - r.h, r.y + dy)), r.w, r.h)
  }

  /** The rectangle at (x, y) whose size is `AspectLock(w, h, b)`. */
  function LockedAt(x: real, y: real, w: real, h: real, b: DisplayedBox): (m: Rect)
    ensures m.x == x && m.y == y && m.w >= w && m.h >= h
    ensures SquareOn(m, b) && LockedSpan(m, w, h, b)
  {
    var side := AspectLock(w, h, b);
    Rect(x, y, side.0, side.1)
  }

  /** Resizing from the fixed top-left corner: the size grows by (dx, dy)
      but never below 0.01; under aspect lock the footprint is then made
      square. Nothing bounds the result from above. */
  function ResizedRect(r: Rect, dx: real, dy: real, locked: bool, b: DisplayedBox): (m: Rect)
    ensures m.x == r.x && m.y == r.y
    ensures m.w >= 0.01 && m.h >= 0.01
    ensures m.w >= r.w + dx && m.h >= r.h + dy
    ensures !locked ==> m.w == Max(0.01, r.w + dx) && m.h == Max(0.01, r.h + dy)
    ensures locked ==> SquareOn(m, b)
    ensures locked ==> LockedSpan(m, Max(0.01, r.w + dx), Max(0.01, r.h + dy), b)
  {
    var w := Max(0.01, r.w + dx);
    var h := Max(0.01, r.h + dy);
    if !locked then Rect(r.x, r.y, w, h)
    else
      LockedAt(r.x, r.y, w, h, b)
  }

  /** The closed bounding box [x, x+w] x [y, y+h] contains the point. */
  predicate InBox(r: Rect, u: RatioPoint)
  {
    r.x <= u.xRatio <= r.x + r.w && r.y <= u.yRatio <= r.y + r.h
  }

  /** An aspect-locked draw dragged up and left can put the origin outside
      the image: from (0.1, 0.5) to (0.09, 0.0) on a 100 x 100 box. */
  lemma LockedDrawMayLeaveImage()
    ensures DrawCandidate(RatioPoint(0.1, 0.5), RatioPoint(0.09, 0.0), true,
                          ImageBox(0.0, 0.0, 100.0, 100.0)).x < 0.0
  {
  }

  /** A resize is not bounded by the image's right edge. */
  lemma ResizeMayLeaveImage()
    ensures var m := ResizedRect(Rect(0.5, 0.5, 0.4, 0.4), 0.3, 0.0, false, ImageBox(0.0, 0.0, 100.0, 100.0));
            m.x + m.w > 1.0
  {
  }
}
