/**
 * Pointer samples: client pixels are normalised against the canvas's
 * bounding rectangle (`getMousePosition`), mapped to the normalised device
 * coordinates the ray caster takes (`getIntersects`), and a press/release pair
 * counts as a click when the two samples are closer than 0.001.
 */
module Pointer {
  import opened Vectors

  /** `getBoundingClientRect()` of the renderer's canvas. */
  datatype Rect = Rect(left: real, top: real, width: real, height: real)

  predicate InUnitSquare(p: Vec2)
  {
    0.0 <= p.x <= 1.0 && 0.0 <= p.y <= 1.0
  }

  predicate InNdcSquare(q: Vec2)
  {
    -1.0 <= q.x <= 1.0 && -1.0 <= q.y <= 1.0
  }

  predicate InRect(rect: Rect, x: real, y: real)
  {
    rect.left <= x <= rect.left + rect.width && rect.top <= y <= rect.top + rect.height
  }

  /**
   * `getMousePosition`: the client point as a fraction of the canvas.  The
   * sample scaled back by the canvas size is the client point again, and a
   * point on the canvas lands in the unit square.
   */
  function MousePosition(rect: Rect, x: real, y: real): (p: Vec2)
    requires rect.width > 0.0 && rect.height > 0.0
    ensures rect.left + p.x * rect.width == x && rect.top + p.y * rect.height == y
    ensures InRect(rect, x, y) <==> InUnitSquare(p)
  {
    var p := Vec2((x - rect.left) / rect.width, (y - rect.top) / rect.height);
    FractionInUnit(x - rect.left, rect.width);
    FractionInUnit(y - rect.top, rect.height);
    p
  }

  /** A quotient by a positive whole lies in [0, 1] exactly when the part lies in [0, whole]. */
  lemma FractionInUnit(part: real, whole: real)
    requires whole > 0.0
    ensures (part / whole) * whole == part
    ensures 0.0 <= part <= whole <==> 0.0 <= part / whole <= 1.0
  {
    var f := part / whole;
    assert f * whole == part;
    if 0.0 <= f <= 1.0 {
      assert 0.0 <= f * whole <= 1.0 * whole;
    }
  }

  /**
   * `mouse.set(point.x * 2 - 1, -(point.y * 2) + 1)`: the y axis flips, and
   * a sample lies in the unit square exactly when its image lies in [-1, 1]².
   */
  function ToNdc(p: Vec2): (q: Vec2)
    ensures InUnitSquare(p) <==> InNdcSquare(q)
    ensures p.y < 0.5 <==> q.y > 0.0
  {
    Vec2(p.x * 2.0 - 1.0, -(p.y * 2.0) + 1.0)
  }

  /** The inverse of `ToNdc`; it sends [-1, 1]² back onto the unit square. */
  function FromNdc(q: Vec2): (p: Vec2)
    ensures InNdcSquare(q) <==> InUnitSquare(p)
  {
    Vec2((q.x + 1.0) / 2.0, (1.0 - q.y) / 2.0)
  }

  lemma NdcRoundTrip(p: Vec2, q: Vec2)
    ensures FromNdc(ToNdc(p)) == p
    ensures ToNdc(FromNdc(q)) == q
  {
  }

  /** Every point of [-1, 1]² is the image of exactly one sample, and that sample is in the unit square. */
  lemma NdcOnto(q: Vec2, p: Vec2)
    requires InNdcSquare(q)
    ensures InUnitSquare(FromNdc(q)) && ToNdc(FromNdc(q)) == q
    ensures ToNdc(p) == q ==> p == FromNdc(q)
  {
  }

  /** The square of `distanceTo`; it vanishes on a sample and itself. */
  function SquaredDistance(a: Vec2, b: Vec2): (d: real)
    ensures d >= 0.0
    ensures a == b ==> d == 0.0
  {
    var dx := a.x - b.x;
    var dy := a.y - b.y;
    NonNegativeSquare(dx);
    NonNegativeSquare(dy);
    dx * dx + dy * dy
  }

  lemma NonNegativeSquare(v: real)
    ensures v * v >= 0.0
  {
    if v < 0.0 {
      assert v * v == (-v) * (-v);
    }
  }

  /** The click threshold of `click`, 1e-3, squared. */
  const ClickEpsilonSquared: real := 0.000001

  /** `onDownPosition.distanceTo(onUpPosition) < 1e-3`, compared on squares. */
  function IsClick(down: Vec2, up: Vec2): (b: bool)
    ensures down == up ==> b
    ensures b ==> -0.001 < down.x - up.x < 0.001 && -0.001 < down.y - up.y < 0.001
  {
    var dx := down.x - up.x;
    var dy := down.y - up.y;
    NonNegativeSquare(dx);
    NonNegativeSquare(dy);
    assert SquaredDistance(down, up) == dx * dx + dy * dy;
    if SquaredDistance(down, up) < ClickEpsilonSquared then
      SmallSquare(dx);
      SmallSquare(dy);
      true
    else
      false
  }

  /** A number whose square is below 1e-6 lies strictly between -1e-3 and 1e-3. */
  lemma SmallSquare(v: real)
    requires v * v < ClickEpsilonSquared
    ensures -0.001 < v < 0.001
  {
    if v >= 0.001 {
      SquareAtLeast(v);
    } else if v <= -0.001 {
      SquareAtLeast(-v);
    }
  }

  lemma SquareAtLeast(w: real)
    requires w >= 0.001
    ensures w * w >= ClickEpsilonSquared
  {
    assert w * w >= 0.001 * w;
  }

  /**
   * Comparing squares decides the same as comparing the distance itself:
   * for the non-negative root `d` of the squared distance (what
   * `distanceTo` returns), `d < 0.001` exactly when `IsClick` holds.
   */
  lemma ClickThresholdIsDistance(down: Vec2, up: Vec2, d: real)
    requires d >= 0.0 && d * d == SquaredDistance(down, up)
    ensures IsClick(down, up) <==> d < 0.001
  {
    if d < 0.001 {
      assert d * d <= d * 0.001;
      assert d * 0.001 < 0.001 * 0.001;
    } else {
      assert d * d >= d * 0.001;
      assert d * 0.001 >= 0.001 * 0.001;
    }
  }

}
