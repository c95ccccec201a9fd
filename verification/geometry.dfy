/** Screen geometry shared by the layout functions: points, the canvas
    centre offset rule, and the trigonometric functions, which the model
    takes as parameters instead of defining. */
module Geometry {

  /** A point or an offset `{ x, y }` in canvas pixels. */
  datatype Point = Point(x: real, y: real)

  /** JavaScript's `Math.PI`, written as its shortest decimal form. */
  const Pi: real := 3.141592653589793

  /** `Math.cos`, `Math.sin`, `Math.atan2` and `Math.sqrt`, left
      uninterpreted: every property proved below holds for any choice of
      them, unless it states a hypothesis such as `Pythagorean`. */
  datatype Trig = Trig(
    cos: real -> real,
    sin: real -> real,
    atan2: (real, real) -> real,
    sqrt: real -> real)

  /** The identity `cos² + sin² = 1`, as a hypothesis about a `Trig`. */
  ghost predicate Pythagorean(t: Trig) {
    forall a: real {:trigger t.cos(a)} :: t.cos(a) * t.cos(a) + t.sin(a) * t.sin(a) == 1.0
  }

  /** `sqrt` returns the non-negative square root of a non-negative value. */
  ghost predicate ExactSqrt(t: Trig) {
    forall v: real {:trigger t.sqrt(v)} :: v >= 0.0 ==> t.sqrt(v) >= 0.0 && t.sqrt(v) * t.sqrt(v) == v
  }

  /** `center + offset * scale`, the placement every layout falls back to. */
  function Offset(cx: real, cy: real, p: Point, scale: real): (r: Point)
    ensures scale == 0.0 ==> r == Point(cx, cy)
    ensures p == Point(0.0, 0.0) ==> r == Point(cx, cy)
    ensures r.x - cx == p.x * scale && r.y - cy == p.y * scale
  {
    Point(cx + p.x * scale, cy + p.y * scale)
  }

  /** The point at `angle` on the circle of `radius` around `(cx, cy)`. */
  function Polar(t: Trig, cx: real, cy: real, angle: real, radius: real): Point
  {
    Point(cx + t.cos(angle) * radius, cy + t.sin(angle) * radius)
  }

  /** Squared distance between two points. */
  function Dist2(a: Point, b: Point): real
  {
    (a.x - b.x) * (a.x - b.x) + (a.y - b.y) * (a.y - b.y)
  }

  /** Under the Pythagorean identity, a polar point lies at `radius` from
      its centre. */
  lemma PolarOnCircle(t: Trig, cx: real, cy: real, angle: real, radius: real)
    requires Pythagorean(t)
    ensures Dist2(Polar(t, cx, cy, angle, radius), Point(cx, cy)) == radius * radius
  {
    var c, s := t.cos(angle), t.sin(angle);
    assert c * c + s * s == 1.0;
    calc {
      Dist2(Polar(t, cx, cy, angle, radius), Point(cx, cy));
      (c * radius) * (c * radius) + (s * radius) * (s * radius);
      (c * c + s * s) * (radius * radius);
    }
  }
}
