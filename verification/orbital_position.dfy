/** The orbital layout: categories revolve on a fixed circle in one
    direction, children revolve on the circle through their designer
    offset in the other direction and faster, and the centre stays put. */
module OrbitalLayout {
  import opened Wrappers
  import opened Geometry
  import opened Store

  /** Orbit radius of the category ring, before scaling. */
  const OrbitRadius: real := 200.0
  /** Radians per unit of animation time for the category ring. */
  const CategoryRate: real := 0.00005
  /** Radians per unit of animation time for the children (subtracted). */
  const ChildRate: real := 0.000085

  /** Base angle of a category: `node.angle || 0`. */
  function CategoryBaseAngle(node: SkillNode): (a: real)
    ensures a == node.angle.GetOr(0.0)
  {
    OrZero(node.angle)
  }

  /** Angle of a category at time `time`: base angle plus `time * 0.00005`. */
  function CategoryAngle(node: SkillNode, time: real): (a: real)
    ensures time == 0.0 ==> a == node.angle.GetOr(0.0)
    ensures a - CategoryBaseAngle(node) == time * CategoryRate
  {
    CategoryBaseAngle(node) + time * CategoryRate
  }

  /** Angle of a child at time `time`: the direction of its designer
      offset minus `time * 0.000085`; `node.angle` plays no part. */
  function ChildAngle(t: Trig, node: SkillNode, time: real): (a: real)
    ensures time == 0.0 ==> a == t.atan2(node.position.y, node.position.x)
    ensures t.atan2(node.position.y, node.position.x) - a == time * ChildRate
  {
    t.atan2(node.position.y, node.position.x) - time * ChildRate
  }

  /** Orbit radius of a child: the length of its designer offset, scaled. */
  function ChildRadius(t: Trig, offset: Point, scale: real): real
  {
    t.sqrt(offset.x * offset.x + offset.y * offset.y) * scale
  }

  /** `getOrbitalPosition(node, centerX, centerY, scale, animationTime)`:
      categories on the `200 * scale` circle at `CategoryAngle`, children on
      the circle through their scaled offset at `ChildAngle`. */
  function OrbitalPosition(t: Trig, node: SkillNode, cx: real, cy: real, scale: real, time: real): (r: Point)
    ensures node.level == 0 ==> r == Point(cx, cy)
    ensures node.level == 1 ==>
      r == Polar(t, cx, cy, node.angle.GetOr(0.0) + time * CategoryRate, OrbitRadius * scale)
    ensures node.level == 2 ==>
      r == Polar(t, cx, cy, t.atan2(node.position.y, node.position.x) - time * ChildRate,
                 ChildRadius(t, node.position, scale))
    ensures node.level !in {0, 1, 2} ==> r == Offset(cx, cy, node.position, scale)
  {
    if node.level == 0 then Point(cx, cy)
    else if node.level == 1 then Polar(t, cx, cy, CategoryAngle(node, time), OrbitRadius * scale)
    else if node.level == 2 then Polar(t, cx, cy, ChildAngle(t, node, time), ChildRadius(t, node.position, scale))
    else Offset(cx, cy, node.position, scale)
  }

  /** The centre node and nodes outside levels 1 and 2 never move: their
      position is the same at every animation time. */
  lemma StillNodesIgnoreTime(t: Trig, node: SkillNode, cx: real, cy: real, scale: real, t1: real, t2: real)
    requires node.level !in {1, 2}
    ensures OrbitalPosition(t, node, cx, cy, scale, t1) == OrbitalPosition(t, node, cx, cy, scale, t2)
  {
  }

  /** A category's orbit does not depend on its designer offset. */
  lemma CategoryIgnoresOffset(t: Trig, node: SkillNode, p: Point, cx: real, cy: real, scale: real, time: real)
    requires node.level == 1
    ensures OrbitalPosition(t, node.(position := p), cx, cy, scale, time) == OrbitalPosition(t, node, cx, cy, scale, time)
  {
  }

  /** A child's orbit does not depend on its stored `angle`. */
  lemma ChildIgnoresAngle(t: Trig, node: SkillNode, a: Option<real>, cx: real, cy: real, scale: real, time: real)
    requires node.level == 2
    ensures OrbitalPosition(t, node.(angle := a), cx, cy, scale, time) == OrbitalPosition(t, node, cx, cy, scale, time)
  {
    assert node.(angle := a).position == node.position;
  }

  /** Categories turn with increasing angle and children with decreasing
      angle; over the same interval the children turn further. */
  lemma OppositeDirections(t: Trig, node: SkillNode, t1: real, t2: real)
    requires t1 < t2
    ensures CategoryAngle(node, t1) < CategoryAngle(node, t2)
    ensures ChildAngle(t, node, t1) > ChildAngle(t, node, t2)
    ensures ChildAngle(t, node, t1) - ChildAngle(t, node, t2) > CategoryAngle(node, t2) - CategoryAngle(node, t1)
  {
  }

  /** Under the Pythagorean identity a category stays `200 * scale` from
      the centre at every animation time. */
  lemma CategoryOnCircle(t: Trig, node: SkillNode, cx: real, cy: real, scale: real, time: real)
    requires Pythagorean(t) && node.level == 1
    ensures Dist2(OrbitalPosition(t, node, cx, cy, scale, time), Point(cx, cy)) == (OrbitRadius * scale) * (OrbitRadius * scale)
  {
    PolarOnCircle(t, cx, cy, CategoryAngle(node, time), OrbitRadius * scale);
  }

  /** The scaled offset lies at squared distance `|position|² * scale²`
      from the centre. */
  lemma OffsetDistance(node: SkillNode, cx: real, cy: real, scale: real)
    ensures Dist2(Offset(cx, cy, node.position, scale), Point(cx, cy))
            == (node.position.x * node.position.x + node.position.y * node.position.y) * (scale * scale)
  {
    var x, y := node.position.x, node.position.y;
    calc {
      Dist2(Offset(cx, cy, node.position, scale), Point(cx, cy));
      (x * scale) * (x * scale) + (y * scale) * (y * scale);
      (x * x + y * y) * (scale * scale);
    }
  }

  /** With an exact square root the child radius squares to
      `|position|² * scale²`. */
  lemma ChildRadiusSquared(t: Trig, node: SkillNode, scale: real)
    requires ExactSqrt(t)
    ensures ChildRadius(t, node.position, scale) * ChildRadius(t, node.position, scale)
            == (node.position.x * node.position.x + node.position.y * node.position.y) * (scale * scale)
  {
    var n := node.position.x * node.position.x + node.position.y * node.position.y;
    var root := t.sqrt(n);
    assert root * root == n;
    calc {
      ChildRadius(t, node.position, scale) * ChildRadius(t, node.position, scale);
      (root * scale) * (root * scale);
      (root * root) * (scale * scale);
    }
  }

  /** With the Pythagorean identity and an exact square root, a child stays
      on the circle through its scaled designer offset at every time. */
  lemma ChildOnCircle(t: Trig, node: SkillNode, cx: real, cy: real, scale: real, time: real)
    requires Pythagorean(t) && ExactSqrt(t) && node.level == 2
    ensures Dist2(OrbitalPosition(t, node, cx, cy, scale, time), Point(cx, cy))
            == Dist2(Offset(cx, cy, node.position, scale), Point(cx, cy))
  {
    PolarOnCircle(t, cx, cy, ChildAngle(t, node, time), ChildRadius(t, node.position, scale));
    ChildRadiusSquared(t, node, scale);
    OffsetDistance(node, cx, cy, scale);
  }
}
