/** The static layout: the centre node in the middle, the four categories
    at fixed compass points, two enumerated groups of children on arcs
    around their category, and every other node at its designer offset. */
module StaticLayout {
  import opened Wrappers
  import opened Geometry
  import opened Store
  import opened Seqs

  /** Distance of a category slot from the centre, before scaling. */
  const ParentRadius: real := 250.0
  /** Distance of an arc child from its category slot, before scaling. */
  const ChildRadius: real := 180.0

  /** The children laid out on the half-circle arc around "projects". */
  const ProjectArcIds: seq<string> :=
    ["project_syncer", "project_f1", "project_lstm", "project_ss", "project_recipelens"]

  /** The children laid out on the quarter-circle arc around "experience". */
  const ExperienceArcIds: seq<string> :=
    ["experience_vertige", "experience_owh", "skill_education"]

  /** Which rule of the static layout places a node. */
  datatype Placement =
    | Centre
    | Top | Right | Bottom | Left
    | ProjectArc(index: nat)
    | ExperienceArc(index: nat)
    | Fallback

  /** The rule chosen for `node`, checked in `getStaticPosition`'s order: level 0,
      then level 1 by id, then level 2 by parent group and list membership,
      and the designer offset when nothing matched. */
  function PlacementOf(node: SkillNode): (p: Placement)
    ensures p == Centre <==> node.level == 0
    ensures p.ProjectArc? ==> node.level == 2 && "projects" in node.connections
                              && p.index < |ProjectArcIds| && ProjectArcIds[p.index] == node.id
    ensures p.ExperienceArc? ==> node.level == 2 && "experience" in node.connections
                                 && node.id !in ProjectArcIds && p.index < |ExperienceArcIds|
                                 && ExperienceArcIds[p.index] == node.id
    ensures node.level == 2 && "projects" in node.connections && node.id in ProjectArcIds ==>
      p == ProjectArc(IndexOf(ProjectArcIds, node.id))
    ensures node.level == 2 && !("projects" in node.connections && node.id in ProjectArcIds)
            && "experience" in node.connections && node.id in ExperienceArcIds ==>
      p == ExperienceArc(IndexOf(ExperienceArcIds, node.id))
    ensures node.level !in {0, 1, 2} ==> p == Fallback
  {
    if node.level == 0 then Centre
    else if node.level == 1 then
      (match node.id
       case "projects" => Top
       case "experience" => Right
       case "skills" => Bottom
       case "contact" => Left
       case _ => Fallback)
    else if node.level == 2 then
      var pi := IndexOf(ProjectArcIds, node.id);
      if "projects" in node.connections && pi != -1 then ProjectArc(pi)
      else
        var ei := IndexOf(ExperienceArcIds, node.id);
        if "experience" in node.connections && ei != -1 then ExperienceArc(ei)
        else Fallback
    else Fallback
  }

  /** Angle of the `i`-th project child: the list spreads evenly over a
      half turn starting at -π/2. */
  function ProjectArcAngle(i: nat): (a: real)
    requires i < |ProjectArcIds|
    ensures a == -Pi / 2.0 + (i as real) * Pi / 4.0
    ensures i == 0 ==> a == -Pi / 2.0
    ensures i == |ProjectArcIds| - 1 ==> a == Pi / 2.0
  {
    var spread := Pi;
    var start := -spread / 2.0;
    start + ((i as real) / ((|ProjectArcIds| - 1) as real)) * spread
  }

  /** Angle of the `i`-th experience child: a quarter turn starting at
      -π/4. */
  function ExperienceArcAngle(i: nat): (a: real)
    requires i < |ExperienceArcIds|
    ensures a == -Pi / 4.0 + (i as real) * Pi / 4.0
    ensures i == 0 ==> a == -Pi / 4.0
    ensures i == 1 ==> a == 0.0
    ensures i == 2 ==> a == Pi / 4.0
  {
    var start := -Pi / 4.0;
    var steps := if 1 > |ExperienceArcIds| - 1 then 1 else |ExperienceArcIds| - 1;
    start + ((i as real) / (steps as real)) * (Pi / 2.0)
  }

  /** The static slot of a category, as a unit direction from the centre. */
  function SlotDirection(p: Placement): Point
  {
    match p
    case Top => Point(0.0, -1.0)
    case Right => Point(1.0, 0.0)
    case Bottom => Point(0.0, 1.0)
    case Left => Point(-1.0, 0.0)
    case _ => Point(0.0, 0.0)
  }

  /** `getStaticPosition(node, centerX, centerY, scale)`. */
  function StaticPosition(t: Trig, node: SkillNode, cx: real, cy: real, scale: real): (r: Point)
    ensures node.level == 0 ==> r == Point(cx, cy)
    ensures PlacementOf(node) == Fallback ==> r == Offset(cx, cy, node.position, scale)
    ensures PlacementOf(node) in {Top, Right, Bottom, Left} ==>
      r == Offset(cx, cy, SlotDirection(PlacementOf(node)), ParentRadius * scale)
  {
    var parentRadius := ParentRadius * scale;
    match PlacementOf(node)
    case Centre => Point(cx, cy)
    case Top => Point(cx, cy - parentRadius)
    case Right => Point(cx + parentRadius, cy)
    case Bottom => Point(cx, cy + parentRadius)
    case Left => Point(cx - parentRadius, cy)
    case ProjectArc(i) => ProjectArcPoint(t, i, cx, cy, scale)
    case ExperienceArc(i) => ExperienceArcPoint(t, i, cx, cy, scale)
    case Fallback => Offset(cx, cy, node.position, scale)
  }

  /** Position of the `i`-th project child: `x = cx + cos(angle - π/2) *
      childRadius`, `y = cy - parentRadius + sin(angle - π/2) *
      childRadius`, that is, the polar point around the top slot. */
  function ProjectArcPoint(t: Trig, i: nat, cx: real, cy: real, scale: real): Point
    requires i < |ProjectArcIds|
  {
    Polar(t, cx, cy - ParentRadius * scale, ProjectArcAngle(i) - Pi / 2.0, ChildRadius * scale)
  }

  /** Position of the `i`-th experience child: `x = cx + parentRadius +
      cos(angle) * childRadius`, `y = cy + sin(angle) * childRadius`, that
      is, the polar point around the right slot. */
  function ExperienceArcPoint(t: Trig, i: nat, cx: real, cy: real, scale: real): Point
    requires i < |ExperienceArcIds|
  {
    Polar(t, cx + ParentRadius * scale, cy, ExperienceArcAngle(i), ChildRadius * scale)
  }

  /** The four category ids land on their compass points at
      `250 * scale` from the centre, for any other data in the node. */
  lemma CardinalSlots(t: Trig, node: SkillNode, cx: real, cy: real, scale: real)
    requires node.level == 1
    ensures node.id == "projects" ==> StaticPosition(t, node, cx, cy, scale) == Point(cx, cy - 250.0 * scale)
    ensures node.id == "experience" ==> StaticPosition(t, node, cx, cy, scale) == Point(cx + 250.0 * scale, cy)
    ensures node.id == "skills" ==> StaticPosition(t, node, cx, cy, scale) == Point(cx, cy + 250.0 * scale)
    ensures node.id == "contact" ==> StaticPosition(t, node, cx, cy, scale) == Point(cx - 250.0 * scale, cy)
    ensures node.id !in {"projects", "experience", "skills", "contact"} ==>
      StaticPosition(t, node, cx, cy, scale) == Offset(cx, cy, node.position, scale)
  {
  }

  /** A category slot lies exactly `250 * scale` from the centre. */
  lemma CardinalDistance(t: Trig, node: SkillNode, cx: real, cy: real, scale: real)
    requires PlacementOf(node) in {Top, Right, Bottom, Left}
    ensures Dist2(StaticPosition(t, node, cx, cy, scale), Point(cx, cy)) == (ParentRadius * scale) * (ParentRadius * scale)
  {
  }

  /** Under the Pythagorean identity a project-arc child sits
      `180 * scale` from the top slot of "projects". */
  lemma ProjectChildAroundParent(t: Trig, node: SkillNode, cx: real, cy: real, scale: real)
    requires Pythagorean(t) && PlacementOf(node).ProjectArc?
    ensures Dist2(StaticPosition(t, node, cx, cy, scale), Point(cx, cy - ParentRadius * scale))
            == (ChildRadius * scale) * (ChildRadius * scale)
  {
    var i := PlacementOf(node).index;
    assert StaticPosition(t, node, cx, cy, scale) == ProjectArcPoint(t, i, cx, cy, scale);
    ProjectArcOnCircle(t, i, cx, cy, scale);
  }

  /** The `i`-th project arc point is `180 * scale` from the top slot. */
  lemma ProjectArcOnCircle(t: Trig, i: nat, cx: real, cy: real, scale: real)
    requires Pythagorean(t) && i < |ProjectArcIds|
    ensures Dist2(ProjectArcPoint(t, i, cx, cy, scale), Point(cx, cy - ParentRadius * scale))
            == (ChildRadius * scale) * (ChildRadius * scale)
  {
    PolarOnCircle(t, cx, cy - ParentRadius * scale, ProjectArcAngle(i) - Pi / 2.0, ChildRadius * scale);
  }

  /** Under the Pythagorean identity an experience-arc child sits
      `180 * scale` from the right slot of "experience". */
  lemma ExperienceChildAroundParent(t: Trig, node: SkillNode, cx: real, cy: real, scale: real)
    requires Pythagorean(t) && PlacementOf(node).ExperienceArc?
    ensures Dist2(StaticPosition(t, node, cx, cy, scale), Point(cx + ParentRadius * scale, cy))
            == (ChildRadius * scale) * (ChildRadius * scale)
  {
    var i := PlacementOf(node).index;
    assert StaticPosition(t, node, cx, cy, scale) == ExperienceArcPoint(t, i, cx, cy, scale);
    ExperienceArcOnCircle(t, i, cx, cy, scale);
  }

  /** The `i`-th experience arc point is `180 * scale` from the right slot. */
  lemma ExperienceArcOnCircle(t: Trig, i: nat, cx: real, cy: real, scale: real)
    requires Pythagorean(t) && i < |ExperienceArcIds|
    ensures Dist2(ExperienceArcPoint(t, i, cx, cy, scale), Point(cx + ParentRadius * scale, cy))
            == (ChildRadius * scale) * (ChildRadius * scale)
  {
    PolarOnCircle(t, cx + ParentRadius * scale, cy, ExperienceArcAngle(i), ChildRadius * scale);
  }

  /** A level-2 node that lists "projects" and is the `i`-th entry of the
      project list is drawn at angle `-π/2 + i·π/4` on the circle of radius
      `180 * scale` around the top slot (the extra `-π/2` turns the arc to
      open upwards). */
  lemma ListedProjectChild(t: Trig, node: SkillNode, i: nat, cx: real, cy: real, scale: real)
    requires node.level == 2 && "projects" in node.connections
    requires i < |ProjectArcIds| && ProjectArcIds[i] == node.id
    ensures StaticPosition(t, node, cx, cy, scale)
            == Polar(t, cx, cy - ParentRadius * scale, -Pi / 2.0 + (i as real) * Pi / 4.0 - Pi / 2.0, ChildRadius * scale)
  {
    ArcIdsDistinct();
    assert IndexOf(ProjectArcIds, node.id) == i;
  }

  /** A level-2 node that lists "experience", is not placed by the project
      rule, and is the `i`-th entry of the experience list is drawn at angle
      `-π/4 + i·π/4` on the circle of radius `180 * scale` around the right
      slot. */
  lemma ListedExperienceChild(t: Trig, node: SkillNode, i: nat, cx: real, cy: real, scale: real)
    requires node.level == 2 && "experience" in node.connections
    requires i < |ExperienceArcIds| && ExperienceArcIds[i] == node.id
    ensures StaticPosition(t, node, cx, cy, scale)
            == Polar(t, cx + ParentRadius * scale, cy, -Pi / 4.0 + (i as real) * Pi / 4.0, ChildRadius * scale)
  {
    ArcIdsDistinct();
    assert node.id !in ProjectArcIds;
    assert IndexOf(ExperienceArcIds, node.id) == i;
  }

  /** Each arc list holds distinct ids, and no id is in both lists. */
  lemma ArcIdsDistinct()
    ensures forall i, j :: 0 <= i < j < |ProjectArcIds| ==> ProjectArcIds[i] != ProjectArcIds[j]
    ensures forall i, j :: 0 <= i < j < |ExperienceArcIds| ==> ExperienceArcIds[i] != ExperienceArcIds[j]
    ensures forall i :: 0 <= i < |ExperienceArcIds| ==> ExperienceArcIds[i] !in ProjectArcIds
  {
  }

  /** A level-2 node listed under "projects" but not in the project list
      is not placed by the project rule: it falls through to the experience
      rule and then to the designer offset. */
  lemma UnlistedProjectChildFallsThrough(node: SkillNode)
    requires node.level == 2 && "projects" in node.connections && node.id !in ProjectArcIds
    ensures PlacementOf(node) == Fallback || PlacementOf(node).ExperienceArc?
    ensures node.id !in ExperienceArcIds ==> PlacementOf(node) == Fallback
  {
  }

  /** None of the store's level-2 ids is in either arc list, so with the
      store's data every level-2 node is placed at its designer offset. */
  lemma StoreChildrenUseFallback(t: Trig, cx: real, cy: real, scale: real)
    ensures forall i :: 0 <= i < |InitialNodes()| && InitialNodes()[i].level == 2 ==>
      StaticPosition(t, InitialNodes()[i], cx, cy, scale) == Offset(cx, cy, InitialNodes()[i].position, scale)
  {
    var ns := InitialNodes();
    forall i | 0 <= i < |ns| && ns[i].level == 2
      ensures PlacementOf(ns[i]) == Fallback
    {
      assert ns[i].id !in ProjectArcIds && ns[i].id !in ExperienceArcIds;
    }
  }
}
