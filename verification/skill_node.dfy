/** How one node is drawn: which sprite, how large, where, with what label
    size, and what its pointer handlers do to the store. */
module SkillNodeView {
  import opened Wrappers
  import opened Geometry
  import opened Seqs
  import opened Store
  import StaticLayout
  import OrbitalLayout

  // ---------------------------------------------------------------------
  // Sprites

  /** The sprite images a node can show. */
  datatype Sprite =
    | CentralSquare
    | ProjectsHexagon | ExperienceHexagon | SkillsHexagon | ContactHexagon
    | Circle1 | Circle2

  /** `getCategorySprite`: one hexagon per category id, and the experience
      hexagon for any other id. */
  function CategorySprite(id: string): (r: Sprite)
    ensures r in {ProjectsHexagon, ExperienceHexagon, SkillsHexagon, ContactHexagon}
    ensures r == ProjectsHexagon <==> id == "projects"
    ensures r == SkillsHexagon <==> id == "skills"
    ensures r == ContactHexagon <==> id == "contact"
    ensures r == ExperienceHexagon <==> id !in {"projects", "skills", "contact"}
  {
    match id
    case "projects" => ProjectsHexagon
    case "experience" => ExperienceHexagon
    case "skills" => SkillsHexagon
    case "contact" => ContactHexagon
    case _ => ExperienceHexagon
  }

  /** The ids of the level-2 nodes, in store order. */
  function LevelTwoIds(nodes: seq<SkillNode>): (r: seq<string>)
    ensures |r| <= |nodes|
    ensures forall c :: c in r <==> exists i :: 0 <= i < |nodes| && nodes[i].level == 2 && nodes[i].id == c
  {
    if |nodes| == 0 then []
    else
      var rest := LevelTwoIds(nodes[1..]);
      assert forall i :: 1 <= i < |nodes| ==> nodes[i] == nodes[1..][i - 1];
      if nodes[0].level == 2 then [nodes[0].id] + rest else rest
  }

  /** Code-unit order on strings: a proper prefix comes first, otherwise
      the first differing character decides. */
  predicate StrLess(a: string, b: string)
    decreases |a|
  {
    if |a| == 0 then |b| > 0
    else if |b| == 0 then false
    else if a[0] != b[0] then a[0] < b[0]
    else StrLess(a[1..], b[1..])
  }

  /** `sorted` is the level-2 ids of `nodes`, each once, in strictly
      increasing order, by UTF-16 code unit. `getChildNodeSprite` sorts
      with `localeCompare`, whose collation is not modelled. The two orders
      agree on ids whose first characters are distinct lowercase ASCII
      letters, as the store's ids are; they can disagree otherwise, since
      the collation compares letters regardless of case and puts
      punctuation before letters. */
  predicate Collated(sorted: seq<string>, nodes: seq<SkillNode>) {
    multiset(sorted) == multiset(LevelTwoIds(nodes))
    && forall k :: 0 <= k < |sorted| - 1 ==> StrLess(sorted[k], sorted[k + 1])
  }

  /** `getChildNodeSprite`: the id's index in the collated list of level-2
      ids, by JavaScript's `%`, picks circle 1 when even and circle 2
      otherwise; an absent id has index -1, and `-1 % 2` is -1, so it gets
      circle 2. */
  function ChildSprite(sorted: seq<string>, id: string): (r: Sprite)
    ensures r in {Circle1, Circle2}
    ensures id !in sorted ==> r == Circle2
    ensures id in sorted ==> (r == Circle1 <==> IndexOf(sorted, id) % 2 == 0)
  {
    var index := IndexOf(sorted, id);
    if JsRemTwo(index) == 0 then Circle1 else Circle2
  }

  /** With no id listed twice, neighbours in the collated list get
      different circles, so the children alternate around the ring. */
  lemma {:induction false} NeighboursAlternate(sorted: seq<string>, k: int)
    requires forall a, b :: 0 <= a < b < |sorted| ==> sorted[a] != sorted[b]
    requires 0 <= k < |sorted| - 1
    ensures ChildSprite(sorted, sorted[k]) != ChildSprite(sorted, sorted[k + 1])
  {
    IndexOfDistinct(sorted, k);
    IndexOfDistinct(sorted, k + 1);
  }

  /** With no duplicates, the index found for the `k`-th element is `k`. */
  lemma IndexOfDistinct(xs: seq<string>, k: int)
    requires forall a, b :: 0 <= a < b < |xs| ==> xs[a] != xs[b]
    requires 0 <= k < |xs|
    ensures IndexOf(xs, xs[k]) == k
  {
  }

  /** The collated child ids of the store's data. */
  const StoreChildOrder: seq<string> := ["backend", "education", "frontend", "mobile-projects", "web-projects"]

  /** Filtering distributes over concatenation. */
  lemma {:induction false} LevelTwoIdsAppend(a: seq<SkillNode>, b: seq<SkillNode>)
    ensures LevelTwoIds(a + b) == LevelTwoIds(a) + LevelTwoIds(b)
  {
    if |a| == 0 {
      assert a + b == b;
    } else {
      assert (a + b)[1..] == a[1..] + b;
      LevelTwoIdsAppend(a[1..], b);
    }
  }

  /** A list without level-2 nodes contributes no ids. */
  lemma {:induction false} NoLevelTwo(ns: seq<SkillNode>)
    requires forall i :: 0 <= i < |ns| ==> ns[i].level != 2
    ensures LevelTwoIds(ns) == []
  {
    if |ns| > 0 {
      assert ns[0].level != 2;
      NoLevelTwo(ns[1..]);
    }
  }

  /** A list of level-2 nodes contributes all its ids, in order. */
  lemma {:induction false} AllLevelTwo(ns: seq<SkillNode>)
    requires forall i :: 0 <= i < |ns| ==> ns[i].level == 2
    ensures LevelTwoIds(ns) == seq(|ns|, i requires 0 <= i < |ns| => ns[i].id)
  {
    if |ns| > 0 {
      assert ns[0].level == 2;
      AllLevelTwo(ns[1..]);
    }
  }

  /** The store's first five nodes (centre and categories) are not at
      level 2. */
  lemma StoreHeadLevels()
    ensures |InitialNodes()| == 10
    ensures forall i :: 0 <= i < 5 ==> InitialNodes()[i].level != 2
  {
  }

  /** The store's last five nodes are the children. */
  lemma StoreTailLevels()
    ensures |InitialNodes()| == 10
    ensures forall i :: 5 <= i < 10 ==> InitialNodes()[i].level == 2
    ensures InitialNodes()[5].id == "web-projects" && InitialNodes()[6].id == "mobile-projects"
    ensures InitialNodes()[7].id == "frontend" && InitialNodes()[8].id == "backend"
    ensures InitialNodes()[9].id == "education"
  {
  }

  /** Five nodes off level 2 followed by five on it contribute the ids of
      the last five. */
  lemma LevelTwoIdsOfTail(ns: seq<SkillNode>)
    requires |ns| == 10
    requires forall i :: 0 <= i < 5 ==> ns[i].level != 2
    requires forall i :: 5 <= i < 10 ==> ns[i].level == 2
    ensures LevelTwoIds(ns) == [ns[5].id, ns[6].id, ns[7].id, ns[8].id, ns[9].id]
  {
    var head, tail := ns[..5], ns[5..];
    assert ns == head + tail;
    LevelTwoIdsAppend(head, tail);
    NoLevelTwo(head);
    AllLevelTwo(tail);
  }

  /** The level-2 ids of the store's data are the five children, in store
      order. */
  lemma StoreLevelTwoIds()
    ensures LevelTwoIds(InitialNodes()) == ["web-projects", "mobile-projects", "frontend", "backend", "education"]
  {
    StoreHeadLevels();
    StoreTailLevels();
    LevelTwoIdsOfTail(InitialNodes());
  }

  /** `StoreChildOrder` is in strictly increasing order: each id starts
      with a smaller letter than the next. */
  lemma StoreChildOrderSorted()
    ensures forall k :: 0 <= k < |StoreChildOrder| - 1 ==> StrLess(StoreChildOrder[k], StoreChildOrder[k + 1])
  {
    forall k | 0 <= k < |StoreChildOrder| - 1
      ensures StrLess(StoreChildOrder[k], StoreChildOrder[k + 1])
    {
      var a, b := StoreChildOrder[k], StoreChildOrder[k + 1];
      assert a[0] < b[0];
    }
  }

  /** `StoreChildOrder` holds the store's children once each. */
  lemma StoreChildOrderPermutes()
    ensures multiset(StoreChildOrder) == multiset(["web-projects", "mobile-projects", "frontend", "backend", "education"])
  {
    var a, b, c, d, e := "web-projects", "mobile-projects", "frontend", "backend", "education";
    calc {
      multiset([d, e, c, b, a]);
      multiset([d]) + multiset([e]) + multiset([c]) + multiset([b]) + multiset([a]);
      multiset([a]) + multiset([b]) + multiset([c]) + multiset([d]) + multiset([e]);
      multiset([a, b, c, d, e]);
    }
  }

  /** `StoreChildOrder` is the collated order of the store's children. */
  lemma StoreChildrenCollated()
    ensures Collated(StoreChildOrder, InitialNodes())
  {
    StoreLevelTwoIds();
    StoreChildOrderSorted();
    StoreChildOrderPermutes();
  }

  /** Along the store's collated children the circles alternate: backend,
      frontend and web-projects get circle 1; education and
      mobile-projects get circle 2. */
  lemma StoreChildSprites()
    ensures ChildSprite(StoreChildOrder, "backend") == Circle1
    ensures ChildSprite(StoreChildOrder, "education") == Circle2
    ensures ChildSprite(StoreChildOrder, "frontend") == Circle1
    ensures ChildSprite(StoreChildOrder, "mobile-projects") == Circle2
    ensures ChildSprite(StoreChildOrder, "web-projects") == Circle1
  {
    assert StoreChildOrder[0] == "backend";
    assert StoreChildOrder[1] == "education";
    assert StoreChildOrder[2] == "frontend";
    assert StoreChildOrder[3] == "mobile-projects";
    assert StoreChildOrder[4] == "web-projects";
  }

  /** The sprite chosen for a node of any level. */
  function NodeSprite(sorted: seq<string>, node: SkillNode): (r: Sprite)
    ensures node.level == 0 || node.level !in {1, 2} <==> r == CentralSquare
    ensures node.level == 1 ==> r == CategorySprite(node.id)
    ensures node.level == 2 ==> r == ChildSprite(sorted, node.id)
  {
    if node.level == 0 then CentralSquare
    else if node.level == 1 then CategorySprite(node.id)
    else if node.level == 2 then ChildSprite(sorted, node.id)
    else CentralSquare
  }

  // ---------------------------------------------------------------------
  // Sizes

  /** `baseRadius`: 80, 55, 40 for levels 0, 1, 2 and 30 otherwise. */
  function BaseRadius(level: int): (r: real)
    ensures r in {80.0, 55.0, 40.0, 30.0}
    ensures level == 0 <==> r == 80.0
    ensures level == 1 <==> r == 55.0
    ensures level == 2 <==> r == 40.0
  {
    if level == 0 then 80.0 else if level == 1 then 55.0 else if level == 2 then 40.0 else 30.0
  }

  /** The drawn radius. */
  function Radius(level: int, scale: real): (r: real)
    ensures scale > 0.0 ==> r > 0.0
    ensures r == BaseRadius(level) * scale
  {
    BaseRadius(level) * scale
  }

  /** Deeper levels are drawn no larger: centre, then categories, then
      children, then every other level. */
  lemma RadiusShrinksWithDepth(scale: real, level: int)
    requires scale > 0.0
    ensures Radius(0, scale) > Radius(1, scale) > Radius(2, scale) > Radius(3, scale)
    ensures level != 0 ==> Radius(level, scale) < Radius(0, scale)
  {
  }

  /** The label size factor per level. */
  function FontFactor(level: int): real
  {
    if level == 0 then 0.238 else if level == 1 then 0.28 else if level == 2 then 0.36 else 0.28
  }

  /** Smallest label size. */
  const MinFontSize: real := 8.0

  /** `getFontSize`: the level's share of the radius, but never below 8. */
  function FontSize(level: int, scale: real): (r: real)
    ensures r >= MinFontSize
    ensures r >= Radius(level, scale) * FontFactor(level)
    ensures r == MinFontSize || r == Radius(level, scale) * FontFactor(level)
  {
    var base := Radius(level, scale) * FontFactor(level);
    if base > MinFontSize then base else MinFontSize
  }

  /** A larger scale never gives a smaller label. */
  lemma FontSizeGrowsWithScale(level: int, s1: real, s2: real)
    requires 0.0 <= s1 <= s2
    ensures FontSize(level, s1) <= FontSize(level, s2)
  {
    var f := BaseRadius(level) * FontFactor(level);
    assert f >= 0.0;
    assert s1 * f <= s2 * f;
    assert Radius(level, s1) * FontFactor(level) == s1 * f;
    assert Radius(level, s2) * FontFactor(level) == s2 * f;
  }

  /** At full scale every level's label is above the minimum, and the
      centre's is the largest. */
  lemma FullScaleFontSizes()
    ensures FontSize(0, 1.0) == 19.04 && FontSize(1, 1.0) == 15.4
    ensures FontSize(2, 1.0) == 14.4 && FontSize(3, 1.0) == 8.4
  {
  }

  /** `NODE_SIZES`: the unscaled sprite side for each level. */
  function NodeSize(level: int): (r: real)
    ensures r in {200.0, 108.0, 88.0, 80.0}
    ensures level == 0 <==> r == 200.0
    ensures level == 1 <==> r == 108.0
    ensures level == 2 <==> r == 88.0
  {
    if level == 0 then 200.0 else if level == 1 then 108.0 else if level == 2 then 88.0 else 80.0
  }

  /** The sprite side at `scale`. */
  function SpriteSize(level: int, scale: real): (r: real)
    ensures scale > 0.0 ==> r > 0.0
    ensures r == NodeSize(level) * scale
  {
    NodeSize(level) * scale
  }

  /** `PixelSprite` draws its image with the top-left corner half a side
      up and to the left of the given point. */
  function SpriteTopLeft(at: Point, size: real): (r: Point)
    ensures r.x + size / 2.0 == at.x && r.y + size / 2.0 == at.y
  {
    Point(at.x - size / 2.0, at.y - size / 2.0)
  }

  // ---------------------------------------------------------------------
  // Placement

  /** The `animationTime` prop, 0 when not given. */
  function AnimationTime(given: Option<real>): (r: real)
    ensures given.None? ==> r == 0.0
    ensures given.Some? ==> r == given.value
  {
    given.GetOr(0.0)
  }

  /** Where the node is drawn: the orbital layout exactly when `uiMode` is
      "orbital", the static layout otherwise (including when no mode is
      defined at all). */
  function NodePosition(t: Trig, uiMode: Option<string>, node: SkillNode, cx: real, cy: real,
                        scale: real, time: Option<real>): (r: Point)
    ensures uiMode == Some("orbital") ==>
      r == OrbitalLayout.OrbitalPosition(t, node, cx, cy, scale, AnimationTime(time))
    ensures uiMode != Some("orbital") ==> r == StaticLayout.StaticPosition(t, node, cx, cy, scale)
  {
    if uiMode == Some("orbital") then OrbitalLayout.OrbitalPosition(t, node, cx, cy, scale, AnimationTime(time))
    else StaticLayout.StaticPosition(t, node, cx, cy, scale)
  }

  /** The store defines no `uiMode`, so it reads as undefined and every node
      is placed by the static layout; with the store's data the children
      therefore sit at their designer offsets. */
  lemma StoreUsesStaticLayout(t: Trig, cx: real, cy: real, scale: real, time: Option<real>)
    ensures forall i :: 0 <= i < |InitialNodes()| ==>
      NodePosition(t, None, InitialNodes()[i], cx, cy, scale, time)
        == StaticLayout.StaticPosition(t, InitialNodes()[i], cx, cy, scale)
    ensures forall i :: 0 <= i < |InitialNodes()| && InitialNodes()[i].level == 2 ==>
      NodePosition(t, None, InitialNodes()[i], cx, cy, scale, time)
        == Offset(cx, cy, InitialNodes()[i].position, scale)
  {
    StaticLayout.StoreChildrenUseFallback(t, cx, cy, scale);
  }

  /** In orbital mode with the default time, a node is at its time-zero
      orbital position: categories at their base angle. */
  lemma DefaultTimeIsZero(t: Trig, node: SkillNode, cx: real, cy: real, scale: real)
    requires node.level == 1
    ensures NodePosition(t, Some("orbital"), node, cx, cy, scale, None)
         == Polar(t, cx, cy, node.angle.GetOr(0.0), OrbitalLayout.OrbitRadius * scale)
  {
  }

  // ---------------------------------------------------------------------
  // Pointer handlers

  /** Click (or tap): the node becomes the active node. */
  function Click(s: State, node: SkillNode): (r: State)
    ensures r.activeNodeId == Some(node.id)
    ensures ActiveAgrees(r) && SameIds(s.nodes, r.nodes)
    ensures r.hoveredNodeId == s.hoveredNodeId && r.canvasSize == s.canvasSize
  {
    SetActiveNode(s, Some(node.id))
  }

  /** Pointer enters the node: it becomes the hovered node. */
  function MouseEnter(s: State, node: SkillNode): (r: State)
    ensures r.hoveredNodeId == Some(node.id)
    ensures HoveredAgrees(r) && SameIds(s.nodes, r.nodes)
    ensures r.activeNodeId == s.activeNodeId
  {
    SetHoveredNode(s, Some(node.id))
  }

  /** Pointer leaves the node: nothing is hovered. */
  function MouseLeave(s: State): (r: State)
    ensures r.hoveredNodeId.None?
    ensures forall i :: 0 <= i < |r.nodes| ==> !r.nodes[i].isHovered
    ensures SameIds(s.nodes, r.nodes) && r.activeNodeId == s.activeNodeId
  {
    SetHoveredNode(s, None)
  }

  /** Clicking twice is clicking once. */
  lemma ClickIdempotent(s: State, node: SkillNode)
    ensures Click(Click(s, node), node) == Click(s, node)
  {
    var once := Click(s, node);
    var twice := Click(once, node);
    assert |twice.nodes| == |once.nodes|;
    forall i | 0 <= i < |once.nodes|
      ensures twice.nodes[i] == once.nodes[i]
    {
      assert twice.nodes[i].(isActive := once.nodes[i].isActive) == once.nodes[i];
    }
  }

  /** Hovering a node and leaving it clears every hover flag and touches
      neither the active flags nor any other field. */
  lemma EnterThenLeave(s: State, node: SkillNode)
    ensures var r := MouseLeave(MouseEnter(s, node));
      r == SetHoveredNode(s, None)
      && forall i :: 0 <= i < |r.nodes| ==> r.nodes[i] == s.nodes[i].(isHovered := false)
  {
    var a := MouseEnter(s, node);
    var r := MouseLeave(a);
    var direct := SetHoveredNode(s, None);
    assert |r.nodes| == |direct.nodes|;
    forall i | 0 <= i < |r.nodes|
      ensures r.nodes[i] == s.nodes[i].(isHovered := false) && direct.nodes[i] == r.nodes[i]
    {
      assert a.nodes[i].(isHovered := s.nodes[i].isHovered) == s.nodes[i];
      assert r.nodes[i].(isHovered := a.nodes[i].isHovered) == a.nodes[i];
      assert direct.nodes[i].(isHovered := s.nodes[i].isHovered) == s.nodes[i];
    }
  }
}
