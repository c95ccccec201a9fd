# Skill-tree portfolio: layout, store and camera rules in Dafny

This project models the logic behind the portfolio site's interactive
"skill tree": a fixed graph of nodes (a centre, four categories and their
children) drawn on a pan-and-zoom canvas. The model covers:

- the node store and its four update operations (`Store`);
- the two layout functions, static and orbital (`StaticLayout`, `OrbitalLayout`);
- the derivation of the connection lines between nodes (`Connections`);
- the stage camera: centring target, clamped zoom about the cursor, and
  the running-tween flag across drag and finish events, and the
  difference between the committed translation and where the stage node
  actually is (`ZoomPanStage`);
- the view's scale formula and the effect that re-centres the camera when
  the active node changes (`SkillTree`);
- the choice of detail-modal body by node id (`DetailModal`);
- the per-node drawing rules: sprites, radius, label size, sprite
  centring, choice of layout and pointer handlers (`SkillNodeView`);
- the icon lookup (`Icons`).

Everything is a pure function over immutable datatypes. Coordinates are
exact reals. `cos`, `sin`, `atan2` and `sqrt` are not defined. They are
fields of a `Trig` record passed in as a parameter. Facts about them
appear only as hypotheses: the Pythagorean identity (`Pythagorean`) and
an exact square root (`ExactSqrt`). JavaScript's value rules are written
out in `Wrappers`:

- `||` on optional strings and numbers, with `""` and `0` falsy;
- `%`, which truncates toward zero.

`null` and `undefined` are `None`.

Behaviours of the code worth noting, each of which the model keeps:

- Activating an id that names no node still changes the store. The id is
  stored verbatim and every `isActive` flag is cleared
  (`Store.SetActiveUnknownId`).
- A category's orbit starts at its stored `angle || 0`, whatever its
  designer offset. A child ignores `angle` and starts at `atan2` of its
  offset.
- The camera centres on the node's designer offset `centre + position * scale`,
  even when the node is drawn elsewhere by the static or orbital layout.
- Nothing in the view passes `animationTime` to a node, so it is always 0
  and the orbital layout is drawn at time 0.
- Zoom is blocked only while a centring tween runs. A wheel event during a
  drag zooms about where the stage has been dragged to, which the stage
  node holds before the drag is committed to React state.
- An edge listed from both ends between two nodes of the same level is
  drawn twice (`Connections.BothWaysEdge`).

## Model

| member | source | states |
|---|---|---|
| Wrappers.OrString | web/src/components/ConnectionLines.tsx:42 | JavaScript's `or` on optional strings keeps the left side exactly when it is a non-empty string, else gives the right side |
| Wrappers.OrDefault | web/src/components/ConnectionLines.tsx:42 | the same rule with a literal fallback |
| Wrappers.OrZero | web/src/utils/orbitalPosition.ts:18 | the `or 0` default equals the angle when present (0 stays 0) and 0 when absent |
| Wrappers.JsRemTwo | web/src/components/SkillNode.tsx:47 | JavaScript `n % 2` is zero exactly when `n` is even; it lies in {0, 1} for `n >= 0` and in {0, -1} for negative `n` |
| Seqs.IndexOf | web/src/utils/staticPosition.ts:52 | `indexOf` is -1 exactly when the item is absent; otherwise it gives the first position holding it |
| Geometry.Offset | web/src/utils/staticPosition.ts:97-100 | `centre + p * scale` differs from the centre by `p * scale` and collapses to the centre at scale 0 or offset 0 |
| Geometry.PolarOnCircle | web/src/utils/orbitalPosition.ts:34-37 | under the Pythagorean identity, `centre + (cos a, sin a) * r` is at squared distance `r²` from the centre |
| Store.FindNode | web/src/components/ConnectionLines.tsx:28 | `find` returns none exactly when no node has the id; otherwise it returns the first node carrying it |
| Store.FindNodeUnique | web/src/components/SkillTree.tsx:32 | with unique ids, the node found for an id is the node at any index holding that id |
| Store.ConsistentFlags | web/src/store/skillTreeStore.ts:172-188 | flags that agree with the recorded ids, plus unique ids, give at most one active and at most one hovered node |
| Store.SetActiveNode | web/src/store/skillTreeStore.ts:172-179 | records the id; a node is active exactly when its id equals it; ids, order and every other field of every node are kept; hover and canvas size are unchanged |
| Store.SetActiveKnownId | web/src/store/skillTreeStore.ts:172-179 | with unique ids, activating a present id leaves exactly that node active |
| Store.SetActiveUnknownId | web/src/store/skillTreeStore.ts:174-178 | activating `null` or an absent id records it verbatim and leaves no node active |
| Store.SetHoveredNode | web/src/store/skillTreeStore.ts:181-188 | the same for `isHovered`; `activeNodeId` and canvas size are unchanged |
| Store.SetCanvasSize | web/src/store/skillTreeStore.ts:190 | replaces the canvas size and nothing else |
| Store.UpdateNodePosition | web/src/store/skillTreeStore.ts:192-197 | only nodes with the id get the new position, with no other field touched; an absent id leaves the state equal |
| Store.Apply | web/src/store/skillTreeStore.ts:172-197 | every update keeps the ids in place and preserves consistency (unique ids, flags agreeing with the recorded ids) |
| Store.Run | web/src/store/skillTreeStore.ts:172-197 | any sequence of updates keeps the ids and preserves consistency |
| Store.RunFromInitial | web/src/store/skillTreeStore.ts:166-197 | from the initial store, after any updates, at most one node is active and at most one is hovered |
| Store.InitialUniqueIds | web/src/store/skillTreeStore.ts:33-164 | the ten initial ids are distinct |
| Store.InitialConsistent | web/src/store/skillTreeStore.ts:166-170 | the initial store is consistent, records "center" as active, and "center" is the only node flagged active |
| Store.InitialSymmetric | web/src/store/skillTreeStore.ts:33-164 | every connection in the initial data names a node that lists the connection back |
| StaticLayout.PlacementOf | web/src/utils/staticPosition.ts:11-100 | which rule places a node: the centre exactly at level 0; an arc rule exactly for level 2 with the parent listed and the id in that arc's list, at the id's `indexOf` position, the project list checked first; the fallback for other levels |
| StaticLayout.ProjectArcAngle | web/src/utils/staticPosition.ts:57-59 | the `i`-th project child's angle is `-π/2 + i·π/4`, from `-π/2` to `π/2` |
| StaticLayout.ExperienceArcAngle | web/src/utils/staticPosition.ts:83-86 | the `i`-th experience child's angle is `-π/4 + i·π/4`, that is `-π/4`, 0 and `π/4` |
| StaticLayout.StaticPosition | web/src/utils/staticPosition.ts:3-101 | level 0 gives the centre; a category slot is the centre plus its unit direction times `250 * scale`; the fallback gives the scaled designer offset |
| StaticLayout.CardinalSlots | web/src/utils/staticPosition.ts:16-34 | "projects", "experience", "skills" and "contact" go top, right, bottom and left at `250 * scale`; any other category id uses its scaled offset |
| StaticLayout.CardinalDistance | web/src/utils/staticPosition.ts:18-28 | each category slot is exactly `250 * scale` from the centre |
| StaticLayout.ProjectChildAroundParent | web/src/utils/staticPosition.ts:55-67 | under the Pythagorean identity, a project-arc child is `180 * scale` from the "projects" slot |
| StaticLayout.ExperienceChildAroundParent | web/src/utils/staticPosition.ts:81-91 | under the Pythagorean identity, an experience-arc child is `180 * scale` from the "experience" slot |
| StaticLayout.ListedProjectChild | web/src/utils/staticPosition.ts:37-67 | a level-2 node that lists "projects" and is the `i`-th project id is drawn on the circle of radius `180 * scale` about the top slot, at angle `-π/2 + i·π/4` turned by a further `-π/2` |
| StaticLayout.ListedExperienceChild | web/src/utils/staticPosition.ts:37-93 | a level-2 node that lists "experience" and is the `i`-th experience id is drawn on the circle of radius `180 * scale` about the right slot, at angle `-π/4 + i·π/4` |
| StaticLayout.UnlistedProjectChildFallsThrough | web/src/utils/staticPosition.ts:43-100 | a child under "projects" that is not in the project list is placed by the experience rule or the fallback, and by the fallback when it is in neither list |
| StaticLayout.StoreChildrenUseFallback | web/src/utils/staticPosition.ts:43-100 | with the store's data every level-2 node sits at its scaled designer offset |
| OrbitalLayout.CategoryBaseAngle | web/src/utils/orbitalPosition.ts:18 | a category's base angle is its `angle`, or 0 when absent |
| OrbitalLayout.CategoryAngle | web/src/utils/orbitalPosition.ts:18-19 | a category's angle grows from its base by `time * 0.00005` and equals the base at time 0 |
| OrbitalLayout.ChildAngle | web/src/utils/orbitalPosition.ts:31-32 | a child's angle falls from `atan2(y, x)` by `time * 0.000085` and equals it at time 0 |
| OrbitalLayout.OrbitalPosition | web/src/utils/orbitalPosition.ts:3-45 | level 0 gives the centre; a category is drawn on the `200 * scale` circle at angle `(angle or 0) + time * 0.00005`; a child on the circle through its scaled offset at angle `atan2(offset) - time * 0.000085`; other levels give the scaled designer offset |
| OrbitalLayout.StillNodesIgnoreTime | web/src/utils/orbitalPosition.ts:10-44 | the centre and nodes outside levels 1 and 2 are at the same place at every time |
| OrbitalLayout.CategoryIgnoresOffset | web/src/utils/orbitalPosition.ts:15-24 | a category's orbital position does not depend on its designer offset |
| OrbitalLayout.ChildIgnoresAngle | web/src/utils/orbitalPosition.ts:27-37 | a child's orbital position does not depend on its stored `angle` |
| OrbitalLayout.OppositeDirections | web/src/utils/orbitalPosition.ts:19-32 | categories turn with increasing angle, children with decreasing angle, and the children turn further over any interval |
| OrbitalLayout.CategoryOnCircle | web/src/utils/orbitalPosition.ts:17-23 | under the Pythagorean identity a category is `200 * scale` from the centre at every time |
| OrbitalLayout.ChildOnCircle | web/src/utils/orbitalPosition.ts:29-36 | with the Pythagorean identity and an exact square root, a child stays as far from the centre as its scaled designer offset |
| Connections.Draw | web/src/components/ConnectionLines.tsx:32-44 | a line joins the two scaled offsets; it is active exactly when either end is; an inactive line is grey; an active one takes the first non-empty colour of the two ends, else blue |
| Connections.EdgesFrom | web/src/components/ConnectionLines.tsx:27-46 | the edges of one node: at most one per listed id; each goes to the node its id resolves to, at no shallower level; every such resolvable id yields its edge |
| Connections.EdgesOf | web/src/components/ConnectionLines.tsx:26-48 | over all nodes: no more edges than listed ids; every edge is kept by the rule; every listed, resolvable connection to a level no shallower is present |
| Connections.GetConnections | web/src/components/ConnectionLines.tsx:26-50 | one line per edge of the walk, in walk order, each drawn by `Draw` |
| Connections.EdgesOfAppend | web/src/components/ConnectionLines.tsx:26-48 | the walk over `a + b` is the walk over `a` followed by that over `b`, so the output follows node order |
| Connections.EdgesFromAppend | web/src/components/ConnectionLines.tsx:27-46 | within one node, the walk over ids `x + y` is the walk over `x` followed by that over `y`, so a node's lines follow its connection order |
| Connections.EdgeCountFrom | web/src/components/ConnectionLines.tsx:27-46 | walking a node's ids yields the edge to `b` once per occurrence of `b`'s id when the node is no deeper than `b`, and never otherwise |
| Connections.EdgeCountOf | web/src/components/ConnectionLines.tsx:26-48 | walking the nodes yields the edge from `a` as often as walking `a`'s own list does when `a` is among the nodes once, and never when it is absent |
| Connections.BothWaysEdge | web/src/components/ConnectionLines.tsx:26-48 | with unique ids, a connection listed exactly once from each end is drawn exactly once, from the shallower node, when the levels differ, and exactly once from each end when they are equal |
| ZoomPanStage.ClampScale | web/src/components/ZoomPanStage.tsx:80 | the clamp lies in [0.5, 2], is the identity inside, and saturates outside |
| ZoomPanStage.ZoomDirection | web/src/components/ZoomPanStage.tsx:79 | the direction is -1 exactly when `deltaY > 0`, and +1 otherwise, including for 0 |
| ZoomPanStage.CentreTarget | web/src/components/ZoomPanStage.tsx:35-38 | the target translation plus the scaled node coordinate is half the view size, on both axes |
| ZoomPanStage.Commit | web/src/components/ZoomPanStage.tsx:111-114 | committing a translation records it; the stage node then agrees with the committed state when it did before, or when the new value is where the node already is |
| ZoomPanStage.CenterOn | web/src/components/ZoomPanStage.tsx:24-57 | any running tween is replaced by one toward the centring target, computed with the committed zoom; nothing moves until it advances |
| ZoomPanStage.TweenUpdate | web/src/components/ZoomPanStage.tsx:41-49 | while a tween runs, the stage node and the committed translation both follow the intermediate position |
| ZoomPanStage.TweenFinish | web/src/components/ZoomPanStage.tsx:41-53 | finishing clears the tween; the node and the committed translation rest on its target |
| ZoomPanStage.Wheel | web/src/components/ZoomPanStage.tsx:61-90 | a no-op while a tween runs or without a pointer; otherwise the zoom becomes the clamped step; [0.5, 2] is preserved, and so is agreement between node and committed state |
| ZoomPanStage.WheelKeepsPointUnderCursor | web/src/components/ZoomPanStage.tsx:69-87 | the drawing point under the pointer on the stage as displayed (`stage.x()`, `stage.y()`) is under the pointer at the committed translation afterwards |
| ZoomPanStage.DragStart | web/src/components/ZoomPanStage.tsx:92-98 | a drag start cancels any tween and moves nothing |
| ZoomPanStage.DragMove | web/src/components/ZoomPanStage.tsx:116 | dragging moves the stage node only; the committed translation, zoom and tween are unchanged |
| ZoomPanStage.DragEnd | web/src/components/ZoomPanStage.tsx:100-104 | with no tween running, the node's position is committed and node and state agree; with a tween running, nothing changes |
| ZoomPanStage.Step | web/src/components/ZoomPanStage.tsx:24-118 | each stage event keeps the zoom in [0.5, 2], and every event but a drag move keeps node and committed state in agreement |
| ZoomPanStage.Run | web/src/components/ZoomPanStage.tsx:18-104 | any sequence of stage events keeps the zoom in [0.5, 2] |
| ZoomPanStage.ZoomAlwaysInRange | web/src/components/ZoomPanStage.tsx:19-80 | from zoom 1, the zoom stays within [0.5, 2] after any events |
| ZoomPanStage.DragWinsOverTween | web/src/components/ZoomPanStage.tsx:92-104 | a drag that starts during a tween always keeps its drop position: node and committed state both end there, and no tween remains |
| ZoomPanStage.CentreThenFinish | web/src/components/ZoomPanStage.tsx:35-53 | a centring tween that finishes leaves the requested point in the middle of the view, with node and committed state agreeing |
| ZoomPanStage.ZoomInDuringDrag | web/src/components/ZoomPanStage.tsx:69-89 | at zoom 1, a stage dragged to `at` and not yet dropped zooms to 1.1 about `at` when the pointer is there: `at` is committed, not the translation from before the drag |
| SkillTree.ViewScale | web/src/components/SkillTree.tsx:58-59 | the scale is at most 1, fits 600 units into both sides, is 1 when both sides are at least 600, and is otherwise the smaller side over 600 |
| SkillTree.RecentreEffect | web/src/components/SkillTree.tsx:22-45 | the first run only records the id; later runs centre exactly when the id is non-empty, new, the stage is mounted and a node has it, aiming at that node's scaled offset; every run records the current id |
| SkillTree.SameIdDoesNotRecentre | web/src/components/SkillTree.tsx:31-44 | running the effect again with the same active id never centres, whatever changed in nodes, size or scale |
| SkillTree.EffectTargetsFoundNode | web/src/components/SkillTree.tsx:31-40 | a later run with a new, present, non-empty id aims at that node's scaled offset |
| SkillTree.ActivatedNodeFound | web/src/store/skillTreeStore.ts:172-179 | after activation the node is still found under its id, at the same position |
| SkillTree.ActivationCentresNode | web/src/components/SkillTree.tsx:31-44 | activating a node, running the effect and finishing the tween leaves the stage at the translation that centres that node's scaled offset |
| DetailModal.ModalContent | web/src/components/DetailModal.tsx:43-71 | each body is characterised exactly: Central iff "center"; Category iff one of the four ids; then the "project", "experience" and "skill" prefixes in that order; Skill for everything else |
| DetailModal.Modal | web/src/components/DetailModal.tsx:13-97 | something is shown exactly when the modal is open and has node data; it is a header with the node's label and description above the body chosen from the node's id |
| DetailModal.CategoryRuleComesFirst | web/src/components/DetailModal.tsx:50-67 | "projects", "experience" and "skills" match later prefixes, yet open the category body |
| DetailModal.OnlyIdMatters | web/src/components/DetailModal.tsx:43-71 | two nodes with the same id get the same body, whatever their label and description |
| DetailModal.StoreModals | web/src/components/DetailModal.tsx:43-71 | with the store's data, the centre gets the central body, the categories the category body and all five children the skill body |
| SkillNodeView.CategorySprite | web/src/components/SkillNode.tsx:23-36 | each category id has its own hexagon, and every other id gets the experience hexagon |
| SkillNodeView.LevelTwoIds | web/src/components/SkillNode.tsx:41 | an id is listed exactly when some level-2 node carries it |
| SkillNodeView.ChildSprite | web/src/components/SkillNode.tsx:38-48 | circle 1 exactly for an even index in the collated list; an absent id gets circle 2 |
| SkillNodeView.NeighboursAlternate | web/src/components/SkillNode.tsx:41-47 | with no duplicates, neighbours in the collated list get different circles |
| SkillNodeView.StoreLevelTwoIds | web/src/components/SkillNode.tsx:40-41 | the store's level-2 ids are its five children, in store order |
| SkillNodeView.StoreChildrenCollated | web/src/components/SkillNode.tsx:41 | backend, education, frontend, mobile-projects, web-projects is a strictly increasing permutation of those ids |
| SkillNodeView.StoreChildSprites | web/src/components/SkillNode.tsx:44-47 | along that order, backend, frontend and web-projects get circle 1; education and mobile-projects get circle 2 |
| SkillNodeView.NodeSprite | web/src/components/SkillNode.tsx:325-366 | the square sprite exactly for level 0 and for levels outside 1 and 2; the category or child rule otherwise |
| SkillNodeView.BaseRadius | web/src/components/SkillNode.tsx:249 | the base radius is 80, 55 or 40 exactly for levels 0, 1 and 2, and 30 otherwise |
| SkillNodeView.Radius | web/src/components/SkillNode.tsx:249-250 | the radius is the base radius times the scale, positive for a positive scale |
| SkillNodeView.RadiusShrinksWithDepth | web/src/components/SkillNode.tsx:249-250 | at a positive scale, the centre is larger than a category, which is larger than a child, which is larger than any other level |
| SkillNodeView.FontSize | web/src/components/SkillNode.tsx:253-271 | the label size is at least 8 and at least the level's share of the radius, and equals one of the two |
| SkillNodeView.FontSizeGrowsWithScale | web/src/components/SkillNode.tsx:253-271 | a larger non-negative scale never gives a smaller label |
| SkillNodeView.FullScaleFontSizes | web/src/components/SkillNode.tsx:253-271 | at scale 1 the labels are 19.04, 15.4, 14.4 and 8.4 for levels 0, 1, 2 and other |
| SkillNodeView.NodeSize | web/src/components/SkillNode.tsx:51-56 | the sprite side is 200, 108 or 88 exactly for levels 0, 1 and 2, and 80 otherwise |
| SkillNodeView.SpriteSize | web/src/components/SkillNode.tsx:325-366 | the drawn sprite side is the level's side times the scale |
| SkillNodeView.SpriteTopLeft | web/src/components/SkillNode.tsx:122-123 | the top-left corner plus half a side is the given point on both axes |
| SkillNodeView.AnimationTime | web/src/components/SkillNode.tsx:154 | a missing `animationTime` is 0 |
| SkillNodeView.NodePosition | web/src/components/SkillNode.tsx:161-163 | the orbital layout exactly when `uiMode` is "orbital", the static layout otherwise |
| SkillNodeView.StoreUsesStaticLayout | web/src/components/SkillNode.tsx:156-163 | with no `uiMode` in the store, every node is placed statically, and every child sits at its scaled designer offset |
| SkillNodeView.DefaultTimeIsZero | web/src/components/SkillNode.tsx:154-163 | in orbital mode with no time given, a category sits at its base angle on the `200 * scale` circle |
| SkillNodeView.Click | web/src/components/SkillNode.tsx:369-374 | a click makes this node the active one; ids, hover and canvas size are kept |
| SkillNodeView.MouseEnter | web/src/components/SkillNode.tsx:376-378 | entering makes this node the hovered one; the active id is kept |
| SkillNodeView.MouseLeave | web/src/components/SkillNode.tsx:380-382 | leaving clears every hover flag and the hovered id |
| SkillNodeView.ClickIdempotent | web/src/components/SkillNode.tsx:369-374 | clicking twice gives the same store as clicking once |
| SkillNodeView.EnterThenLeave | web/src/components/SkillNode.tsx:376-382 | entering then leaving equals clearing the hover, and changes no other field of any node |
| Icons.NodeIconAsWritten | web/src/utils/svgIcons.ts:45-62 | level 0 gives the default; a table id gives its icon; an inherited member is returned exactly for non-table names of `Object.prototype` at a non-zero level |
| Icons.InheritedNameLeaks | web/src/utils/svgIcons.ts:49-61 | for "toString" at level 1, the lookup yields the inherited function, not an icon |
| Icons.NodeIcon | web/src/utils/svgIcons.ts:45-62 | level 0 gives the default; a table id gives its icon; any other id gives the default; the gear icon is never chosen |
| Icons.CorrectedAgreesOffPrototype | web/src/utils/svgIcons.ts:49-61 | the corrected lookup agrees with the written one whenever that gives an icon, and on every id that is not an inherited name |
| Icons.LevelIrrelevant | web/src/utils/svgIcons.ts:46-61 | at any non-zero level the level does not affect the icon |
| Icons.TableIcons | web/src/utils/svgIcons.ts:49-59 | the categories and children map to the project, briefcase, tools and contact icons as listed |
| Icons.CentreIsDefault | web/src/utils/svgIcons.ts:46 | level 0 gets the default icon whatever its id |

## Left out

- Trigonometry, `Math.sqrt` and `Math.PI`:
  - the four functions are parameters;
  - π is the decimal `3.141592653589793`;
  - IEEE floating point, rounding and NaN are not modelled, and all arithmetic is exact.
- StaticLayout.StaticPosition: its own contract covers the centre, the compass slots and the fallback. The arc children's points are stated by `ListedProjectChild` and `ListedExperienceChild`, and their distance from the slot by `ProjectChildAroundParent` and `ExperienceChildAroundParent`.
- ZoomPanStage.Wheel: it requires a non-zero zoom, because the code divides by it. The zoom starts at 1 and stays in [0.5, 2] (`ZoomPanStage.Run`), so a zero zoom cannot occur.
- The `stageRef.current` null checks in `centerOn` and `handleWheel` are not modelled: the stage is taken as mounted. The re-centre effect takes whether the stage is mounted as a parameter.
- Konva tween easing, duration and frame timing. The intermediate positions are an input to `TweenUpdate`.
- react-konva's prop reconciliation is not part of this model. `ZoomPanStage.Commit` takes it that a changed `x` or `y` prop is written to the stage node and an unchanged one is not.
- `preventDefault` on wheel events.
- When React re-runs the effect is not modelled. Each run is one call of `RecentreEffect` with the size and scale of that render.
- The window resize listener. The view size is a parameter, and the store's canvas size stands in for the view's `dimensions`.
- The `localeCompare` collation in `getChildNodeSprite`. `ChildSprite` takes the collated id list as input. `Collated` states it as a strictly increasing permutation of the level-2 ids under code-unit order, which agrees with the collation for the store's ids.
- SkillNodeView.Click: `openDetailModal(node.id)` is not modelled. The store defines no `openDetailModal`, so that call fails after the store update. The click is modelled as `setActiveNode` only.
- `uiMode` and `toggleUIMode`: the store does not define them. `uiMode` is a parameter of `NodePosition`, absent in the store's case.
- The glow and rotation animations, `PixelatedRing`, the label outline copies and `getTextConfig` are rendering only.
- `scaleSVGPath`: regular-expression rewriting of decimal text, which is floating-point formatting.
- The modal bodies (`CentralModal`, `CategoryModal`, `ProjectModal`, `SkillModal`, `ExperienceModal`), `OrbitalCircles`, `UIToggle`, `App`, the styling configuration and the type declarations carry no modelled behaviour.
- The Escape key handler and `body.style.overflow` in the detail modal: document I/O.
- Icons are modelled as an enumeration. The SVG path strings are not reproduced.
- The exact number of lines drawn for the store's data is not stated. The bound, soundness and completeness of `EdgesOf` are stated for every input instead.

## Findings

| source | as written | input that shows it | evidently intended | confidence | as-written member | corrected member |
|---|---|---|---|---|---|---|
| web/src/utils/svgIcons.ts:61 | `iconMap[nodeId]` indexes a plain object literal, so names inherited from `Object.prototype` also resolve, and a truthy inherited member is returned | `getNodeIcon("toString", 1)` returns the `Object.prototype.toString` function, not an SVG path | every id without an own entry gets the default icon | medium; not executed | Icons.NodeIconAsWritten | Icons.NodeIcon |
