/** The skill-tree view: the drawing scale and centre derived from the
    window size, and the effect that re-centres the stage when the active
    node changes. */
module SkillTree {
  import opened Wrappers
  import opened Geometry
  import opened Store
  import ZoomPanStage

  /** Window side length at and above which the drawing is not shrunk. */
  const ReferenceSide: real := 600.0

  /** `Math.min(1, Math.min(width, height) / 600)`. */
  function ViewScale(width: real, height: real): (r: real)
    ensures r <= 1.0
    ensures r * ReferenceSide <= width && r * ReferenceSide <= height
    ensures width >= ReferenceSide && height >= ReferenceSide ==> r == 1.0
    ensures (width < ReferenceSide || height < ReferenceSide) ==>
      r * ReferenceSide == (if width < height then width else height)
  {
    var minDimension := if width < height then width else height;
    var fitted := minDimension / ReferenceSide;
    if 1.0 < fitted then 1.0 else fitted
  }

  /** `isInitialLoad` and `lastActiveNodeId`, the state the effect keeps
      between runs. */
  datatype Tracker = Tracker(initialLoad: bool, last: Option<string>)

  function InitialTracker(): Tracker
  {
    Tracker(true, None)
  }

  /** The result of one run of the effect: the new tracker, and the point
      handed to `centerOn`, if any. */
  datatype EffectResult = EffectResult(tracker: Tracker, centreOn: Option<Point>)

  /** One run of the re-centring effect, which the view runs whenever the
      active id, the nodes, the window size or the scale changes. The first
      run only records the active id. Later runs centre on the active node's
      scaled designer offset when the id is set (a non-empty string),
      differs from the one last recorded, the stage is mounted, and a node
      has that id; every later run records the current id. */
  function RecentreEffect(tr: Tracker, activeId: Option<string>, nodes: seq<SkillNode>,
                          size: Size, scale: real, stageReady: bool): (r: EffectResult)
    ensures tr.initialLoad ==> r == EffectResult(Tracker(false, activeId), None)
    ensures !r.tracker.initialLoad && r.tracker.last == activeId
    ensures !tr.initialLoad ==>
      (r.centreOn.Some? <==>
        activeId.Some? && activeId.value != "" && activeId != tr.last && stageReady && HasId(nodes, activeId.value))
    ensures r.centreOn.Some? ==>
      var node := FindNode(nodes, activeId.value).value;
      r.centreOn.value == Offset(size.width / 2.0, size.height / 2.0, node.position, scale)
  {
    if tr.initialLoad then EffectResult(Tracker(false, activeId), None)
    else if activeId.Some? && activeId.value != "" && activeId != tr.last && stageReady
            && FindNode(nodes, activeId.value).Some? then
      var node := FindNode(nodes, activeId.value).value;
      EffectResult(Tracker(false, activeId), Some(Offset(size.width / 2.0, size.height / 2.0, node.position, scale)))
    else EffectResult(Tracker(false, activeId), None)
  }

  /** Re-running the effect with the same active id never re-centres, so
      clicking the active node again, resizing, or moving nodes does not
      move the camera. */
  lemma SameIdDoesNotRecentre(tr: Tracker, activeId: Option<string>, nodes: seq<SkillNode>, nodes': seq<SkillNode>,
                              size: Size, size': Size, scale: real, scale': real, ready: bool, ready': bool)
    ensures var first := RecentreEffect(tr, activeId, nodes, size, scale, ready);
      RecentreEffect(first.tracker, activeId, nodes', size', scale', ready').centreOn.None?
  {
  }

  /** Activating a node through the store, then letting the effect run and
      the stage's tween finish, leaves the stage at the translation that
      puts that node's scaled designer offset in the middle of the view
      (`CentreTarget`). */
  lemma ActivationCentresNode(st: Store.State, k: int, tr: Tracker, stage: ZoomPanStage.Stage)
    requires UniqueIds(st.nodes) && 0 <= k < |st.nodes| && st.nodes[k].id != ""
    requires !tr.initialLoad && tr.last != Some(st.nodes[k].id)
    ensures
      var s1 := SetActiveNode(st, Some(st.nodes[k].id));
      var scale := ViewScale(s1.canvasSize.width, s1.canvasSize.height);
      var eff := RecentreEffect(tr, s1.activeNodeId, s1.nodes, s1.canvasSize, scale, true);
      eff.centreOn.Some? &&
      var p := eff.centreOn.value;
      var done := ZoomPanStage.TweenFinish(ZoomPanStage.CenterOn(stage, s1.canvasSize.width, s1.canvasSize.height, p.x, p.y));
      done.tween.None?
      && done.pos == ZoomPanStage.CentreTarget(s1.canvasSize.width, s1.canvasSize.height, p.x, p.y, stage.scale)
      && p == Offset(s1.canvasSize.width / 2.0, s1.canvasSize.height / 2.0, st.nodes[k].position, scale)
  {
    var id := st.nodes[k].id;
    var s1 := SetActiveNode(st, Some(id));
    ActivatedNodeFound(st, k);
    var scale := ViewScale(s1.canvasSize.width, s1.canvasSize.height);
    EffectTargetsFoundNode(tr, id, s1.nodes, s1.canvasSize, scale);
  }

  /** A later run with a new, non-empty id of a present node centres on
      that node's scaled offset. */
  lemma EffectTargetsFoundNode(tr: Tracker, id: string, nodes: seq<SkillNode>, size: Size, scale: real)
    requires !tr.initialLoad && id != "" && tr.last != Some(id) && FindNode(nodes, id).Some?
    ensures RecentreEffect(tr, Some(id), nodes, size, scale, true).centreOn
            == Some(Offset(size.width / 2.0, size.height / 2.0, FindNode(nodes, id).value.position, scale))
  {
  }

  /** After activation the node is still found under its id, at the same
      designer offset. */
  lemma ActivatedNodeFound(st: Store.State, k: int)
    requires UniqueIds(st.nodes) && 0 <= k < |st.nodes|
    ensures var s1 := SetActiveNode(st, Some(st.nodes[k].id));
      FindNode(s1.nodes, st.nodes[k].id).Some? && FindNode(s1.nodes, st.nodes[k].id).value.position == st.nodes[k].position
  {
    var s1 := SetActiveNode(st, Some(st.nodes[k].id));
    assert s1.nodes[k].(isActive := st.nodes[k].isActive) == st.nodes[k];
    assert UniqueIds(s1.nodes);
    FindNodeUnique(s1.nodes, k);
  }
}
