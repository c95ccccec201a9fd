/** The pan-and-zoom stage: its translation and zoom, and whether a
    centring tween is running. The tween itself (easing, duration, frames)
    belongs to the animation library; the model keeps only its target and
    the events that start, advance, cancel and finish it. */
module ZoomPanStage {
  import opened Wrappers
  import opened Geometry

  const MinScale: real := 0.5
  const MaxScale: real := 2.0
  /** Zoom change per wheel event. */
  const ZoomStep: real := 0.1

  /** `stagePos`, `stageScale` and `currentTweenRef`, together with the
      translation the Konva stage node itself holds (`stage.x()`,
      `stage.y()`). `pos` is the committed React state passed to the node
      as its `x`/`y` props; `live` is where the node actually is, which a
      drag or a tween moves without going through React. `tween` holds the
      target of the running tween, or `None` when no tween is running. */
  datatype Stage = Stage(pos: Point, live: Point, scale: real, tween: Option<Point>)

  function InitialStage(): Stage
  {
    Stage(Point(0.0, 0.0), Point(0.0, 0.0), 1.0, None)
  }

  predicate ScaleInRange(s: Stage) {
    MinScale <= s.scale <= MaxScale
  }

  /** The node is where the committed state says it is. */
  predicate Synced(s: Stage) {
    s.live == s.pos
  }

  /** `Math.max(0.5, Math.min(2, v))`. */
  function ClampScale(v: real): (r: real)
    ensures MinScale <= r <= MaxScale
    ensures MinScale <= v <= MaxScale ==> r == v
    ensures v < MinScale ==> r == MinScale
    ensures v > MaxScale ==> r == MaxScale
  {
    var upper := if MaxScale < v then MaxScale else v;
    if MinScale > upper then MinScale else upper
  }

  /** `deltaY > 0 ? -1 : 1`: scrolling down zooms out, anything else
      (including a zero delta) zooms in. */
  function ZoomDirection(deltaY: real): (d: real)
    ensures d == -1.0 <==> deltaY > 0.0
    ensures d == 1.0 <==> deltaY <= 0.0
  {
    if deltaY > 0.0 then -1.0 else 1.0
  }

  /** `setStagePos(newPos)` and the re-render that follows: the committed
      translation becomes `newPos`, and each coordinate whose prop value
      changed is written to the node (a prop that keeps its value is not
      re-applied, so a node moved by a drag keeps that coordinate). */
  function Commit(s: Stage, newPos: Point): (r: Stage)
    ensures r.pos == newPos && r.scale == s.scale && r.tween == s.tween
    ensures Synced(s) ==> Synced(r)
    ensures newPos == s.live ==> Synced(r)
  {
    var x := if newPos.x != s.pos.x then newPos.x else s.live.x;
    var y := if newPos.y != s.pos.y then newPos.y else s.live.y;
    s.(pos := newPos, live := Point(x, y))
  }

  /** The stage translation that brings the point `(nodeX, nodeY)` of the
      drawing to the middle of a `width` x `height` view at `scale`. */
  function CentreTarget(width: real, height: real, nodeX: real, nodeY: real, scale: real): (r: Point)
    ensures r.x + nodeX * scale == width / 2.0
    ensures r.y + nodeY * scale == height / 2.0
  {
    Point(width / 2.0 - nodeX * scale, height / 2.0 - nodeY * scale)
  }

  /** `centerOn(nodeX, nodeY)`: any running tween is dropped and a new one
      towards the centring translation, computed with the committed zoom,
      starts; nothing moves until the tween advances. */
  function CenterOn(s: Stage, width: real, height: real, nodeX: real, nodeY: real): (r: Stage)
    ensures r.tween == Some(CentreTarget(width, height, nodeX, nodeY, s.scale))
    ensures r.pos == s.pos && r.live == s.live && r.scale == s.scale
  {
    s.(tween := Some(CentreTarget(width, height, nodeX, nodeY, s.scale)))
  }

  /** One frame of the tween: the tween moves the node to the intermediate
      position `p`, and `onUpdate` commits the node's position. */
  function TweenUpdate(s: Stage, p: Point): (r: Stage)
    ensures s.tween.Some? ==> r == s.(pos := p, live := p)
    ensures s.tween.None? ==> r == s
  {
    if s.tween.Some? then Commit(s.(live := p), p) else s
  }

  /** The tween's end: the node reaches the target, `onFinish` clears the
      tween and commits the node's position. */
  function TweenFinish(s: Stage): (r: Stage)
    ensures r.tween.None? && r.scale == s.scale
    ensures s.tween.Some? ==> r.pos == s.tween.value && r.live == s.tween.value
    ensures s.tween.None? ==> r == s
  {
    match s.tween
    case Some(target) => Commit(Stage(s.pos, target, s.scale, None), target)
    case None => s
  }

  /** `handleWheel`: nothing happens while a tween runs or when there is no
      pointer position; otherwise the zoom moves one step in the wheel's
      direction, clamped to [0.5, 2], and a translation is committed that
      keeps the drawing point under the pointer, measured against the
      node's own translation (`stage.x()`, `stage.y()`), under the pointer. */
  function Wheel(s: Stage, deltaY: real, pointer: Option<Point>): (r: Stage)
    requires s.scale != 0.0
    ensures s.tween.Some? || pointer.None? ==> r == s
    ensures r.tween == s.tween && r.scale != 0.0
    ensures s.tween.None? && pointer.Some? ==>
      r.scale == ClampScale(s.scale + ZoomDirection(deltaY) * ZoomStep)
    ensures ScaleInRange(s) ==> ScaleInRange(r)
    ensures Synced(s) ==> Synced(r)
  {
    if s.tween.Some? then s
    else if pointer.None? then s
    else
      var p := pointer.value;
      var oldScale := s.scale;
      var mousePointTo := Point((p.x - s.live.x) / oldScale, (p.y - s.live.y) / oldScale);
      var newScale := ClampScale(oldScale + ZoomDirection(deltaY) * ZoomStep);
      var newPos := Point(p.x - mousePointTo.x * newScale, p.y - mousePointTo.y * newScale);
      Commit(s.(scale := newScale), newPos)
  }

  /** Zooming about the pointer: the drawing point under the pointer on the
      stage as displayed before the event is under the pointer at the
      committed translation afterwards. */
  lemma WheelKeepsPointUnderCursor(s: Stage, deltaY: real, p: Point)
    requires s.scale != 0.0 && s.tween.None?
    ensures var r := Wheel(s, deltaY, Some(p));
      (p.x - r.pos.x) / r.scale == (p.x - s.live.x) / s.scale
      && (p.y - r.pos.y) / r.scale == (p.y - s.live.y) / s.scale
  {
    var r := Wheel(s, deltaY, Some(p));
    var mx := (p.x - s.live.x) / s.scale;
    var my := (p.y - s.live.y) / s.scale;
    assert r.pos.x == p.x - mx * r.scale && r.pos.y == p.y - my * r.scale;
    DivideBack(p.x - r.pos.x, mx, r.scale);
    DivideBack(p.y - r.pos.y, my, r.scale);
  }

  /** Dividing a product by one non-zero factor gives the other: used to
      read the drawing coordinate back from a committed translation. */
  lemma DivideBack(a: real, m: real, k: real)
    requires k != 0.0 && a == m * k
    ensures a / k == m
  {
  }

  /** `handleDragStart`: a running tween is cancelled where it stands. */
  function DragStart(s: Stage): (r: Stage)
    ensures r.tween.None? && r.pos == s.pos && r.live == s.live && r.scale == s.scale
  {
    s.(tween := None)
  }

  /** Konva moving the node under the pointer during a drag; React's
      state is not told. */
  function DragMove(s: Stage, at: Point): (r: Stage)
    ensures r.live == at && r.pos == s.pos && r.scale == s.scale && r.tween == s.tween
  {
    s.(live := at)
  }

  /** `handleDragEnd`: the node's position (`e.target.x()`, `e.target.y()`)
      is committed only when no tween is running. */
  function DragEnd(s: Stage): (r: Stage)
    ensures s.tween.None? ==> r.pos == s.live && r.live == s.live && Synced(r)
    ensures s.tween.Some? ==> r == s
    ensures r.scale == s.scale && r.tween == s.tween
  {
    if s.tween.None? then Commit(s, s.live) else s
  }

  datatype Event =
    | Centre(width: real, height: real, nodeX: real, nodeY: real)
    | Update(at: Point)
    | Finish
    | Scroll(deltaY: real, pointer: Option<Point>)
    | Grab
    | Move(at: Point)
    | Drop

  function Step(s: Stage, e: Event): (r: Stage)
    requires ScaleInRange(s)
    ensures ScaleInRange(r)
    ensures Synced(s) && !e.Move? ==> Synced(r)
  {
    match e
    case Centre(w, h, x, y) => CenterOn(s, w, h, x, y)
    case Update(p) => TweenUpdate(s, p)
    case Finish => TweenFinish(s)
    case Scroll(d, p) => Wheel(s, d, p)
    case Grab => DragStart(s)
    case Move(p) => DragMove(s, p)
    case Drop => DragEnd(s)
  }

  /** Applies the events in order; the zoom stays within [0.5, 2]. */
  function Run(s: Stage, events: seq<Event>): (r: Stage)
    requires ScaleInRange(s)
    ensures ScaleInRange(r)
    decreases |events|
  {
    if |events| == 0 then s else Run(Step(s, events[0]), events[1..])
  }

  /** Starting at zoom 1, the zoom is within [0.5, 2] after any events. */
  lemma ZoomAlwaysInRange(events: seq<Event>)
    ensures MinScale <= Run(InitialStage(), events).scale <= MaxScale
  {
  }

  /** A drag that starts during a tween always has its drop position kept:
      the tween is gone by the time the drag ends, and the node and the
      committed state agree on where it was dropped. */
  lemma DragWinsOverTween(s: Stage, drop: Point)
    ensures DragEnd(DragMove(DragStart(s), drop)) == Stage(drop, drop, s.scale, None)
  {
  }

  /** A centring tween left to finish rests exactly on the centring
      translation: the requested point ends up in the middle of the view. */
  lemma CentreThenFinish(s: Stage, width: real, height: real, nodeX: real, nodeY: real)
    ensures var r := TweenFinish(CenterOn(s, width, height, nodeX, nodeY));
      r.tween.None? && r.scale == s.scale && Synced(r)
      && r.pos.x + nodeX * s.scale == width / 2.0 && r.pos.y + nodeY * s.scale == height / 2.0
  {
  }

  /** One wheel-up event at zoom 1 with the pointer on the node's own
      translation gives zoom 1.1 and commits that translation: a stage
      dragged to `at` and not yet dropped zooms about `at`, not about the
      translation committed before the drag. */
  lemma ZoomInDuringDrag(s: Stage, at: Point, deltaY: real)
    requires s.scale == 1.0 && s.tween.None? && deltaY <= 0.0
    ensures Wheel(DragMove(s, at), deltaY, Some(at)) == Stage(at, at, 1.1, None)
  {
  }
}
