/** The skill-tree store: a fixed sequence of node records plus the ids of
    the active and hovered nodes and the canvas size, changed only through
    four update operations. Each operation is a pure function from the old
    state to the new one. */
module Store {
  import opened Wrappers
  import opened Geometry

  /** One vertex of the tree. `position` is the designer's offset from the
      canvas centre; `level` 0 is the centre, 1 the category ring, 2 the
      leaves. */
  datatype SkillNode = SkillNode(
    id: string,
    title: string,
    description: Option<string>,
    position: Point,
    level: int,
    angle: Option<real>,
    isActive: bool,
    isHovered: bool,
    connections: seq<string>,
    icon: Option<string>,
    color: Option<string>,
    strokeColor: Option<string>)

  datatype Size = Size(width: real, height: real)

  datatype State = State(
    nodes: seq<SkillNode>,
    activeNodeId: Option<string>,
    hoveredNodeId: Option<string>,
    canvasSize: Size)

  // ---------------------------------------------------------------------
  // Invariants

  predicate UniqueIds(nodes: seq<SkillNode>) {
    forall i, j :: 0 <= i < j < |nodes| ==> nodes[i].id != nodes[j].id
  }

  predicate HasId(nodes: seq<SkillNode>, id: string) {
    exists i :: 0 <= i < |nodes| && nodes[i].id == id
  }

  predicate AtMostOneActive(nodes: seq<SkillNode>) {
    forall i, j :: 0 <= i < |nodes| && 0 <= j < |nodes| && nodes[i].isActive && nodes[j].isActive ==> i == j
  }

  predicate AtMostOneHovered(nodes: seq<SkillNode>) {
    forall i, j :: 0 <= i < |nodes| && 0 <= j < |nodes| && nodes[i].isHovered && nodes[j].isHovered ==> i == j
  }

  /** The per-node `isActive` flags agree with `activeNodeId`. */
  predicate ActiveAgrees(s: State) {
    forall i :: 0 <= i < |s.nodes| ==> (s.nodes[i].isActive <==> s.activeNodeId == Some(s.nodes[i].id))
  }

  /** The per-node `isHovered` flags agree with `hoveredNodeId`. */
  predicate HoveredAgrees(s: State) {
    forall i :: 0 <= i < |s.nodes| ==> (s.nodes[i].isHovered <==> s.hoveredNodeId == Some(s.nodes[i].id))
  }

  predicate Consistent(s: State) {
    UniqueIds(s.nodes) && ActiveAgrees(s) && HoveredAgrees(s)
  }

  /** Same length and the same id at every position. */
  predicate SameIds(a: seq<SkillNode>, b: seq<SkillNode>) {
    |a| == |b| && forall i :: 0 <= i < |a| ==> a[i].id == b[i].id
  }

  /** Agreement flags plus unique ids give at most one active and at most
      one hovered node. */
  lemma ConsistentFlags(s: State)
    requires Consistent(s)
    ensures AtMostOneActive(s.nodes) && AtMostOneHovered(s.nodes)
  {
  }

  // ---------------------------------------------------------------------
  // Lookup

  /** `nodes.find(n => n.id === id)`: the first node with that id. */
  function FindNode(nodes: seq<SkillNode>, id: string): (r: Option<SkillNode>)
    ensures r.None? <==> !HasId(nodes, id)
    ensures r.Some? ==> r.value in nodes && r.value.id == id
    ensures r.Some? ==> exists i :: 0 <= i < |nodes| && nodes[i] == r.value
                                  && forall j :: 0 <= j < i ==> nodes[j].id != id
  {
    if |nodes| == 0 then None
    else if nodes[0].id == id then Some(nodes[0])
    else
      var r := FindNode(nodes[1..], id);
      assert forall i :: 0 < i < |nodes| ==> nodes[i] == nodes[1..][i - 1];
      assert HasId(nodes[1..], id) ==> HasId(nodes, id);
      r
  }

  /** With unique ids, the node found is the one at any index holding the id. */
  lemma FindNodeUnique(nodes: seq<SkillNode>, i: int)
    requires UniqueIds(nodes) && 0 <= i < |nodes|
    ensures FindNode(nodes, nodes[i].id) == Some(nodes[i])
  {
    var r := FindNode(nodes, nodes[i].id);
    var k :| 0 <= k < |nodes| && nodes[k] == r.value && forall j :: 0 <= j < k ==> nodes[j].id != nodes[i].id;
    if k < i {
      assert nodes[k].id != nodes[i].id;
    } else if i < k {
      assert nodes[i].id == nodes[i].id;
    }
  }

  // ---------------------------------------------------------------------
  // Operations

  /** The node list after `setActiveNode(id)`: `isActive` becomes
      `node.id === id`, every other field is kept. */
  function MarkActive(nodes: seq<SkillNode>, id: Option<string>): (r: seq<SkillNode>)
    ensures |r| == |nodes|
    ensures forall i :: 0 <= i < |r| ==> (r[i].isActive <==> id == Some(nodes[i].id))
    ensures forall i :: 0 <= i < |r| ==> r[i].(isActive := nodes[i].isActive) == nodes[i]
  {
    seq(|nodes|, i requires 0 <= i < |nodes| => nodes[i].(isActive := id == Some(nodes[i].id)))
  }

  /** The node list after `setHoveredNode(id)`. */
  function MarkHovered(nodes: seq<SkillNode>, id: Option<string>): (r: seq<SkillNode>)
    ensures |r| == |nodes|
    ensures forall i :: 0 <= i < |r| ==> (r[i].isHovered <==> id == Some(nodes[i].id))
    ensures forall i :: 0 <= i < |r| ==> r[i].(isHovered := nodes[i].isHovered) == nodes[i]
  {
    seq(|nodes|, i requires 0 <= i < |nodes| => nodes[i].(isHovered := id == Some(nodes[i].id)))
  }

  /** `setActiveNode(id)`: stores `id` verbatim (known or not) and marks
      exactly the nodes carrying it; hover state and canvas size are kept. */
  function SetActiveNode(s: State, id: Option<string>): (r: State)
    ensures r.activeNodeId == id
    ensures ActiveAgrees(r)
    ensures SameIds(s.nodes, r.nodes)
    ensures forall i :: 0 <= i < |r.nodes| ==> r.nodes[i].(isActive := s.nodes[i].isActive) == s.nodes[i]
    ensures r.hoveredNodeId == s.hoveredNodeId && r.canvasSize == s.canvasSize
  {
    s.(activeNodeId := id, nodes := MarkActive(s.nodes, id))
  }

  /** `setHoveredNode(id)`: the same rule for `isHovered`. */
  function SetHoveredNode(s: State, id: Option<string>): (r: State)
    ensures r.hoveredNodeId == id
    ensures HoveredAgrees(r)
    ensures SameIds(s.nodes, r.nodes)
    ensures forall i :: 0 <= i < |r.nodes| ==> r.nodes[i].(isHovered := s.nodes[i].isHovered) == s.nodes[i]
    ensures r.activeNodeId == s.activeNodeId && r.canvasSize == s.canvasSize
  {
    s.(hoveredNodeId := id, nodes := MarkHovered(s.nodes, id))
  }

  /** `setCanvasSize(size)`: replaces the canvas size and nothing else. */
  function SetCanvasSize(s: State, size: Size): (r: State)
    ensures r.canvasSize == size
    ensures r.nodes == s.nodes && r.activeNodeId == s.activeNodeId && r.hoveredNodeId == s.hoveredNodeId
  {
    s.(canvasSize := size)
  }

  /** `updateNodePosition(id, p)`: every node with that id gets position
      `p`; every other node and every other field is unchanged. */
  function UpdateNodePosition(s: State, id: string, p: Point): (r: State)
    ensures SameIds(s.nodes, r.nodes)
    ensures forall i :: 0 <= i < |r.nodes| ==>
      r.nodes[i] == if s.nodes[i].id == id then s.nodes[i].(position := p) else s.nodes[i]
    ensures !HasId(s.nodes, id) ==> r == s
    ensures r.activeNodeId == s.activeNodeId && r.hoveredNodeId == s.hoveredNodeId && r.canvasSize == s.canvasSize
  {
    var nodes := seq(|s.nodes|, i requires 0 <= i < |s.nodes| =>
                       if s.nodes[i].id == id then s.nodes[i].(position := p) else s.nodes[i]);
    assert !HasId(s.nodes, id) ==> nodes == s.nodes;
    s.(nodes := nodes)
  }

  /** With unique ids, activating an id that some node carries leaves
      exactly that node active. */
  lemma SetActiveKnownId(s: State, k: int)
    requires UniqueIds(s.nodes) && 0 <= k < |s.nodes|
    ensures var r := SetActiveNode(s, Some(s.nodes[k].id));
      r.nodes[k].isActive && forall j :: 0 <= j < |r.nodes| && r.nodes[j].isActive ==> j == k
  {
  }

  /** Activating an unknown id, or `null`, leaves no node active although
      the unknown id is still recorded as `activeNodeId`. */
  lemma SetActiveUnknownId(s: State, id: Option<string>)
    requires id.None? || !HasId(s.nodes, id.value)
    ensures var r := SetActiveNode(s, id);
      r.activeNodeId == id && forall i :: 0 <= i < |r.nodes| ==> !r.nodes[i].isActive
  {
  }

  // ---------------------------------------------------------------------
  // Sequences of updates

  datatype Action =
    | SetActive(activeId: Option<string>)
    | SetHovered(hoveredId: Option<string>)
    | Resize(size: Size)
    | Move(moveId: string, to: Point)

  function Apply(s: State, a: Action): (r: State)
    ensures SameIds(s.nodes, r.nodes)
    ensures Consistent(s) ==> Consistent(r)
  {
    match a
    case SetActive(id) => SetActiveNode(s, id)
    case SetHovered(id) => SetHoveredNode(s, id)
    case Resize(size) => SetCanvasSize(s, size)
    case Move(id, p) => UpdateNodePosition(s, id, p)
  }

  /** Applies the updates in order. Ids never change, and a consistent
      store stays consistent: the flags keep matching the recorded ids. */
  function Run(s: State, actions: seq<Action>): (r: State)
    ensures SameIds(s.nodes, r.nodes)
    ensures Consistent(s) ==> Consistent(r)
    decreases |actions|
  {
    if |actions| == 0 then s
    else Run(Apply(s, actions[0]), actions[1..])
  }

  /** From the initial store, after any sequence of updates at most one
      node is active and at most one is hovered. */
  lemma RunFromInitial(actions: seq<Action>)
    ensures var r := Run(InitialState(), actions);
      AtMostOneActive(r.nodes) && AtMostOneHovered(r.nodes) && SameIds(InitialNodes(), r.nodes)
  {
    InitialConsistent();
    ConsistentFlags(Run(InitialState(), actions));
  }

  // ---------------------------------------------------------------------
  // Initial data

  function Node(id: string, title: string, description: string, position: Point, level: int,
                angle: Option<real>, isActive: bool, connections: seq<string>, color: string): SkillNode
  {
    SkillNode(id, title, Some(description), position, level, angle, isActive, false,
              connections, None, Some(color), Some(color))
  }

  function InitialNodes(): seq<SkillNode>
  {
    [ Node("center", "Firas Adnan Jalil", "Aspiring Software Engineer", Point(0.0, 0.0), 0,
           None, true, ["projects", "experience", "skills", "contact"], "#295b9c"),
      Node("projects", "Projects", "Portfolio & Commercial Work", Point(0.0, -200.0), 1,
           Some(-Pi / 2.0), false, ["center", "web-projects", "mobile-projects"], "#3e844b"),
      Node("experience", "Experience", "5+ Years Development", Point(200.0, 0.0), 1,
           Some(0.0), false, ["center", "education"], "#6c3ba4"),
      Node("skills", "Skills", "Languages & Frameworks", Point(0.0, 200.0), 1,
           Some(Pi / 2.0), false, ["center", "frontend", "backend"], "#b32428"),
      Node("contact", "Contact", "Get in touch", Point(-200.0, 0.0), 1,
           Some(Pi), false, ["center"], "#d4af37"),
      Node("web-projects", "Web Apps", "Full-stack applications", Point(-100.0, -300.0), 2,
           Some(-2.356), false, ["projects"], "#2e9a8c"),
      Node("mobile-projects", "Mobile", "iOS & Android apps", Point(100.0, -300.0), 2,
           Some(-0.785), false, ["projects"], "#2e9a8c"),
      Node("frontend", "Frontend", "React, Vue, Angular", Point(-100.0, 300.0), 2,
           Some(2.356), false, ["skills"], "#d65a1f"),
      Node("backend", "Backend", "Node.js, Python, Go", Point(100.0, 300.0), 2,
           Some(0.785), false, ["skills"], "#d65a1f"),
      Node("education", "Education", "Academic background", Point(300.0, -100.0), 2,
           Some(-0.464), false, ["experience"], "#c656a0")
    ]
  }

  function InitialState(): State
  {
    State(InitialNodes(), Some("center"), None, Size(800.0, 600.0))
  }

  /** Every connection of the node at index `i` names a node that lists
      it back. */
  predicate ListedBack(nodes: seq<SkillNode>, i: int)
    requires 0 <= i < |nodes|
  {
    forall c :: c in nodes[i].connections ==>
      var other := FindNode(nodes, c);
      other.Some? && nodes[i].id in other.value.connections
  }

  /** Every connection is listed from both ends. */
  predicate SymmetricConnections(nodes: seq<SkillNode>) {
    forall i :: 0 <= i < |nodes| ==> ListedBack(nodes, i)
  }

  lemma InitialUniqueIds()
    ensures UniqueIds(InitialNodes())
  {
  }

  /** The store starts consistent, with "center" the recorded active id
      and the only node flagged active, and nothing hovered. */
  lemma InitialConsistent()
    ensures Consistent(InitialState())
    ensures InitialState().activeNodeId == Some("center")
    ensures forall i :: 0 <= i < |InitialNodes()| ==> (InitialNodes()[i].isActive <==> InitialNodes()[i].id == "center")
  {
    var ns := InitialNodes();
    InitialUniqueIds();
    assert ns[0].id == "center" && ns[0].isActive;
    assert forall i :: 1 <= i < |ns| ==> !ns[i].isActive && !ns[i].isHovered;
    assert forall i :: 1 <= i < |ns| ==> ns[i].id != ns[0].id;
  }

  /** A node's connections are listed back when each one is the id of a
      known node (given by index) whose own list names it. */
  lemma ListedBackByIndex(nodes: seq<SkillNode>, i: int, js: seq<int>)
    requires UniqueIds(nodes) && 0 <= i < |nodes|
    requires |js| == |nodes[i].connections|
    requires forall k :: 0 <= k < |js| ==> 0 <= js[k] < |nodes| && nodes[js[k]].id == nodes[i].connections[k]
    requires forall k :: 0 <= k < |js| ==> 0 <= js[k] < |nodes| && nodes[i].id in nodes[js[k]].connections
    ensures ListedBack(nodes, i)
  {
    forall c | c in nodes[i].connections
      ensures FindNode(nodes, c).Some? && nodes[i].id in FindNode(nodes, c).value.connections
    {
      var k :| 0 <= k < |js| && nodes[i].connections[k] == c;
      FindNodeUnique(nodes, js[k]);
    }
  }

  lemma InitialListedBackCentre()
    ensures forall i :: 0 <= i < 3 ==> ListedBack(InitialNodes(), i)
  {
    var ns := InitialNodes();
    InitialUniqueIds();
    forall i | 0 <= i < 3
      ensures ListedBack(ns, i)
    {
      if i == 0 { ListedBackByIndex(ns, 0, [1, 2, 3, 4]); }
      else if i == 1 { ListedBackByIndex(ns, 1, [0, 5, 6]); }
      else { ListedBackByIndex(ns, 2, [0, 9]); }
    }
  }

  lemma InitialListedBackRing()
    ensures forall i :: 3 <= i < 6 ==> ListedBack(InitialNodes(), i)
  {
    var ns := InitialNodes();
    InitialUniqueIds();
    forall i | 3 <= i < 6
      ensures ListedBack(ns, i)
    {
      if i == 3 { ListedBackByIndex(ns, 3, [0, 7, 8]); }
      else if i == 4 { ListedBackByIndex(ns, 4, [0]); }
      else { ListedBackByIndex(ns, 5, [1]); }
    }
  }

  lemma InitialListedBackLeaves()
    ensures forall i :: 6 <= i < 10 ==> ListedBack(InitialNodes(), i)
  {
    var ns := InitialNodes();
    InitialUniqueIds();
    forall i | 6 <= i < 10
      ensures ListedBack(ns, i)
    {
      if i == 6 { ListedBackByIndex(ns, 6, [1]); }
      else if i == 7 { ListedBackByIndex(ns, 7, [3]); }
      else if i == 8 { ListedBackByIndex(ns, 8, [3]); }
      else { ListedBackByIndex(ns, 9, [2]); }
    }
  }

  /** In the initial data every connection is listed from both ends. */
  lemma InitialSymmetric()
    ensures SymmetricConnections(InitialNodes())
  {
    InitialListedBackCentre();
    InitialListedBackRing();
    InitialListedBackLeaves();
  }
}
