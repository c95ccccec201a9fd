/** The edges drawn between nodes: each node's connection list is walked
    in order, an id that names no node is skipped, and an edge is kept only
    when it runs from a level no deeper than the level it reaches, so a
    connection listed from both ends between different levels is drawn once. */
module Connections {
  import opened Wrappers
  import opened Geometry
  import opened Store

  /** Colour of an active edge when neither end has a colour. */
  const ActiveFallbackColor: string := "#3b82f6"
  /** Colour of every inactive edge. */
  const InactiveColor: string := "#4b5563"

  /** One entry of `getConnections`. */
  datatype Line = Line(from: Point, to: Point, color: string, isActive: bool)

  /** An edge as a (source node, connected node) pair. */
  type Edge = (SkillNode, SkillNode)

  /** The line drawn for the edge from `node` to `other`: between their
      scaled designer offsets, active when either end is, and coloured by
      the first colour that is set when active. */
  function Draw(node: SkillNode, other: SkillNode, cx: real, cy: real, scale: real): (l: Line)
    ensures l.isActive <==> node.isActive || other.isActive
    ensures l.from == Offset(cx, cy, node.position, scale) && l.to == Offset(cx, cy, other.position, scale)
    ensures !l.isActive ==> l.color == InactiveColor
    ensures l.isActive && TruthyString(node.color) ==> l.color == node.color.value
    ensures l.isActive && !TruthyString(node.color) && TruthyString(other.color) ==> l.color == other.color.value
    ensures l.isActive && !TruthyString(node.color) && !TruthyString(other.color) ==> l.color == ActiveFallbackColor
  {
    var active := node.isActive || other.isActive;
    Line(Offset(cx, cy, node.position, scale),
         Offset(cx, cy, other.position, scale),
         if active then OrDefault(OrString(node.color, other.color), ActiveFallbackColor) else InactiveColor,
         active)
  }

  /** Whether `(a, b)` is an edge the walk may produce: `b` is the node
      that `b.id` resolves to, `a` lists that id, and `a` is no deeper. */
  predicate Kept(all: seq<SkillNode>, e: Edge) {
    FindNode(all, e.1.id) == Some(e.1) && e.1.id in e.0.connections && e.0.level <= e.1.level
  }

  /** The edges produced for `node` while walking `ids`, in list order. */
  function EdgesFrom(all: seq<SkillNode>, node: SkillNode, ids: seq<string>): (r: seq<Edge>)
    requires forall c :: c in ids ==> c in node.connections
    ensures |r| <= |ids|
    ensures forall k :: 0 <= k < |r| ==> r[k].0 == node && r[k].1.id in ids && Kept(all, r[k])
    ensures forall c :: c in ids && FindNode(all, c).Some? && node.level <= FindNode(all, c).value.level ==>
      (node, FindNode(all, c).value) in r
  {
    if |ids| == 0 then []
    else
      var rest := EdgesFrom(all, node, ids[1..]);
      match FindNode(all, ids[0])
      case None => rest
      case Some(other) => if node.level <= other.level then [(node, other)] + rest else rest
  }

  /** Total length of the connection lists of `ns`. */
  function ListedCount(ns: seq<SkillNode>): nat
  {
    if |ns| == 0 then 0 else |ns[0].connections| + ListedCount(ns[1..])
  }

  /** The edges produced while walking the nodes `ns` in order, resolving
      ids against `all`. */
  function EdgesOf(all: seq<SkillNode>, ns: seq<SkillNode>): (r: seq<Edge>)
    ensures |r| <= ListedCount(ns)
    ensures forall k :: 0 <= k < |r| ==> r[k].0 in ns && Kept(all, r[k])
    ensures forall i, c ::
      (0 <= i < |ns| && c in ns[i].connections && FindNode(all, c).Some?
       && ns[i].level <= FindNode(all, c).value.level) ==> (ns[i], FindNode(all, c).value) in r
  {
    if |ns| == 0 then []
    else
      var head := EdgesFrom(all, ns[0], ns[0].connections);
      var tail := EdgesOf(all, ns[1..]);
      assert forall i :: 1 <= i < |ns| ==> ns[i] == ns[1..][i - 1];
      head + tail
  }

  /** `getConnections()`: one line per edge of the walk, in walk order. */
  function GetConnections(nodes: seq<SkillNode>, cx: real, cy: real, scale: real): (r: seq<Line>)
    ensures |r| == |EdgesOf(nodes, nodes)| <= ListedCount(nodes)
    ensures forall k :: 0 <= k < |r| ==>
      var e := EdgesOf(nodes, nodes)[k];
      r[k] == Draw(e.0, e.1, cx, cy, scale)
  {
    var edges := EdgesOf(nodes, nodes);
    seq(|edges|, k requires 0 <= k < |edges| => Draw(edges[k].0, edges[k].1, cx, cy, scale))
  }

  /** The walk is compositional: the edges of `a + b` are those of `a`
      followed by those of `b`, so the output follows node order. */
  lemma {:induction false} EdgesOfAppend(all: seq<SkillNode>, a: seq<SkillNode>, b: seq<SkillNode>)
    ensures EdgesOf(all, a + b) == EdgesOf(all, a) + EdgesOf(all, b)
  {
    if |a| == 0 {
      assert a + b == b;
    } else {
      assert (a + b)[1..] == a[1..] + b;
      EdgesOfAppend(all, a[1..], b);
    }
  }

  /** Within one node the walk is compositional too: the edges for the
      ids `x + y` are those for `x` followed by those for `y`, so a node's
      lines follow its connection order. */
  lemma {:induction false} EdgesFromAppend(all: seq<SkillNode>, node: SkillNode, x: seq<string>, y: seq<string>)
    requires forall c :: c in x + y ==> c in node.connections
    ensures EdgesFrom(all, node, x + y) == EdgesFrom(all, node, x) + EdgesFrom(all, node, y)
  {
    if |x| == 0 {
      assert x + y == y;
    } else {
      EdgesFromAppend(all, node, x[1..], y);
      EdgesFromCons(all, node, x);
      EdgesFromConsAppend(all, node, x, y);
    }
  }

  /** The walk over `x + y` with `x` non-empty starts with `x[0]`. */
  lemma EdgesFromConsAppend(all: seq<SkillNode>, node: SkillNode, x: seq<string>, y: seq<string>)
    requires |x| > 0 && forall c :: c in x + y ==> c in node.connections
    ensures forall c :: c in x[1..] + y ==> c in node.connections
    ensures EdgesFrom(all, node, x + y) == FirstEdge(all, node, x[0]) + EdgesFrom(all, node, x[1..] + y)
  {
    assert (x + y)[0] == x[0] && (x + y)[1..] == x[1..] + y;
    EdgesFromCons(all, node, x + y);
  }

  /** One step of the walk over ids: the edge for the first id, if it is
      drawn, followed by the edges for the rest. */
  lemma EdgesFromCons(all: seq<SkillNode>, node: SkillNode, ids: seq<string>)
    requires |ids| > 0 && forall c :: c in ids ==> c in node.connections
    ensures EdgesFrom(all, node, ids) == FirstEdge(all, node, ids[0]) + EdgesFrom(all, node, ids[1..])
  {
  }

  /** The edge, if any, that the walk produces for the id `c`. */
  function FirstEdge(all: seq<SkillNode>, node: SkillNode, c: string): seq<Edge>
  {
    match FindNode(all, c)
    case None => []
    case Some(other) => if node.level <= other.level then [(node, other)] else []
  }

  /** The number of times the edge `(node, b)` comes out of walking `ids`:
      once per occurrence of `b.id` in `ids` when `node` is no deeper than
      `b`, and never otherwise. */
  lemma {:induction false} EdgeCountFrom(all: seq<SkillNode>, node: SkillNode, ids: seq<string>, b: SkillNode)
    requires forall c :: c in ids ==> c in node.connections
    requires FindNode(all, b.id) == Some(b)
    ensures multiset(EdgesFrom(all, node, ids))[(node, b)]
            == if node.level <= b.level then multiset(ids)[b.id] else 0
  {
    if |ids| > 0 {
      assert multiset(ids)[b.id] == multiset([ids[0]])[b.id] + multiset(ids[1..])[b.id] by {
        assert ids == [ids[0]] + ids[1..];
      }
      EdgeCountFrom(all, node, ids[1..], b);
      EdgesFromCons(all, node, ids);
      var first := FirstEdge(all, node, ids[0]);
      assert multiset(first)[(node, b)] == if node.level <= b.level && ids[0] == b.id then 1 else 0;
    }
  }

  /** The edges that come out of walking `node`'s list all start at
      `node`, so an edge starting at another node is not among them. */
  lemma EdgesFromOtherNode(all: seq<SkillNode>, node: SkillNode, a: SkillNode, b: SkillNode)
    requires node != a
    ensures multiset(EdgesFrom(all, node, node.connections))[(a, b)] == 0
  {
  }

  /** The number of times the edge `(a, b)` comes out of walking `ns`, when
      `a` occurs at most once in `ns`: the count for one walk of `a`'s
      connection list if `a` is among the nodes, and none otherwise. */
  lemma {:induction false} EdgeCountOf(all: seq<SkillNode>, ns: seq<SkillNode>, a: SkillNode, b: SkillNode)
    requires multiset(ns)[a] <= 1
    ensures multiset(EdgesOf(all, ns))[(a, b)]
            == if a in ns then multiset(EdgesFrom(all, a, a.connections))[(a, b)] else 0
  {
    if |ns| > 0 {
      NodeCountCons(ns, a);
      EdgeCountOf(all, ns[1..], a, b);
      EdgesOfCons(all, ns, (a, b));
      if ns[0] != a {
        EdgesFromOtherNode(all, ns[0], a, b);
      }
    }
  }

  /** One step of the walk over nodes, counted: the first node's edges
      plus the rest's. */
  lemma EdgesOfCons(all: seq<SkillNode>, ns: seq<SkillNode>, e: Edge)
    requires |ns| > 0
    ensures multiset(EdgesOf(all, ns))[e]
            == multiset(EdgesFrom(all, ns[0], ns[0].connections))[e] + multiset(EdgesOf(all, ns[1..]))[e]
  {
    assert EdgesOf(all, ns) == EdgesFrom(all, ns[0], ns[0].connections) + EdgesOf(all, ns[1..]);
  }

  /** Occurrences of `a` in `ns`: one for the head if it is `a`, plus those
      in the rest. */
  lemma NodeCountCons(ns: seq<SkillNode>, a: SkillNode)
    requires |ns| > 0
    ensures multiset(ns)[a] == (if ns[0] == a then 1 else 0) + multiset(ns[1..])[a]
  {
    assert ns == [ns[0]] + ns[1..];
  }

  /** With unique ids, each node occurs exactly once. */
  lemma NodeOccursOnce(nodes: seq<SkillNode>, i: int)
    requires UniqueIds(nodes) && 0 <= i < |nodes|
    ensures multiset(nodes)[nodes[i]] == 1
  {
    assert nodes == nodes[..i] + [nodes[i]] + nodes[i + 1..];
    assert nodes[i] !in nodes[..i];
    assert nodes[i] !in nodes[i + 1..];
  }

  /** A connection listed exactly once from each end, between two distinct
      known nodes with unique ids, is drawn exactly once, from the shallower
      end, when the levels differ, and once from each end when they are
      equal. */
  lemma BothWaysEdge(nodes: seq<SkillNode>, i: int, j: int)
    requires UniqueIds(nodes) && 0 <= i < |nodes| && 0 <= j < |nodes| && i != j
    requires multiset(nodes[i].connections)[nodes[j].id] == 1
    requires multiset(nodes[j].connections)[nodes[i].id] == 1
    ensures var a, b, e := nodes[i], nodes[j], multiset(EdgesOf(nodes, nodes));
      && (a.level < b.level ==> e[(a, b)] == 1 && e[(b, a)] == 0)
      && (a.level == b.level ==> e[(a, b)] == 1 && e[(b, a)] == 1)
  {
    var a, b := nodes[i], nodes[j];
    FindNodeUnique(nodes, i);
    FindNodeUnique(nodes, j);
    NodeOccursOnce(nodes, i);
    NodeOccursOnce(nodes, j);
    EdgeCountFrom(nodes, a, a.connections, b);
    EdgeCountFrom(nodes, b, b.connections, a);
    EdgeCountOf(nodes, nodes, a, b);
    EdgeCountOf(nodes, nodes, b, a);
  }

}
