/** Directed graphs as the planner of scripts/project_relationships.py keeps them:
    a map from a node to the nodes it points at. */
module Graphs {
  type Node = string
  type Graph = map<Node, set<Node>>

  function Next(g: Graph, x: Node): set<Node> {
    if x in g then g[x] else {}
  }

  ghost predicate IsPath(g: Graph, p: seq<Node>) {
    p != [] && forall i :: 0 <= i < |p| - 1 ==> p[i + 1] in Next(g, p[i])
  }

  ghost predicate Joins(p: seq<Node>, source: Node, target: Node) {
    p != [] && p[0] == source && p[|p| - 1] == target
  }

  ghost predicate Connected(g: Graph, source: Node, target: Node) {
    exists p :: IsPath(g, p) && Joins(p, source, target)
  }

  /** A closed path of at least one edge. */
  ghost predicate IsCycle(g: Graph, p: seq<Node>) {
    |p| >= 2 && IsPath(g, p) && p[0] == p[|p| - 1]
  }

  ghost predicate Within(g: Graph, h: Graph) {
    forall x :: Next(g, x) <= Next(h, x)
  }

  function AddEdge(g: Graph, x: Node, y: Node): Graph {
    g[x := Next(g, x) + {y}]
  }

  lemma {:induction false} ConnectedSelf(g: Graph, x: Node)
    ensures Connected(g, x, x)
  {
    assert IsPath(g, [x]) && Joins([x], x, x);
  }

  lemma {:induction false} ConnectedStep(g: Graph, x: Node, y: Node, z: Node)
    requires Connected(g, x, y) && z in Next(g, y)
    ensures Connected(g, x, z)
  {
    var p :| IsPath(g, p) && Joins(p, x, y);
    assert IsPath(g, p + [z]) && Joins(p + [z], x, z);
  }

  lemma {:induction false} ConnectedGrows(g: Graph, h: Graph, x: Node, y: Node)
    requires Within(g, h) && Connected(g, x, y)
    ensures Connected(h, x, y)
  {
    var p :| IsPath(g, p) && Joins(p, x, y);
    forall i | 0 <= i < |p| - 1 ensures p[i + 1] in Next(h, p[i]) {
      assert p[i + 1] in Next(g, p[i]);
    }
    assert IsPath(h, p);
  }

  /** A path that starts in a set closed under the edges stays there. */
  lemma {:induction false} ClosedKeepsPaths(g: Graph, closed: set<Node>, p: seq<Node>, i: nat)
    requires forall x :: x in closed ==> Next(g, x) <= closed
    requires IsPath(g, p) && p[0] in closed && i < |p|
    ensures p[i] in closed
  {
    if i > 0 {
      ClosedKeepsPaths(g, closed, p, i - 1);
      assert p[i - 1 + 1] in Next(g, p[i - 1]);
    }
  }

  function Nodes(g: Graph): set<Node> {
    g.Keys + set x, y | x in g && y in g[x] :: y
  }

  /** The members of a set in some order: Python leaves the order open. */
  method InAnyOrder(s: set<Node>) returns (q: seq<Node>)
    ensures forall x :: x in q <==> x in s
  {
    q := [];
    var left := s;
    while left != {}
      invariant left <= s
      invariant forall x :: x in q <==> x in s && x !in left
      decreases |left|
    {
      var x :| x in left;
      q := q + [x];
      left := left - {x};
    }
  }

  /** Depth-first search with an explicit stack: true exactly when a path exists. */
  method Reaches(g: Graph, source: Node, target: Node) returns (found: bool)
    ensures found <==> Connected(g, source, target)
  {
    var pending, seen := [source], {};
    ghost var all := Nodes(g) + {source};
    ConnectedSelf(g, source);
    while pending != []
      invariant source in pending || source in seen
      invariant seen <= all && forall x :: x in pending ==> x in all
      invariant forall x :: x in pending || x in seen ==> Connected(g, source, x)
      invariant target !in seen
      invariant forall x, y :: x in seen && y in Next(g, x) ==> y in seen || y in pending
      decreases all - seen, |pending|
    {
      ghost var before := pending;
      var current := pending[|pending| - 1];
      pending := pending[..|pending| - 1];
      assert forall x :: x in before <==> x in pending || x == current;
      if current == target {
        return true;
      }
      if current !in seen {
        assert all - (seen + {current}) < all - seen;
        seen := seen + {current};
        var more := InAnyOrder(Next(g, current));
        forall x | x in more ensures Connected(g, source, x) && x in all {
          ConnectedStep(g, source, current, x);
        }
        pending := pending + more;
      }
    }
    if Connected(g, source, target) {
      var p :| IsPath(g, p) && Joins(p, source, target);
      ClosedKeepsPaths(g, seen, p, |p| - 1);
    }
    return false;
  }

  /** An edge whose target does not reach its source closes no cycle: every cycle
      of the larger graph lies in the smaller one. */
  lemma {:induction false} NoNewCycle(g: Graph, s: Node, t: Node, p: seq<Node>)
    requires !Connected(g, t, s) && IsCycle(AddEdge(g, s, t), p)
    ensures IsPath(g, p)
  {
    forall i | 0 <= i < |p| - 1 ensures p[i + 1] in Next(g, p[i]) {
      var h := AddEdge(g, s, t);
      assert p[i + 1] in Next(h, p[i]);
      if p[i + 1] !in Next(g, p[i]) {
        assert p[i] == s && p[i + 1] == t;
        ConnectedSelf(g, t);
        Follows(g, s, t, p, i + 1, |p| - 1);
        Follows(g, s, t, p, 0, i);
        assert false;
      }
    }
  }

  /** From t the new edge cannot be reached, so the rest of the path is old. */
  lemma {:induction false} Follows(g: Graph, s: Node, t: Node, p: seq<Node>, i: nat, j: nat)
    requires !Connected(g, t, s) && IsPath(AddEdge(g, s, t), p) && i <= j < |p|
    requires Connected(g, t, p[i])
    ensures Connected(g, t, p[j])
  {
    if i < j {
      Follows(g, s, t, p, i, j - 1);
      assert p[j - 1 + 1] in Next(AddEdge(g, s, t), p[j - 1]);
      ConnectedStep(g, t, p[j - 1], p[j]);
    }
  }
}
