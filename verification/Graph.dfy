/**
  Directed graphs given as adjacency lists, as `dependency_graph` returns them. A target
  that is not itself a key of the graph is a node without outgoing edges.
 */
module Graph {
  type Node = string
  type Graph = map<Node, seq<Node>>

  function Successors(g: Graph, n: Node): seq<Node> {
    if n in g then g[n] else []
  }

  predicate Edge(g: Graph, a: Node, b: Node) {
    b in Successors(g, a)
  }

  predicate Joined(g: Graph, w: seq<Node>, i: nat)
    requires i + 1 < |w|
  {
    Edge(g, w[i], w[i + 1])
  }

  /** A walk is a non-empty sequence of nodes, each joined to the next by an edge. */
  predicate Walk(g: Graph, w: seq<Node>) {
    |w| > 0 && forall i :: 0 <= i < |w| - 1 ==> Joined(g, w, i)
  }

  predicate WalkFrom(g: Graph, a: Node, b: Node, w: seq<Node>) {
    Walk(g, w) && w[0] == a && w[|w| - 1] == b
  }

  /** `b` is reached from `a` by zero or more edges. */
  ghost predicate Below(g: Graph, a: Node, b: Node) {
    exists w :: WalkFrom(g, a, b, w)
  }

  /** `b` is reached from `a` by at least one edge. */
  ghost predicate StrictlyBelow(g: Graph, a: Node, b: Node) {
    exists m :: Edge(g, a, m) && Below(g, m, b)
  }

  /** A closed walk has at least one edge and ends where it starts. */
  predicate ClosedWalk(g: Graph, w: seq<Node>) {
    Walk(g, w) && |w| >= 2 && w[0] == w[|w| - 1]
  }

  ghost predicate HasCycle(g: Graph) {
    exists w :: ClosedWalk(g, w)
  }

  /** No node reached from `n` lies on a cycle. */
  ghost predicate AcyclicBelow(g: Graph, n: Node) {
    forall c :: Below(g, n, c) ==> !StrictlyBelow(g, c, c)
  }

  lemma BelowSelf(g: Graph, n: Node)
    ensures Below(g, n, n)
  {
    assert WalkFrom(g, n, n, [n]);
  }

  /** A node below `a` is `a` itself or is below one of its successors. */
  lemma FirstStep(g: Graph, a: Node, b: Node)
    requires Below(g, a, b)
    ensures a == b || StrictlyBelow(g, a, b)
  {
    var w :| WalkFrom(g, a, b, w);
    if |w| > 1 {
      assert Joined(g, w, 0);
      forall i | 0 <= i < |w[1..]| - 1
        ensures Joined(g, w[1..], i)
      {
        assert Joined(g, w, i + 1);
      }
      assert WalkFrom(g, w[1], b, w[1..]);
    }
  }

  lemma ClosedStrict(g: Graph, w: seq<Node>)
    requires ClosedWalk(g, w)
    ensures StrictlyBelow(g, w[0], w[0])
  {
    assert Joined(g, w, 0);
    var rest := w[1..];
    forall i | 0 <= i < |rest| - 1
      ensures Joined(g, rest, i)
    {
      assert Joined(g, w, i + 1);
    }
    assert WalkFrom(g, w[1], w[0], rest);
  }

  /** Having a closed walk and having a node strictly below itself are the same. */
  lemma CycleNode(g: Graph)
    ensures HasCycle(g) <==> exists c :: StrictlyBelow(g, c, c)
  {
    if HasCycle(g) {
      var w :| ClosedWalk(g, w);
      ClosedStrict(g, w);
    }
    if c :| StrictlyBelow(g, c, c) {
      var m :| Edge(g, c, m) && Below(g, m, c);
      var w :| WalkFrom(g, m, c, w);
      var closed := [c] + w;
      forall i | 0 <= i < |closed| - 1
        ensures Joined(g, closed, i)
      {
        if i > 0 {
          assert Joined(g, w, i - 1);
        }
      }
      assert ClosedWalk(g, closed);
    }
  }

  /** If no cycle is below any successor of `n`, none is below `n`. */
  lemma AcyclicStep(g: Graph, n: Node)
    requires forall m :: Edge(g, n, m) ==> AcyclicBelow(g, m)
    ensures AcyclicBelow(g, n)
  {
    forall c | Below(g, n, c)
      ensures !StrictlyBelow(g, c, c)
    {
      FirstStep(g, n, c);
      if StrictlyBelow(g, n, c) {
        var m :| Edge(g, n, m) && Below(g, m, c);
        assert AcyclicBelow(g, m);
      }
    }
  }

  /** A graph whose edges all lie in another has no more walks than the other. */
  lemma BelowMonotone(g: Graph, h: Graph, a: Node, b: Node)
    requires forall m, n :: Edge(g, m, n) ==> Edge(h, m, n)
    requires Below(g, a, b)
    ensures Below(h, a, b)
  {
    var w :| WalkFrom(g, a, b, w);
    forall i | 0 <= i < |w| - 1
      ensures Joined(h, w, i)
    {
      assert Joined(g, w, i);
    }
    assert WalkFrom(h, a, b, w);
  }

  lemma AcyclicMonotone(g: Graph, h: Graph, n: Node)
    requires forall a, b :: Edge(g, a, b) ==> Edge(h, a, b)
    requires AcyclicBelow(h, n)
    ensures AcyclicBelow(g, n)
  {
    forall c | Below(g, n, c)
      ensures !StrictlyBelow(g, c, c)
    {
      BelowMonotone(g, h, n, c);
      if StrictlyBelow(g, c, c) {
        var m :| Edge(g, c, m) && Below(g, m, c);
        BelowMonotone(g, h, m, c);
        assert StrictlyBelow(h, c, c);
        assert false;
      }
    }
  }

  /**
    `order` lists nodes so that every edge out of a listed node leads to a node listed
    strictly earlier.
   */
  ghost predicate Topological(g: Graph, order: seq<Node>) {
    forall i, b :: 0 <= i < |order| && Edge(g, order[i], b) ==> b in order[..i]
  }

  /** From a listed node every walk stays in the list and never climbs. */
  lemma {:induction false} WalkDescends(g: Graph, order: seq<Node>, w: seq<Node>, i: nat)
    requires Topological(g, order) && Walk(g, w)
    requires i < |order| && order[i] == w[0]
    ensures |w| > 1 ==> w[|w| - 1] in order[..i]
    decreases |w|
  {
    if |w| > 1 {
      assert Joined(g, w, 0);
      var j :| 0 <= j < i && order[..i][j] == w[1];
      var rest := w[1..];
      forall k | 0 <= k < |rest| - 1
        ensures Joined(g, rest, k)
      {
        assert Joined(g, w, k + 1);
      }
      WalkDescends(g, order, rest, j);
    }
  }

  /** A graph with a topological order of all its keys has no cycle. */
  lemma TopologicalAcyclic(g: Graph, order: seq<Node>)
    requires Topological(g, order)
    requires forall i, j :: 0 <= i < j < |order| ==> order[i] != order[j]
    requires forall n :: n in g ==> n in order
    ensures !HasCycle(g)
  {
    forall w | ClosedWalk(g, w)
      ensures false
    {
      assert Joined(g, w, 0);
      var i :| 0 <= i < |order| && order[i] == w[0];
      WalkDescends(g, order, w, i);
    }
  }
}
