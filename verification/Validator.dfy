/**
  The pre-start checks of src/agentic_os/core/di_validator.py: the depth-first search for
  cycles with its shared `visited` set and path stack, the search for undeclared
  dependencies, and the pipeline that collects the results.
 */
module Validator {
  import opened Prelude
  import opened Graph

  /** Every node of the graph: its keys and the targets of its edges. */
  function Nodes(g: Graph): set<Node> {
    g.Keys + (set n, m | n in g && m in g[n] :: m)
  }

  /**
    The visited nodes are those on the path and those left for good; the path is a walk;
    everything reached from a finished node was finished before it.
   */
  ghost predicate SearchInv(g: Graph, visited: set<Node>, path: seq<Node>, finished: seq<Node>) {
    && visited <= Nodes(g)
    && (forall n :: n in visited <==> n in path || n in finished)
    && (forall n :: n in path ==> n !in finished)
    && Distinct(path) && Distinct(finished)
    && (path != [] ==> Walk(g, path))
    && Topological(g, finished)
  }

  lemma EnterNode(g: Graph, visited: set<Node>, path: seq<Node>, finished: seq<Node>, node: Node)
    requires SearchInv(g, visited, path, finished) && node in Nodes(g) && node !in visited
    requires path != [] ==> Edge(g, path[|path| - 1], node)
    ensures SearchInv(g, visited + {node}, path + [node], finished)
  {
    ExtendWalk(g, path, node);
  }

  lemma LeaveNode(g: Graph, visited: set<Node>, path: seq<Node>, finished: seq<Node>, node: Node)
    requires SearchInv(g, visited, path + [node], finished)
    requires forall i :: 0 <= i < |Successors(g, node)| ==> Successors(g, node)[i] in finished
    ensures SearchInv(g, visited, path, finished + [node])
  {
    assert (path + [node])[|path|] == node;
    assert node in path + [node] && node !in finished;
    forall n
      ensures n in visited <==> n in path || n in finished + [node]
    {
      assert n in visited <==> n in path + [node] || n in finished;
    }
    forall n | n in path
      ensures n !in finished + [node]
    {
      var i :| 0 <= i < |path| && path[i] == n;
      assert (path + [node])[i] == n;
    }
    assert Distinct(path) by {
      assert forall i :: 0 <= i < |path| ==> path[i] == (path + [node])[i];
    }
    WalkPrefix(g, path, node);
    FinishNode(g, finished, node);
  }

  lemma VisitedIs(g: Graph, visited: set<Node>, path: seq<Node>, finished: seq<Node>, n: Node)
    requires SearchInv(g, visited, path, finished)
    ensures n in visited <==> n in path || n in finished
    ensures visited <= Nodes(g) && (path != [] ==> Walk(g, path))
  {
  }

  /** The set and the stack that all calls of the search share. */
  class Search {
    var visited: set<Node>
    var path: seq<Node>
    /** Nodes the search has left, in the order it left them. */
    ghost var finished: seq<Node>

    ghost predicate Valid(g: Graph)
      reads this
    {
      SearchInv(g, visited, path, finished)
    }

    constructor (g: Graph)
      ensures Valid(g) && visited == {} && path == [] && finished == []
    {
      visited, path, finished := {}, [], [];
    }

    method Visit(g: Graph, node: Node) returns (cycle: Option<seq<Node>>)
      requires Valid(g) && node in Nodes(g) && node !in visited
      requires path != [] ==> Edge(g, path[|path| - 1], node)
      modifies this
      ensures cycle.Some? ==> ClosedWalk(g, cycle.value)
      ensures cycle.None? ==>
                && Valid(g) && path == old(path) && node in finished && old(visited) < visited
                && forall n :: n in old(finished) ==> n in finished
      decreases Nodes(g) - visited
    {
      hide SearchInv, Nodes, ClosedWalk, Edge;
      EnterNode(g, visited, path, finished, node);
      visited := visited + {node};
      path := path + [node];
      var neighbors := Successors(g, node);
      var k := 0;
      while k < |neighbors|
        invariant 0 <= k <= |neighbors| && Valid(g)
        invariant path == old(path) + [node] && old(visited) + {node} <= visited
        invariant forall n :: n in old(finished) ==> n in finished
        invariant forall i :: 0 <= i < k ==> neighbors[i] in finished
      {
        var neighbor := neighbors[k];
        NeighborIsNode(g, node, k);
        VisitedIs(g, visited, path, finished, neighbor);
        VisitedIs(g, visited, path, finished, node);
        if neighbor !in visited {
          var result := Visit(g, neighbor);
          if result.Some? {
            return result;
          }
        } else if neighbor in path {
          var at := IndexOf(path, neighbor);
          CloseWalk(g, path, at, neighbor);
          return Some(path[at..] + [neighbor]);
        }
        k := k + 1;
      }
      LeaveNode(g, visited, old(path), finished, node);
      path := path[..|path| - 1];
      finished := finished + [node];
      cycle := None;
    }
  }

  lemma NeighborIsNode(g: Graph, node: Node, k: nat)
    requires k < |Successors(g, node)|
    ensures Edge(g, node, Successors(g, node)[k]) && Successors(g, node)[k] in Nodes(g)
  {
  }

  method IndexOf(s: seq<Node>, x: Node) returns (i: nat)
    requires x in s
    ensures i < |s| && s[i] == x && x !in s[..i]
  {
    i := 0;
    while s[i] != x
      invariant i < |s| && x !in s[..i]
      decreases |s| - i
    {
      i := i + 1;
    }
  }

  lemma ExtendWalk(g: Graph, path: seq<Node>, node: Node)
    requires path != [] ==> Walk(g, path) && Edge(g, path[|path| - 1], node)
    ensures Walk(g, path + [node])
  {
    var w := path + [node];
    forall i | 0 <= i < |w| - 1
      ensures Joined(g, w, i)
    {
      if i < |path| - 1 {
        assert Joined(g, path, i);
      }
    }
  }

  lemma WalkPrefix(g: Graph, path: seq<Node>, node: Node)
    requires Walk(g, path + [node])
    ensures path != [] ==> Walk(g, path)
  {
    forall i | 0 <= i < |path| - 1
      ensures Joined(g, path, i)
    {
      assert Joined(g, path + [node], i);
    }
  }

  /** From where a path node recurs, the path closes into a cycle. */
  lemma CloseWalk(g: Graph, path: seq<Node>, at: nat, node: Node)
    requires Walk(g, path) && at < |path| && path[at] == node && Edge(g, path[|path| - 1], node)
    ensures ClosedWalk(g, path[at..] + [node])
  {
    var w := path[at..] + [node];
    forall i | 0 <= i < |w| - 1
      ensures Joined(g, w, i)
    {
      if i < |path| - at - 1 {
        assert Joined(g, path, at + i);
      }
    }
  }

  lemma FinishNode(g: Graph, finished: seq<Node>, node: Node)
    requires Topological(g, finished)
    requires forall i :: 0 <= i < |Successors(g, node)| ==> Successors(g, node)[i] in finished
    ensures Topological(g, finished + [node])
  {
    var order := finished + [node];
    forall i, b | 0 <= i < |order| && Edge(g, order[i], b)
      ensures b in order[..i]
    {
      if i < |finished| {
        assert order[..i] == finished[..i];
      } else {
        assert order[..i] == finished;
      }
    }
  }

  /**
    `CircularDependencyChecker.check`: visits every key in dictionary order. It reports a
    genuine closed walk, and it reports one exactly when the graph has a cycle.
   */
  method CheckCycles(g: Graph, order: seq<Node>) returns (cycle: Option<seq<Node>>)
    requires forall n :: n in order <==> n in g
    ensures cycle.Some? ==> ClosedWalk(g, cycle.value)
    ensures cycle.Some? <==> HasCycle(g)
  {
    var search := new Search(g);
    var k := 0;
    while k < |order|
      invariant 0 <= k <= |order| && search.Valid(g) && search.path == []
      invariant forall i :: 0 <= i < k ==> order[i] in search.finished
    {
      if order[k] !in search.visited {
        var result := search.Visit(g, order[k]);
        if result.Some? {
          return result;
        }
      }
      k := k + 1;
    }
    TopologicalAcyclic(g, search.finished);
    cycle := None;
  }

  // ---- The pipeline ----

  /** A checker returned a status word, or raised. */
  datatype CheckRun = Returned(name: string, status: string) | Raised(name: string)

  datatype Report = Report(passed: seq<CheckRun>, failed: seq<CheckRun>, warnings: seq<CheckRun>, total: nat) {
    predicate Success() {
      failed == []
    }
  }

  predicate Passes(r: CheckRun) {
    r.Returned? && r.status == "passed"
  }

  predicate Fails(r: CheckRun) {
    r.Raised? || r.status == "failed"
  }

  /** The runs that satisfy `p`, in order. */
  function Only(p: CheckRun -> bool, runs: seq<CheckRun>): seq<CheckRun> {
    if runs == [] then []
    else
      var n := |runs| - 1;
      Only(p, runs[..n]) + if p(runs[n]) then [runs[n]] else []
  }

  lemma {:induction false} OnlyMembers(p: CheckRun -> bool, runs: seq<CheckRun>, r: CheckRun)
    ensures r in Only(p, runs) <==> r in runs && p(r)
  {
    if runs != [] {
      var n := |runs| - 1;
      OnlyMembers(p, runs[..n], r);
      assert runs == runs[..n] + [runs[n]];
    }
  }

  /** A run that is listed stands behind those listed before it. */
  lemma {:induction false} OnlyInOrder(p: CheckRun -> bool, runs: seq<CheckRun>, i: nat)
    requires i < |runs| && p(runs[i])
    ensures |Only(p, runs[..i])| < |Only(p, runs)| && Only(p, runs)[|Only(p, runs[..i])|] == runs[i]
  {
    var n := |runs| - 1;
    if i < n {
      OnlyInOrder(p, runs[..n], i);
      assert runs[..n][..i] == runs[..i];
    }
  }

  /**
    `ValidationPipeline.validate`: every result lands in the list of its kind, in order, and
    the report succeeds exactly when no checker failed or raised.
   */
  method Validate(runs: seq<CheckRun>) returns (report: Report)
    ensures report.total == |runs|
    ensures report.passed == Only(r => Passes(r), runs)
    ensures report.failed == Only(r => Fails(r), runs)
    ensures report.warnings == Only(r => !Passes(r) && !Fails(r), runs)
    ensures |report.passed| + |report.failed| + |report.warnings| == |runs|
    ensures report.Success() <==> forall r :: r in runs ==> !Fails(r)
    ensures report.Success() <==> forall r :: r in runs ==> r.Returned? && r.status != "failed"
  {
    report := Report([], [], [], 0);
    for k := 0 to |runs|
      invariant report.total == k
      invariant report.passed == Only(r => Passes(r), runs[..k])
      invariant report.failed == Only(r => Fails(r), runs[..k])
      invariant report.warnings == Only(r => !Passes(r) && !Fails(r), runs[..k])
      invariant |report.passed| + |report.failed| + |report.warnings| == k
    {
      assert runs[..k + 1][..k] == runs[..k];
      report := report.(total := report.total + 1);
      if Passes(runs[k]) {
        report := report.(passed := report.passed + [runs[k]]);
      } else if Fails(runs[k]) {
        report := report.(failed := report.failed + [runs[k]]);
      } else {
        report := report.(warnings := report.warnings + [runs[k]]);
      }
    }
    assert runs[..|runs|] == runs;
    forall r | r in runs
      ensures r in report.failed <==> Fails(r)
    {
      OnlyMembers(r => Fails(r), runs, r);
    }
    if report.failed != [] {
      OnlyMembers(r => Fails(r), runs, report.failed[0]);
    }
  }
}
