/** Directed graphs of task dependencies, and the notions the cycle search is judged by:
    walks, closed walks, acyclicity and topological orders. */
module DependencyGraphs {
  import opened Sequences

  type Node = string

  // Each known node with its dependency list. A dependency may name an unknown node.
  type Graph = map<Node, seq<Node>>

  predicate Edge(g: Graph, a: Node, b: Node) {
    a in g && b in g && b in g[a]
  }

  predicate Walk(g: Graph, w: seq<Node>) {
    && (forall i | 0 <= i < |w| :: w[i] in g)
    && (forall i | 0 < i < |w| :: Edge(g, w[i - 1], w[i]))
  }

  predicate ClosedWalk(g: Graph, w: seq<Node>) {
    2 <= |w| && Walk(g, w) && w[0] == w[|w| - 1]
  }

  ghost predicate Acyclic(g: Graph) {
    forall w: seq<Node> :: !ClosedWalk(g, w)
  }

  predicate SimpleCycle(g: Graph, w: seq<Node>) {
    ClosedWalk(g, w) && Distinct(w[..|w| - 1])
  }

  // Every known dependency of order[i] stands before position i.
  predicate DependenciesFirst(g: Graph, order: seq<Node>) {
    forall i | 0 <= i < |order| ::
      order[i] in g && forall d | d in g[order[i]] && d in g :: d in order[..i]
  }

  predicate TopologicalOrder(g: Graph, order: seq<Node>) {
    Distinct(order) && Elements(order) == g.Keys && DependenciesFirst(g, order)
  }

  lemma WalkTail(g: Graph, w: seq<Node>)
    requires Walk(g, w) && 2 <= |w|
    ensures Edge(g, w[0], w[1]) && Walk(g, w[1..])
  {
    assert Edge(g, w[0], w[1]);
    forall i | 0 < i < |w[1..]| ensures Edge(g, w[1..][i - 1], w[1..][i]) {
      assert Edge(g, w[i], w[i + 1]);
    }
  }

  // Following dependencies strictly lowers the position in a topological order.
  lemma {:induction false} WalkDescends(g: Graph, order: seq<Node>, w: seq<Node>, from: nat, to: nat)
    requires Distinct(order) && DependenciesFirst(g, order)
    requires Walk(g, w) && 2 <= |w|
    requires from < |order| && order[from] == w[0]
    requires to < |order| && order[to] == w[|w| - 1]
    ensures to < from
  {
    WalkTail(g, w);
    assert w[1] in order[..from];
    var mid :| 0 <= mid < from && order[mid] == w[1];
    if |w| > 2 {
      WalkDescends(g, order, w[1..], mid, to);
    }
  }

  lemma TopologicalOrderImpliesAcyclic(g: Graph, order: seq<Node>)
    requires TopologicalOrder(g, order)
    ensures Acyclic(g)
  {
    forall w: seq<Node> | ClosedWalk(g, w) ensures false {
      assert w[0] in Elements(order);
      var p :| 0 <= p < |order| && order[p] == w[0];
      WalkDescends(g, order, w, p, p);
    }
  }
}

/** The depth-first cycle search shared by both plan validators, with its visited set, its
    recursion stack and its table of cycles already reported. */
module CycleDetection {
  import opened Sequences
  import opened DependencyGraphs

  // The reporting key of a cycle: a sorted tuple of names is the multiset of those names.
  function CycleKey(report: seq<Node>): multiset<Node> {
    if report == [] then multiset{} else multiset(report[..|report| - 1])
  }

  function FirstIndex(path: seq<Node>, node: Node): (k: nat)
    requires node in path
    ensures k < |path| && path[k] == node && node !in path[..k]
  {
    if path[0] == node then 0 else
      var k := 1 + FirstIndex(path[1..], node);
      assert path[..k] == [path[0]] + path[1..][..k - 1];
      k
  }

  ghost predicate HasReport(errors: seq<seq<Node>>, key: multiset<Node>) {
    exists e :: e in errors && CycleKey(e) == key
  }

  // Every report is a simple cycle, the recorded keys are those of the reports, and no key is reported twice.
  ghost predicate ReportsValid(g: Graph, errors: seq<seq<Node>>, reported: set<multiset<Node>>) {
    && (forall i | 0 <= i < |errors| :: SimpleCycle(g, errors[i]) && CycleKey(errors[i]) in reported)
    && (forall key | key in reported :: HasReport(errors, key))
    && (forall i, j | 0 <= i < j < |errors| :: CycleKey(errors[i]) != CycleKey(errors[j]))
  }

  // The simple cycle goes along the edge from a to b, at its end.
  predicate EndsWithEdge(g: Graph, c: seq<Node>, a: Node, b: Node) {
    SimpleCycle(g, c) && c[|c| - 2] == a && c[|c| - 1] == b
  }

  // The edge from a to b closes a simple cycle whose node set was reported.
  ghost predicate ClosesReported(g: Graph, reported: set<multiset<Node>>, a: Node, b: Node) {
    exists c :: EndsWithEdge(g, c, a, b) && CycleKey(c) in reported
  }

  // Every known dependency of a finished node finished before it, or the edge to it closes a reported cycle.
  ghost predicate DependenciesSettled(g: Graph, finished: seq<Node>, reported: set<multiset<Node>>) {
    forall i | 0 <= i < |finished| ::
      && finished[i] in g
      && forall d | d in g[finished[i]] && d in g :: d in finished[..i] || ClosesReported(g, reported, finished[i], d)
  }

  ghost predicate SearchValid(
    g: Graph, visited: set<Node>, inStack: set<Node>, finished: seq<Node>, reported: set<multiset<Node>>)
  {
    && inStack <= visited <= g.Keys
    && Distinct(finished)
    && Elements(finished) == visited - inStack
    && DependenciesSettled(g, finished, reported)
  }

  // Reporting more cycles settles no less.
  lemma SettledByMore(
    g: Graph, visited: set<Node>, inStack: set<Node>, finished: seq<Node>, reported: set<multiset<Node>>,
    more: set<multiset<Node>>)
    requires SearchValid(g, visited, inStack, finished, reported) && reported <= more
    ensures SearchValid(g, visited, inStack, finished, more)
  {
    forall i, d | 0 <= i < |finished| && d in g[finished[i]] && d in g
      ensures d in finished[..i] || ClosesReported(g, more, finished[i], d)
    {
      OnMoreCycles(g, reported, more, finished[i], d);
    }
  }

  lemma OnMoreCycles(g: Graph, reported: set<multiset<Node>>, more: set<multiset<Node>>, a: Node, b: Node)
    requires reported <= more
    ensures ClosesReported(g, reported, a, b) ==> ClosesReported(g, more, a, b)
  {
  }

  lemma HasOneMoreReport(errors: seq<seq<Node>>, e: seq<Node>, key: multiset<Node>)
    requires HasReport(errors, key) || CycleKey(e) == key
    ensures HasReport(errors + [e], key)
  {
    if HasReport(errors, key) {
      var earlier :| earlier in errors && CycleKey(earlier) == key;
      assert earlier in errors + [e];
    } else {
      assert e in errors + [e];
    }
  }

  lemma ReportAdded(g: Graph, errors: seq<seq<Node>>, reported: set<multiset<Node>>, e: seq<Node>)
    requires ReportsValid(g, errors, reported) && SimpleCycle(g, e) && CycleKey(e) !in reported
    ensures ReportsValid(g, errors + [e], reported + {CycleKey(e)})
  {
    forall key | key in reported + {CycleKey(e)} ensures HasReport(errors + [e], key) {
      assert key in reported ==> HasReport(errors, key);
      HasOneMoreReport(errors, e, key);
    }
  }

  // The dependencies among the first n that are known are settled for the node.
  ghost predicate Followed(
    g: Graph, deps: seq<Node>, n: nat, finished: seq<Node>, reported: set<multiset<Node>>, node: Node)
    requires n <= |deps|
  {
    forall k | 0 <= k < n && deps[k] in g :: deps[k] in finished || ClosesReported(g, reported, node, deps[k])
  }

  lemma FollowedStays(
    g: Graph, deps: seq<Node>, n: nat, finished: seq<Node>, reported: set<multiset<Node>>, node: Node,
    later: seq<Node>, more: set<multiset<Node>>)
    requires n <= |deps| && Followed(g, deps, n, finished, reported, node)
    requires finished <= later && reported <= more
    ensures Followed(g, deps, n, later, more, node)
  {
    forall k | 0 <= k < n && deps[k] in g ensures deps[k] in later || ClosesReported(g, more, node, deps[k]) {
      OnMoreCycles(g, reported, more, node, deps[k]);
    }
  }

  lemma FollowedNext(
    g: Graph, deps: seq<Node>, n: nat, finished: seq<Node>, reported: set<multiset<Node>>, node: Node)
    requires n < |deps| && Followed(g, deps, n, finished, reported, node)
    requires deps[n] in g ==> deps[n] in finished || ClosesReported(g, reported, node, deps[n])
    ensures Followed(g, deps, n + 1, finished, reported, node)
  {
  }

  lemma ClosingTheCycle(g: Graph, path: seq<Node>, k: nat)
    requires Distinct(path) && Walk(g, path) && k < |path|
    requires Edge(g, path[|path| - 1], path[k])
    ensures SimpleCycle(g, path[k..] + [path[k]])
    ensures CycleKey(path[k..] + [path[k]]) == multiset(path[k..])
  {
    var report := path[k..] + [path[k]];
    assert report[..|report| - 1] == path[k..];
    forall i | 0 < i < |report| ensures Edge(g, report[i - 1], report[i]) {
      if i < |path| - k {
        assert Edge(g, path[k + i - 1], path[k + i]);
      }
    }
  }

  lemma FinishingNode(
    g: Graph, visited: set<Node>, inStack: set<Node>, finished: seq<Node>, reported: set<multiset<Node>>, node: Node)
    requires SearchValid(g, visited, inStack, finished, reported)
    requires node in inStack
    requires forall d | d in g[node] && d in g :: d in finished || ClosesReported(g, reported, node, d)
    ensures SearchValid(g, visited, inStack - {node}, finished + [node], reported)
  {
    var after := finished + [node];
    assert node !in Elements(finished);
    assert Elements(after) == Elements(finished) + {node};
    forall i | 0 <= i < |after|
      ensures after[i] in g
      ensures forall d | d in g[after[i]] && d in g :: d in after[..i] || ClosesReported(g, reported, after[i], d)
    {
      assert after[..i] == finished[..i];
      assert finished[..|finished|] == finished;
    }
  }

  class CycleDetector {
    const graph: Graph
    var visited: set<Node>
    var inStack: set<Node>
    var reported: set<multiset<Node>>
    var errors: seq<seq<Node>>

    // Nodes in the order in which their visit ended.
    ghost var finished: seq<Node>

    ghost predicate Valid()
      reads this
    {
      && ReportsValid(graph, errors, reported)
      && SearchValid(graph, visited, inStack, finished, reported)
    }

    // path is the simple dependency path the recursion is standing on.
    ghost predicate OnStack(path: seq<Node>)
      reads this
    {
      Distinct(path) && Walk(graph, path) && Elements(path) == inStack
    }

    constructor (graph: Graph)
      ensures Valid() && this.graph == graph
      ensures visited == {} && inStack == {} && errors == []
    {
      this.graph := graph;
      visited, inStack, reported, errors, finished := {}, {}, {}, [], [];
    }

    // A node met again while it is on the stack closes a cycle, reported once per node set.
    method Report(node: Node, path: seq<Node>)
      requires Valid() && OnStack(path)
      requires node in path && Edge(graph, path[|path| - 1], node)
      modifies this`reported, this`errors
      ensures Valid()
      ensures old(reported) <= reported && ClosesReported(graph, reported, path[|path| - 1], node)
      ensures errors == old(errors) || (exists e :: errors == old(errors) + [e])
    {
      var k := FirstIndex(path, node);
      var cycle := path[k..];
      var key := multiset(cycle);
      ClosingTheCycle(graph, path, k);
      assert EndsWithEdge(graph, cycle + [node], path[|path| - 1], node);
      if key !in reported {
        SettledByMore(graph, visited, inStack, finished, reported, reported + {key});
        ReportAdded(graph, errors, reported, cycle + [node]);
        reported := reported + {key};
        errors := errors + [cycle + [node]];
      }
      assert CycleKey(cycle + [node]) in reported;
    }

    method Dfs(node: Node, path: seq<Node>)
      requires Valid() && OnStack(path) && node in graph
      requires path != [] ==> Edge(graph, path[|path| - 1], node)
      modifies this`visited, this`inStack, this`reported, this`errors, this`finished
      ensures Valid()
      ensures inStack == old(inStack)
      ensures old(visited) + {node} <= visited
      ensures node in inStack ==> errors != []
      ensures old(errors) <= errors && old(finished) <= finished && old(reported) <= reported
      ensures node in finished || (path != [] && ClosesReported(graph, reported, path[|path| - 1], node))
      decreases graph.Keys - visited, 0
    {
      if node in inStack {
        assert node in path;
        Report(node, path);
        return;
      }
      if node in visited {
        assert node in Elements(finished);
        return;
      }
      visited := visited + {node};
      inStack := inStack + {node};
      var here := path + [node];
      assert OnStack(here) by {
        assert Elements(here) == Elements(path) + {node};
      }
      VisitDependencies(node, here);
      assert forall d | d in graph[node] && d in graph :: d in finished || ClosesReported(graph, reported, node, d);
      FinishingNode(graph, visited, inStack, finished, reported, node);
      inStack := inStack - {node};
      finished := finished + [node];
    }

    // Descends into every known dependency of the node the path ends with.
    method VisitDependencies(node: Node, here: seq<Node>)
      requires Valid() && OnStack(here) && here != [] && here[|here| - 1] == node
      modifies this`visited, this`inStack, this`reported, this`errors, this`finished
      ensures Valid()
      ensures inStack == old(inStack)
      ensures old(visited) <= visited
      ensures old(errors) <= errors && old(finished) <= finished && old(reported) <= reported
      ensures Followed(graph, graph[node], |graph[node]|, finished, reported, node)
      decreases graph.Keys - visited, 1
    {
      var deps := graph[node];
      for i := 0 to |deps|
        invariant Valid() && OnStack(here)
        invariant inStack == old(inStack)
        invariant old(visited) <= visited
        invariant old(errors) <= errors && old(finished) <= finished && old(reported) <= reported
        invariant Followed(graph, deps, i, finished, reported, node)
      {
        if deps[i] in graph {
          assert Edge(graph, node, deps[i]);
          ghost var earlier, before := finished, reported;
          Dfs(deps[i], here);
          FollowedStays(graph, deps, i, earlier, before, node, finished, reported);
        }
        FollowedNext(graph, deps, i, finished, reported, node);
      }
    }
  }

  predicate OnOneCycle(cycles: seq<seq<Node>>, a: Node, b: Node) {
    exists c | c in cycles :: a in c && b in c
  }

  // Two neighbouring nodes of the walk lie together on one of the cycles.
  predicate Meets(cycles: seq<seq<Node>>, w: seq<Node>) {
    exists i | 0 < i < |w| :: OnOneCycle(cycles, w[i - 1], w[i])
  }

  // The edge from a to b closes a simple cycle whose nodes are those of one of the walks.
  ghost predicate BackEdgeShown(g: Graph, walks: seq<seq<Node>>, a: Node, b: Node) {
    exists c, e :: EndsWithEdge(g, c, a, b) && e in walks && Elements(e) == Elements(c)
  }

  /** In this order of all nodes, every edge to a node that does not come earlier is shown by a walk. */
  ghost predicate BackEdgesShown(g: Graph, order: seq<Node>, walks: seq<seq<Node>>) {
    && Distinct(order) && Elements(order) == g.Keys
    && forall i, d | 0 <= i < |order| && d in g[order[i]] && d in g ::
      d in order[..i] || BackEdgeShown(g, walks, order[i], d)
  }

  /** A report of the cycles of a graph: empty exactly when there is none, made of real simple cycles,
      no node set twice, one met by every closed walk of the graph, and one for every back edge of the
      search. */
  ghost predicate CycleReport(g: Graph, walks: seq<seq<Node>>) {
    && (walks == [] <==> Acyclic(g))
    && (forall w | w in walks :: SimpleCycle(g, w))
    && (forall i, j | 0 <= i < j < |walks| :: Elements(walks[i]) != Elements(walks[j]))
    && (forall w {:trigger Meets(walks, w)} | ClosedWalk(g, w) :: Meets(walks, w))
    && (exists order :: BackEdgesShown(g, order, walks))
  }

  // A walk that never runs along a reported cycle goes back in the finishing order.
  lemma {:induction false} UnreportedWalkDescends(
    g: Graph, order: seq<Node>, reported: set<multiset<Node>>, w: seq<Node>, from: nat, to: nat)
    requires Distinct(order) && DependenciesSettled(g, order, reported)
    requires Walk(g, w) && 2 <= |w|
    requires forall i | 0 < i < |w| :: !ClosesReported(g, reported, w[i - 1], w[i])
    requires from < |order| && order[from] == w[0]
    requires to < |order| && order[to] == w[|w| - 1]
    ensures to < from
  {
    WalkTail(g, w);
    assert !ClosesReported(g, reported, w[0], w[1]);
    assert w[1] in order[..from];
    var mid :| 0 <= mid < from && order[mid] == w[1];
    if |w| > 2 {
      forall i | 0 < i < |w[1..]| ensures !ClosesReported(g, reported, w[1..][i - 1], w[1..][i]) {
        assert !ClosesReported(g, reported, w[i], w[i + 1]);
      }
      UnreportedWalkDescends(g, order, reported, w[1..], mid, to);
    }
  }

  lemma ClosedWalkHasReportedEdge(g: Graph, order: seq<Node>, reported: set<multiset<Node>>, w: seq<Node>)
    requires Distinct(order) && Elements(order) == g.Keys && DependenciesSettled(g, order, reported)
    requires ClosedWalk(g, w)
    ensures exists i | 0 < i < |w| :: ClosesReported(g, reported, w[i - 1], w[i])
  {
    assert w[0] in Elements(order);
    var p :| 0 <= p < |order| && order[p] == w[0];
    if forall i | 0 < i < |w| :: !ClosesReported(g, reported, w[i - 1], w[i]) {
      UnreportedWalkDescends(g, order, reported, w, p, p);
    }
  }

  lemma ReportedIsOnCycle(
    g: Graph, errors: seq<seq<Node>>, reported: set<multiset<Node>>, a: Node, b: Node)
    requires ReportsValid(g, errors, reported) && ClosesReported(g, reported, a, b)
    ensures OnOneCycle(errors, a, b)
  {
    var c :| EndsWithEdge(g, c, a, b) && CycleKey(c) in reported;
    EndsAreInKey(g, c, a, b);
    assert HasReport(errors, CycleKey(c));
    var e :| e in errors && CycleKey(e) == CycleKey(c);
    KeyIsInReport(e, a);
    KeyIsInReport(e, b);
  }

  lemma EndsAreInKey(g: Graph, c: seq<Node>, a: Node, b: Node)
    requires EndsWithEdge(g, c, a, b)
    ensures a in CycleKey(c) && b in CycleKey(c)
  {
    var front := c[..|c| - 1];
    assert front[|front| - 1] == a && front[0] == c[0] == b;
  }

  lemma KeyIsInReport(report: seq<Node>, x: Node)
    requires x in CycleKey(report)
    ensures x in report
  {
    assert x in report[..|report| - 1];
  }

  lemma ClosedWalkMeetsReport(
    g: Graph, order: seq<Node>, reported: set<multiset<Node>>, errors: seq<seq<Node>>, w: seq<Node>)
    requires Distinct(order) && Elements(order) == g.Keys && DependenciesSettled(g, order, reported)
    requires ReportsValid(g, errors, reported) && ClosedWalk(g, w)
    ensures Meets(errors, w)
  {
    ClosedWalkHasReportedEdge(g, order, reported, w);
    var i :| 0 < i < |w| && ClosesReported(g, reported, w[i - 1], w[i]);
    ReportedIsOnCycle(g, errors, reported, w[i - 1], w[i]);
  }

  lemma ClosedReportIsShown(g: Graph, reported: set<multiset<Node>>, errors: seq<seq<Node>>, a: Node, b: Node)
    requires ReportsValid(g, errors, reported) && ClosesReported(g, reported, a, b)
    ensures BackEdgeShown(g, errors, a, b)
  {
    var c :| EndsWithEdge(g, c, a, b) && CycleKey(c) in reported;
    assert HasReport(errors, CycleKey(c));
    var e :| e in errors && CycleKey(e) == CycleKey(c);
    ReportsAreCycles(g, reported, errors);
    DifferentKeysDifferentNodes(g, e, c);
  }

  lemma ReportsShowBackEdges(g: Graph, finished: seq<Node>, reported: set<multiset<Node>>, errors: seq<seq<Node>>)
    requires Distinct(finished) && Elements(finished) == g.Keys && DependenciesSettled(g, finished, reported)
    requires ReportsValid(g, errors, reported)
    ensures BackEdgesShown(g, finished, errors)
  {
    forall i, d | 0 <= i < |finished| && d in g[finished[i]] && d in g && d !in finished[..i]
      ensures BackEdgeShown(g, errors, finished[i], d)
    {
      ClosedReportIsShown(g, reported, errors, finished[i], d);
    }
  }

  // What a search that visited everything and left the stack empty has found.
  lemma SearchIsComplete(g: Graph, finished: seq<Node>, reported: set<multiset<Node>>, errors: seq<seq<Node>>)
    requires SearchValid(g, g.Keys, {}, finished, reported) && ReportsValid(g, errors, reported)
    ensures CycleReport(g, errors)
    ensures BackEdgesShown(g, finished, errors)
    ensures errors == [] ==> TopologicalOrder(g, finished)
  {
    ReportsShowBackEdges(g, finished, reported, errors);
    forall w | ClosedWalk(g, w) ensures Meets(errors, w) {
      ClosedWalkMeetsReport(g, finished, reported, errors, w);
    }
    ReportsAreCycles(g, reported, errors);
    if errors == [] {
      assert reported == {} by {
        assert forall key :: !HasReport(errors, key);
      }
      NothingReported(g, finished, reported);
      TopologicalOrderImpliesAcyclic(g, finished);
    } else {
      assert ClosedWalk(g, errors[0]);
    }
  }

  lemma ReportsAreCycles(g: Graph, reported: set<multiset<Node>>, errors: seq<seq<Node>>)
    requires ReportsValid(g, errors, reported)
    ensures forall w | w in errors :: SimpleCycle(g, w)
    ensures forall i, j | 0 <= i < j < |errors| :: Elements(errors[i]) != Elements(errors[j])
  {
    forall i, j | 0 <= i < j < |errors| ensures Elements(errors[i]) != Elements(errors[j]) {
      DifferentKeysDifferentNodes(g, errors[i], errors[j]);
    }
  }

  /** Searches the whole graph, starting from every node in insertion order. */
  method DetectCycles(graph: Graph, order: seq<Node>) returns (errors: seq<seq<Node>>, ghost finished: seq<Node>)
    requires Elements(order) == graph.Keys
    ensures errors == [] <==> Acyclic(graph)
    ensures errors == [] ==> TopologicalOrder(graph, finished)
    ensures forall e | e in errors :: SimpleCycle(graph, e)
    ensures forall i, j | 0 <= i < j < |errors| :: Elements(errors[i]) != Elements(errors[j])
    ensures CycleReport(graph, errors)
    ensures BackEdgesShown(graph, finished, errors)
  {
    var detector := new CycleDetector(graph);
    var i := 0;
    while i < |order|
      invariant 0 <= i <= |order|
      invariant detector.Valid() && detector.inStack == {} && detector.graph == graph
      invariant Elements(order[..i]) <= detector.visited
    {
      assert order[i] in Elements(order);
      detector.Dfs(order[i], []);
      assert Elements(order[..i + 1]) == Elements(order[..i]) + {order[i]};
      i := i + 1;
    }
    assert order[..i] == order;
    errors, finished := detector.errors, detector.finished;
    assert detector.visited == graph.Keys;
    SearchIsComplete(graph, finished, detector.reported, errors);
  }

  lemma NothingReported(g: Graph, order: seq<Node>, reported: set<multiset<Node>>)
    requires DependenciesSettled(g, order, reported) && reported == {}
    ensures DependenciesFirst(g, order)
  {
    forall i, d | 0 <= i < |order| && d in g[order[i]] && d in g ensures d in order[..i] {
      assert !ClosesReported(g, reported, order[i], d);
    }
  }

  // On simple cycles the sorted-tuple key identifies exactly the set of nodes.
  lemma DifferentKeysDifferentNodes(g: Graph, a: seq<Node>, b: seq<Node>)
    requires SimpleCycle(g, a) && SimpleCycle(g, b)
    ensures CycleKey(a) == CycleKey(b) <==> Elements(a) == Elements(b)
  {
    CycleElements(a);
    CycleElements(b);
    DistinctMultiset(a[..|a| - 1]);
    DistinctMultiset(b[..|b| - 1]);
    if CycleKey(a) == CycleKey(b) {
      forall x ensures x in Elements(a) <==> x in Elements(b) {
        assert x in CycleKey(a) <==> x in CycleKey(b);
      }
    }
    if Elements(a) == Elements(b) {
      forall x: Node ensures CycleKey(a)[x] == CycleKey(b)[x] {
        assert x in Elements(a[..|a| - 1]) <==> x in Elements(b[..|b| - 1]);
      }
      assert CycleKey(a) == CycleKey(b);
    }
  }

  lemma CycleElements(w: seq<Node>)
    requires 2 <= |w| && w[0] == w[|w| - 1]
    ensures Elements(w) == Elements(w[..|w| - 1])
  {
    assert w == w[..|w| - 1] + [w[0]];
    assert w[0] in w[..|w| - 1];
  }
}
