/**
 * Task graphs, topological orders and the degree test for chains (sky/dag.py).
 */
module Graphs {
  import opened Prelude

  /** A task object: its identity and its optional display name. */
  datatype Task = Task(id: nat, name: Option<string>)

  type Edge = (Task, Task)

  datatype Graph = Graph(nodes: set<Task>, edges: set<Edge>) {
    ghost predicate Valid() {
      forall u, v :: (u, v) in edges ==> u in nodes && v in nodes
    }

    function Predecessors(v: Task): (r: set<Task>)
      ensures forall u :: u in r <==> (u, v) in edges
    {
      var r := set e | e in edges && e.1 == v :: e.0;
      assert forall u :: (u, v) in edges ==> (u, v).0 in r;
      r
    }

    function Successors(u: Task): (r: set<Task>)
      ensures forall v :: v in r <==> (u, v) in edges
    {
      var r := set e | e in edges && e.0 == u :: e.1;
      assert forall v :: (u, v) in edges ==> (u, v).1 in r;
      r
    }

    function InDegree(v: Task): nat { |Predecessors(v)| }

    function OutDegree(v: Task): nat { |Successors(v)| }

    /** The nodes of in-degree zero. */
    function Roots(): set<Task> {
      set v | v in nodes && InDegree(v) == 0
    }

    /** The nodes of out-degree zero. */
    function Leaves(): set<Task> {
      set v | v in nodes && OutDegree(v) == 0
    }

    predicate InAtMostOne() {
      forall v {:trigger InDegree(v)} | v in nodes :: InDegree(v) <= 1
    }

    predicate OutAtMostOne() {
      forall v {:trigger OutDegree(v)} | v in nodes :: OutDegree(v) <= 1
    }

    /** The chain test of the source: it looks at degrees and nothing else. */
    predicate IsChain() {
      nodes == {} ||
      (OutAtMostOne() && |Leaves()| == 1 && InAtMostOne() && |Roots()| == 1)
    }
  }

  ghost predicate IsTopologicalOrder(g: Graph, s: seq<Task>) {
    && Distinct(s)
    && Elements(s) == g.nodes
    && forall i, j {:trigger (s[i], s[j])} ::
         0 <= i < |s| && 0 <= j < |s| && (s[i], s[j]) in g.edges ==> i < j
  }

  ghost predicate IsWalk(g: Graph, p: seq<Task>) {
    && |p| >= 1
    && (forall i :: 0 <= i < |p| ==> p[i] in g.nodes)
    && (forall i, j {:trigger (p[i], p[j])} :: 0 <= i < j < |p| && j == i + 1 ==> (p[i], p[j]) in g.edges)
  }

  ghost predicate Acyclic(g: Graph) {
    forall p :: IsWalk(g, p) && |p| >= 2 ==> p[0] != p[|p| - 1]
  }

  // ---------------------------------------------------------------------
  // Acyclic graphs are exactly the ones with a topological order.

  lemma {:induction false} WalkAdvances(g: Graph, s: seq<Task>, p: seq<Task>, a: nat, b: nat)
    requires IsTopologicalOrder(g, s) && IsWalk(g, p) && |p| >= 2
    requires a < |s| && b < |s| && s[a] == p[0] && s[b] == p[|p| - 1]
    ensures a < b
    decreases |p|
  {
    assert p[1] in g.nodes;
    var c := Position(s, p[1]);
    assert (p[0], p[1]) in g.edges && (s[a], s[c]) in g.edges;
    if |p| == 2 {
    } else {
      SubWalk(g, p, 1, |p|);
      WalkAdvances(g, s, p[1..|p|], c, b);
    }
  }

  lemma SubWalk(g: Graph, p: seq<Task>, i: nat, j: nat)
    requires IsWalk(g, p) && i < j <= |p|
    ensures IsWalk(g, p[i..j])
  {
    var q := p[i..j];
    forall a, b | 0 <= a < b < |q| && b == a + 1 ensures (q[a], q[b]) in g.edges {
      assert (p[i + a], p[i + b]) in g.edges;
    }
  }

  lemma ExtendWalk(g: Graph, p: seq<Task>, v: Task)
    requires IsWalk(g, p) && v in g.nodes && (p[|p| - 1], v) in g.edges
    ensures IsWalk(g, p + [v])
  {
    var q := p + [v];
    forall a, b | 0 <= a < b < |q| && b == a + 1 ensures (q[a], q[b]) in g.edges {
      assert b < |p| ==> (p[a], p[b]) in g.edges;
    }
  }

  lemma OrderedIsAcyclic(g: Graph, s: seq<Task>)
    requires IsTopologicalOrder(g, s)
    ensures Acyclic(g)
  {
    forall p | IsWalk(g, p) && |p| >= 2 ensures p[0] != p[|p| - 1] {
      assert p[0] in g.nodes && p[|p| - 1] in g.nodes;
      WalkAdvances(g, s, p, Position(s, p[0]), Position(s, p[|p| - 1]));
    }
  }

  lemma {:induction false} BackwardWalk(g: Graph, n: nat) returns (p: seq<Task>)
    requires g.Valid() && n >= 1 && g.nodes != {}
    requires forall v :: v in g.nodes ==> g.Predecessors(v) != {}
    ensures IsWalk(g, p) && |p| == n
  {
    if n == 1 {
      var v :| v in g.nodes;
      p := [v];
    } else {
      var q := BackwardWalk(g, n - 1);
      assert q[0] in g.nodes;
      var u :| u in g.Predecessors(q[0]);
      p := [u] + q;
      forall i, j | 0 <= i < j < |p| && j == i + 1 ensures (p[i], p[j]) in g.edges {
        assert i > 0 ==> (q[i - 1], q[j - 1]) in g.edges;
      }
    }
  }

  /** An acyclic graph has no walk longer than its number of nodes. */
  lemma AcyclicWalkIsShort(g: Graph, p: seq<Task>)
    requires Acyclic(g) && IsWalk(g, p)
    ensures |p| <= |g.nodes|
  {
    forall i, j | 0 <= i < j < |p| ensures p[i] != p[j] {
      SubWalk(g, p, i, j + 1);
      assert p[i..j + 1][0] == p[i] && p[i..j + 1][j - i] == p[j];
    }
    DistinctSize(p);
    SubsetSize(Elements(p), g.nodes);
  }

  lemma AcyclicHasRoot(g: Graph) returns (v: Task)
    requires g.Valid() && Acyclic(g) && g.nodes != {}
    ensures v in g.nodes && g.Predecessors(v) == {}
  {
    if forall u :: u in g.nodes ==> g.Predecessors(u) != {} {
      var p := BackwardWalk(g, |g.nodes| + 1);
      AcyclicWalkIsShort(g, p);
      assert false;
    }
    v :| v in g.nodes && g.Predecessors(v) == {};
  }

  function Without(g: Graph, v: Task): Graph {
    Graph(g.nodes - {v}, set e | e in g.edges && e.0 != v && e.1 != v)
  }

  lemma WithoutAcyclic(g: Graph, v: Task)
    requires Acyclic(g)
    ensures Acyclic(Without(g, v))
  {
    forall p | IsWalk(Without(g, v), p) && |p| >= 2 ensures p[0] != p[|p| - 1] {
      assert IsWalk(g, p);
    }
  }

  lemma {:induction false} TopologicalOrderExists(g: Graph) returns (s: seq<Task>)
    requires g.Valid() && Acyclic(g)
    ensures IsTopologicalOrder(g, s)
    decreases |g.nodes|
  {
    if g.nodes == {} {
      s := [];
    } else {
      var v := AcyclicHasRoot(g);
      WithoutAcyclic(g, v);
      var t := TopologicalOrderExists(Without(g, v));
      s := [v] + t;
      RootFirst(g, v, t);
    }
  }

  lemma RootFirst(g: Graph, v: Task, t: seq<Task>)
    requires g.Valid() && v in g.nodes && g.Predecessors(v) == {} && IsTopologicalOrder(Without(g, v), t)
    ensures IsTopologicalOrder(g, [v] + t)
  {
    var s := [v] + t;
    assert Elements(s) == {v} + Elements(t);
    assert v !in Elements(t);
    forall i, j | 0 <= i < |s| && 0 <= j < |s| && (s[i], s[j]) in g.edges ensures i < j {
      assert s[i] in g.Predecessors(s[j]);
      if i > 0 {
        assert s[j] != v;
        assert (t[i - 1], t[j - 1]) in Without(g, v).edges;
      }
    }
  }

  /** A valid graph is acyclic if and only if it can be sorted topologically. */
  lemma AcyclicIffSortable(g: Graph)
    requires g.Valid()
    ensures Acyclic(g) <==> exists s :: IsTopologicalOrder(g, s)
  {
    if Acyclic(g) {
      var s := TopologicalOrderExists(g);
    }
    if s :| IsTopologicalOrder(g, s) {
      OrderedIsAcyclic(g, s);
    }
  }

  // ---------------------------------------------------------------------
  // The degree test on a sortable graph recognises exactly the paths.

  lemma FirstIsRoot(g: Graph, s: seq<Task>)
    requires g.Valid() && IsTopologicalOrder(g, s) && |s| >= 1
    ensures s[0] in g.nodes && g.Predecessors(s[0]) == {}
  {
    forall u | u in g.nodes ensures (u, s[0]) !in g.edges {
      var k := Position(s, u);
      assert (s[k], s[0]) in g.edges ==> k < 0;
    }
  }

  lemma LastIsLeaf(g: Graph, s: seq<Task>)
    requires g.Valid() && IsTopologicalOrder(g, s) && |s| >= 1
    ensures s[|s| - 1] in g.nodes && g.Successors(s[|s| - 1]) == {}
  {
    var n := |s| - 1;
    forall u | u in g.nodes ensures (s[n], u) !in g.edges {
      var k := Position(s, u);
      assert (s[n], s[k]) in g.edges ==> n < k;
    }
  }

  /** A task whose successor is already known has no other one, when out-degrees are at most one. */
  lemma OnlySuccessor(g: Graph, u: Task, v: Task, w: Task)
    requires g.Valid() && g.IsChain() && (u, v) in g.edges && v != w
    ensures (u, w) !in g.edges
  {
    assert g.OutDegree(u) <= 1;
    if (u, w) in g.edges {
      AtLeastTwo(g.Successors(u), v, w);
    }
  }

  lemma ChainHasOnePredecessor(g: Graph, s: seq<Task>, i: nat) returns (u: Task)
    requires g.Valid() && g.IsChain() && IsTopologicalOrder(g, s) && 1 <= i < |s|
    ensures g.Predecessors(s[i]) == {u}
  {
    FirstIsRoot(g, s);
    Singleton(g.Roots(), s[0]);
    assert s[i] in g.nodes && s[i] !in g.Roots();
    assert g.InDegree(s[i]) == 1;
    u :| u in g.Predecessors(s[i]);
    Singleton(g.Predecessors(s[i]), u);
  }

  /** In a chain the one and only predecessor of a node is the node sorted just before it. */
  lemma {:induction false} ChainPredecessor(g: Graph, s: seq<Task>, i: nat)
    requires g.Valid() && g.IsChain() && IsTopologicalOrder(g, s)
    requires 1 <= i < |s|
    ensures g.Predecessors(s[i]) == {s[i - 1]}
    decreases i
  {
    var u := ChainHasOnePredecessor(g, s, i);
    assert u in g.Predecessors(s[i]);
    var k := Position(s, u);
    assert (s[k], s[i]) in g.edges;
    if k + 1 < i {
      ChainPredecessor(g, s, k + 1);
      assert s[k] in g.Predecessors(s[k + 1]);
      OnlySuccessor(g, s[k], s[k + 1], s[i]);
    }
  }

  /** The edges of the path that visits `s` in order. */
  function PathEdges(s: seq<Task>): set<Edge> {
    set i, j | 0 <= i < |s| && 0 <= j < |s| && j == i + 1 :: (s[i], s[j])
  }

  lemma PathEdgeAt(s: seq<Task>, e: Edge) returns (i: nat)
    requires e in PathEdges(s)
    ensures 1 <= i < |s| && e == (s[i - 1], s[i])
  {
    var k, j :| 0 <= k < |s| && 0 <= j < |s| && j == k + 1 && e == (s[k], s[j]);
    i := j;
  }

  lemma PathDegrees(g: Graph, s: seq<Task>, i: nat)
    requires IsTopologicalOrder(g, s) && g.edges == PathEdges(s) && i < |s|
    ensures g.Predecessors(s[i]) == if i == 0 then {} else {s[i - 1]}
    ensures g.Successors(s[i]) == if i == |s| - 1 then {} else {s[i + 1]}
  {
    if i > 0 {
      assert (s[i - 1], s[i]) in g.edges;
    }
    if i < |s| - 1 {
      assert (s[i], s[i + 1]) in g.edges;
    }
  }

  lemma PathNode(g: Graph, s: seq<Task>, v: Task)
    requires IsTopologicalOrder(g, s) && |s| >= 1 && g.edges == PathEdges(s) && v in g.nodes
    ensures g.InDegree(v) <= 1 && g.OutDegree(v) <= 1
    ensures v in g.Roots() <==> v == s[0]
    ensures v in g.Leaves() <==> v == s[|s| - 1]
  {
    PathDegrees(g, s, Position(s, v));
  }

  lemma PathEnds(g: Graph, s: seq<Task>)
    requires IsTopologicalOrder(g, s) && |s| >= 1 && g.edges == PathEdges(s)
    ensures g.Roots() == {s[0]} && g.Leaves() == {s[|s| - 1]}
  {
    assert s[0] in g.nodes && s[|s| - 1] in g.nodes;
    forall v | v in g.nodes ensures v in g.Roots() <==> v == s[0] {
      PathNode(g, s, v);
    }
    forall v | v in g.nodes ensures v in g.Leaves() <==> v == s[|s| - 1] {
      PathNode(g, s, v);
    }
  }

  lemma PathIsChain(g: Graph, s: seq<Task>)
    requires IsTopologicalOrder(g, s) && |s| >= 1 && g.edges == PathEdges(s)
    ensures g.IsChain()
  {
    forall v | v in g.nodes ensures g.InDegree(v) <= 1 && g.OutDegree(v) <= 1 {
      PathNode(g, s, v);
    }
    PathEnds(g, s);
  }

  lemma ChainEdgeIsConsecutive(g: Graph, s: seq<Task>, u: Task, v: Task) returns (i: nat)
    requires g.Valid() && IsTopologicalOrder(g, s) && g.IsChain() && (u, v) in g.edges
    ensures 1 <= i < |s| && u == s[i - 1] && v == s[i]
  {
    assert v in g.nodes && u in g.Predecessors(v);
    i := Position(s, v);
    FirstIsRoot(g, s);
    ChainPredecessor(g, s, i);
  }

  lemma ConsecutiveIsChainEdge(g: Graph, s: seq<Task>, i: nat)
    requires g.Valid() && IsTopologicalOrder(g, s) && g.IsChain() && 1 <= i < |s|
    ensures (s[i - 1], s[i]) in g.edges
  {
    ChainPredecessor(g, s, i);
    assert s[i - 1] in g.Predecessors(s[i]);
  }

  lemma ChainWithinPath(g: Graph, s: seq<Task>)
    requires g.Valid() && IsTopologicalOrder(g, s) && g.IsChain()
    ensures g.edges <= PathEdges(s)
  {
    forall e | e in g.edges ensures e in PathEdges(s) {
      assert e == (e.0, e.1);
      var i := ChainEdgeIsConsecutive(g, s, e.0, e.1);
      assert e == (s[i - 1], s[i]);
    }
  }

  lemma PathWithinChain(g: Graph, s: seq<Task>)
    requires g.Valid() && IsTopologicalOrder(g, s) && g.IsChain()
    ensures PathEdges(s) <= g.edges
  {
    forall e | e in PathEdges(s) ensures e in g.edges {
      var i := PathEdgeAt(s, e);
      ConsecutiveIsChainEdge(g, s, i);
    }
  }

  /**
   * On a sortable, non-empty graph the degree test accepts exactly the graphs whose edges are the
   * consecutive pairs of the order: every topological order is a Hamiltonian path.
   */
  lemma ChainIffPath(g: Graph, s: seq<Task>)
    requires g.Valid() && IsTopologicalOrder(g, s) && |s| >= 1
    ensures g.IsChain() <==> g.edges == PathEdges(s)
  {
    if g.IsChain() {
      ChainWithinPath(g, s);
      PathWithinChain(g, s);
    } else if g.edges == PathEdges(s) {
      PathIsChain(g, s);
    }
  }

  /** Without acyclicity the degree test is not enough: a lone task beside a cycle passes it. */
  lemma DegreeTestAcceptsACycle(a: Task, b: Task, c: Task)
    requires a != b && b != c && a != c
    ensures var g := Graph({a, b, c}, {(b, c), (c, b)});
      g.Valid() && g.IsChain() && !Acyclic(g) && forall s :: !IsTopologicalOrder(g, s)
  {
    var g := Graph({a, b, c}, {(b, c), (c, b)});
    assert g.Predecessors(a) == {} && g.Predecessors(b) == {c} && g.Predecessors(c) == {b};
    assert g.Successors(a) == {} && g.Successors(b) == {c} && g.Successors(c) == {b};
    assert g.Roots() == {a} && g.Leaves() == {a};
    assert IsWalk(g, [b, c, b]);
    AcyclicIffSortable(g);
  }
}
