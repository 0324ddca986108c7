/**
 * The mutable DAG (sky/dag.py) and the dummy source and sink that the optimizer puts around it
 * (sky/optimizer.py).
 */
module Dags {
  import opened Prelude
  import opened Graphs

  const DUMMY_SOURCE_NAME := "skypilot-dummy-source"
  const DUMMY_SINK_NAME := "skypilot-dummy-sink"

  // ---------------------------------------------------------------------
  // Values: what adding and removing the dummy nodes does.

  function EdgesFrom(u: Task, vs: set<Task>): (r: set<Edge>)
    ensures forall e :: e in r <==> e.0 == u && e.1 in vs
  {
    var r := set v | v in vs :: (u, v);
    assert forall e: Edge :: e.0 == u && e.1 in vs ==> e == (u, e.1);
    r
  }

  function EdgesTo(us: set<Task>, v: Task): (r: set<Edge>)
    ensures forall e :: e in r <==> e.0 in us && e.1 == v
  {
    var r := set u | u in us :: (u, v);
    assert forall e: Edge :: e.0 in us && e.1 == v ==> e == (e.0, v);
    r
  }

  /** The graph with an edge from `source` to every root and from every leaf to `sink`. */
  function WithDummies(g: Graph, source: Task, sink: Task): Graph {
    Graph(g.nodes + {source, sink}, g.edges + EdgesFrom(source, g.Roots()) + EdgesTo(g.Leaves(), sink))
  }

  ghost predicate FreshDummies(g: Graph, source: Task, sink: Task) {
    source !in g.nodes && sink !in g.nodes && source != sink
  }

  function RemoveFirst(s: seq<Task>, x: Task): seq<Task> {
    if s == [] then []
    else if s[0] == x then s[1..]
    else [s[0]] + RemoveFirst(s[1..], x)
  }

  /** Tasks of a given name, in list order. */
  function Named(tasks: seq<Task>, name: string): seq<Task> {
    if tasks == [] then []
    else
      var last := tasks[|tasks| - 1];
      Named(tasks[..|tasks| - 1], name) + (if last.name == Some(name) then [last] else [])
  }

  /** What is left after the dummy nodes are looked up by name and removed; None if the lookup asserts. */
  function RemoveDummies(tasks: seq<Task>, g: Graph): Option<(seq<Task>, Graph)> {
    var source := Named(tasks, DUMMY_SOURCE_NAME);
    var sink := Named(tasks, DUMMY_SINK_NAME);
    if source == [] && sink == [] then Some((tasks, g))
    else if |source| == 1 && |sink| == 1 then
      Some((RemoveFirst(RemoveFirst(tasks, source[0]), sink[0]), Without(Without(g, source[0]), sink[0])))
    else None
  }

  // ---------------------------------------------------------------------
  // The dummy nodes on acyclic graphs.

  lemma DummiesValid(g: Graph, source: Task, sink: Task)
    requires g.Valid()
    ensures WithDummies(g, source, sink).Valid()
  {
  }

  lemma DummyEdgeAdvances(g: Graph, source: Task, sink: Task, s: seq<Task>, i: nat, j: nat)
    requires g.Valid() && FreshDummies(g, source, sink) && IsTopologicalOrder(g, s)
    requires i < |s| + 2 && j < |s| + 2
    requires var t := [source] + s + [sink]; (t[i], t[j]) in WithDummies(g, source, sink).edges
    ensures i < j
  {
    var t := [source] + s + [sink];
    assert 1 <= i <= |s| ==> t[i] == s[i - 1] && s[i - 1] in g.nodes;
    assert 1 <= j <= |s| ==> t[j] == s[j - 1] && s[j - 1] in g.nodes;
    if (t[i], t[j]) in g.edges {
      assert t[i] in g.nodes && t[j] in g.nodes;
      assert (s[i - 1], s[j - 1]) in g.edges;
    } else if (t[i], t[j]) in EdgesFrom(source, g.Roots()) {
      assert t[j] in g.nodes;
    } else {
      assert t[i] in g.nodes;
    }
  }

  lemma OrderWithDummies(g: Graph, source: Task, sink: Task, s: seq<Task>)
    requires g.Valid() && FreshDummies(g, source, sink) && IsTopologicalOrder(g, s)
    ensures IsTopologicalOrder(WithDummies(g, source, sink), [source] + s + [sink])
  {
    var t := [source] + s + [sink];
    assert Elements(t) == {source} + Elements(s) + {sink};
    forall i, j | 0 <= i < j < |t| ensures t[i] != t[j] {
      assert 1 <= i <= |s| ==> t[i] == s[i - 1] && s[i - 1] in g.nodes;
      assert 1 <= j <= |s| ==> t[j] == s[j - 1] && s[j - 1] in g.nodes;
    }
    forall i, j | 0 <= i < |t| && 0 <= j < |t| && (t[i], t[j]) in WithDummies(g, source, sink).edges ensures i < j {
      DummyEdgeAdvances(g, source, sink, s, i, j);
    }
  }

  /** Adding the dummy nodes keeps the graph valid and acyclic. */
  lemma DummiesKeepAcyclic(g: Graph, source: Task, sink: Task)
    requires g.Valid() && Acyclic(g) && FreshDummies(g, source, sink)
    ensures WithDummies(g, source, sink).Valid() && Acyclic(WithDummies(g, source, sink))
  {
    var s := TopologicalOrderExists(g);
    OrderWithDummies(g, source, sink, s);
    OrderedIsAcyclic(WithDummies(g, source, sink), [source] + s + [sink]);
  }

  lemma HasRootAndLeaf(g: Graph)
    requires g.Valid() && Acyclic(g) && g.nodes != {}
    ensures g.Roots() != {} && g.Leaves() != {}
  {
    var s := TopologicalOrderExists(g);
    assert |Elements(s)| > 0;
    FirstIsRoot(g, s);
    LastIsLeaf(g, s);
    assert s[0] in g.Roots() && s[|s| - 1] in g.Leaves();
  }

  lemma OnlySourceIsRoot(g: Graph, source: Task, sink: Task, v: Task)
    requires g.Valid() && Acyclic(g) && g.nodes != {} && FreshDummies(g, source, sink)
    requires v in WithDummies(g, source, sink).nodes
    ensures WithDummies(g, source, sink).Predecessors(v) == {} <==> v == source
  {
    var h := WithDummies(g, source, sink);
    HasRootAndLeaf(g);
    if v == sink {
      var u :| u in g.Leaves();
      assert u in h.Predecessors(sink);
    } else if v in g.Roots() {
      assert source in h.Predecessors(v);
    } else if v != source {
      var u :| u in g.Predecessors(v);
      assert u in h.Predecessors(v);
    } else {
      assert forall u :: (u, source) !in h.edges;
    }
  }

  lemma OnlySinkIsLeaf(g: Graph, source: Task, sink: Task, v: Task)
    requires g.Valid() && Acyclic(g) && g.nodes != {} && FreshDummies(g, source, sink)
    requires v in WithDummies(g, source, sink).nodes
    ensures WithDummies(g, source, sink).Successors(v) == {} <==> v == sink
  {
    var h := WithDummies(g, source, sink);
    HasRootAndLeaf(g);
    if v == source {
      var u :| u in g.Roots();
      assert u in h.Successors(source);
    } else if v in g.Leaves() {
      assert sink in h.Successors(v);
    } else if v != sink {
      var u :| u in g.Successors(v);
      assert u in h.Successors(v);
    } else {
      assert forall u :: (sink, u) !in h.edges;
    }
  }

  /** Every topological order of the extended graph starts at the source and ends at the sink. */
  lemma DummiesAreEnds(g: Graph, source: Task, sink: Task, t: seq<Task>)
    requires g.Valid() && Acyclic(g) && g.nodes != {} && FreshDummies(g, source, sink)
    requires IsTopologicalOrder(WithDummies(g, source, sink), t)
    ensures |t| >= 2 && t[0] == source && t[|t| - 1] == sink
  {
    var h := WithDummies(g, source, sink);
    assert source in h.nodes && sink in h.nodes;
    assert source in t && sink in t;
    FirstIsRoot(h, t);
    LastIsLeaf(h, t);
    OnlySourceIsRoot(g, source, sink, t[0]);
    OnlySinkIsLeaf(g, source, sink, t[|t| - 1]);
  }

  lemma InnerDegrees(g: Graph, source: Task, sink: Task, v: Task)
    requires g.Valid() && FreshDummies(g, source, sink) && v in g.nodes
    ensures var h := WithDummies(g, source, sink);
      && h.Predecessors(v) == (if v in g.Roots() then {source} else g.Predecessors(v))
      && h.Successors(v) == (if v in g.Leaves() then {sink} else g.Successors(v))
  {
  }

  lemma DummyDegrees(g: Graph, source: Task, sink: Task)
    requires g.Valid() && FreshDummies(g, source, sink)
    ensures var h := WithDummies(g, source, sink);
      && h.Predecessors(source) == {} && h.Successors(source) == g.Roots()
      && h.Successors(sink) == {} && h.Predecessors(sink) == g.Leaves()
  {
  }

  lemma DummyEnds(g: Graph, source: Task, sink: Task)
    requires g.Valid() && Acyclic(g) && g.nodes != {} && FreshDummies(g, source, sink)
    ensures |WithDummies(g, source, sink).Roots()| == 1
    ensures |WithDummies(g, source, sink).Leaves()| == 1
  {
    var h := WithDummies(g, source, sink);
    forall v | v in h.nodes ensures (v in h.Roots() <==> v == source) && (v in h.Leaves() <==> v == sink) {
      OnlySourceIsRoot(g, source, sink, v);
      OnlySinkIsLeaf(g, source, sink, v);
    }
    assert source in h.nodes && sink in h.nodes;
    assert h.Roots() == {source} && h.Leaves() == {sink};
  }

  lemma InDegreesAtMostOne(g: Graph, source: Task, sink: Task)
    requires g.Valid() && FreshDummies(g, source, sink)
    ensures WithDummies(g, source, sink).InAtMostOne() <==> g.InAtMostOne() && |g.Leaves()| <= 1
  {
    var h := WithDummies(g, source, sink);
    DummyDegrees(g, source, sink);
    forall v | v in g.nodes ensures h.InDegree(v) <= 1 <==> g.InDegree(v) <= 1 {
      InnerDegrees(g, source, sink, v);
    }
    assert h.InDegree(sink) == |g.Leaves()| && h.InDegree(source) == 0;
    assert sink in h.nodes && forall v :: v in g.nodes ==> v in h.nodes;
  }

  lemma OutDegreesAtMostOne(g: Graph, source: Task, sink: Task)
    requires g.Valid() && FreshDummies(g, source, sink)
    ensures WithDummies(g, source, sink).OutAtMostOne() <==> g.OutAtMostOne() && |g.Roots()| <= 1
  {
    var h := WithDummies(g, source, sink);
    DummyDegrees(g, source, sink);
    forall v | v in g.nodes ensures h.OutDegree(v) <= 1 <==> g.OutDegree(v) <= 1 {
      InnerDegrees(g, source, sink, v);
    }
    assert h.OutDegree(source) == |g.Roots()| && h.OutDegree(sink) == 0;
    assert source in h.nodes && forall v :: v in g.nodes ==> v in h.nodes;
  }

  /** Adding the dummy nodes preserves whether the graph is a chain. */
  lemma DummiesKeepChain(g: Graph, source: Task, sink: Task)
    requires g.Valid() && Acyclic(g) && g.nodes != {} && FreshDummies(g, source, sink)
    ensures WithDummies(g, source, sink).IsChain() <==> g.IsChain()
  {
    DummyEnds(g, source, sink);
    InDegreesAtMostOne(g, source, sink);
    OutDegreesAtMostOne(g, source, sink);
    HasRootAndLeaf(g);
    assert |g.Roots()| != 0 && |g.Leaves()| != 0;
    assert source in WithDummies(g, source, sink).nodes;
  }

  /** On the empty graph the two dummy nodes stay apart, and chain-ness is lost. */
  lemma DummiesOnEmptyGraph(source: Task, sink: Task)
    requires source != sink
    ensures Graph({}, {}).IsChain() && !WithDummies(Graph({}, {}), source, sink).IsChain()
  {
    var h := WithDummies(Graph({}, {}), source, sink);
    DummyDegrees(Graph({}, {}), source, sink);
    assert source in h.nodes && h.InDegree(source) == 0 && h.InDegree(sink) == 0;
    AtLeastTwo(h.Roots(), source, sink);
  }

  // ---------------------------------------------------------------------
  // Removing the dummy nodes restores the DAG.

  lemma {:induction false} NamedNone(tasks: seq<Task>, name: string)
    ensures Named(tasks, name) == [] <==> forall t :: t in tasks ==> t.name != Some(name)
  {
    if tasks == [] {
    } else {
      var rest := tasks[..|tasks| - 1];
      NamedNone(rest, name);
      assert tasks == rest + [tasks[|tasks| - 1]];
    }
  }

  lemma NamedWithDummies(tasks: seq<Task>, source: Task, sink: Task)
    requires source.name == Some(DUMMY_SOURCE_NAME) && sink.name == Some(DUMMY_SINK_NAME)
    ensures Named(tasks + [source, sink], DUMMY_SOURCE_NAME) == Named(tasks, DUMMY_SOURCE_NAME) + [source]
    ensures Named(tasks + [source, sink], DUMMY_SINK_NAME) == Named(tasks, DUMMY_SINK_NAME) + [sink]
  {
    var all := tasks + [source, sink];
    assert all[..|all| - 1] == tasks + [source];
    assert (tasks + [source])[..|tasks|] == tasks;
    assert DUMMY_SOURCE_NAME[|DUMMY_SOURCE_NAME| - 1] != DUMMY_SINK_NAME[|DUMMY_SINK_NAME| - 1];
  }

  lemma {:induction false} RemoveFirstAfter(s: seq<Task>, x: Task, t: seq<Task>)
    requires x !in s
    ensures RemoveFirst(s + [x] + t, x) == s + t
  {
    if s == [] {
      assert s + [x] + t == [x] + t && s + t == t;
    } else {
      RemoveFirstAfter(s[1..], x, t);
      assert (s + [x] + t)[1..] == s[1..] + [x] + t;
    }
  }

  lemma RemoveFirstAt(s: seq<Task>, x: Task, k: nat)
    requires k < |s| && s[k] == x && x !in s[..k]
    ensures RemoveFirst(s, x) == s[..k] + s[k + 1..]
  {
    RemoveFirstAfter(s[..k], x, s[k + 1..]);
    assert s == s[..k] + [x] + s[k + 1..];
  }

  lemma RemoveKeepsValid(tasks: seq<Task>, g: Graph, task: Task)
    requires Distinct(tasks) && Elements(tasks) == g.nodes && g.Valid() && task in tasks
    ensures Distinct(RemoveFirst(tasks, task)) && Elements(RemoveFirst(tasks, task)) == Without(g, task).nodes
    ensures Without(g, task).Valid()
  {
    var k := Position(tasks, task);
    assert task !in tasks[..k] && task !in tasks[k + 1..];
    RemoveFirstAt(tasks, task, k);
    assert tasks == tasks[..k] + [task] + tasks[k + 1..];
    DistinctParts(tasks, k);
  }

  lemma DistinctParts(tasks: seq<Task>, k: nat)
    requires Distinct(tasks) && k < |tasks|
    ensures Distinct(tasks[..k] + tasks[k + 1..])
  {
    var rest := tasks[..k] + tasks[k + 1..];
    forall i, j | 0 <= i < j < |rest| ensures rest[i] != rest[j] {
      assert rest[i] == tasks[if i < k then i else i + 1] && rest[j] == tasks[if j < k then j else j + 1];
    }
  }

  lemma WithoutDummies(g: Graph, source: Task, sink: Task)
    requires g.Valid() && FreshDummies(g, source, sink)
    ensures Without(Without(WithDummies(g, source, sink), source), sink) == g
  {
    var h := Without(Without(WithDummies(g, source, sink), source), sink);
    forall e: Edge ensures e in h.edges <==> e in g.edges {
      assert e == (e.0, e.1);
    }
    assert h.nodes == g.nodes;
  }

  /**
   * Adding the dummy nodes and then removing them gives the DAG back exactly when no user task
   * carries one of the two reserved names; otherwise the removal asserts.
   */
  lemma RemoveUndoesAdd(tasks: seq<Task>, g: Graph, source: Task, sink: Task)
    requires g.Valid() && Elements(tasks) == g.nodes && FreshDummies(g, source, sink)
    requires source.name == Some(DUMMY_SOURCE_NAME) && sink.name == Some(DUMMY_SINK_NAME)
    ensures var left := RemoveDummies(tasks + [source, sink], WithDummies(g, source, sink));
      var reserved := exists t :: t in tasks && (t.name == Some(DUMMY_SOURCE_NAME) || t.name == Some(DUMMY_SINK_NAME));
      && (left == Some((tasks, g)) <==> !reserved)
      && (left == None <==> reserved)
  {
    NamedWithDummies(tasks, source, sink);
    NamedNone(tasks, DUMMY_SOURCE_NAME);
    NamedNone(tasks, DUMMY_SINK_NAME);
    RemoveFirstAfter(tasks, source, [sink]);
    RemoveFirstAfter(tasks, sink, []);
    assert tasks + [source] + [sink] == tasks + [source, sink];
    assert tasks + [sink] + [] == tasks + [sink] && tasks + [] == tasks;
    WithoutDummies(g, source, sink);
  }

  // ---------------------------------------------------------------------
  // The mutable object.

  class Dag {
    var tasks: seq<Task>
    var graph: Graph

    ghost predicate Valid()
      reads this
    {
      Distinct(tasks) && Elements(tasks) == graph.nodes && graph.Valid()
    }

    constructor ()
      ensures tasks == [] && graph == Graph({}, {})
    {
      tasks := [];
      graph := Graph({}, {});
    }

    method Add(task: Task)
      modifies this
      ensures tasks == old(tasks) + [task]
      ensures graph == Graph(old(graph).nodes + {task}, old(graph).edges)
      ensures old(Valid()) && task !in old(graph).nodes ==> Valid()
    {
      graph := Graph(graph.nodes + {task}, graph.edges);
      tasks := tasks + [task];
      assert Elements(tasks) == Elements(old(tasks)) + {task};
    }

    /** Removing a task that is absent is an error of the caller. */
    method Remove(task: Task)
      requires task in tasks && task in graph.nodes
      modifies this
      ensures tasks == RemoveFirst(old(tasks), task)
      ensures graph == Without(old(graph), task)
      ensures old(Valid()) ==> Valid()
    {
      if Valid() {
        RemoveKeepsValid(tasks, graph, task);
      }
      var k := 0;
      while tasks[k] != task
        invariant 0 <= k < |tasks| && task !in tasks[..k]
        decreases |tasks| - k
      {
        k := k + 1;
      }
      RemoveFirstAt(tasks, task, k);
      tasks := tasks[..k] + tasks[k + 1..];
      graph := Without(graph, task);
    }

    /** Both ends of an edge must already be in the graph. */
    method AddEdge(u: Task, v: Task)
      requires u in graph.nodes && v in graph.nodes
      modifies this`graph
      ensures graph == Graph(old(graph).nodes, old(graph).edges + {(u, v)})
    {
      graph := Graph(graph.nodes, graph.edges + {(u, v)});
    }

    method ConnectFrom(u: Task, vs: set<Task>)
      requires u in graph.nodes && vs <= graph.nodes
      modifies this`graph
      ensures graph == Graph(old(graph).nodes, old(graph).edges + EdgesFrom(u, vs))
    {
      var left := vs;
      while left != {}
        invariant left <= vs
        invariant graph.nodes == old(graph).nodes
        invariant forall e :: e in graph.edges <==> e in old(graph).edges || (e.0 == u && e.1 in vs - left)
      {
        var v :| v in left;
        AddEdge(u, v);
        left := left - {v};
      }
    }

    method ConnectTo(us: set<Task>, v: Task)
      requires v in graph.nodes && us <= graph.nodes
      modifies this`graph
      ensures graph == Graph(old(graph).nodes, old(graph).edges + EdgesTo(us, v))
    {
      var left := us;
      while left != {}
        invariant left <= us
        invariant graph.nodes == old(graph).nodes
        invariant forall e :: e in graph.edges <==> e in old(graph).edges || (e.0 in us - left && e.1 == v)
      {
        var u :| u in left;
        AddEdge(u, v);
        left := left - {u};
      }
    }

    method AddDummySourceSink(source: Task, sink: Task)
      requires Valid() && FreshDummies(graph, source, sink)
      modifies this
      ensures tasks == old(tasks) + [source, sink]
      ensures graph == WithDummies(old(graph), source, sink)
      ensures Valid()
    {
      var roots, leaves := graph.Roots(), graph.Leaves();
      Add(source);
      ConnectFrom(source, roots);
      Add(sink);
      ConnectTo(leaves, sink);
      assert graph.nodes == WithDummies(old(graph), source, sink).nodes;
      DummiesValid(old(graph), source, sink);
      assert Elements(tasks) == Elements(old(tasks)) + {source, sink};
    }

    method FindByName(name: string) returns (found: seq<Task>)
      ensures found == Named(tasks, name)
    {
      found := [];
      for i := 0 to |tasks|
        invariant found == Named(tasks[..i], name)
      {
        assert tasks[..i + 1][..i] == tasks[..i];
        if tasks[i].name == Some(name) {
          found := found + [tasks[i]];
        }
      }
      assert tasks[..|tasks|] == tasks;
    }

    /** The result is false where the source fails its assertion that each name occurs once. */
    method RemoveDummySourceSink() returns (ok: bool)
      requires Valid()
      modifies this
      ensures ok <==> RemoveDummies(old(tasks), old(graph)).Some?
      ensures (tasks, graph) == if ok then RemoveDummies(old(tasks), old(graph)).value else (old(tasks), old(graph))
      ensures Valid()
    {
      var source := FindByName(DUMMY_SOURCE_NAME);
      var sink := FindByName(DUMMY_SINK_NAME);
      if source == [] && sink == [] {
        return true;
      }
      if |source| != 1 || |sink| != 1 {
        return false;
      }
      NamedIsIn(tasks, DUMMY_SOURCE_NAME);
      NamedIsIn(tasks, DUMMY_SINK_NAME);
      assert source[0] in source && sink[0] in sink;
      assert DUMMY_SOURCE_NAME[|DUMMY_SOURCE_NAME| - 1] != DUMMY_SINK_NAME[|DUMMY_SINK_NAME| - 1];
      RemoveFirstKeeps(tasks, source[0], sink[0]);
      Remove(source[0]);
      Remove(sink[0]);
      ok := true;
    }
  }

  lemma {:induction false} NamedIsIn(tasks: seq<Task>, name: string)
    ensures forall t :: t in Named(tasks, name) ==> t in tasks && t.name == Some(name)
  {
    if tasks == [] {
    } else {
      NamedIsIn(tasks[..|tasks| - 1], name);
    }
  }

  lemma {:induction false} RemoveFirstKeeps(s: seq<Task>, x: Task, y: Task)
    requires y in s && x != y
    ensures y in RemoveFirst(s, x)
  {
    if s[0] == x || s[0] == y {
    } else {
      RemoveFirstKeeps(s[1..], x, y);
    }
  }
}
