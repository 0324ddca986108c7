/**
 * Copies of task graphs: a deep copy renames every task and keeps the shape (sky/optimizer.py).
 */
module GraphCopies {
  import opened Prelude
  import opened Graphs
  import opened Dags

  ghost predicate Injective(f: Task -> Task) {
    forall a, b {:trigger f(a), f(b)} :: f(a) == f(b) ==> a == b
  }

  function CopyNodes(nodes: set<Task>, f: Task -> Task): set<Task> {
    set v | v in nodes :: f(v)
  }

  function CopyOfEdge(e: Edge, f: Task -> Task): Edge {
    (f(e.0), f(e.1))
  }

  function CopyEdges(edges: set<Edge>, f: Task -> Task): set<Edge> {
    set e | e in edges :: CopyOfEdge(e, f)
  }

  function CopyGraph(g: Graph, f: Task -> Task): Graph {
    Graph(CopyNodes(g.nodes, f), CopyEdges(g.edges, f))
  }

  function CopyTasks(tasks: seq<Task>, f: Task -> Task): (r: seq<Task>)
    ensures |r| == |tasks| && forall i :: 0 <= i < |tasks| ==> r[i] == f(tasks[i])
  {
    seq(|tasks|, i requires 0 <= i < |tasks| => f(tasks[i]))
  }

  lemma CopyNode(nodes: set<Task>, f: Task -> Task, v: Task)
    requires Injective(f)
    ensures f(v) in CopyNodes(nodes, f) <==> v in nodes
  {
    if f(v) in CopyNodes(nodes, f) {
      var u :| u in nodes && f(u) == f(v);
      assert u == v;
    }
  }

  lemma CopyEdge(edges: set<Edge>, f: Task -> Task, u: Task, v: Task)
    requires Injective(f)
    ensures (f(u), f(v)) in CopyEdges(edges, f) <==> (u, v) in edges
  {
    assert CopyOfEdge((u, v), f) == (f(u), f(v));
    if (f(u), f(v)) in CopyEdges(edges, f) {
      var e :| e in edges && CopyOfEdge(e, f) == (f(u), f(v));
      assert e.0 == u && e.1 == v && e == (u, v);
    }
  }

  lemma CopyElements(tasks: seq<Task>, f: Task -> Task)
    ensures Elements(CopyTasks(tasks, f)) == CopyNodes(Elements(tasks), f)
  {
    var r := CopyTasks(tasks, f);
    forall w ensures w in Elements(r) <==> w in CopyNodes(Elements(tasks), f) {
      if w in r {
        var i := Position(r, w);
        assert tasks[i] in Elements(tasks) && f(tasks[i]) == w;
      }
      if w in CopyNodes(Elements(tasks), f) {
        var v :| v in Elements(tasks) && f(v) == w;
        assert r[Position(tasks, v)] == w;
      }
    }
  }

  lemma CopyDistinct(tasks: seq<Task>, f: Task -> Task)
    requires Injective(f) && Distinct(tasks)
    ensures Distinct(CopyTasks(tasks, f))
  {
    var r := CopyTasks(tasks, f);
    forall i, j | 0 <= i < j < |r| ensures r[i] != r[j] {
      assert r[i] == f(tasks[i]) && r[j] == f(tasks[j]);
    }
  }

  lemma CopyValid(g: Graph, f: Task -> Task)
    requires g.Valid()
    ensures CopyGraph(g, f).Valid()
  {
    var c := CopyGraph(g, f);
    forall p, q | (p, q) in c.edges ensures p in c.nodes && q in c.nodes {
      var e :| e in g.edges && (p, q) == CopyOfEdge(e, f);
      assert (e.0, e.1) in g.edges && e.0 in g.nodes && e.1 in g.nodes;
    }
  }

  lemma CopyOrder(g: Graph, f: Task -> Task, s: seq<Task>)
    requires Injective(f) && IsTopologicalOrder(g, s)
    ensures IsTopologicalOrder(CopyGraph(g, f), CopyTasks(s, f))
  {
    var c, r := CopyGraph(g, f), CopyTasks(s, f);
    CopyDistinct(s, f);
    CopyElements(s, f);
    forall i, j | 0 <= i < |r| && 0 <= j < |r| && (r[i], r[j]) in c.edges ensures i < j {
      CopyEdge(g.edges, f, s[i], s[j]);
      assert (s[i], s[j]) in g.edges;
    }
  }

  /** The copy of an acyclic graph is acyclic. */
  lemma CopyAcyclic(g: Graph, f: Task -> Task)
    requires Injective(f) && g.Valid() && Acyclic(g)
    ensures CopyGraph(g, f).Valid() && Acyclic(CopyGraph(g, f))
  {
    var s := TopologicalOrderExists(g);
    CopyOrder(g, f, s);
    CopyValid(g, f);
    OrderedIsAcyclic(CopyGraph(g, f), CopyTasks(s, f));
  }

  lemma CopyPredecessors(g: Graph, f: Task -> Task, v: Task)
    requires Injective(f)
    ensures CopyGraph(g, f).Predecessors(f(v)) == CopyNodes(g.Predecessors(v), f)
  {
    var c := CopyGraph(g, f);
    forall p ensures p in c.Predecessors(f(v)) <==> p in CopyNodes(g.Predecessors(v), f) {
      if p in c.Predecessors(f(v)) {
        var e :| e in g.edges && (p, f(v)) == CopyOfEdge(e, f);
        assert (e.0, e.1) == e && e.1 == v;
        assert e.0 in g.Predecessors(v);
      }
      if p in CopyNodes(g.Predecessors(v), f) {
        var u :| u in g.Predecessors(v) && f(u) == p;
        CopyEdge(g.edges, f, u, v);
      }
    }
  }

  lemma CopySuccessors(g: Graph, f: Task -> Task, v: Task)
    requires Injective(f)
    ensures CopyGraph(g, f).Successors(f(v)) == CopyNodes(g.Successors(v), f)
  {
    var c := CopyGraph(g, f);
    forall q ensures q in c.Successors(f(v)) <==> q in CopyNodes(g.Successors(v), f) {
      if q in c.Successors(f(v)) {
        var e :| e in g.edges && (f(v), q) == CopyOfEdge(e, f);
        assert (e.0, e.1) == e && e.0 == v;
        assert e.1 in g.Successors(v);
      }
      if q in CopyNodes(g.Successors(v), f) {
        var u :| u in g.Successors(v) && f(u) == q;
        CopyEdge(g.edges, f, v, u);
      }
    }
  }

  lemma CopyEmpty(nodes: set<Task>, f: Task -> Task)
    ensures CopyNodes(nodes, f) == {} <==> nodes == {}
  {
    if v :| v in nodes {
      assert f(v) in CopyNodes(nodes, f);
    }
  }

  /** A copy has roots and leaves where the original has them. */
  lemma CopyEnds(g: Graph, f: Task -> Task)
    requires Injective(f)
    ensures CopyGraph(g, f).Roots() == CopyNodes(g.Roots(), f)
    ensures CopyGraph(g, f).Leaves() == CopyNodes(g.Leaves(), f)
  {
    var c := CopyGraph(g, f);
    forall v | v in g.nodes
      ensures f(v) in c.nodes
      ensures v in g.Roots() <==> f(v) in c.Roots()
      ensures v in g.Leaves() <==> f(v) in c.Leaves()
    {
      CopyPredecessors(g, f, v);
      CopySuccessors(g, f, v);
      CopyEmpty(g.Predecessors(v), f);
      CopyEmpty(g.Successors(v), f);
    }
    SameCopies(c.Roots(), g.Roots(), g.nodes, f);
    SameCopies(c.Leaves(), g.Leaves(), g.nodes, f);
  }

  lemma SameCopies(copies: set<Task>, part: set<Task>, nodes: set<Task>, f: Task -> Task)
    requires copies <= CopyNodes(nodes, f) && part <= nodes
    requires forall v :: v in nodes ==> (v in part <==> f(v) in copies)
    ensures copies == CopyNodes(part, f)
  {
    forall w ensures w in copies <==> w in CopyNodes(part, f) {
      if w in copies {
        var v :| v in nodes && f(v) == w;
        assert v in part;
      }
    }
  }

  /** Copying a graph with its dummy nodes is putting the copied dummies around the copied graph. */
  lemma CopyWithDummies(g: Graph, source: Task, sink: Task, f: Task -> Task)
    requires Injective(f)
    ensures CopyGraph(WithDummies(g, source, sink), f) == WithDummies(CopyGraph(g, f), f(source), f(sink))
  {
    CopyEnds(g, f);
    CopyNodesUnion(g.nodes, source, sink, f);
    CopyUnion(g.edges + EdgesFrom(source, g.Roots()), EdgesTo(g.Leaves(), sink), f);
    CopyUnion(g.edges, EdgesFrom(source, g.Roots()), f);
    CopyEdgesFrom(source, g.Roots(), f);
    CopyEdgesTo(g.Leaves(), sink, f);
  }

  lemma CopyNodesUnion(nodes: set<Task>, source: Task, sink: Task, f: Task -> Task)
    ensures CopyNodes(nodes + {source, sink}, f) == CopyNodes(nodes, f) + {f(source), f(sink)}
  {
  }

  lemma CopyUnion(a: set<Edge>, b: set<Edge>, f: Task -> Task)
    ensures CopyEdges(a + b, f) == CopyEdges(a, f) + CopyEdges(b, f)
  {
  }

  lemma CopyEdgesFrom(u: Task, vs: set<Task>, f: Task -> Task)
    ensures CopyEdges(EdgesFrom(u, vs), f) == EdgesFrom(f(u), CopyNodes(vs, f))
  {
    forall e: Edge ensures e in CopyEdges(EdgesFrom(u, vs), f) <==> e in EdgesFrom(f(u), CopyNodes(vs, f)) {
      if e in EdgesFrom(f(u), CopyNodes(vs, f)) {
        var v :| v in vs && f(v) == e.1;
        assert (u, v) in EdgesFrom(u, vs) && e == CopyOfEdge((u, v), f);
      }
    }
  }

  lemma CopyEdgesTo(us: set<Task>, v: Task, f: Task -> Task)
    ensures CopyEdges(EdgesTo(us, v), f) == EdgesTo(CopyNodes(us, f), f(v))
  {
    forall e: Edge ensures e in CopyEdges(EdgesTo(us, v), f) <==> e in EdgesTo(CopyNodes(us, f), f(v)) {
      if e in EdgesTo(CopyNodes(us, f), f(v)) {
        var u :| u in us && f(u) == e.0;
        assert (u, v) in EdgesTo(us, v) && e == CopyOfEdge((u, v), f);
      }
    }
  }
}
