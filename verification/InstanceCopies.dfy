/**
 * Instances on a copied graph: with the same costs and the same egress, a plan is worth on the copy what it
 * is worth on the original, so a best plan of the one is a best plan of the other (sky/optimizer.py).
 */
module InstanceCopies {
  import opened Prelude
  import opened Graphs
  import opened GraphCopies
  import opened Placement
  import opened FinishTimes
  import opened OptimizeDag

  /** Egress does not tell a task from its copy. */
  ghost predicate SameEgress(egress: Egress, f: Task -> Task) {
    forall u, r, v, q {:trigger egress(f(u), r, f(v), q)} :: egress(f(u), r, f(v), q) == egress(u, r, v, q)
  }

  /** `inst` is `own` with every task renamed. */
  ghost predicate IsCopy(own: Instance, inst: Instance, f: Task -> Task) {
    && inst.graph == CopyGraph(own.graph, f)
    && inst.order == CopyTasks(own.order, f)
    && |inst.edges| == |own.edges|
    && (forall i :: 0 <= i < |own.edges| ==> inst.edges[i] == CopyOfEdge(own.edges[i], f))
    && (forall v :: v in own.graph.nodes ==> v in own.costs && f(v) in inst.costs && inst.costs[f(v)] == own.costs[v])
    && inst.egress == own.egress && SameEgress(own.egress, f)
  }

  // ---------------------------------------------------------------------
  // The original of an instance.

  ghost function OriginOf(nodes: set<Task>, f: Task -> Task, w: Task): (v: Task)
    requires w in CopyNodes(nodes, f)
    ensures v in nodes && f(v) == w
  {
    var v :| v in nodes && f(v) == w;
    v
  }

  lemma {:induction false} CopiesHaveOrigins(nodes: set<Task>, f: Task -> Task, copies: seq<Task>)
    returns (own: seq<Task>)
    requires forall w :: w in copies ==> w in CopyNodes(nodes, f)
    ensures CopyTasks(own, f) == copies
    decreases |copies|
  {
    if copies == [] {
      own := [];
    } else {
      var n := |copies| - 1;
      var rest := CopiesHaveOrigins(nodes, f, copies[..n]);
      assert copies[n] in copies;
      own := rest + [OriginOf(nodes, f, copies[n])];
      assert CopyTasks(own, f) == CopyTasks(rest, f) + [copies[n]];
    }
  }

  lemma {:induction false} EdgeCopiesHaveOrigins(edges: set<Edge>, f: Task -> Task, copies: seq<Edge>)
    returns (own: seq<Edge>)
    requires forall e :: e in copies ==> e in CopyEdges(edges, f)
    ensures |own| == |copies| && forall i :: 0 <= i < |own| ==> own[i] in edges && copies[i] == CopyOfEdge(own[i], f)
    decreases |copies|
  {
    if copies == [] {
      own := [];
    } else {
      var n := |copies| - 1;
      own := EdgeCopiesHaveOrigins(edges, f, copies[..n]);
      assert copies[n] in CopyEdges(edges, f);
      var e :| e in edges && CopyOfEdge(e, f) == copies[n];
      assert forall i :: 0 <= i < n ==> copies[..n][i] == copies[i];
      own := own + [e];
    }
  }

  /** An order of the copy comes from an order of the original. */
  lemma OrderOfOrigin(g: Graph, f: Task -> Task, s: seq<Task>)
    requires Injective(f) && IsTopologicalOrder(CopyGraph(g, f), CopyTasks(s, f))
    ensures IsTopologicalOrder(g, s)
  {
    var r := CopyTasks(s, f);
    forall i, j | 0 <= i < j < |s| ensures s[i] != s[j] {
      assert r[i] != r[j];
    }
    forall v ensures v in Elements(s) <==> v in g.nodes {
      CopyElements(s, f);
      CopyNode(Elements(s), f, v);
      CopyNode(g.nodes, f, v);
    }
    forall i, j | 0 <= i < |s| && 0 <= j < |s| && (s[i], s[j]) in g.edges ensures i < j {
      CopyEdge(g.edges, f, s[i], s[j]);
      assert (r[i], r[j]) in CopyGraph(g, f).edges;
    }
  }

  lemma EdgesOfOrigin(edges: set<Edge>, f: Task -> Task, own: seq<Edge>, copies: seq<Edge>)
    requires Injective(f) && |own| == |copies| && forall i :: 0 <= i < |own| ==> copies[i] == CopyOfEdge(own[i], f)
    requires forall i :: 0 <= i < |own| ==> own[i] in edges
    requires Distinct(copies) && Elements(copies) == CopyEdges(edges, f)
    ensures Distinct(own) && Elements(own) == edges
  {
    forall i, j | 0 <= i < j < |own| ensures own[i] != own[j] {
      assert copies[i] != copies[j];
    }
    forall e | e in edges ensures e in own {
      assert CopyOfEdge(e, f) in Elements(copies);
      var i := Position(copies, CopyOfEdge(e, f));
      assert own[i].0 == e.0 && own[i].1 == e.1;
    }
  }

  // ---------------------------------------------------------------------
  // Values of plans.

  /** The two plans choose alike. */
  ghost predicate PlanCopied(own: Instance, p: Plan, q: Plan, f: Task -> Task) {
    && p.Keys == own.graph.nodes && q.Keys == CopyNodes(own.graph.nodes, f)
    && forall v :: v in own.graph.nodes ==> f(v) in q && q[f(v)] == p[v]
  }

  lemma CopyPlan(own: Instance, p: Plan, f: Task -> Task) returns (q: Plan)
    requires Injective(f) && p.Keys == own.graph.nodes
    ensures PlanCopied(own, p, q, f)
  {
    var nodes := own.graph.nodes;
    q := map w | w in CopyNodes(nodes, f) :: p[OriginOf(nodes, f, w)];
    forall v | v in nodes ensures f(v) in q && q[f(v)] == p[v] {
      CopyNode(nodes, f, v);
      assert OriginOf(nodes, f, f(v)) == v;
    }
  }

  lemma PlansMatch(own: Instance, inst: Instance, f: Task -> Task, p: Plan, q: Plan)
    requires IsCopy(own, inst, f) && Valid(own) && Valid(inst) && PlanCopied(own, p, q, f)
    ensures IsPlan(own, p) <==> IsPlan(inst, q)
  {
    forall v | v in own.graph.nodes ensures Offers(inst.costs[f(v)], q[f(v)]) <==> Offers(own.costs[v], p[v]) {
    }
    if IsPlan(own, p) {
      forall w | w in q ensures Offers(inst.costs[w], q[w]) {
        var v := OriginOf(own.graph.nodes, f, w);
      }
    }
    if IsPlan(inst, q) {
      forall v | v in p ensures Offers(own.costs[v], p[v]) {
        assert f(v) in q;
      }
    }
  }

  lemma NodeCostCopied(own: Instance, inst: Instance, f: Task -> Task, p: Plan, q: Plan, v: Task)
    requires IsCopy(own, inst, f) && PlanCopied(own, p, q, f) && v in own.graph.nodes
    ensures NodeCost(inst, q, f(v)) == NodeCost(own, p, v)
  {
  }

  lemma EdgeCostCopied(own: Instance, inst: Instance, f: Task -> Task, p: Plan, q: Plan, u: Task, v: Task)
    requires IsCopy(own, inst, f) && PlanCopied(own, p, q, f) && u in own.graph.nodes && v in own.graph.nodes
    ensures EdgeCost(inst, q, (f(u), f(v))) == EdgeCost(own, p, (u, v))
  {
    assert own.egress(f(u), p[u], f(v), p[v]) == own.egress(u, p[u], v, p[v]);
  }

  lemma {:induction false} TotalsMatch<T>(a: T -> real, xs: seq<T>, b: T -> real, ys: seq<T>)
    requires |xs| == |ys| && forall i :: 0 <= i < |xs| ==> a(xs[i]) == b(ys[i])
    ensures Total(a, xs) == Total(b, ys)
  {
    if xs == [] {
    } else {
      TotalsMatch(a, xs[..|xs| - 1], b, ys[..|ys| - 1]);
    }
  }

  lemma TotalCostCopied(own: Instance, inst: Instance, f: Task -> Task, p: Plan, q: Plan)
    requires IsCopy(own, inst, f) && Valid(own) && PlanCopied(own, p, q, f)
    ensures TotalCost(inst, q) == TotalCost(own, p)
  {
    forall i | 0 <= i < |own.order| ensures NodeCosts(inst, q)(inst.order[i]) == NodeCosts(own, p)(own.order[i]) {
      assert own.order[i] in own.graph.nodes;
      NodeCostCopied(own, inst, f, p, q, own.order[i]);
    }
    TotalsMatch(NodeCosts(inst, q), inst.order, NodeCosts(own, p), own.order);
    forall i | 0 <= i < |own.edges| ensures EdgeCosts(inst, q)(inst.edges[i]) == EdgeCosts(own, p)(own.edges[i]) {
      var e := own.edges[i];
      assert e in Elements(own.edges) && (e.0, e.1) in own.graph.edges;
      EdgeCostCopied(own, inst, f, p, q, e.0, e.1);
    }
    TotalsMatch(EdgeCosts(inst, q), inst.edges, EdgeCosts(own, p), own.edges);
  }

  /** Position by position the two plans cost the same, and the same positions feed each other. */
  ghost predicate SameTimes(own: Instance, inst: Instance, p: Plan, q: Plan) {
    && |inst.order| == |own.order| >= 1
    && (forall i :: 0 <= i < |own.order| ==> NodeCost(inst, q, inst.order[i]) == NodeCost(own, p, own.order[i]))
    && (forall i, k {:trigger IsInput(own, i, k)} :: 0 <= k < i < |own.order| ==> SameInput(own, inst, p, q, i, k))
  }

  ghost predicate SameInput(own: Instance, inst: Instance, p: Plan, q: Plan, i: nat, k: nat)
    requires |inst.order| == |own.order| && k < i < |own.order|
  {
    && (IsInput(inst, i, k) <==> IsInput(own, i, k))
    && EdgeCost(inst, q, (inst.order[k], inst.order[i])) == EdgeCost(own, p, (own.order[k], own.order[i]))
  }

  lemma {:induction false} FinishMatches(own: Instance, inst: Instance, p: Plan, q: Plan, i: nat)
    requires SameTimes(own, inst, p, q) && i < |own.order|
    ensures Finish(inst, q, i) == Finish(own, p, i)
    decreases i, 1, 0
  {
    LatestMatches(own, inst, p, q, i, i);
  }

  lemma {:induction false} LatestMatches(own: Instance, inst: Instance, p: Plan, q: Plan, i: nat, j: nat)
    requires SameTimes(own, inst, p, q) && j <= i < |own.order|
    ensures LatestInput(inst, q, i, j) == LatestInput(own, p, i, j)
    decreases i, 0, j
  {
    if j == 0 {
    } else {
      LatestMatches(own, inst, p, q, i, j - 1);
      FinishMatches(own, inst, p, q, j - 1);
      assert IsInput(own, i, j - 1) <==> IsInput(inst, i, j - 1);
      assert Arrival(inst, q, i, j - 1) == Arrival(own, p, i, j - 1);
    }
  }

  lemma CopiesSameTimes(own: Instance, inst: Instance, f: Task -> Task, p: Plan, q: Plan)
    requires IsCopy(own, inst, f) && Injective(f) && Valid(own) && PlanCopied(own, p, q, f)
    ensures SameTimes(own, inst, p, q)
  {
    forall i | 0 <= i < |own.order| ensures NodeCost(inst, q, inst.order[i]) == NodeCost(own, p, own.order[i]) {
      assert own.order[i] in own.graph.nodes;
      NodeCostCopied(own, inst, f, p, q, own.order[i]);
    }
    forall i, k | 0 <= k < i < |own.order| ensures SameInput(own, inst, p, q, i, k) {
      CopiesSameInput(own, inst, f, p, q, i, k);
    }
  }

  lemma CopiesSameInput(own: Instance, inst: Instance, f: Task -> Task, p: Plan, q: Plan, i: nat, k: nat)
    requires IsCopy(own, inst, f) && Injective(f) && Valid(own) && PlanCopied(own, p, q, f) && k < i < |own.order|
    ensures SameInput(own, inst, p, q, i, k)
  {
    assert own.order[i] in own.graph.nodes && own.order[k] in own.graph.nodes;
    CopyEdge(own.graph.edges, f, own.order[k], own.order[i]);
    EdgeCostCopied(own, inst, f, p, q, own.order[k], own.order[i]);
  }

  lemma ObjectiveMatches(own: Instance, inst: Instance, p: Plan, q: Plan, minimizeCost: bool)
    requires SameTimes(own, inst, p, q) && TotalCost(inst, q) == TotalCost(own, p)
    ensures Objective(inst, q, minimizeCost) == Objective(own, p, minimizeCost)
  {
    FinishMatches(own, inst, p, q, |own.order| - 1);
  }

  lemma ObjectiveCopied(own: Instance, inst: Instance, f: Task -> Task, p: Plan, q: Plan, minimizeCost: bool)
    requires IsCopy(own, inst, f) && Injective(f) && Valid(own) && PlanCopied(own, p, q, f)
    ensures |inst.order| >= 1 && Objective(inst, q, minimizeCost) == Objective(own, p, minimizeCost)
  {
    CopiesSameTimes(own, inst, f, p, q);
    TotalCostCopied(own, inst, f, p, q);
    ObjectiveMatches(own, inst, p, q, minimizeCost);
  }

  /** A best plan of the copy is, task by task, a best plan of the original. */
  lemma BestPlanOfOrigin(own: Instance, inst: Instance, f: Task -> Task, p: Plan, q: Plan, objective: real,
                         minimizeCost: bool)
    requires IsCopy(own, inst, f) && Injective(f) && Valid(own) && Valid(inst) && PlanCopied(own, p, q, f)
    requires BestPlan(inst, q, objective, minimizeCost)
    ensures BestPlan(own, p, objective, minimizeCost)
  {
    PlansMatch(own, inst, f, p, q);
    ObjectiveCopied(own, inst, f, p, q, minimizeCost);
    forall other | IsPlan(own, other) ensures objective <= Objective(own, other, minimizeCost) {
      var copied := CopyPlan(own, other, f);
      PlansMatch(own, inst, f, other, copied);
      ObjectiveCopied(own, inst, f, other, copied, minimizeCost);
    }
  }

  // ---------------------------------------------------------------------
  // Building the original.

  /** The copy's rows are the rows of the original tasks. */
  lemma RowsOfOrigin(m: Market, g: Graph, f: Task -> Task, order: seq<Task>, source: Resources, sink: Resources,
                     costs: map<Task, CostRow>, own: map<Task, CostRow>)
    requires Injective(f) && |order| >= 2 && Elements(order) == g.nodes && own.Keys == g.nodes
    requires forall v :: v in g.nodes ==> SameTerms(m, v, f(v)) && f(v) in costs && own[v] == costs[f(v)]
    requires RowsFor(m, CopyTasks(order, f), source, sink, costs)
    ensures RowsFor(m, order, source, sink, own)
  {
    assert order[0] in Elements(order) && order[|order| - 1] in Elements(order);
    forall i | 0 < i < |order| - 1
      ensures RowFor(m, order[i], Narrowed(m, order[i]), own[order[i]]) && own[order[i]] != []
    {
      assert order[i] in Elements(order);
      var copy := CopyTasks(order, f)[i];
      assert RowFor(m, copy, Narrowed(m, copy), costs[copy]);
      SameTermsSameRow(m, order[i], copy, costs[copy]);
    }
  }

  lemma OriginOrder(g: Graph, f: Task -> Task, copies: seq<Task>) returns (order: seq<Task>)
    requires Injective(f) && IsTopologicalOrder(CopyGraph(g, f), copies)
    ensures CopyTasks(order, f) == copies && IsTopologicalOrder(g, order)
  {
    forall t | t in copies ensures t in CopyGraph(g, f).nodes {
      assert t in Elements(copies);
    }
    order := CopiesHaveOrigins(g.nodes, f, copies);
    OrderOfOrigin(g, f, order);
  }

  lemma OriginEdges(g: Graph, f: Task -> Task, copies: seq<Edge>) returns (edges: seq<Edge>)
    requires Injective(f) && Distinct(copies) && Elements(copies) == CopyEdges(g.edges, f)
    ensures |edges| == |copies| && forall i :: 0 <= i < |edges| ==> copies[i] == CopyOfEdge(edges[i], f)
    ensures Distinct(edges) && Elements(edges) == g.edges
  {
    forall e | e in copies ensures e in CopyEdges(g.edges, f) {
      assert e in Elements(copies);
    }
    edges := EdgeCopiesHaveOrigins(g.edges, f, copies);
    EdgesOfOrigin(g.edges, f, edges, copies);
  }

  lemma CostsCovered(g: Graph, f: Task -> Task, inst: Instance)
    requires Injective(f) && inst.graph == CopyGraph(g, f) && Valid(inst)
    ensures forall v :: v in g.nodes ==> f(v) in inst.costs
  {
    forall v | v in g.nodes ensures f(v) in inst.costs {
      CopyNode(g.nodes, f, v);
    }
  }

  /** A valid instance on a copied graph, with rows of the market, is the copy of one on the original. */
  lemma OriginExists(m: Market, g: Graph, f: Task -> Task, source: Resources, sink: Resources, inst: Instance)
    returns (own: Instance)
    requires Injective(f) && g.Valid() && SameEgress(inst.egress, f)
    requires forall v :: v in g.nodes ==> SameTerms(m, v, f(v))
    requires inst.graph == CopyGraph(g, f) && Valid(inst) && RowsFor(m, inst.order, source, sink, inst.costs)
    ensures own.graph == g && IsCopy(own, inst, f) && Valid(own)
    ensures own.egress == inst.egress && RowsFor(m, own.order, source, sink, own.costs)
  {
    var order := OriginOrder(g, f, inst.order);
    var edges := OriginEdges(g, f, inst.edges);
    CostsCovered(g, f, inst);
    var costs := map v | v in g.nodes :: inst.costs[f(v)];
    own := Instance(g, order, edges, costs, inst.egress);
    RowsOfOrigin(m, g, f, order, source, sink, inst.costs, costs);
    OriginIsValid(own, inst, f);
  }

  lemma OriginIsValid(own: Instance, inst: Instance, f: Task -> Task)
    requires Injective(f) && IsCopy(own, inst, f) && Valid(inst) && own.graph.Valid()
    requires IsTopologicalOrder(own.graph, own.order) && Distinct(own.edges) && Elements(own.edges) == own.graph.edges
    ensures Valid(own)
  {
    forall v | v in own.graph.nodes ensures own.costs[v] != [] && DistinctKeys(own.costs[v]) {
      CopyNode(own.graph.nodes, f, v);
    }
    var n := |own.order| - 1;
    assert own.order[0] in own.graph.nodes && own.order[n] in own.graph.nodes;
    assert inst.order[0] == f(own.order[0]) && inst.order[n] == f(own.order[n]);
  }
}
