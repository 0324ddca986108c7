/**
 * The optimizer's entry point (sky/optimizer.py): dummy nodes are put around the caller's DAG, one pass is
 * made over it or over a deep copy, and the dummy nodes are taken away again.
 */
module Optimizer {
  import opened Prelude
  import opened Graphs
  import opened Placement
  import opened FinishTimes
  import opened IntegerProgram
  import opened OptimizeDag
  import opened Dags
  import opened GraphCopies
  import opened InstanceCopies

  /** Everything the optimizer is given or delegates. */
  datatype Setup = Setup(
    market: Market, egress: Egress, minimizeCost: bool,
    source: Task, sink: Task,                    // the dummy tasks
    atSource: Resources, atSink: Resources,      // and their resources
    copyOf: Task -> Task,                        // deep copy
    sort: Graph -> seq<Task>,                    // topological sort
    listEdges: Graph -> seq<Edge>,
    solve: Solver)

  /** Copies are separate objects of the same name and on the same terms. */
  ghost predicate CopiesWork(x: Setup) {
    && Injective(x.copyOf) && SameEgress(x.egress, x.copyOf)
    && forall t {:trigger x.copyOf(t)} :: x.copyOf(t).name == t.name && SameTerms(x.market, t, x.copyOf(t))
  }

  /** What is expected of the parts: copying copies, sorting sorts, and the solver can be trusted. */
  ghost predicate Works(x: Setup) {
    && x.source.name == Some(DUMMY_SOURCE_NAME) && x.sink.name == Some(DUMMY_SINK_NAME)
    && CopiesWork(x)
    && (forall g: Graph {:trigger x.sort(g)} :: g.Valid() && Acyclic(g) ==> IsTopologicalOrder(g, x.sort(g)))
    && (forall g: Graph {:trigger x.listEdges(g)} :: Distinct(x.listEdges(g)) && Elements(x.listEdges(g)) == g.edges)
    && Trusted(x.solve, x.minimizeCost)
    && (!x.minimizeCost ==> NonNegativeTerms(x.market, x.egress))
  }

  // ---------------------------------------------------------------------
  // The whole optimization.

  datatype Ending =
    | Planned(best: Plan, objective: real)
    | NoResources      // ResourcesUnavailableError
    | NameClash        // the assertion that each reserved name occurs once

  predicate IsReserved(t: Task) {
    t.name == Some(DUMMY_SOURCE_NAME) || t.name == Some(DUMMY_SINK_NAME)
  }

  predicate HasReserved(tasks: seq<Task>) {
    exists t :: t in tasks && IsReserved(t)
  }

  ghost predicate Accepts(x: Setup, g: Graph) {
    g.Valid() && Acyclic(g) && g.nodes != {} && FreshDummies(g, x.source, x.sink)
  }

  /** An instance on this graph with its dummy nodes, sorted one way or another, with the rows of the market. */
  ghost predicate InstanceOn(x: Setup, g: Graph, inst: Instance) {
    Built(x.market, WithDummies(g, x.source, x.sink), inst.order, inst.edges, x.atSource, x.atSink, x.egress, inst)
  }

  /** An allowed resource for every task, and the dummy resources for the dummies. */
  ghost predicate IsAssignment(x: Setup, g: Graph, q: Plan) {
    && q.Keys == g.nodes + {x.source, x.sink} && q[x.source] == x.atSource && q[x.sink] == x.atSink
    && forall t :: t in g.nodes ==> Allowed(x.market, t, q[t])
  }

  /** Under every assignment a task costs its price and a dummy nothing, and an edge costs its egress. */
  ghost predicate PricesRight(x: Setup, g: Graph, inst: Instance) {
    forall q :: IsAssignment(x, g, q) ==> PricesRightFor(x, g, inst, q)
  }

  ghost predicate PricesRightFor(x: Setup, g: Graph, inst: Instance, q: Plan)
    requires IsAssignment(x, g, q)
  {
    && (forall t :: t in g.nodes ==> PricedAt(x.market, t, q[t], NodeCost(inst, q, t)))
    && NodeCost(inst, q, x.source) == 0.0 && NodeCost(inst, q, x.sink) == 0.0
    && (forall u, v :: u in q && v in q ==> EdgeCost(inst, q, (u, v)) == x.egress(u, q[u], v, q[v]))
  }

  /** The graph with its dummies, sorted one way or another, and each edge once. */
  ghost predicate IsLayout(x: Setup, g: Graph, inst: Instance) {
    && inst.graph == WithDummies(g, x.source, x.sink) && IsTopologicalOrder(inst.graph, inst.order)
    && Distinct(inst.edges) && Elements(inst.edges) == inst.graph.edges && |inst.order| >= 1
  }

  /** The best of all assignments, at the prices of the market, over the caller's own graph with its dummies. */
  ghost predicate BestFor(x: Setup, g: Graph, best: Plan, objective: real) {
    exists inst ::
      && IsLayout(x, g, inst) && PricesRight(x, g, inst)
      && IsAssignment(x, g, best) && objective == Objective(inst, best, x.minimizeCost)
      && forall q :: IsAssignment(x, g, q) ==> objective <= Objective(inst, q, x.minimizeCost)
  }

  /** What one node may get. */
  ghost predicate Fits(x: Setup, g: Graph, v: Task, r: Resources) {
    if v in g.nodes then Allowed(x.market, v, r) else r == (if v == x.source then x.atSource else x.atSink)
  }

  lemma OffersWhatFits(x: Setup, g: Graph, inst: Instance, v: Task, r: Resources)
    requires Accepts(x, g) && InstanceOn(x, g, inst) && v in g.nodes + {x.source, x.sink}
    ensures v in inst.costs && (Offers(inst.costs[v], r) <==> Fits(x, g, v, r))
  {
    if v in g.nodes {
      InnerRow(x, g, inst, v);
      RowPrices(x.market, v, inst.costs[v], r);
    } else {
      DummiesAreEnds(g, x.source, x.sink, inst.order);
      DummyRow(x.atSource, 0.0, map[v := r], v);
      DummyRow(x.atSink, 0.0, map[v := r], v);
    }
  }

  /** The plans of an instance on the graph are the assignments. */
  lemma PlansAreAssignments(x: Setup, g: Graph, inst: Instance, q: Plan)
    requires Accepts(x, g) && InstanceOn(x, g, inst)
    ensures IsPlan(inst, q) <==> IsAssignment(x, g, q)
  {
    if q.Keys == g.nodes + {x.source, x.sink} {
      forall v | v in q ensures v in inst.costs && (Offers(inst.costs[v], q[v]) <==> Fits(x, g, v, q[v])) {
        OffersWhatFits(x, g, inst, v, q[v]);
      }
      AssignmentFits(x, g, q);
    }
  }

  lemma AssignmentFits(x: Setup, g: Graph, q: Plan)
    requires FreshDummies(g, x.source, x.sink) && q.Keys == g.nodes + {x.source, x.sink}
    ensures IsAssignment(x, g, q) <==> forall v :: v in q ==> Fits(x, g, v, q[v])
  {
    assert x.source in q && x.sink in q;
  }

  lemma DummyRow(r: Resources, price: real, q: Plan, t: Task)
    ensures t in q ==> (Offers([Priced(r, price)], q[t]) <==> q[t] == r)
    ensures Offers([Priced(r, price)], r) && CostOf([Priced(r, price)], r) == price
  {
    assert [Priced(r, price)][0].resources == r;
  }

  /** A task of the caller has the row of its request. */
  lemma InnerRow(x: Setup, g: Graph, inst: Instance, t: Task)
    requires Accepts(x, g) && InstanceOn(x, g, inst) && t in g.nodes
    ensures t in inst.costs && RowFor(x.market, t, Narrowed(x.market, t), inst.costs[t])
  {
    DummiesAreEnds(g, x.source, x.sink, inst.order);
    var i := Position(inst.order, t);
    assert RowFor(x.market, inst.order[i], Narrowed(x.market, inst.order[i]), inst.costs[inst.order[i]]);
  }

  lemma InnerCost(x: Setup, g: Graph, inst: Instance, q: Plan, t: Task)
    requires Accepts(x, g) && InstanceOn(x, g, inst) && IsAssignment(x, g, q) && t in g.nodes
    ensures PricedAt(x.market, t, q[t], NodeCost(inst, q, t))
  {
    InnerRow(x, g, inst, t);
    RowPrices(x.market, t, inst.costs[t], q[t]);
  }

  lemma DummyCosts(x: Setup, g: Graph, inst: Instance, q: Plan)
    requires Accepts(x, g) && InstanceOn(x, g, inst) && IsAssignment(x, g, q)
    ensures NodeCost(inst, q, x.source) == 0.0 && NodeCost(inst, q, x.sink) == 0.0
  {
    DummyRowsOf(x, g, inst);
    DummyCost(inst, q, x.source, x.atSource);
    DummyCost(inst, q, x.sink, x.atSink);
  }

  lemma DummyRowsOf(x: Setup, g: Graph, inst: Instance)
    requires Accepts(x, g) && InstanceOn(x, g, inst)
    ensures x.source in inst.costs && inst.costs[x.source] == [Priced(x.atSource, 0.0)]
    ensures x.sink in inst.costs && inst.costs[x.sink] == [Priced(x.atSink, 0.0)]
  {
    DummiesAreEnds(g, x.source, x.sink, inst.order);
  }

  lemma DummyCost(inst: Instance, q: Plan, t: Task, r: Resources)
    requires t in inst.costs && inst.costs[t] == [Priced(r, 0.0)] && t in q && q[t] == r
    ensures NodeCost(inst, q, t) == 0.0
  {
    DummyRow(r, 0.0, q, t);
  }

  lemma InstancePricesRight(x: Setup, g: Graph, inst: Instance, q: Plan)
    requires Accepts(x, g) && InstanceOn(x, g, inst) && IsAssignment(x, g, q)
    ensures PricesRightFor(x, g, inst, q)
  {
    forall t | t in g.nodes ensures PricedAt(x.market, t, q[t], NodeCost(inst, q, t)) {
      InnerCost(x, g, inst, q, t);
    }
    DummyCosts(x, g, inst, q);
  }

  /** The sorted copy meets what a pass asks of it. */
  lemma PassDemands(x: Setup, g: Graph)
    requires Works(x) && Accepts(x, g) && forall t :: t in g.nodes ==> t.name != Some(DUMMY_SOURCE_NAME)
    ensures var local := CopyGraph(WithDummies(g, x.source, x.sink), x.copyOf);
      var order := x.sort(local);
      && Sorted(local, order, x.listEdges(local)) && OnlyFirstIsRoot(local, order)
      && (forall i :: 0 <= i < |order| ==> (order[i].name == Some(DUMMY_SOURCE_NAME) <==> i == 0))
      && order[0] == x.copyOf(x.source) && order[|order| - 1] == x.copyOf(x.sink)
  {
    var f := x.copyOf;
    var c, h := CopyGraph(g, f), WithDummies(g, x.source, x.sink);
    var local := CopyGraph(h, f);
    CopyAcyclic(g, f);
    CopyWithDummies(g, x.source, x.sink, f);
    CopiedDummiesFresh(x, g);
    DummiesKeepAcyclic(c, f(x.source), f(x.sink));
    var order := x.sort(local);
    assert IsTopologicalOrder(local, order);
    DummiesMeetDemands(c, f(x.source), f(x.sink), order);
    DummiesAreEnds(c, f(x.source), f(x.sink), order);
  }

  lemma CopiedDummiesFresh(x: Setup, g: Graph)
    requires Works(x) && Accepts(x, g) && forall t :: t in g.nodes ==> t.name != Some(DUMMY_SOURCE_NAME)
    ensures var f := x.copyOf;
      && FreshDummies(CopyGraph(g, f), f(x.source), f(x.sink)) && CopyGraph(g, f).nodes != {}
      && f(x.source).name == Some(DUMMY_SOURCE_NAME) && f(x.sink).name != f(x.source).name
      && forall t :: t in CopyGraph(g, f).nodes ==> t.name != Some(DUMMY_SOURCE_NAME)
  {
    var f := x.copyOf;
    CopyNode(g.nodes, f, x.source);
    CopyNode(g.nodes, f, x.sink);
    var v :| v in g.nodes;
    assert f(v) in CopyGraph(g, f).nodes;
    forall t | t in CopyGraph(g, f).nodes ensures t.name != Some(DUMMY_SOURCE_NAME) {
      var u :| u in g.nodes && f(u) == t;
    }
    assert DUMMY_SOURCE_NAME[|DUMMY_SOURCE_NAME| - 1] != DUMMY_SINK_NAME[|DUMMY_SINK_NAME| - 1];
  }

  /** What the pass calls unplaceable on the copy is what the original cannot place. */
  lemma UnplaceableCopies(x: Setup, g: Graph, tasks: seq<Task>)
    requires Works(x) && Accepts(x, g) && Elements(tasks) == g.nodes
    requires forall t :: t in g.nodes ==> t.name != Some(DUMMY_SOURCE_NAME)
    ensures var order := x.sort(CopyGraph(WithDummies(g, x.source, x.sink), x.copyOf));
      (exists i :: 0 < i < |order| - 1 && Unplaceable(x.market, order[i]))
        <==> exists t :: t in tasks && Unplaceable(x.market, t)
  {
    PassDemands(x, g);
    var f := x.copyOf;
    var order := x.sort(CopyGraph(WithDummies(g, x.source, x.sink), f));
    if i :| 0 < i < |order| - 1 && Unplaceable(x.market, order[i]) {
      var t := InnerIsCopy(x, g, i);
      UnplaceableCopy(x, t);
      assert t in tasks;
    }
    if t :| t in tasks && Unplaceable(x.market, t) {
      var i := CopyIsInner(x, g, t);
      UnplaceableCopy(x, t);
    }
  }

  lemma UnplaceableCopy(x: Setup, t: Task)
    requires Works(x)
    ensures Unplaceable(x.market, x.copyOf(t)) <==> Unplaceable(x.market, t)
  {
    forall k: nat, r ensures Offered(x.market, t, k, r) <==> Offered(x.market, x.copyOf(t), k, r) {
    }
  }

  lemma InnerIsCopy(x: Setup, g: Graph, i: nat) returns (t: Task)
    requires Works(x) && Accepts(x, g) && forall t :: t in g.nodes ==> t.name != Some(DUMMY_SOURCE_NAME)
    requires 0 < i < |x.sort(CopyGraph(WithDummies(g, x.source, x.sink), x.copyOf))| - 1
    ensures t in g.nodes && x.copyOf(t) == x.sort(CopyGraph(WithDummies(g, x.source, x.sink), x.copyOf))[i]
  {
    PassDemands(x, g);
    var order := x.sort(CopyGraph(WithDummies(g, x.source, x.sink), x.copyOf));
    assert order[i] in Elements(order);
    t :| t in WithDummies(g, x.source, x.sink).nodes && x.copyOf(t) == order[i];
    assert order[i] != order[0] && order[i] != order[|order| - 1];
  }

  lemma CopyIsInner(x: Setup, g: Graph, t: Task) returns (i: nat)
    requires Works(x) && Accepts(x, g) && t in g.nodes
    requires forall t :: t in g.nodes ==> t.name != Some(DUMMY_SOURCE_NAME)
    ensures var order := x.sort(CopyGraph(WithDummies(g, x.source, x.sink), x.copyOf));
      0 < i < |order| - 1 && order[i] == x.copyOf(t)
  {
    PassDemands(x, g);
    var order := x.sort(CopyGraph(WithDummies(g, x.source, x.sink), x.copyOf));
    assert x.copyOf(t) in CopyNodes(WithDummies(g, x.source, x.sink).nodes, x.copyOf);
    assert x.copyOf(t) in Elements(order);
    i := Position(order, x.copyOf(t));
  }

  /** The pass over a DAG that has its dummy nodes. */
  method Pass(x: Setup, tasks: seq<Task>, graph: Graph, ghost user: seq<Task>, ghost g: Graph) returns (ending: Ending)
    requires Works(x) && Accepts(x, g) && Distinct(tasks) && tasks == user + [x.source, x.sink]
    requires Elements(user) == g.nodes && graph == WithDummies(g, x.source, x.sink)
    requires forall t :: t in g.nodes ==> t.name != Some(DUMMY_SOURCE_NAME)
    ensures !ending.NameClash?
    ensures ending.NoResources? <==> exists t :: t in user && Unplaceable(x.market, t)
    ensures ending.Planned? ==> BestFor(x, g, ending.best, ending.objective)
  {
    var local := CopyGraph(graph, x.copyOf);
    var copies := CopyTasks(tasks, x.copyOf);
    var order, edges := x.sort(local), x.listEdges(local);
    PassDemands(x, g);
    UnplaceableCopies(x, g, user);
    CopyDistinct(tasks, x.copyOf);
    CopyElements(tasks, x.copyOf);
    assert Elements(tasks) == graph.nodes;
    var best, objective := OptimizeDag.Optimize(x.market, tasks, copies, local, order, edges, x.atSource, x.atSink,
                                                x.egress, x.minimizeCost, x.solve);
    if best.None? {
      return NoResources;
    }
    ending := Planned(best.value, objective);
    ghost var inst, plan :|
      && Built(x.market, local, order, edges, x.atSource, x.atSink, x.egress, inst)
      && BestPlan(inst, plan, objective, x.minimizeCost)
      && CopiedOutcome(x.market, tasks, copies, order, plan, best.value);
    ResultIsBest(x, user, g, inst, plan, best.value, objective);
  }

  /** What a pass finds on the copy is best for the caller's own graph. */
  lemma ResultIsBest(x: Setup, user: seq<Task>, g: Graph, inst: Instance, plan: Plan, best: Plan, objective: real)
    requires Works(x) && Accepts(x, g) && Elements(user) == g.nodes
    requires CopiedInstance(x, g, inst) && BestPlan(inst, plan, objective, x.minimizeCost)
    requires var tasks := user + [x.source, x.sink];
      CopiedOutcome(x.market, tasks, CopyTasks(tasks, x.copyOf), inst.order, plan, best)
    ensures BestFor(x, g, best, objective)
  {
    var tasks := user + [x.source, x.sink];
    TasksAreNodes(user, g, x.source, x.sink);
    var own := BestOnOwn(x, tasks, g, inst, plan, best, objective);
    BestPlanIsBestFor(x, g, own, best, objective);
  }

  lemma BestPlanIsBestFor(x: Setup, g: Graph, own: Instance, best: Plan, objective: real)
    requires Accepts(x, g) && InstanceOn(x, g, own) && BestPlan(own, best, objective, x.minimizeCost)
    ensures BestFor(x, g, best, objective)
  {
    PlansAreAssignments(x, g, own, best);
    forall q | IsAssignment(x, g, q)
      ensures PricesRightFor(x, g, own, q) && objective <= Objective(own, q, x.minimizeCost)
    {
      PlansAreAssignments(x, g, own, q);
      InstancePricesRight(x, g, own, q);
    }
  }

  lemma TasksAreNodes(user: seq<Task>, g: Graph, source: Task, sink: Task)
    requires Elements(user) == g.nodes
    ensures Elements(user + [source, sink]) == WithDummies(g, source, sink).nodes
  {
  }

  lemma BestOnOwn(x: Setup, tasks: seq<Task>, g: Graph, inst: Instance, plan: Plan, best: Plan, objective: real)
    returns (own: Instance)
    requires CopiesWork(x) && g.Valid() && Elements(tasks) == WithDummies(g, x.source, x.sink).nodes
    requires CopiedInstance(x, g, inst) && BestPlan(inst, plan, objective, x.minimizeCost)
    requires CopiedOutcome(x.market, tasks, CopyTasks(tasks, x.copyOf), inst.order, plan, best)
    ensures InstanceOn(x, g, own) && BestPlan(own, best, objective, x.minimizeCost)
  {
    own := OwnInstance(x, g, inst);
    ResultIsCopied(own, x.market, tasks, x.copyOf, inst.order, plan, best);
    BestPlanOfOrigin(own, inst, x.copyOf, best, plan, objective, x.minimizeCost);
  }

  /** The instance that the pass builds on the copy. */
  ghost predicate CopiedInstance(x: Setup, g: Graph, inst: Instance) {
    var local := CopyGraph(WithDummies(g, x.source, x.sink), x.copyOf);
    Built(x.market, local, x.sort(local), x.listEdges(local), x.atSource, x.atSink, x.egress, inst)
  }

  lemma OwnInstance(x: Setup, g: Graph, inst: Instance) returns (own: Instance)
    requires CopiesWork(x) && g.Valid() && CopiedInstance(x, g, inst)
    ensures InstanceOn(x, g, own) && IsCopy(own, inst, x.copyOf)
    ensures own.graph == WithDummies(g, x.source, x.sink) && Valid(own) && Valid(inst)
  {
    DummiesValid(g, x.source, x.sink);
    own := OwnInstanceOn(x, WithDummies(g, x.source, x.sink), inst);
  }

  lemma OwnInstanceOn(x: Setup, h: Graph, inst: Instance) returns (own: Instance)
    requires CopiesWork(x) && h.Valid()
    requires Built(x.market, CopyGraph(h, x.copyOf), inst.order, inst.edges, x.atSource, x.atSink, x.egress, inst)
    ensures Built(x.market, h, own.order, own.edges, x.atSource, x.atSink, x.egress, own) && IsCopy(own, inst, x.copyOf)
  {
    forall v | v in h.nodes ensures SameTerms(x.market, v, x.copyOf(v)) {
    }
    own := OriginExists(x.market, h, x.copyOf, x.atSource, x.atSink, inst);
  }

  /** The result stored on the caller's tasks is the plan found on the copies. */
  lemma ResultIsCopied(own: Instance, m: Market, tasks: seq<Task>, f: Task -> Task, order: seq<Task>, plan: Plan,
                       best: Plan)
    requires Elements(tasks) == own.graph.nodes && plan.Keys == CopyNodes(own.graph.nodes, f) && |order| >= 1
    requires CopiedOutcome(m, tasks, CopyTasks(tasks, f), order, plan, best)
    ensures PlanCopied(own, best, plan, f)
  {
    forall v | v in own.graph.nodes ensures f(v) in plan && plan[f(v)] == best[v] {
      var i := Position(tasks, v);
      assert CopyTasks(tasks, f)[i] == f(v);
    }
  }

  /**
   * On every non-empty acyclic DAG: the assertion of the final block fails exactly when a task of the caller
   * has a reserved name; otherwise the DAG comes back as it was, with the best of all plans, or without a
   * plan exactly when some task has nothing to launch.
   */
  method Optimize(x: Setup, dag: Dag) returns (ending: Ending)
    requires Works(x) && dag.Valid() && Accepts(x, dag.graph)
    modifies dag
    ensures ending.NameClash? <==> HasReserved(old(dag.tasks))
    ensures ending.NameClash? ==>
      dag.tasks == old(dag.tasks) + [x.source, x.sink] && dag.graph == WithDummies(old(dag.graph), x.source, x.sink)
    ensures !ending.NameClash? ==> dag.tasks == old(dag.tasks) && dag.graph == old(dag.graph)
    ensures ending.NoResources? <==>
      !HasReserved(old(dag.tasks)) && exists t :: t in old(dag.tasks) && Unplaceable(x.market, t)
    ensures ending.Planned? ==> BestFor(x, old(dag.graph), ending.best, ending.objective)
  {
    ghost var tasks, g := dag.tasks, dag.graph;
    dag.AddDummySourceSink(x.source, x.sink);
    ending := NameClash;
    if forall t | t in dag.tasks :: t.name == Some(DUMMY_SOURCE_NAME) ==> t == x.source {
      forall t | t in g.nodes ensures t.name != Some(DUMMY_SOURCE_NAME) {
        assert t in Elements(tasks) && t in dag.tasks;
      }
      ending := Pass(x, dag.tasks, dag.graph, tasks, g);
    }
    RemoveUndoesAdd(tasks, g, x.source, x.sink);
    var ok := dag.RemoveDummySourceSink();
    if !ok {
      ending := NameClash;
    }
  }
}
