/**
 * Placement instances, plans and their objectives, and the dynamic program for chains
 * (sky/optimizer.py).
 */
module Placement {
  import opened Prelude
  import opened Graphs
  import Dags

  /** A cloud object: its class, which decides equality, and its printed name. */
  datatype Cloud = Cloud(kind: nat, repr: string)

  /** A requested or launchable resource; `spec` stands for every other field. */
  datatype Resources = Resources(cloud: Option<Cloud>, region: Option<string>, spec: nat)

  datatype Priced = Priced(resources: Resources, cost: real)

  /** A dictionary from resources to cost (or time), in insertion order. */
  type CostRow = seq<Priced>

  type Egress = (Task, Resources, Task, Resources) -> real

  /** Everything the two placement algorithms are given. */
  datatype Instance = Instance(
    graph: Graph, order: seq<Task>, edges: seq<Edge>, costs: map<Task, CostRow>, egress: Egress)

  ghost predicate DistinctKeys(row: CostRow) {
    forall i, j :: 0 <= i < j < |row| ==> row[i].resources != row[j].resources
  }

  predicate Offers(row: CostRow, r: Resources) {
    exists i :: 0 <= i < |row| && row[i].resources == r
  }

  /** Some position of `r` in the row; the only one when the keys are distinct. */
  ghost function OfferIndex(row: CostRow, r: Resources): (h: nat)
    requires Offers(row, r)
    ensures h < |row| && row[h].resources == r
  {
    var h :| 0 <= h < |row| && row[h].resources == r;
    h
  }

  ghost function CostOf(row: CostRow, r: Resources): real
    requires Offers(row, r)
  {
    row[OfferIndex(row, r)].cost
  }

  lemma CostAt(row: CostRow, i: nat)
    requires DistinctKeys(row) && i < |row|
    ensures Offers(row, row[i].resources) && CostOf(row, row[i].resources) == row[i].cost
  {
    assert OfferIndex(row, row[i].resources) == i;
  }

  method PriceOf(row: CostRow, r: Resources) returns (cost: real)
    requires DistinctKeys(row) && Offers(row, r)
    ensures cost == CostOf(row, r)
  {
    var i := 0;
    while row[i].resources != r
      invariant i <= OfferIndex(row, r)
      decreases |row| - i
    {
      i := i + 1;
    }
    CostAt(row, i);
    cost := row[i].cost;
  }

  ghost predicate Valid(inst: Instance) {
    && inst.graph.Valid()
    && IsTopologicalOrder(inst.graph, inst.order)
    && |inst.order| >= 2
    && Distinct(inst.edges)
    && Elements(inst.edges) == inst.graph.edges
    && (forall v :: v in inst.graph.nodes ==> v in inst.costs && inst.costs[v] != [] && DistinctKeys(inst.costs[v]))
    && DummyRows(inst)
  }

  /** The source row is a single entry of cost 0, the sink row a single entry. */
  ghost predicate DummyRows(inst: Instance)
    requires |inst.order| >= 2
  {
    var source, sink := inst.order[0], inst.order[|inst.order| - 1];
    && source in inst.costs && |inst.costs[source]| == 1 && inst.costs[source][0].cost == 0.0
    && sink in inst.costs && |inst.costs[sink]| == 1
  }

  /** A plan gives every node one of the resources it is offered. */
  ghost predicate IsPlan(inst: Instance, p: map<Task, Resources>)
    requires Valid(inst)
  {
    p.Keys == inst.graph.nodes && forall v :: v in p ==> Offers(inst.costs[v], p[v])
  }

  /** What a node costs under a plan; 0 where the plan says nothing about it. */
  ghost function NodeCost(inst: Instance, p: map<Task, Resources>, v: Task): real {
    if v in inst.costs && v in p && Offers(inst.costs[v], p[v]) then CostOf(inst.costs[v], p[v]) else 0.0
  }

  /** What an edge costs under a plan; 0 where the plan says nothing about one of its ends. */
  ghost function EdgeCost(inst: Instance, p: map<Task, Resources>, e: Edge): real {
    if e.0 in p && e.1 in p then inst.egress(e.0, p[e.0], e.1, p[e.1]) else 0.0
  }

  // ---------------------------------------------------------------------
  // The objective along an order, and over a whole graph.

  /** Node costs plus egress between neighbours, along the first k + 1 nodes of the order. */
  ghost function ChainValue(inst: Instance, p: map<Task, Resources>, k: nat): real
    requires k < |inst.order|
  {
    if k == 0 then 0.0
    else
      NodeCost(inst, p, inst.order[k])
      + (ChainValue(inst, p, k - 1) + EdgeCost(inst, p, (inst.order[k - 1], inst.order[k])))
  }

  ghost function Total<T>(weight: T -> real, xs: seq<T>): real {
    if xs == [] then 0.0 else Total(weight, xs[..|xs| - 1]) + weight(xs[|xs| - 1])
  }

  ghost function NodeCosts(inst: Instance, p: map<Task, Resources>): Task -> real {
    v => NodeCost(inst, p, v)
  }

  ghost function EdgeCosts(inst: Instance, p: map<Task, Resources>): Edge -> real {
    e => EdgeCost(inst, p, e)
  }

  /** The cost of a plan: every node at its resource, every edge at its egress. */
  ghost function TotalCost(inst: Instance, p: map<Task, Resources>): real {
    Total(NodeCosts(inst, p), inst.order) + Total(EdgeCosts(inst, p), inst.edges)
  }

  lemma {:induction false} TotalRemove<T>(weight: T -> real, xs: seq<T>, k: nat)
    requires k < |xs|
    ensures Total(weight, xs) == Total(weight, xs[..k] + xs[k + 1..]) + weight(xs[k])
  {
    var less := xs[..k] + xs[k + 1..];
    if k == |xs| - 1 {
      assert less == xs[..|xs| - 1];
    } else {
      TotalRemove(weight, xs[..|xs| - 1], k);
      assert less[..|less| - 1] == xs[..|xs| - 1][..k] + xs[..|xs| - 1][k + 1..];
      assert less[|less| - 1] == xs[|xs| - 1];
    }
  }

  lemma RemoveElement<T(!new)>(xs: seq<T>, k: nat)
    requires Distinct(xs) && k < |xs|
    ensures Distinct(xs[..k] + xs[k + 1..])
    ensures Elements(xs[..k] + xs[k + 1..]) == Elements(xs) - {xs[k]}
  {
    var less := xs[..k] + xs[k + 1..];
    forall i | 0 <= i < |xs| && i != k ensures xs[i] in less {
      assert xs[i] == less[if i < k then i else i - 1];
    }
    forall i | 0 <= i < |less| ensures less[i] in Elements(xs) - {xs[k]} {
      assert less[i] == xs[if i < k then i else i + 1];
    }
  }

  /** The order in which distinct things are added up does not matter. */
  lemma {:induction false} TotalReorder<T(!new)>(weight: T -> real, xs: seq<T>, ys: seq<T>)
    requires Distinct(xs) && Distinct(ys) && Elements(xs) == Elements(ys)
    ensures Total(weight, xs) == Total(weight, ys)
    decreases |xs|
  {
    DistinctSize(xs);
    DistinctSize(ys);
    if xs == [] {
    } else {
      var n := |xs| - 1;
      assert xs[n] in Elements(ys);
      var k := Position(ys, xs[n]);
      RemoveElement(xs, n);
      RemoveElement(ys, k);
      assert xs[..n] + xs[n + 1..] == xs[..n];
      TotalReorder(weight, xs[..n], ys[..k] + ys[k + 1..]);
      TotalRemove(weight, ys, k);
    }
  }

  /** The consecutive pairs of an order. */
  function Neighbours(s: seq<Task>): (r: seq<Edge>)
    ensures |r| == if s == [] then 0 else |s| - 1
    ensures forall i :: 0 <= i < |r| ==> r[i] == (s[i], s[i + 1])
  {
    if s == [] then [] else seq(|s| - 1, i requires 0 <= i < |s| - 1 => (s[i], s[i + 1]))
  }

  lemma NeighboursDistinct(s: seq<Task>)
    requires Distinct(s)
    ensures Distinct(Neighbours(s))
  {
    forall i, j | 0 <= i < j < |s| - 1 ensures Neighbours(s)[i] != Neighbours(s)[j] {
      assert s[i] != s[j];
    }
  }

  lemma NeighboursArePath(s: seq<Task>)
    ensures Elements(Neighbours(s)) == PathEdges(s)
  {
    forall e | e in PathEdges(s) ensures e in Neighbours(s) {
      var i := PathEdgeAt(s, e);
      assert Neighbours(s)[i - 1] == e;
    }
    forall e | e in Neighbours(s) ensures e in PathEdges(s) {
      var i := Position(Neighbours(s), e);
      assert e == (s[i], s[i + 1]);
    }
  }

  lemma {:induction false} PrefixValue(inst: Instance, p: map<Task, Resources>, k: nat, prefix: seq<Task>)
    requires k < |inst.order| && prefix == inst.order[..k + 1] && NodeCost(inst, p, inst.order[0]) == 0.0
    ensures ChainValue(inst, p, k) == Total(NodeCosts(inst, p), prefix) + Total(EdgeCosts(inst, p), Neighbours(prefix))
  {
    if k == 0 {
      assert prefix == [inst.order[0]];
    } else {
      var shorter := prefix[..k];
      PrefixValue(inst, p, k - 1, shorter);
      var es := Neighbours(prefix);
      assert es[..|es| - 1] == Neighbours(shorter);
      assert es[|es| - 1] == (inst.order[k - 1], inst.order[k]);
    }
  }

  lemma WholeValue(inst: Instance, p: map<Task, Resources>)
    requires |inst.order| >= 1 && NodeCost(inst, p, inst.order[0]) == 0.0
    ensures ChainValue(inst, p, |inst.order| - 1)
         == Total(NodeCosts(inst, p), inst.order) + Total(EdgeCosts(inst, p), Neighbours(inst.order))
  {
    assert inst.order[..|inst.order|] == inst.order;
    PrefixValue(inst, p, |inst.order| - 1, inst.order);
  }

  lemma SourceIsFree(inst: Instance, p: map<Task, Resources>)
    requires Valid(inst) && IsPlan(inst, p)
    ensures NodeCost(inst, p, inst.order[0]) == 0.0
  {
    assert inst.order[0] in inst.graph.nodes;
    CostAt(inst.costs[inst.order[0]], 0);
  }

  lemma ChainEdgesAreNeighbours(inst: Instance)
    requires Valid(inst) && inst.graph.IsChain()
    ensures Distinct(Neighbours(inst.order)) && Elements(Neighbours(inst.order)) == Elements(inst.edges)
  {
    ChainIffPath(inst.graph, inst.order);
    NeighboursArePath(inst.order);
    NeighboursDistinct(inst.order);
  }

  lemma ChainEdgeTotal(inst: Instance, p: map<Task, Resources>)
    requires Valid(inst) && inst.graph.IsChain()
    ensures Total(EdgeCosts(inst, p), inst.edges) == Total(EdgeCosts(inst, p), Neighbours(inst.order))
  {
    ChainEdgesAreNeighbours(inst);
    TotalReorder(EdgeCosts(inst, p), inst.edges, Neighbours(inst.order));
  }

  /** On a chain the objective along the order is the cost of the whole graph. */
  lemma ChainValueIsTotal(inst: Instance, p: map<Task, Resources>)
    requires Valid(inst) && IsPlan(inst, p) && inst.graph.IsChain()
    ensures ChainValue(inst, p, |inst.order| - 1) == TotalCost(inst, p)
  {
    SourceIsFree(inst, p);
    WholeValue(inst, p);
    ChainEdgeTotal(inst, p);
  }

  // ---------------------------------------------------------------------
  // The dynamic program.

  /** Going through `q` at the parent is worth `v`, and no other entry of the parent row is worth less. */
  ghost predicate BestVia(egress: Egress, parent: Task, row: CostRow, node: Task, r: Resources, q: Resources, v: real) {
    && Offers(row, q)
    && v == CostOf(row, q) + egress(parent, q, node, r)
    && forall i :: 0 <= i < |row| ==> v <= row[i].cost + egress(parent, row[i].resources, node, r)
  }

  method BestParent(egress: Egress, parent: Task, row: CostRow, node: Task, r: Resources)
    returns (q: Resources, v: real)
    requires row != [] && DistinctKeys(row)
    ensures BestVia(egress, parent, row, node, r, q, v)
  {
    var least: Option<real> := None;
    q := row[0].resources;
    for i := 0 to |row|
      invariant i > 0 ==> least.Some? && Offers(row, q) && least.value == CostOf(row, q) + egress(parent, q, node, r)
      invariant i == 0 ==> least.None?
      invariant forall j :: 0 <= j < i ==> least.value <= row[j].cost + egress(parent, row[j].resources, node, r)
    {
      CostAt(row, i);
      var via := row[i].cost + egress(parent, row[i].resources, node, r);
      if least.None? || via < least.value {
        least, q := Some(via), row[i].resources;
      }
    }
    v := least.value;
  }

  /** `best` and `back` extend the parent's table to `node`. */
  ghost predicate Relaxed(egress: Egress, parent: Task, above: CostRow, node: Task, row: CostRow,
                          best: CostRow, back: map<Resources, Resources>) {
    && |best| == |row|
    && forall j :: 0 <= j < |row| ==>
         && best[j].resources == row[j].resources
         && row[j].resources in back
         && BestVia(egress, parent, above, node, row[j].resources, back[row[j].resources], best[j].cost - row[j].cost)
  }

  method RelaxNode(egress: Egress, parent: Task, above: CostRow, node: Task, row: CostRow)
    returns (best: CostRow, back: map<Resources, Resources>)
    requires above != [] && DistinctKeys(above) && DistinctKeys(row)
    ensures Relaxed(egress, parent, above, node, row, best, back)
  {
    best, back := [], map[];
    for j := 0 to |row|
      invariant |best| == j
      invariant Relaxed(egress, parent, above, node, row[..j], best, back)
    {
      var q, v := BestParent(egress, parent, above, node, row[j].resources);
      back := back[row[j].resources := q];
      best := best + [Priced(row[j].resources, row[j].cost + v)];
      assert row[..j + 1] == row[..j] + [row[j]];
    }
    assert row[..|row|] == row;
  }

  type Best = map<Task, CostRow>
  type Back = map<Task, map<Resources, Resources>>

  /** The tables are right at position k of the order. */
  ghost predicate StepDone(inst: Instance, best: Best, back: Back, k: nat)
    requires Valid(inst) && k < |inst.order|
  {
    var node := inst.order[k];
    && node in best
    && (k == 0 ==> best[node] == inst.costs[node])
    && (k > 0 ==>
          var parent := inst.order[k - 1];
          && node in back && parent in best && node in inst.costs
          && Relaxed(inst.egress, parent, best[parent], node, inst.costs[node], best[node], back[node]))
  }

  lemma StepRow(inst: Instance, best: Best, back: Back, k: nat, r: Resources)
    requires Valid(inst) && k < |inst.order| && StepDone(inst, best, back, k)
    ensures inst.order[k] in inst.graph.nodes && DistinctKeys(best[inst.order[k]]) && best[inst.order[k]] != []
    ensures Offers(inst.costs[inst.order[k]], r) <==> Offers(best[inst.order[k]], r)
  {
    assert inst.order[k] in inst.graph.nodes;
    if Offers(best[inst.order[k]], r) {
      var i :| 0 <= i < |best[inst.order[k]]| && best[inst.order[k]][i].resources == r;
      assert inst.costs[inst.order[k]][i].resources == r;
    }
    if Offers(inst.costs[inst.order[k]], r) {
      var i :| 0 <= i < |inst.costs[inst.order[k]]| && inst.costs[inst.order[k]][i].resources == r;
      assert best[inst.order[k]][i].resources == r;
    }
  }

  ghost predicate TablesDone(inst: Instance, best: Best, back: Back, n: nat)
    requires Valid(inst) && n <= |inst.order|
  {
    forall k :: 0 <= k < n ==> StepDone(inst, best, back, k)
  }

  /** The Bellman equation at k, for one resource of the node. */
  lemma StepEquation(inst: Instance, best: Best, back: Back, k: nat, r: Resources)
    requires Valid(inst) && 1 <= k < |inst.order| && TablesDone(inst, best, back, k + 1)
    requires inst.order[k] in inst.graph.nodes && Offers(inst.costs[inst.order[k]], r)
    ensures var node, parent := inst.order[k], inst.order[k - 1];
      && node in best && node in back && parent in best
      && Offers(best[node], r) && r in back[node]
      && BestVia(inst.egress, parent, best[parent], node, r, back[node][r],
                 CostOf(best[node], r) - CostOf(inst.costs[node], r))
  {
    var node := inst.order[k];
    assert StepDone(inst, best, back, k);
    StepRow(inst, best, back, k, r);
    var j :| 0 <= j < |inst.costs[node]| && inst.costs[node][j].resources == r;
    CostAt(inst.costs[node], j);
    CostAt(best[node], j);
  }

  /** No plan beats the table. */
  lemma {:induction false} TableIsLowerBound(inst: Instance, best: Best, back: Back, p: map<Task, Resources>, k: nat)
    requires Valid(inst) && IsPlan(inst, p) && k < |inst.order| && TablesDone(inst, best, back, k + 1)
    ensures inst.order[k] in p && inst.order[k] in best && Offers(best[inst.order[k]], p[inst.order[k]])
    ensures CostOf(best[inst.order[k]], p[inst.order[k]]) <= ChainValue(inst, p, k)
  {
    var node := inst.order[k];
    assert StepDone(inst, best, back, k) && node in inst.graph.nodes;
    StepRow(inst, best, back, k, p[node]);
    if k == 0 {
      CostAt(best[node], 0);
    } else {
      var parent := inst.order[k - 1];
      TableIsLowerBound(inst, best, back, p, k - 1);
      StepEquation(inst, best, back, k, p[node]);
      BestViaBounds(inst.egress, parent, best[parent], node, p[node], back[node][p[node]],
                    CostOf(best[node], p[node]) - CostOf(inst.costs[node], p[node]), p[parent]);
    }
  }

  lemma BestViaBounds(egress: Egress, parent: Task, row: CostRow, node: Task, r: Resources, q: Resources, v: real,
                      other: Resources)
    requires BestVia(egress, parent, row, node, r, q, v) && Offers(row, other)
    ensures v <= CostOf(row, other) + egress(parent, other, node, r)
  {
    var i := OfferIndex(row, other);
    assert row[i].resources == other;
  }

  /** The resource planned just before position j is the one the point-back names. */
  ghost predicate FollowsAt(inst: Instance, back: Back, p: map<Task, Resources>, j: nat)
    requires 1 <= j < |inst.order|
  {
    var node, parent := inst.order[j], inst.order[j - 1];
    node in p && parent in p && node in back && p[node] in back[node] && p[parent] == back[node][p[node]]
  }

  /** A plan that follows the point-backs is worth exactly what the table says. */
  lemma {:induction false} TableIsAttained(inst: Instance, best: Best, back: Back, p: map<Task, Resources>, k: nat)
    requires Valid(inst) && IsPlan(inst, p) && k < |inst.order| && TablesDone(inst, best, back, k + 1)
    requires forall j :: 1 <= j <= k ==> FollowsAt(inst, back, p, j)
    ensures inst.order[k] in p && inst.order[k] in best && Offers(best[inst.order[k]], p[inst.order[k]])
    ensures CostOf(best[inst.order[k]], p[inst.order[k]]) == ChainValue(inst, p, k)
  {
    var node := inst.order[k];
    assert StepDone(inst, best, back, k) && node in inst.graph.nodes;
    StepRow(inst, best, back, k, p[node]);
    if k == 0 {
      CostAt(best[node], 0);
    } else {
      assert FollowsAt(inst, back, p, k);
      TableIsAttained(inst, best, back, p, k - 1);
      StepEquation(inst, best, back, k, p[node]);
    }
  }

  method FillTables(inst: Instance) returns (best: Best, back: Back)
    requires Valid(inst)
    ensures TablesDone(inst, best, back, |inst.order|)
  {
    best, back := map[], map[];
    for i := 0 to |inst.order|
      invariant TablesDone(inst, best, back, i)
    {
      var node := inst.order[i];
      assert node in inst.graph.nodes;
      ghost var best0, back0 := best, back;
      if i == 0 {
        best := best[node := [Priced(inst.costs[node][0].resources, 0.0)]];
      } else {
        var parent := inst.order[i - 1];
        assert StepDone(inst, best, back, i - 1);
        StepRow(inst, best, back, i - 1, inst.costs[node][0].resources);
        var row, links := RelaxNode(inst.egress, parent, best[parent], node, inst.costs[node]);
        best, back := best[node := row], back[node := links];
      }
      assert StepDone(inst, best, back, i);
      forall k | 0 <= k < i ensures StepDone(inst, best, back, k) {
        assert StepDone(inst, best0, back0, k);
      }
    }
  }

  /** The reserved source name marks the first node of the order and no other. */
  ghost predicate SourceNameReserved(inst: Instance) {
    forall i :: 0 <= i < |inst.order| ==> (inst.order[i].name == Some(Dags.DUMMY_SOURCE_NAME) <==> i == 0)
  }

  /** `r` is what the point-back of position i names. */
  ghost predicate PointsAt(inst: Instance, back: Back, plan: map<Task, Resources>, i: nat, r: Resources)
    requires i < |inst.order|
  {
    var node := inst.order[i];
    node in plan && node in back && plan[node] in back[node] && r == back[node][plan[node]]
  }

  method PreviousChoice(inst: Instance, ghost best: Best, back: Back, i: nat, r: Resources) returns (q: Resources)
    requires Valid(inst) && 1 <= i < |inst.order| && TablesDone(inst, best, back, |inst.order|)
    requires inst.order[i] in inst.costs && Offers(inst.costs[inst.order[i]], r)
    ensures inst.order[i] in back && r in back[inst.order[i]] && q == back[inst.order[i]][r]
    ensures inst.order[i - 1] in inst.costs && Offers(inst.costs[inst.order[i - 1]], q)
  {
    assert inst.order[i] in inst.graph.nodes;
    StepEquation(inst, best, back, i, r);
    q := back[inst.order[i]][r];
    assert StepDone(inst, best, back, i - 1);
    StepRow(inst, best, back, i - 1, q);
  }

  /** The plan for positions i and up has been rebuilt. */
  ghost predicate Rebuilt(inst: Instance, back: Back, last: Resources, plan: map<Task, Resources>, i: nat)
    requires i <= |inst.order|
  {
    && plan.Keys == Elements(inst.order[i..])
    && (forall v :: v in plan ==> v in inst.costs && Offers(inst.costs[v], plan[v]))
    && (forall j :: i < j < |inst.order| ==> FollowsAt(inst, back, plan, j))
    && (i < |inst.order| ==> plan[inst.order[|inst.order| - 1]] == last)
  }

  lemma RebuildOne(inst: Instance, back: Back, last: Resources, plan: map<Task, Resources>, i: nat, r: Resources)
    requires i < |inst.order| && Distinct(inst.order) && Rebuilt(inst, back, last, plan, i + 1)
    requires inst.order[i] in inst.costs && Offers(inst.costs[inst.order[i]], r)
    requires if i + 1 == |inst.order| then r == last else PointsAt(inst, back, plan, i + 1, r)
    ensures Rebuilt(inst, back, last, plan[inst.order[i] := r], i)
  {
    var node := inst.order[i];
    var next := plan[node := r];
    assert inst.order[i..] == [node] + inst.order[i + 1..];
    assert node !in plan;
    forall j | i < j < |inst.order| ensures FollowsAt(inst, back, next, j) {
      assert inst.order[j] in inst.order[i + 1..];
      assert j > i + 1 ==> FollowsAt(inst, back, plan, j);
    }
  }

  method Backtrack(inst: Instance, ghost best: Best, back: Back, last: Resources) returns (plan: map<Task, Resources>)
    requires Valid(inst) && TablesDone(inst, best, back, |inst.order|) && SourceNameReserved(inst)
    requires Offers(inst.costs[inst.order[|inst.order| - 1]], last)
    ensures IsPlan(inst, plan) && plan[inst.order[|inst.order| - 1]] == last
    ensures forall j :: 1 <= j < |inst.order| ==> FollowsAt(inst, back, plan, j)
  {
    plan := map[];
    var n := |inst.order|;
    var r := last;
    assert forall j :: 0 <= j < n ==> inst.order[j] in inst.costs;
    for i := n downto 0
      invariant Rebuilt(inst, back, last, plan, i)
      invariant i == n ==> r == last
      invariant 0 < i < n ==> PointsAt(inst, back, plan, i, r)
      invariant i > 0 ==> Offers(inst.costs[inst.order[i - 1]], r)
    {
      var node := inst.order[i];
      RebuildOne(inst, back, last, plan, i, r);
      plan := plan[node := r];
      if node.name != Some(Dags.DUMMY_SOURCE_NAME) {
        r := PreviousChoice(inst, best, back, i, r);
      }
    }
    assert inst.order[0..] == inst.order;
  }

  /**
   * The dynamic program along an order: the plan rebuilt from the point-backs is worth exactly the
   * returned objective, and no plan is worth less.
   */
  method OptimizeByDp(inst: Instance) returns (plan: map<Task, Resources>, objective: real)
    requires Valid(inst) && SourceNameReserved(inst)
    ensures IsPlan(inst, plan)
    ensures objective == ChainValue(inst, plan, |inst.order| - 1)
    ensures forall p :: IsPlan(inst, p) ==> objective <= ChainValue(inst, p, |inst.order| - 1)
  {
    var best, back := FillTables(inst);
    var sink := inst.order[|inst.order| - 1];
    assert StepDone(inst, best, back, |inst.order| - 1) && sink in inst.graph.nodes;
    var last := best[sink][0];
    assert inst.costs[sink][0].resources == last.resources;
    plan := Backtrack(inst, best, back, last.resources);
    objective := last.cost;
    TableAtSink(inst, best, back, plan);
    forall p | IsPlan(inst, p) ensures objective <= ChainValue(inst, p, |inst.order| - 1) {
      TableAtSink(inst, best, back, p);
    }
  }

  /** The single entry of the sink bounds every plan and is attained by the followed one. */
  lemma TableAtSink(inst: Instance, best: Best, back: Back, p: map<Task, Resources>)
    requires Valid(inst) && IsPlan(inst, p) && TablesDone(inst, best, back, |inst.order|)
    ensures var n, sink := |inst.order| - 1, inst.order[|inst.order| - 1];
      && sink in best && |best[sink]| == 1
      && best[sink][0].cost <= ChainValue(inst, p, n)
      && ((forall j :: 1 <= j <= n ==> FollowsAt(inst, back, p, j)) ==> best[sink][0].cost == ChainValue(inst, p, n))
  {
    var n, sink := |inst.order| - 1, inst.order[|inst.order| - 1];
    assert StepDone(inst, best, back, n) && sink in inst.graph.nodes;
    StepRow(inst, best, back, n, best[sink][0].resources);
    TableIsLowerBound(inst, best, back, p, n);
    assert p[sink] == best[sink][0].resources;
    CostAt(best[sink], 0);
    if forall j :: 1 <= j <= n ==> FollowsAt(inst, back, p, j) {
      TableIsAttained(inst, best, back, p, n);
    }
  }
}
