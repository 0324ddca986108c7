/**
 * The finish time of a plan (sky/optimizer.py): a memoised recursion over predecessors, the longest
 * path from source to sink, and the least solution of the solver's time constraints.
 */
module FinishTimes {
  import opened Prelude
  import opened Graphs
  import opened Placement

  type Plan = map<Task, Resources>

  /** The finish time of the node at position i of the order. */
  ghost function Finish(inst: Instance, p: Plan, i: nat): real
    requires i < |inst.order|
    decreases i, 1, 0
  {
    NodeCost(inst, p, inst.order[i]) + LatestInput(inst, p, i, i)
  }

  /** The latest arrival at position i from positions below j, and never before time 0. */
  ghost function LatestInput(inst: Instance, p: Plan, i: nat, j: nat): real
    requires j <= i < |inst.order|
    decreases i, 0, j
  {
    if j == 0 then 0.0
    else
      var m := LatestInput(inst, p, i, j - 1);
      if IsInput(inst, i, j - 1) && Arrival(inst, p, i, j - 1) > m then Arrival(inst, p, i, j - 1) else m
  }

  ghost predicate IsInput(inst: Instance, i: nat, k: nat)
    requires i < |inst.order| && k < |inst.order|
  {
    (inst.order[k], inst.order[i]) in inst.graph.edges
  }

  /** When the data of position k reaches position i. */
  ghost function Arrival(inst: Instance, p: Plan, i: nat, k: nat): real
    requires k < i < |inst.order|
    decreases i, 0, 0
  {
    Finish(inst, p, k) + EdgeCost(inst, p, (inst.order[k], inst.order[i]))
  }

  /** `m` is the largest of 0 and the arrivals at i from positions below j. */
  ghost predicate IsLatest(inst: Instance, p: Plan, i: nat, j: nat, m: real)
    requires j <= i < |inst.order|
  {
    && m >= 0.0
    && (forall k :: 0 <= k < j && IsInput(inst, i, k) ==> Arrival(inst, p, i, k) <= m)
    && (m == 0.0 || exists k :: 0 <= k < j && IsInput(inst, i, k) && Arrival(inst, p, i, k) == m)
  }

  lemma {:induction false} LatestIsLatest(inst: Instance, p: Plan, i: nat, j: nat)
    requires j <= i < |inst.order|
    ensures IsLatest(inst, p, i, j, LatestInput(inst, p, i, j))
    decreases j
  {
    if j == 0 {
    } else {
      LatestIsLatest(inst, p, i, j - 1);
    }
  }

  // ---------------------------------------------------------------------
  // The memoised recursion.

  ghost function FinishOf(inst: Instance, p: Plan, v: Task): real
    requires v in inst.order
  {
    Finish(inst, p, Position(inst.order, v))
  }

  lemma FinishAt(inst: Instance, p: Plan, i: nat)
    requires Valid(inst) && IsPlan(inst, p) && i < |inst.order|
    ensures inst.order[i] in inst.graph.nodes && FinishOf(inst, p, inst.order[i]) == Finish(inst, p, i)
  {
    assert inst.order[i] in inst.graph.nodes;
    assert Position(inst.order, inst.order[i]) == i;
  }

  function Later(a: real, b: real): real {
    if b > a then b else a
  }

  /** The nested function of the source together with the dictionary it fills. */
  class FinishTimer {
    const inst: Instance
    const plan: Plan
    const predecessors: map<Task, seq<Task>>
    var cache: map<Task, real>

    ghost predicate Ready()
      reads this
    {
      && Valid(inst) && IsPlan(inst, plan)
      && (forall v {:trigger predecessors[v]} {:trigger v in predecessors} :: v in inst.graph.nodes ==>
            v in predecessors && Elements(predecessors[v]) == inst.graph.Predecessors(v))
      && (forall v :: v in cache ==> v in inst.graph.nodes && cache[v] == FinishOf(inst, plan, v))
    }

    constructor (inst: Instance, plan: Plan, predecessors: map<Task, seq<Task>>)
      requires Valid(inst) && IsPlan(inst, plan)
      requires forall v :: v in inst.graph.nodes ==>
        v in predecessors && Elements(predecessors[v]) == inst.graph.Predecessors(v)
      ensures Ready() && this.inst == inst && this.plan == plan && cache == map[]
    {
      this.inst, this.plan, this.predecessors := inst, plan, predecessors;
      cache := map[];
    }

    /** Terminates because predecessors come earlier in a topological order. */
    method FinishTime(node: Task, ghost i: nat) returns (t: real)
      requires Ready() && i < |inst.order| && inst.order[i] == node
      modifies this`cache
      ensures Ready()
      ensures t == Finish(inst, plan, i)
      ensures node in cache
      decreases i, 2
    {
      FinishAt(inst, plan, i);
      if node in cache {
        return cache[node];
      }
      assert node in predecessors;
      var latest := LatestOf(node, predecessors[node], i);
      var cost := PriceOf(inst.costs[node], plan[node]);
      t := cost + latest;
      cache := cache[node := t];
    }

    /** The loop over the predecessors of a node. */
    method LatestOf(node: Task, preds: seq<Task>, ghost i: nat) returns (latest: real)
      requires Ready() && i < |inst.order| && inst.order[i] == node
      requires Elements(preds) == inst.graph.Predecessors(node)
      modifies this`cache
      ensures Ready()
      ensures latest == LatestInput(inst, plan, i, i)
      decreases i, 1
    {
      latest := 0.0;
      for n := 0 to |preds|
        invariant Ready()
        invariant latest == LatestFrom(i, preds[..n])
      {
        assert preds[n] in Elements(preds);
        var arrival := ArrivalTime(preds[n], node, i);
        assert preds[..n + 1][..n] == preds[..n];
        if arrival > latest {
          latest := arrival;
        }
      }
      assert preds[..|preds|] == preds;
      LatestFromList(i, preds);
    }

    method ArrivalTime(pred: Task, node: Task, ghost i: nat) returns (t: real)
      requires Ready() && i < |inst.order| && inst.order[i] == node && pred in inst.graph.Predecessors(node)
      modifies this`cache
      ensures Ready()
      ensures t == ArrivalFrom(i, pred)
      decreases i, 0
    {
      ghost var k := InputPosition(i, pred);
      t := FinishTime(pred, k);
      t := t + inst.egress(pred, plan[pred], node, plan[node]);
    }

    /** The arrival from a task that may or may not be an input of position i. */
    ghost function ArrivalFrom(i: nat, u: Task): real
      requires i < |inst.order|
    {
      if u in inst.order && Position(inst.order, u) < i then Arrival(inst, plan, i, Position(inst.order, u)) else 0.0
    }

    /** The latest of the arrivals from the listed tasks, and never before time 0. */
    ghost function LatestFrom(i: nat, preds: seq<Task>): real
      requires i < |inst.order|
    {
      if preds == [] then 0.0
      else Later(LatestFrom(i, preds[..|preds| - 1]), ArrivalFrom(i, preds[|preds| - 1]))
    }

    lemma {:induction false} LatestFromMeans(i: nat, preds: seq<Task>)
      requires i < |inst.order|
      ensures var latest := LatestFrom(i, preds);
        && latest >= 0.0
        && (forall m :: 0 <= m < |preds| ==> ArrivalFrom(i, preds[m]) <= latest)
        && (latest == 0.0 || exists m :: 0 <= m < |preds| && ArrivalFrom(i, preds[m]) == latest)
    {
      if preds == [] {
      } else {
        var n := |preds| - 1;
        LatestFromMeans(i, preds[..n]);
        forall m | 0 <= m < |preds| ensures ArrivalFrom(i, preds[m]) <= LatestFrom(i, preds) {
          assert m < n ==> preds[..n][m] == preds[m];
        }
      }
    }

    lemma InputPosition(i: nat, u: Task) returns (k: nat)
      requires Valid(inst) && IsPlan(inst, plan) && i < |inst.order|
      requires u in inst.graph.Predecessors(inst.order[i])
      ensures k < i && inst.order[k] == u && IsInput(inst, i, k) && u in inst.graph.nodes
      ensures ArrivalFrom(i, u) == Arrival(inst, plan, i, k)
    {
      assert (u, inst.order[i]) in inst.graph.edges;
      k := Position(inst.order, u);
      assert (inst.order[k], inst.order[i]) in inst.graph.edges;
    }

    lemma LatestFromList(i: nat, preds: seq<Task>)
      requires Valid(inst) && IsPlan(inst, plan) && i < |inst.order|
      requires Elements(preds) == inst.graph.Predecessors(inst.order[i])
      ensures LatestFrom(i, preds) == LatestInput(inst, plan, i, i)
    {
      var latest := LatestFrom(i, preds);
      LatestFromMeans(i, preds);
      LatestIsLatest(inst, plan, i, i);
      forall k | 0 <= k < i && IsInput(inst, i, k) ensures Arrival(inst, plan, i, k) <= latest {
        InputListed(i, preds, k);
      }
      if m :| 0 <= m < |preds| && ArrivalFrom(i, preds[m]) == latest {
        assert preds[m] in Elements(preds);
        var k := InputPosition(i, preds[m]);
      }
    }

    lemma InputListed(i: nat, preds: seq<Task>, k: nat)
      requires Valid(inst) && IsPlan(inst, plan) && k < i < |inst.order| && IsInput(inst, i, k)
      requires Elements(preds) == inst.graph.Predecessors(inst.order[i])
      ensures exists m :: 0 <= m < |preds| && ArrivalFrom(i, preds[m]) == Arrival(inst, plan, i, k)
    {
      assert inst.order[k] in inst.graph.Predecessors(inst.order[i]);
      var m := Position(preds, inst.order[k]);
      var k' := InputPosition(i, preds[m]);
      assert k' == k;
    }
  }

  /** The estimated time of a plan: the finish time of the sink. */
  method ComputeTotalTime(inst: Instance, plan: Plan, predecessors: map<Task, seq<Task>>) returns (t: real)
    requires Valid(inst) && IsPlan(inst, plan)
    requires forall v :: v in inst.graph.nodes ==>
      v in predecessors && Elements(predecessors[v]) == inst.graph.Predecessors(v)
    ensures t == Finish(inst, plan, |inst.order| - 1)
  {
    var timer := new FinishTimer(inst, plan, predecessors);
    t := timer.FinishTime(inst.order[|inst.order| - 1], |inst.order| - 1);
  }

  // ---------------------------------------------------------------------
  // Longest paths.

  ghost predicate NonNegative(inst: Instance) {
    && (forall v, i :: v in inst.costs && 0 <= i < |inst.costs[v]| ==> inst.costs[v][i].cost >= 0.0)
    && (forall u, r, v, q :: inst.egress(u, r, v, q) >= 0.0)
  }

  ghost predicate HasInput(inst: Instance, i: nat)
    requires i < |inst.order|
  {
    exists k :: 0 <= k < i && IsInput(inst, i, k)
  }

  /** The source is the only node without predecessors. */
  ghost predicate Rooted(inst: Instance) {
    forall i {:trigger HasInput(inst, i)} :: 1 <= i < |inst.order| ==> HasInput(inst, i)
  }

  /** Execution and transfer time along a walk. */
  ghost function PathTime(inst: Instance, p: Plan, w: seq<Task>): real
    requires |w| >= 1
  {
    var n := |w| - 1;
    if n == 0 then NodeCost(inst, p, w[0])
    else PathTime(inst, p, w[..n]) + EdgeCost(inst, p, (w[n - 1], w[n])) + NodeCost(inst, p, w[n])
  }

  lemma PathTimeExtend(inst: Instance, p: Plan, w: seq<Task>, v: Task)
    requires |w| >= 1
    ensures PathTime(inst, p, w + [v])
         == PathTime(inst, p, w) + EdgeCost(inst, p, (w[|w| - 1], v)) + NodeCost(inst, p, v)
  {
    assert (w + [v])[..|w|] == w;
  }

  /** A node finishes no earlier than any of its inputs, their transfer and its own execution allow. */
  lemma FinishAfterInput(inst: Instance, p: Plan, i: nat, u: Task) returns (k: nat)
    requires Valid(inst) && IsPlan(inst, p) && i < |inst.order| && (u, inst.order[i]) in inst.graph.edges
    ensures k < i && inst.order[k] == u
    ensures Finish(inst, p, k) + EdgeCost(inst, p, (u, inst.order[i])) + NodeCost(inst, p, inst.order[i])
         <= Finish(inst, p, i)
  {
    assert u in inst.graph.nodes;
    k := Position(inst.order, u);
    assert (inst.order[k], inst.order[i]) in inst.graph.edges;
    LatestIsLatest(inst, p, i, i);
    assert IsInput(inst, i, k) && Arrival(inst, p, i, k) <= LatestInput(inst, p, i, i);
  }

  /** No walk into a node takes longer than its finish time. */
  lemma {:induction false} PathWithinFinish(inst: Instance, p: Plan, w: seq<Task>, i: nat)
    requires Valid(inst) && IsPlan(inst, p) && IsWalk(inst.graph, w)
    requires i < |inst.order| && w[|w| - 1] == inst.order[i]
    ensures PathTime(inst, p, w) <= Finish(inst, p, i)
    decreases |w|
  {
    var n := |w| - 1;
    if n == 0 {
      LatestIsLatest(inst, p, i, i);
    } else {
      SubWalk(inst.graph, w, 0, n);
      assert w[0..n] == w[..n];
      assert (w[n - 1], w[n]) in inst.graph.edges;
      var k := FinishAfterInput(inst, p, i, w[n - 1]);
      PathWithinFinish(inst, p, w[..n], k);
    }
  }

  lemma FinishNonNegative(inst: Instance, p: Plan, i: nat)
    requires Valid(inst) && IsPlan(inst, p) && i < |inst.order| && NonNegative(inst)
    ensures Finish(inst, p, i) >= 0.0
  {
    LatestIsLatest(inst, p, i, i);
    CostNonNegative(inst, p, inst.order[i]);
  }

  lemma CostNonNegative(inst: Instance, p: Plan, v: Task)
    requires Valid(inst) && IsPlan(inst, p) && v in inst.graph.nodes && NonNegative(inst)
    ensures NodeCost(inst, p, v) >= 0.0
  {
    var i :| 0 <= i < |inst.costs[v]| && inst.costs[v][i].resources == p[v];
    CostAt(inst.costs[v], i);
  }

  /** With a predecessor at hand the latest input is always one of the arrivals. */
  lemma LatestIsArrival(inst: Instance, p: Plan, i: nat) returns (k: nat)
    requires Valid(inst) && IsPlan(inst, p) && NonNegative(inst) && Rooted(inst)
    requires 1 <= i < |inst.order|
    ensures k < i && IsInput(inst, i, k) && Arrival(inst, p, i, k) == LatestInput(inst, p, i, i)
  {
    LatestIsLatest(inst, p, i, i);
    if LatestInput(inst, p, i, i) == 0.0 {
      assert HasInput(inst, i);
      k :| 0 <= k < i && IsInput(inst, i, k);
      FinishNonNegative(inst, p, k);
    } else {
      k :| 0 <= k < i && IsInput(inst, i, k) && Arrival(inst, p, i, k) == LatestInput(inst, p, i, i);
    }
  }

  /** Some walk from the source takes exactly the finish time. */
  lemma {:induction false} CriticalPath(inst: Instance, p: Plan, i: nat) returns (w: seq<Task>)
    requires Valid(inst) && IsPlan(inst, p) && NonNegative(inst) && Rooted(inst) && i < |inst.order|
    ensures IsWalk(inst.graph, w) && w[0] == inst.order[0] && w[|w| - 1] == inst.order[i]
    ensures PathTime(inst, p, w) == Finish(inst, p, i)
    decreases i
  {
    assert inst.order[i] in inst.graph.nodes;
    if i == 0 {
      w := [inst.order[0]];
    } else {
      var k := LatestIsArrival(inst, p, i);
      var v := CriticalPath(inst, p, k);
      w := v + [inst.order[i]];
      ExtendWalk(inst.graph, v, inst.order[i]);
      PathTimeExtend(inst, p, v, inst.order[i]);
    }
  }

  /** The finish time of the sink is the longest source-to-sink path. */
  lemma FinishIsLongestPath(inst: Instance, p: Plan)
    requires Valid(inst) && IsPlan(inst, p) && NonNegative(inst) && Rooted(inst)
    ensures var n := |inst.order| - 1;
      && (forall w :: IsWalk(inst.graph, w) && w[0] == inst.order[0] && w[|w| - 1] == inst.order[n]
            ==> PathTime(inst, p, w) <= Finish(inst, p, n))
      && (exists w :: IsWalk(inst.graph, w) && w[0] == inst.order[0] && w[|w| - 1] == inst.order[n]
            && PathTime(inst, p, w) == Finish(inst, p, n))
  {
    var n := |inst.order| - 1;
    forall w | IsWalk(inst.graph, w) && w[0] == inst.order[0] && w[|w| - 1] == inst.order[n]
      ensures PathTime(inst, p, w) <= Finish(inst, p, n)
    {
      PathWithinFinish(inst, p, w, n);
    }
    var w := CriticalPath(inst, p, n);
  }

  // ---------------------------------------------------------------------
  // The least solution of the time constraints, for one plan.

  ghost predicate TimesFeasible(inst: Instance, p: Plan, finish: map<Task, real>) {
    && (forall v :: v in inst.graph.nodes ==> v in finish && finish[v] >= 0.0)
    && (forall u, v :: (u, v) in inst.graph.edges ==> EdgeOnTime(inst, p, finish, u, v))
  }

  ghost predicate EdgeOnTime(inst: Instance, p: Plan, finish: map<Task, real>, u: Task, v: Task) {
    u in finish && v in finish
    && finish[v] >= NodeCost(inst, p, v) + finish[u] + EdgeCost(inst, p, (u, v))
  }

  lemma {:induction false} FinishIsLeast(inst: Instance, p: Plan, finish: map<Task, real>, i: nat)
    requires Valid(inst) && IsPlan(inst, p) && NonNegative(inst) && Rooted(inst) && i < |inst.order|
    requires TimesFeasible(inst, p, finish)
    ensures inst.order[i] in finish && Finish(inst, p, i) <= finish[inst.order[i]]
    decreases i
  {
    assert inst.order[i] in inst.graph.nodes;
    if i == 0 {
      SourceIsFree(inst, p);
    } else {
      var k := LatestIsArrival(inst, p, i);
      FinishIsLeast(inst, p, finish, k);
      assert EdgeOnTime(inst, p, finish, inst.order[k], inst.order[i]);
    }
  }

  /** The finish times of all nodes under a plan. */
  ghost function FinishMap(inst: Instance, p: Plan): map<Task, real>
    requires Valid(inst)
  {
    map v | v in inst.graph.nodes :: FinishOf(inst, p, v)
  }

  lemma FinishMapAt(inst: Instance, p: Plan, i: nat)
    requires Valid(inst) && IsPlan(inst, p) && i < |inst.order|
    ensures inst.order[i] in FinishMap(inst, p) && FinishMap(inst, p)[inst.order[i]] == Finish(inst, p, i)
  {
    FinishAt(inst, p, i);
  }

  lemma FinishIsFeasible(inst: Instance, p: Plan)
    requires Valid(inst) && IsPlan(inst, p) && NonNegative(inst)
    ensures TimesFeasible(inst, p, FinishMap(inst, p))
  {
    var finish := FinishMap(inst, p);
    forall v | v in inst.graph.nodes ensures finish[v] >= 0.0 {
      FinishNonNegative(inst, p, Position(inst.order, v));
    }
    forall u, v | (u, v) in inst.graph.edges ensures EdgeOnTime(inst, p, finish, u, v) {
      var i, k := Position(inst.order, v), Position(inst.order, u);
      assert (inst.order[k], inst.order[i]) in inst.graph.edges;
      LatestIsLatest(inst, p, i, i);
      assert IsInput(inst, i, k) && Arrival(inst, p, i, k) <= LatestInput(inst, p, i, i);
    }
  }

  // ---------------------------------------------------------------------
  // Chains.

  lemma ChainIsRooted(inst: Instance)
    requires Valid(inst) && inst.graph.IsChain()
    ensures Rooted(inst)
  {
    forall i | 1 <= i < |inst.order| ensures HasInput(inst, i) {
      ConsecutiveIsChainEdge(inst.graph, inst.order, i);
      assert IsInput(inst, i, i - 1);
    }
  }

  /** The only possible input of a position is the position before it. */
  ghost predicate Linear(inst: Instance) {
    forall i, k :: 0 <= k < i < |inst.order| && IsInput(inst, i, k) ==> k == i - 1
  }

  lemma ChainIsLinear(inst: Instance)
    requires Valid(inst) && inst.graph.IsChain()
    ensures Linear(inst)
  {
    forall i, k | 0 <= k < i < |inst.order| && IsInput(inst, i, k) ensures k == i - 1 {
      ChainPredecessor(inst.graph, inst.order, i);
      assert inst.order[k] in inst.graph.Predecessors(inst.order[i]);
    }
  }

  lemma LinearFinishStep(inst: Instance, p: Plan, i: nat)
    requires 1 <= i < |inst.order|
    requires LatestInput(inst, p, i, i) == Arrival(inst, p, i, i - 1)
    requires Finish(inst, p, i - 1) == ChainValue(inst, p, i - 1)
    ensures Finish(inst, p, i) == ChainValue(inst, p, i)
  {
  }

  lemma {:induction false} LinearFinish(inst: Instance, p: Plan, i: nat)
    requires Valid(inst) && IsPlan(inst, p) && NonNegative(inst) && Rooted(inst) && Linear(inst) && i < |inst.order|
    ensures Finish(inst, p, i) == ChainValue(inst, p, i)
  {
    if i == 0 {
      SourceIsFree(inst, p);
    } else {
      LinearFinish(inst, p, i - 1);
      var k := LatestIsArrival(inst, p, i);
      LinearFinishStep(inst, p, i);
    }
  }

  /** On a chain the finish time is the objective of the dynamic program. */
  lemma ChainFinish(inst: Instance, p: Plan)
    requires Valid(inst) && IsPlan(inst, p) && NonNegative(inst) && inst.graph.IsChain()
    ensures Finish(inst, p, |inst.order| - 1) == ChainValue(inst, p, |inst.order| - 1)
  {
    ChainIsRooted(inst);
    ChainIsLinear(inst);
    LinearFinish(inst, p, |inst.order| - 1);
  }
}
