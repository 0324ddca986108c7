/**
 * Optimal points exist: every instance has finitely many plans, so one of them is least, and its encoding
 * solves the integer program (sky/optimizer.py). What is expected of the solver can therefore be met.
 */
module OptimalPoints {
  import opened Prelude
  import opened Graphs
  import opened Placement
  import opened FinishTimes
  import opened IntegerProgram
  import opened OptimizeDag

  /** All ways to choose a resource for each of the first `i` tasks. */
  ghost function Choices(inst: Instance, i: nat): set<Plan>
    requires Valid(inst) && i <= |inst.order|
  {
    if i == 0 then {map[]}
    else
      var v := inst.order[i - 1];
      assert v in inst.graph.nodes;
      set p, k | p in Choices(inst, i - 1) && 0 <= k < |inst.costs[v]| :: Choose(p, v, inst.costs[v], k)
  }

  ghost function Choose(p: Plan, v: Task, row: CostRow, k: nat): Plan {
    if k < |row| then p[v := row[k].resources] else p
  }

  ghost predicate IsPartial(inst: Instance, p: Plan, i: nat)
    requires Valid(inst) && i <= |inst.order|
  {
    p.Keys == Elements(inst.order[..i]) && forall v :: v in p ==> v in inst.costs && Offers(inst.costs[v], p[v])
  }

  lemma ChooseIsPartial(inst: Instance, q: Plan, i: nat, k: nat)
    requires Valid(inst) && 1 <= i <= |inst.order| && IsPartial(inst, q, i - 1)
    requires inst.order[i - 1] in inst.costs && k < |inst.costs[inst.order[i - 1]]|
    ensures IsPartial(inst, Choose(q, inst.order[i - 1], inst.costs[inst.order[i - 1]], k), i)
  {
    assert inst.order[..i] == inst.order[..i - 1] + [inst.order[i - 1]];
    ElementsPush(inst.order[..i - 1], inst.order[i - 1]);
  }

  lemma {:induction false} ChoicesArePartial(inst: Instance, p: Plan, i: nat)
    requires Valid(inst) && i <= |inst.order| && p in Choices(inst, i)
    ensures IsPartial(inst, p, i)
  {
    if i == 0 {
    } else {
      var v := inst.order[i - 1];
      assert v in inst.graph.nodes;
      var q, k :| q in Choices(inst, i - 1) && 0 <= k < |inst.costs[v]| && p == Choose(q, v, inst.costs[v], k);
      ChoicesArePartial(inst, q, i - 1);
      ChooseIsPartial(inst, q, i, k);
    }
  }

  ghost function Restrict(inst: Instance, p: Plan, i: nat): (q: Plan)
    requires Valid(inst) && IsPlan(inst, p) && i <= |inst.order|
  {
    map v | v in p && v in inst.order[..i] :: p[v]
  }

  lemma RestrictStep(inst: Instance, p: Plan, i: nat, k: nat)
    requires Valid(inst) && IsPlan(inst, p) && 1 <= i <= |inst.order| && inst.order[i - 1] in inst.costs
    requires k < |inst.costs[inst.order[i - 1]]| && inst.order[i - 1] in p
    requires inst.costs[inst.order[i - 1]][k].resources == p[inst.order[i - 1]]
    ensures Restrict(inst, p, i)
         == Choose(Restrict(inst, p, i - 1), inst.order[i - 1], inst.costs[inst.order[i - 1]], k)
  {
    assert inst.order[..i] == inst.order[..i - 1] + [inst.order[i - 1]];
  }

  lemma {:induction false} PlanIsChoice(inst: Instance, p: Plan, i: nat)
    requires Valid(inst) && IsPlan(inst, p) && i <= |inst.order|
    ensures Restrict(inst, p, i) in Choices(inst, i)
  {
    if i == 0 {
      assert Restrict(inst, p, 0) == map[];
    } else {
      var v := inst.order[i - 1];
      PlanIsChoice(inst, p, i - 1);
      assert v in inst.graph.nodes;
      var k := OfferIndex(inst.costs[v], p[v]);
      RestrictStep(inst, p, i, k);
    }
  }

  /** The choices for all tasks are exactly the plans. */
  lemma ChoicesArePlans(inst: Instance, p: Plan)
    requires Valid(inst)
    ensures p in Choices(inst, |inst.order|) <==> IsPlan(inst, p)
  {
    var n := |inst.order|;
    assert inst.order[..n] == inst.order;
    if p in Choices(inst, n) {
      ChoicesArePartial(inst, p, n);
    }
    if IsPlan(inst, p) {
      PlanIsChoice(inst, p, n);
      assert forall v :: v in p ==> v in Elements(inst.order);
      assert Restrict(inst, p, n) == p;
    }
  }

  lemma {:induction false} ChoicesNonEmpty(inst: Instance, i: nat) returns (p: Plan)
    requires Valid(inst) && i <= |inst.order|
    ensures p in Choices(inst, i)
  {
    if i == 0 {
      p := map[];
    } else {
      var q := ChoicesNonEmpty(inst, i - 1);
      var v := inst.order[i - 1];
      assert v in inst.graph.nodes;
      p := Choose(q, v, inst.costs[v], 0);
    }
  }

  lemma {:induction false} LeastOf(plans: set<Plan>, value: Plan -> real) returns (best: Plan)
    requires plans != {}
    ensures best in plans && forall p :: p in plans ==> value(best) <= value(p)
    decreases |plans|
  {
    best :| best in plans;
    if plans == {best} {
    } else {
      var rest := plans - {best};
      assert rest != {};
      var other := LeastOf(rest, value);
      if value(other) < value(best) {
        best := other;
      }
    }
  }

  /** Every instance has a best plan. */
  lemma BestPlanExists(inst: Instance, minimizeCost: bool) returns (best: Plan)
    requires Valid(inst)
    ensures BestPlan(inst, best, Objective(inst, best, minimizeCost), minimizeCost)
  {
    var n := |inst.order|;
    var some := ChoicesNonEmpty(inst, n);
    best := LeastOf(Choices(inst, n), p => Objective(inst, p, minimizeCost));
    ChoicesArePlans(inst, best);
    forall p | IsPlan(inst, p) ensures Objective(inst, best, minimizeCost) <= Objective(inst, p, minimizeCost) {
      ChoicesArePlans(inst, p);
    }
  }

  /** The cost program of every instance has an optimal point. */
  lemma CostOptimalExists(inst: Instance) returns (pt: Point)
    requires Valid(inst)
    ensures CostOptimal(inst, pt)
  {
    var best := BestPlanExists(inst, true);
    pt := Encode(inst, best);
    EncodeRoundTrip(inst, best);
    CostObjectiveIsPlanCost(inst, pt);
    forall q | Feasible(inst, q) ensures CostObjective(inst, pt) <= CostObjective(inst, q) {
      CostObjectiveIsPlanCost(inst, q);
      assert Objective(inst, best, true) <= Objective(inst, Decode(inst, q), true);
    }
  }

  /** The sink finishes at this time or later. */
  ghost predicate SinkBy(inst: Instance, time: real, finish: map<Task, real>)
    requires |inst.order| >= 1
  {
    var sink := inst.order[|inst.order| - 1];
    sink in finish && time <= finish[sink]
  }

  /** No solution of the time program lets the sink finish before a best plan does. */
  lemma SinkNoEarlier(inst: Instance, best: Plan, q: Point, finish: map<Task, real>)
    requires Valid(inst) && NonNegative(inst) && Rooted(inst) && TimeFeasible(inst, q, finish)
    requires BestPlan(inst, best, Objective(inst, best, false), false)
    ensures SinkBy(inst, Objective(inst, best, false), finish)
  {
    var p := Decode(inst, q);
    TimeConstraintsMatch(inst, q, finish);
    FinishIsLeast(inst, p, finish, |inst.order| - 1);
    assert Objective(inst, best, false) <= Objective(inst, p, false);
  }

  lemma NothingEarlier(inst: Instance, best: Plan)
    requires Valid(inst) && NonNegative(inst) && Rooted(inst)
    requires BestPlan(inst, best, Objective(inst, best, false), false)
    ensures forall q, other :: TimeFeasible(inst, q, other) ==> SinkBy(inst, Objective(inst, best, false), other)
  {
    forall q, other | TimeFeasible(inst, q, other) ensures SinkBy(inst, Objective(inst, best, false), other) {
      SinkNoEarlier(inst, best, q, other);
    }
  }

  lemma OptimalWhenFirst(inst: Instance, pt: Point, finish: map<Task, real>, time: real)
    requires Valid(inst) && TimeFeasible(inst, pt, finish) && inst.order[|inst.order| - 1] in finish
    requires finish[inst.order[|inst.order| - 1]] == time
    requires forall q, other :: TimeFeasible(inst, q, other) ==> SinkBy(inst, time, other)
    ensures TimeOptimal(inst, pt, finish)
  {
  }

  /** A best plan with its finish times solves the time program optimally. */
  lemma BestTimesAreOptimal(inst: Instance, best: Plan)
    requires Valid(inst) && NonNegative(inst) && Rooted(inst)
    requires BestPlan(inst, best, Objective(inst, best, false), false)
    ensures TimeOptimal(inst, Encode(inst, best), FinishMap(inst, best))
  {
    FinishTimesSolve(inst, best);
    FinishMapAt(inst, best, |inst.order| - 1);
    NothingEarlier(inst, best);
    OptimalWhenFirst(inst, Encode(inst, best), FinishMap(inst, best), Objective(inst, best, false));
  }

  /** So has the time program, when no time is negative and everything starts from the source. */
  lemma TimeOptimalExists(inst: Instance) returns (pt: Point, finish: map<Task, real>)
    requires Valid(inst) && NonNegative(inst) && Rooted(inst)
    ensures TimeOptimal(inst, pt, finish)
  {
    var best := BestPlanExists(inst, false);
    pt, finish := Encode(inst, best), FinishMap(inst, best);
    BestTimesAreOptimal(inst, best);
  }

  ghost predicate Solves(inst: Instance, minimizeCost: bool, pt: Point, finish: map<Task, real>) {
    Valid(inst) && if minimizeCost then CostOptimal(inst, pt) else TimeOptimal(inst, pt, finish)
  }

  lemma SolutionExists(inst: Instance, minimizeCost: bool)
    requires Valid(inst) && (minimizeCost || (NonNegative(inst) && Rooted(inst)))
    ensures exists pt, finish :: Solves(inst, minimizeCost, pt, finish)
  {
    if minimizeCost {
      var pt := CostOptimalExists(inst);
      assert Solves(inst, minimizeCost, pt, map[]);
    } else {
      var pt, finish := TimeOptimalExists(inst);
      assert Solves(inst, minimizeCost, pt, finish);
    }
  }

  /** A right answer wherever there is one. */
  ghost function Ideal(inst: Instance, minimizeCost: bool): (Point, map<Task, real>) {
    if exists pt, finish :: Solves(inst, minimizeCost, pt, finish) then
      var pt, finish :| Solves(inst, minimizeCost, pt, finish);
      (pt, finish)
    else (Point(map[], map[]), map[])
  }

  /** There is a solver that can be trusted. */
  lemma TrustedSolverExists(minimizeCost: bool)
    ensures exists solve: Solver :: Trusted(solve, minimizeCost)
  {
    var solve: Solver := inst => Ideal(inst, minimizeCost);
    forall inst | Valid(inst) && (minimizeCost || (NonNegative(inst) && Rooted(inst)))
      ensures SolvesOptimally(solve, inst, minimizeCost)
    {
      SolutionExists(inst, minimizeCost);
      assert solve(inst) == Ideal(inst, minimizeCost);
    }
    assert Trusted(solve, minimizeCost);
  }
}
