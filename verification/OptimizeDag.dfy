/**
 * One optimizer pass over a DAG (sky/optimizer.py): narrowing ordered requests, dropping blocked
 * launchables, estimating costs, choosing an algorithm and copying the plan back.
 */
module OptimizeDag {
  import opened Prelude
  import opened Graphs
  import opened Placement
  import opened FinishTimes
  import opened IntegerProgram
  import Dags

  /** What a task asks for: alternatives, or options to be tried in the listed order. */
  datatype Request = Unordered(options: seq<Resources>) | Ordered(options: seq<Resources>)

  /** The catalog and the block list, as the optimizer sees them. */
  datatype Market = Market(
    request: Task -> Request,
    launchables: (Task, Resources) -> seq<Resources>,
    blocked: seq<Resources>,
    matches: (Resources, Resources) -> bool,
    price: (Task, Resources, Resources) -> real)

  // ---------------------------------------------------------------------
  // Blocked resources.

  predicate IsBlocked(m: Market, r: Resources) {
    exists i :: 0 <= i < |m.blocked| && m.matches(r, m.blocked[i])
  }

  /** The launchables that no blocked entry matches, in their original order. */
  function Unblocked(m: Market, list: seq<Resources>): seq<Resources> {
    if list == [] then []
    else
      var last := list[|list| - 1];
      Unblocked(m, list[..|list| - 1]) + (if IsBlocked(m, last) then [] else [last])
  }

  lemma {:induction false} UnblockedMembers(m: Market, list: seq<Resources>, r: Resources)
    ensures r in Unblocked(m, list) <==> r in list && !IsBlocked(m, r)
  {
    if list == [] {
    } else {
      UnblockedMembers(m, list[..|list| - 1], r);
      assert list == list[..|list| - 1] + [list[|list| - 1]];
    }
  }

  /** Filtering keeps the order of the list. */
  lemma {:induction false} UnblockedConcat(m: Market, a: seq<Resources>, b: seq<Resources>)
    ensures Unblocked(m, a + b) == Unblocked(m, a) + Unblocked(m, b)
    decreases |b|
  {
    if b == [] {
      assert a + b == a;
    } else {
      var n := |b| - 1;
      UnblockedConcat(m, a, b[..n]);
      assert (a + b)[..|a + b| - 1] == a + b[..n];
    }
  }

  method FilterBlocked(m: Market, list: seq<Resources>) returns (available: seq<Resources>)
    ensures available == Unblocked(m, list)
  {
    available := [];
    for i := 0 to |list|
      invariant available == Unblocked(m, list[..i])
    {
      assert list[..i + 1][..i] == list[..i];
      var j := 0;
      while j < |m.blocked| && !m.matches(list[i], m.blocked[j])
        invariant 0 <= j <= |m.blocked|
        invariant forall k :: 0 <= k < j ==> !m.matches(list[i], m.blocked[k])
      {
        j := j + 1;
      }
      if j == |m.blocked| {
        available := available + [list[i]];
      }
    }
    assert list[..|list|] == list;
  }

  /** What can be launched for one option of a task. */
  function Viable(m: Market, t: Task, option: Resources): seq<Resources> {
    Unblocked(m, m.launchables(t, option))
  }

  // ---------------------------------------------------------------------
  // Ordered requests.

  /** The first option with something launchable, else the last one tried. */
  function FirstViable(m: Market, t: Task, options: seq<Resources>): Resources
    requires options != []
  {
    if |options| == 1 || Viable(m, t, options[0]) != [] then options[0]
    else FirstViable(m, t, options[1..])
  }

  /** The options left once an ordered list has been narrowed to one of them. */
  function Narrowed(m: Market, t: Task): seq<Resources> {
    match m.request(t)
    case Unordered(options) => options
    case Ordered(options) => if options == [] then [] else [FirstViable(m, t, options)]
  }

  method NarrowOptions(m: Market, t: Task) returns (options: seq<Resources>)
    ensures options == Narrowed(m, t)
  {
    options := m.request(t).options;
    if m.request(t).Unordered? || options == [] {
      return;
    }
    var list := options;
    var i := 0;
    while true
      invariant 0 <= i < |list|
      invariant FirstViable(m, t, list[i..]) == FirstViable(m, t, list)
      decreases |list| - i
    {
      options := [list[i]];
      var available := FilterBlocked(m, m.launchables(t, list[i]));
      if available != [] || i == |list| - 1 {
        return;
      }
      assert list[i..][1..] == list[i + 1..];
      i := i + 1;
    }
  }

  /** The option kept is the earliest one in the list with anything launchable. */
  lemma {:induction false} FirstViableIsEarliest(m: Market, t: Task, options: seq<Resources>, k: nat)
    requires k < |options| && Viable(m, t, options[k]) != []
    requires forall j :: 0 <= j < k ==> Viable(m, t, options[j]) == []
    ensures FirstViable(m, t, options) == options[k]
  {
    if k == 0 {
    } else {
      FirstViableIsEarliest(m, t, options[1..], k - 1);
    }
  }

  /** Some option of the narrowed request can be launched as `r`. */
  ghost predicate Launchable(m: Market, t: Task, options: seq<Resources>, r: Resources) {
    exists i :: 0 <= i < |options| && r in Viable(m, t, options[i])
  }

  // ---------------------------------------------------------------------
  // What a task may get.

  /** Option `k` can be launched as `r`, and no blocked entry matches it. */
  ghost predicate Offered(m: Market, t: Task, k: nat, r: Resources) {
    && k < |m.request(t).options| && r in m.launchables(t, m.request(t).options[k])
    && forall b :: b in m.blocked ==> !m.matches(r, b)
  }

  /** Of an ordered request only the first option that offers anything counts, of an unordered one every option. */
  ghost predicate Counts(m: Market, t: Task, k: nat) {
    m.request(t).Ordered? ==> forall j: nat, q :: j < k ==> !Offered(m, t, j, q)
  }

  ghost predicate Allowed(m: Market, t: Task, r: Resources) {
    exists k: nat :: Offered(m, t, k, r) && Counts(m, t, k)
  }

  /** No option offers anything. */
  ghost predicate Unplaceable(m: Market, t: Task) {
    forall k: nat, r :: !Offered(m, t, k, r)
  }

  /** The price of a resource is the one at the last option that counts and offers it. */
  ghost predicate PricedAt(m: Market, t: Task, r: Resources, price: real) {
    exists k: nat ::
      && Offered(m, t, k, r) && Counts(m, t, k) && price == m.price(t, m.request(t).options[k], r)
      && forall j: nat :: j > k && Counts(m, t, j) ==> !Offered(m, t, j, r)
  }

  lemma ViableMembers(m: Market, t: Task, k: nat, r: Resources)
    requires k < |m.request(t).options|
    ensures r in Viable(m, t, m.request(t).options[k]) <==> Offered(m, t, k, r)
  {
    UnblockedMembers(m, m.launchables(t, m.request(t).options[k]), r);
    assert forall b :: b in m.blocked ==> exists i :: 0 <= i < |m.blocked| && m.blocked[i] == b;
  }

  /** The one option that an ordered request is narrowed to is the first that offers anything, if one does. */
  lemma NarrowedCounts(m: Market, t: Task) returns (k: nat)
    requires m.request(t).Ordered? && m.request(t).options != []
    ensures k < |m.request(t).options| && Narrowed(m, t) == [m.request(t).options[k]] && Counts(m, t, k)
    ensures forall j: nat, q :: Offered(m, t, j, q) && Counts(m, t, j) ==> j == k
    ensures Unplaceable(m, t) <==> forall q :: !Offered(m, t, k, q)
  {
    var options := m.request(t).options;
    k := EarliestIndex(m, t, options);
    forall j: nat, q | j < |options| ensures Offered(m, t, j, q) <==> q in Viable(m, t, options[j]) {
      ViableMembers(m, t, j, q);
    }
    if Viable(m, t, options[k]) != [] {
      assert Viable(m, t, options[k])[0] in Viable(m, t, options[k]);
      assert Offered(m, t, k, Viable(m, t, options[k])[0]);
    }
  }

  /** A narrowed request can be launched as exactly what is allowed. */
  lemma LaunchableIff(m: Market, t: Task, r: Resources)
    ensures Launchable(m, t, Narrowed(m, t), r) <==> Allowed(m, t, r)
  {
    var options := m.request(t).options;
    forall k: nat | k < |options| ensures r in Viable(m, t, options[k]) <==> Offered(m, t, k, r) {
      ViableMembers(m, t, k, r);
    }
    if m.request(t).Ordered? && options != [] {
      var k := NarrowedCounts(m, t);
      assert Narrowed(m, t)[0] == options[k];
    }
  }

  lemma NothingLaunchableIff(m: Market, t: Task)
    ensures Unplaceable(m, t) <==> forall r :: !Launchable(m, t, Narrowed(m, t), r)
  {
    forall r ensures Launchable(m, t, Narrowed(m, t), r) <==> Allowed(m, t, r) {
      LaunchableIff(m, t, r);
    }
    if m.request(t).Ordered? && m.request(t).options != [] {
      var k := NarrowedCounts(m, t);
    }
    if k: nat, r :| Offered(m, t, k, r) && Counts(m, t, k) {
      assert Allowed(m, t, r);
    }
  }

  lemma {:induction false} EarliestIndex(m: Market, t: Task, options: seq<Resources>) returns (k: nat)
    requires options != []
    ensures k < |options| && FirstViable(m, t, options) == options[k]
    ensures forall j :: 0 <= j < k ==> Viable(m, t, options[j]) == []
    ensures Viable(m, t, options[k]) == [] ==> forall j :: 0 <= j < |options| ==> Viable(m, t, options[j]) == []
  {
    if |options| == 1 || Viable(m, t, options[0]) != [] {
      k := 0;
    } else {
      k := EarliestIndex(m, t, options[1..]);
      k := k + 1;
    }
  }

  // ---------------------------------------------------------------------
  // Cost rows.

  /** Dictionary assignment: an existing key keeps its place and takes the new cost. */
  method Put(row: CostRow, r: Resources, cost: real) returns (next: CostRow)
    requires DistinctKeys(row)
    ensures DistinctKeys(next)
    ensures forall q :: Offers(next, q) <==> Offers(row, q) || q == r
    ensures Offers(next, r) && CostOf(next, r) == cost
    ensures forall q :: Offers(row, q) && q != r ==> Offers(next, q) && CostOf(next, q) == CostOf(row, q)
  {
    var i := 0;
    while i < |row| && row[i].resources != r
      invariant 0 <= i <= |row|
      invariant forall j :: 0 <= j < i ==> row[j].resources != r
    {
      i := i + 1;
    }
    if i < |row| {
      next := row[i := Priced(r, cost)];
    } else {
      next := row + [Priced(r, cost)];
    }
    assert next[i].resources == r;
    CostAt(next, i);
    PutKeeps(row, next, r, i);
  }

  lemma PutKeeps(row: CostRow, next: CostRow, r: Resources, i: nat)
    requires DistinctKeys(row) && DistinctKeys(next) && i <= |row| <= |next| && i < |next| <= |row| + 1
    requires |next| == |row| + 1 ==> i == |row|
    requires next[i].resources == r && (i < |row| ==> row[i].resources == r)
    requires forall j :: 0 <= j < |row| && j != i ==> next[j] == row[j]
    ensures forall q :: Offers(next, q) <==> Offers(row, q) || q == r
    ensures forall q :: Offers(row, q) && q != r ==> Offers(next, q) && CostOf(next, q) == CostOf(row, q)
  {
    forall q | Offers(row, q) ensures Offers(next, q) && (q != r ==> CostOf(next, q) == CostOf(row, q)) {
      var j := OfferIndex(row, q);
      assert next[j].resources == q;
      if q != r {
        CostAt(next, j);
      }
    }
    forall q | Offers(next, q) && q != r ensures Offers(row, q) {
      var j := OfferIndex(next, q);
      assert row[j].resources == q;
    }
  }

  /** Option `i` is the last one that can be launched as `r`; the dictionary keeps what it is assigned last. */
  ghost predicate IsLastFor(m: Market, t: Task, options: seq<Resources>, r: Resources, i: nat) {
    && i < |options| && r in Viable(m, t, options[i])
    && forall j :: i < j < |options| ==> r !in Viable(m, t, options[j])
  }

  /** The row holds exactly what the options can be launched as, each at the price of the last such option. */
  ghost predicate RowFor(m: Market, t: Task, options: seq<Resources>, row: CostRow) {
    && DistinctKeys(row)
    && (forall r :: Offers(row, r) <==> Launchable(m, t, options, r))
    && (forall r :: Offers(row, r) ==>
          exists i: nat :: IsLastFor(m, t, options, r, i) && CostOf(row, r) == m.price(t, options[i], r))
  }

  method AddOption(m: Market, t: Task, options: seq<Resources>, option: Resources, row0: CostRow) returns (row: CostRow)
    requires RowFor(m, t, options, row0)
    ensures RowFor(m, t, options + [option], row)
  {
    row := row0;
    var list := FilterBlocked(m, m.launchables(t, option));
    var all := options + [option];
    assert all[|options|] == option;
    for j := 0 to |list|
      invariant DistinctKeys(row)
      invariant forall r :: Offers(row, r) <==> Offers(row0, r) || r in list[..j]
      invariant forall r :: Offers(row, r) ==>
        if r in list[..j] then CostOf(row, r) == m.price(t, option, r)
        else Offers(row0, r) && CostOf(row, r) == CostOf(row0, r)
    {
      assert forall r :: r in list[..j + 1] <==> r in list[..j] || r == list[j];
      row := Put(row, list[j], m.price(t, option, list[j]));
    }
    assert list[..|list|] == list;
    forall r ensures Launchable(m, t, all, r) <==> Launchable(m, t, options, r) || r in list {
      if Launchable(m, t, options, r) {
        var i :| 0 <= i < |options| && r in Viable(m, t, options[i]);
        assert all[i] == options[i];
      }
      if r in list {
        assert r in Viable(m, t, all[|options|]);
      }
    }
    forall r | Offers(row, r)
      ensures exists i: nat :: IsLastFor(m, t, all, r, i) && CostOf(row, r) == m.price(t, all[i], r)
    {
      if r in list {
        assert IsLastFor(m, t, all, r, |options|);
      } else {
        var i: nat :| IsLastFor(m, t, options, r, i) && CostOf(row0, r) == m.price(t, options[i], r);
        assert IsLastFor(m, t, all, r, i);
      }
    }
  }

  method EstimateRow(m: Market, t: Task, options: seq<Resources>) returns (row: CostRow)
    ensures RowFor(m, t, options, row)
  {
    row := [];
    for i := 0 to |options|
      invariant RowFor(m, t, options[..i], row)
    {
      row := AddOption(m, t, options[..i], options[i], row);
      assert options[..i + 1] == options[..i] + [options[i]];
    }
    assert options[..|options|] == options;
  }

  /** In the row of a narrowed request everything has its price. */
  lemma RowPrices(m: Market, t: Task, row: CostRow, r: Resources)
    requires RowFor(m, t, Narrowed(m, t), row)
    ensures Offers(row, r) <==> Allowed(m, t, r)
    ensures Offers(row, r) ==> PricedAt(m, t, r, CostOf(row, r))
  {
    LaunchableIff(m, t, r);
    if Offers(row, r) {
      var narrowed, options := Narrowed(m, t), m.request(t).options;
      var i: nat :| IsLastFor(m, t, narrowed, r, i) && CostOf(row, r) == m.price(t, narrowed[i], r);
      forall k: nat | k < |options| ensures r in Viable(m, t, options[k]) <==> Offered(m, t, k, r) {
        ViableMembers(m, t, k, r);
      }
      if m.request(t).Ordered? {
        var k := NarrowedCounts(m, t);
        assert narrowed[0] == options[k] && i == 0;
        assert Offered(m, t, k, r);
      } else {
        assert Offered(m, t, i, r) && Counts(m, t, i);
      }
    }
  }

  /** The rows of a pass: dummy entries at both ends, estimates in between. */
  ghost predicate RowsFor(m: Market, order: seq<Task>, source: Resources, sink: Resources, costs: map<Task, CostRow>)
    requires |order| >= 2
  {
    && costs.Keys == Elements(order)
    && costs[order[0]] == [Priced(source, 0.0)]
    && costs[order[|order| - 1]] == [Priced(sink, 0.0)]
    && forall i :: 0 < i < |order| - 1 ==>
         RowFor(m, order[i], Narrowed(m, order[i]), costs[order[i]]) && costs[order[i]] != []
  }

  lemma EmptyRowUnplaceable(m: Market, t: Task, row: CostRow)
    requires RowFor(m, t, Narrowed(m, t), row)
    ensures row == [] <==> Unplaceable(m, t)
  {
    NothingLaunchableIff(m, t);
    if row != [] {
      assert Offers(row, row[0].resources);
    }
  }

  /** The rows of the first `i` nodes. */
  ghost predicate RowsSoFar(m: Market, order: seq<Task>, source: Resources, table: map<Task, CostRow>, i: nat)
    requires 1 <= i <= |order|
  {
    && table.Keys == Elements(order[..i])
    && order[0] in table && table[order[0]] == [Priced(source, 0.0)]
    && forall j :: 0 < j < i ==>
         order[j] in table && RowFor(m, order[j], Narrowed(m, order[j]), table[order[j]]) && table[order[j]] != []
  }

  lemma NextRow(m: Market, order: seq<Task>, source: Resources, table: map<Task, CostRow>, i: nat, row: CostRow)
    requires 1 <= i < |order| && Distinct(order) && RowsSoFar(m, order, source, table, i)
    requires RowFor(m, order[i], Narrowed(m, order[i]), row) && row != []
    ensures RowsSoFar(m, order, source, table[order[i] := row], i + 1)
  {
    assert order[..i + 1] == order[..i] + [order[i]];
    ElementsPush(order[..i], order[i]);
  }

  lemma LastRow(m: Market, order: seq<Task>, source: Resources, sink: Resources, table: map<Task, CostRow>)
    requires |order| >= 2 && Distinct(order) && RowsSoFar(m, order, source, table, |order| - 1)
    ensures RowsFor(m, order, source, sink, table[order[|order| - 1] := [Priced(sink, 0.0)]])
    ensures forall i :: 0 < i < |order| - 1 ==> !Unplaceable(m, order[i])
  {
    var last := |order| - 1;
    assert order == order[..last] + [order[last]];
    ElementsPush(order[..last], order[last]);
    forall i | 0 < i < last ensures !Unplaceable(m, order[i]) {
      EmptyRowUnplaceable(m, order[i], table[order[i]]);
    }
  }

  /** None where the source raises because a task has nothing to launch. */
  method EstimateCosts(m: Market, order: seq<Task>, source: Resources, sink: Resources)
    returns (costs: Option<map<Task, CostRow>>)
    requires |order| >= 2 && Distinct(order)
    ensures costs.Some? ==> RowsFor(m, order, source, sink, costs.value)
    ensures costs.None? <==> exists i :: 0 < i < |order| - 1 && Unplaceable(m, order[i])
  {
    var last := |order| - 1;
    var table: map<Task, CostRow> := map[order[0] := [Priced(source, 0.0)]];
    for i := 1 to last
      invariant RowsSoFar(m, order, source, table, i)
    {
      var options := NarrowOptions(m, order[i]);
      var row := EstimateRow(m, order[i], options);
      EmptyRowUnplaceable(m, order[i], row);
      if row == [] {
        return None;
      }
      NextRow(m, order, source, table, i, row);
      table := table[order[i] := row];
    }
    LastRow(m, order, source, sink, table);
    costs := Some(table[order[last] := [Priced(sink, 0.0)]]);
  }

  // ---------------------------------------------------------------------
  // Choosing the algorithm.

  /** The external solver: the decision variables and, for the time target, the finish times. */
  type Solver = Instance -> (Point, map<Task, real>)

  ghost predicate SolvesOptimally(solve: Solver, inst: Instance, minimizeCost: bool)
    requires Valid(inst)
  {
    if minimizeCost then CostOptimal(inst, solve(inst).0) else TimeOptimal(inst, solve(inst).0, solve(inst).1)
  }

  /** What the pass minimises: the cost of the whole graph, or the finish time of the sink. */
  ghost function Objective(inst: Instance, p: Plan, minimizeCost: bool): real
    requires |inst.order| >= 1
  {
    if minimizeCost then TotalCost(inst, p) else Finish(inst, p, |inst.order| - 1)
  }

  ghost predicate BestPlan(inst: Instance, plan: Plan, objective: real, minimizeCost: bool)
    requires Valid(inst)
  {
    && IsPlan(inst, plan)
    && objective == Objective(inst, plan, minimizeCost)
    && forall p :: IsPlan(inst, p) ==> objective <= Objective(inst, p, minimizeCost)
  }

  lemma ChainObjective(inst: Instance, p: Plan, minimizeCost: bool)
    requires Valid(inst) && IsPlan(inst, p) && inst.graph.IsChain() && (!minimizeCost ==> NonNegative(inst))
    ensures Objective(inst, p, minimizeCost) == ChainValue(inst, p, |inst.order| - 1)
  {
    if minimizeCost {
      ChainValueIsTotal(inst, p);
    } else {
      ChainFinish(inst, p);
    }
  }

  method OptimizeChain(inst: Instance, minimizeCost: bool) returns (plan: Plan, objective: real)
    requires Valid(inst) && SourceNameReserved(inst) && inst.graph.IsChain()
    requires !minimizeCost ==> NonNegative(inst)
    ensures BestPlan(inst, plan, objective, minimizeCost)
  {
    plan, objective := OptimizeByDp(inst);
    ChainObjective(inst, plan, minimizeCost);
    forall p | IsPlan(inst, p) ensures objective <= Objective(inst, p, minimizeCost) {
      ChainObjective(inst, p, minimizeCost);
    }
  }

  method OptimizeByIlp(inst: Instance, minimizeCost: bool, solved: (Point, map<Task, real>))
    returns (plan: Plan, objective: real)
    requires Valid(inst)
    requires if minimizeCost then CostOptimal(inst, solved.0) else TimeOptimal(inst, solved.0, solved.1)
    requires !minimizeCost ==> NonNegative(inst) && Rooted(inst)
    ensures BestPlan(inst, plan, objective, minimizeCost)
  {
    plan := ReadPlan(inst, solved.0);
    if minimizeCost {
      CostOptimalIsLeastPlan(inst, solved.0);
      objective := EvaluateCost(inst, solved.0);
    } else {
      TimeOptimalIsLeastPlan(inst, solved.0, solved.1);
      objective := solved.1[inst.order[|inst.order| - 1]];
    }
  }

  /** Whichever algorithm runs, the plan is the best of all plans for the chosen target. */
  method OptimizeInstance(inst: Instance, minimizeCost: bool, solve: Solver) returns (plan: Plan, objective: real)
    requires Valid(inst) && SourceNameReserved(inst) && SolvesOptimally(solve, inst, minimizeCost)
    requires !minimizeCost ==> NonNegative(inst) && Rooted(inst)
    ensures BestPlan(inst, plan, objective, minimizeCost)
  {
    if inst.graph.IsChain() {
      plan, objective := OptimizeChain(inst, minimizeCost);
    } else {
      plan, objective := OptimizeByIlp(inst, minimizeCost, solve(inst));
    }
  }

  // ---------------------------------------------------------------------
  // The whole pass.

  /** The copy of a task asks for the same things on the same terms. */
  ghost predicate SameTerms(m: Market, a: Task, b: Task) {
    && m.request(a) == m.request(b)
    && (forall o :: m.launchables(a, o) == m.launchables(b, o))
    && (forall o, r :: m.price(a, o, r) == m.price(b, o, r))
  }

  lemma SameTermsSameLaunchables(m: Market, a: Task, b: Task, r: Resources)
    requires SameTerms(m, a, b)
    ensures Launchable(m, a, Narrowed(m, a), r) <==> Launchable(m, b, Narrowed(m, b), r)
  {
    if m.request(a).Ordered? && m.request(a).options != [] {
      SameFirstViable(m, a, b, m.request(a).options);
    }
    assert Narrowed(m, a) == Narrowed(m, b);
    assert forall o :: Viable(m, a, o) == Viable(m, b, o);
  }

  lemma SameTermsSameRow(m: Market, a: Task, b: Task, row: CostRow)
    requires SameTerms(m, a, b)
    ensures RowFor(m, a, Narrowed(m, a), row) <==> RowFor(m, b, Narrowed(m, b), row)
  {
    if m.request(a).Ordered? && m.request(a).options != [] {
      SameFirstViable(m, a, b, m.request(a).options);
    }
    var options := Narrowed(m, a);
    assert options == Narrowed(m, b);
    assert forall o :: Viable(m, a, o) == Viable(m, b, o);
    forall r ensures Launchable(m, a, options, r) <==> Launchable(m, b, options, r) {
    }
    forall r, i: nat ensures IsLastFor(m, a, options, r, i) <==> IsLastFor(m, b, options, r, i) {
    }
  }

  lemma {:induction false} SameFirstViable(m: Market, a: Task, b: Task, options: seq<Resources>)
    requires SameTerms(m, a, b) && options != []
    ensures FirstViable(m, a, options) == FirstViable(m, b, options)
  {
    if |options| == 1 {
    } else {
      SameFirstViable(m, a, b, options[1..]);
    }
  }

  /** Results are found by position in the copied task list and stored on the original task there. */
  method CopyBack(tasks: seq<Task>, local: seq<Task>, localPlan: Plan) returns (plan: Plan)
    requires Distinct(tasks) && Distinct(local) && |tasks| == |local| && localPlan.Keys == Elements(local)
    ensures plan.Keys == Elements(tasks)
    ensures forall i :: 0 <= i < |tasks| ==> local[i] in localPlan && plan[tasks[i]] == localPlan[local[i]]
  {
    plan := map[];
    var left := localPlan.Keys;
    while left != {}
      invariant left <= localPlan.Keys
      invariant forall i :: 0 <= i < |tasks| && local[i] !in left ==>
        tasks[i] in plan && plan[tasks[i]] == localPlan[local[i]]
      invariant forall t :: t in plan ==> t in tasks
    {
      var t :| t in left;
      var k := 0;
      while local[k] != t
        invariant 0 <= k < |local| && t !in local[..k]
        decreases |local| - k
      {
        k := k + 1;
      }
      plan := plan[tasks[k] := localPlan[t]];
      left := left - {t};
    }
    assert forall i :: 0 <= i < |tasks| ==> local[i] in Elements(local);
    assert forall i :: 0 <= i < |tasks| ==> tasks[i] in plan;
  }

  /** A sorted graph with its edges listed once each. */
  ghost predicate Sorted(graph: Graph, order: seq<Task>, edges: seq<Edge>) {
    && graph.Valid() && IsTopologicalOrder(graph, order) && |order| >= 2
    && Distinct(edges) && Elements(edges) == graph.edges
  }

  lemma InstanceIsValid(m: Market, graph: Graph, order: seq<Task>, edges: seq<Edge>, source: Resources, sink: Resources,
                        costs: map<Task, CostRow>, egress: Egress)
    requires Sorted(graph, order, edges) && RowsFor(m, order, source, sink, costs)
    ensures Valid(Instance(graph, order, edges, costs, egress))
  {
    forall v | v in graph.nodes ensures v in costs && costs[v] != [] && DistinctKeys(costs[v]) {
      var i := Position(order, v);
      if 0 < i < |order| - 1 {
        assert RowFor(m, order[i], Narrowed(m, order[i]), costs[order[i]]);
      }
    }
  }

  /** Every node but the first has a predecessor. */
  ghost predicate OnlyFirstIsRoot(graph: Graph, order: seq<Task>) {
    forall i {:trigger graph.Predecessors(order[i])} :: 1 <= i < |order| ==> graph.Predecessors(order[i]) != {}
  }

  /** A DAG with its dummy nodes meets what a pass asks of the sorted graph, whatever the topological order. */
  lemma DummiesMeetDemands(g: Graph, source: Task, sink: Task, order: seq<Task>)
    requires g.Valid() && Acyclic(g) && g.nodes != {} && Dags.FreshDummies(g, source, sink)
    requires source.name == Some(Dags.DUMMY_SOURCE_NAME) && sink.name != source.name
    requires forall t :: t in g.nodes ==> t.name != Some(Dags.DUMMY_SOURCE_NAME)
    requires IsTopologicalOrder(Dags.WithDummies(g, source, sink), order)
    ensures Dags.WithDummies(g, source, sink).Valid() && |order| >= 2
    ensures OnlyFirstIsRoot(Dags.WithDummies(g, source, sink), order)
    ensures forall i :: 0 <= i < |order| ==> (order[i].name == Some(Dags.DUMMY_SOURCE_NAME) <==> i == 0)
  {
    Dags.DummiesValid(g, source, sink);
    Dags.DummiesAreEnds(g, source, sink, order);
    forall i | 1 <= i < |order|
      ensures Dags.WithDummies(g, source, sink).Predecessors(order[i]) != {}
      ensures order[i].name != Some(Dags.DUMMY_SOURCE_NAME)
    {
      assert order[i] != order[0] && order[i] in Elements(order);
      Dags.OnlySourceIsRoot(g, source, sink, order[i]);
    }
  }

  /** No estimate is negative. */
  ghost predicate NonNegativeTerms(m: Market, egress: Egress) {
    && (forall t, o, r :: m.price(t, o, r) >= 0.0)
    && (forall u, r, v, q :: egress(u, r, v, q) >= 0.0)
  }

  lemma RowNonNegative(m: Market, t: Task, options: seq<Resources>, row: CostRow, j: nat)
    requires RowFor(m, t, options, row) && j < |row| && forall o, r :: m.price(t, o, r) >= 0.0
    ensures row[j].cost >= 0.0
  {
    CostAt(row, j);
  }

  lemma InstanceNonNegative(m: Market, inst: Instance, source: Resources, sink: Resources)
    requires |inst.order| >= 2 && RowsFor(m, inst.order, source, sink, inst.costs) && NonNegativeTerms(m, inst.egress)
    ensures NonNegative(inst)
  {
    forall v, j | v in inst.costs && 0 <= j < |inst.costs[v]| ensures inst.costs[v][j].cost >= 0.0 {
      var i := Position(inst.order, v);
      if 0 < i < |inst.order| - 1 {
        RowNonNegative(m, v, Narrowed(m, v), inst.costs[v], j);
      }
    }
  }

  lemma InnerResourcesLaunchable(m: Market, inst: Instance, source: Resources, sink: Resources, plan: Plan, v: Task)
    requires Valid(inst) && RowsFor(m, inst.order, source, sink, inst.costs) && IsPlan(inst, plan)
    requires v in inst.graph.nodes
    requires v != inst.order[0] && v != inst.order[|inst.order| - 1]
    ensures v in plan && Launchable(m, v, Narrowed(m, v), plan[v])
  {
    var i := Position(inst.order, v);
    assert RowFor(m, inst.order[i], Narrowed(m, inst.order[i]), inst.costs[inst.order[i]]);
  }

  /** The solver is right about every instance, for the time target about rooted ones without negative times. */
  ghost predicate Trusted(solve: Solver, minimizeCost: bool) {
    forall inst {:trigger solve(inst)} :: Valid(inst) && (minimizeCost || (NonNegative(inst) && Rooted(inst))) ==>
      SolvesOptimally(solve, inst, minimizeCost)
  }

  /** The instance that a pass over this graph builds. */
  ghost predicate Built(m: Market, graph: Graph, order: seq<Task>, edges: seq<Edge>, source: Resources, sink: Resources,
                        egress: Egress, inst: Instance) {
    && inst.graph == graph && inst.order == order && inst.edges == edges && inst.egress == egress
    && Valid(inst) && RowsFor(m, order, source, sink, inst.costs)
  }

  /** No plan exactly when some task has nothing to launch; otherwise the best plan of the instance. */
  ghost predicate LocalOutcome(m: Market, graph: Graph, order: seq<Task>, edges: seq<Edge>, source: Resources,
                               sink: Resources, egress: Egress, minimizeCost: bool, plan: Option<Plan>,
                               objective: real, inst: Instance)
  {
    && (plan.None? <==> exists i :: 0 < i < |order| - 1 && Unplaceable(m, order[i]))
    && (plan.Some? ==>
          && Built(m, graph, order, edges, source, sink, egress, inst)
          && BestPlan(inst, plan.value, objective, minimizeCost))
  }

  /** Every task of the caller's list holds the resource of its copy. */
  ghost predicate CopiedOutcome(m: Market, tasks: seq<Task>, local: seq<Task>, order: seq<Task>, localPlan: Plan,
                                best: Plan)
    requires |tasks| == |local| && |order| >= 1
  {
    && best.Keys == Elements(tasks)
    && forall i :: 0 <= i < |tasks| ==>
         && local[i] in localPlan && tasks[i] in best && best[tasks[i]] == localPlan[local[i]]
         && (local[i] != order[0] && local[i] != order[|order| - 1] ==>
               Allowed(m, tasks[i], best[tasks[i]]))
  }

  /** The pass over the working copy of the DAG. */
  method OptimizeLocal(m: Market, graph: Graph, order: seq<Task>, edges: seq<Edge>, source: Resources, sink: Resources,
                       egress: Egress, minimizeCost: bool, solve: Solver)
    returns (plan: Option<Plan>, objective: real, ghost inst: Instance)
    requires Sorted(graph, order, edges)
    requires forall i :: 0 <= i < |order| ==> (order[i].name == Some(Dags.DUMMY_SOURCE_NAME) <==> i == 0)
    requires Trusted(solve, minimizeCost)
    requires !minimizeCost ==> NonNegativeTerms(m, egress) && OnlyFirstIsRoot(graph, order)
    ensures LocalOutcome(m, graph, order, edges, source, sink, egress, minimizeCost, plan, objective, inst)
  {
    var costs := EstimateCosts(m, order, source, sink);
    if costs.None? {
      return None, 0.0, Instance(graph, order, edges, map[], egress);
    }
    var built := Instance(graph, order, edges, costs.value, egress);
    inst := built;
    InstanceIsValid(m, graph, order, edges, source, sink, costs.value, egress);
    if !minimizeCost {
      InstanceNonNegative(m, built, source, sink);
      InstanceRooted(built);
    }
    ghost var trusted := solve(built);
    var best, value := OptimizeInstance(built, minimizeCost, solve);
    plan, objective := Some(best), value;
  }

  lemma InstanceRooted(inst: Instance)
    requires Valid(inst) && OnlyFirstIsRoot(inst.graph, inst.order)
    ensures Rooted(inst)
  {
    forall i | 1 <= i < |inst.order| ensures HasInput(inst, i) {
      assert inst.graph.Predecessors(inst.order[i]) != {};
      var u :| u in inst.graph.Predecessors(inst.order[i]);
      var k := Position(inst.order, u);
      assert (inst.order[k], inst.order[i]) in inst.graph.edges;
      assert IsInput(inst, i, k);
    }
  }

  /**
   * The pass over a DAG whose task list has been copied. It fails exactly when some task has nothing
   * to launch. Otherwise the plan found on the copy is the best of all its plans, and every task of the
   * caller's own list gets the copy's resource: one that its request can be launched as, not blocked.
   */
  method Optimize(m: Market, tasks: seq<Task>, local: seq<Task>, graph: Graph, order: seq<Task>, edges: seq<Edge>,
                  source: Resources, sink: Resources, egress: Egress, minimizeCost: bool, solve: Solver)
    returns (best: Option<Plan>, objective: real)
    requires Sorted(graph, order, edges) && Elements(local) == graph.nodes
    requires Distinct(tasks) && Distinct(local) && |tasks| == |local|
    requires forall i :: 0 <= i < |tasks| ==> SameTerms(m, tasks[i], local[i])
    requires forall i :: 0 <= i < |order| ==> (order[i].name == Some(Dags.DUMMY_SOURCE_NAME) <==> i == 0)
    requires Trusted(solve, minimizeCost)
    requires !minimizeCost ==> NonNegativeTerms(m, egress) && OnlyFirstIsRoot(graph, order)
    ensures best.None? <==> exists i :: 0 < i < |order| - 1 && Unplaceable(m, order[i])
    ensures best.Some? ==> exists inst, localPlan ::
      && Built(m, graph, order, edges, source, sink, egress, inst) && BestPlan(inst, localPlan, objective, minimizeCost)
      && CopiedOutcome(m, tasks, local, order, localPlan, best.value)
  {
    var found, value, inst := OptimizeLocal(m, graph, order, edges, source, sink, egress, minimizeCost, solve);
    if found.None? {
      return None, value;
    }
    var plan := CopyResults(m, tasks, local, found.value, inst, source, sink);
    best, objective := Some(plan), value;
  }

  method CopyResults(m: Market, tasks: seq<Task>, local: seq<Task>, localPlan: Plan, ghost inst: Instance,
                     ghost source: Resources, ghost sink: Resources)
    returns (plan: Plan)
    requires Valid(inst) && RowsFor(m, inst.order, source, sink, inst.costs) && IsPlan(inst, localPlan)
    requires Distinct(tasks) && Distinct(local) && |tasks| == |local| && Elements(local) == inst.graph.nodes
    requires forall i :: 0 <= i < |tasks| ==> SameTerms(m, tasks[i], local[i])
    ensures CopiedOutcome(m, tasks, local, inst.order, localPlan, plan)
  {
    plan := CopyBack(tasks, local, localPlan);
    CopiedLaunchable(m, tasks, local, inst, source, sink, localPlan, plan);
  }

  lemma CopiedLaunchable(m: Market, tasks: seq<Task>, local: seq<Task>, inst: Instance, source: Resources,
                         sink: Resources, localPlan: Plan, plan: Plan)
    requires Valid(inst) && RowsFor(m, inst.order, source, sink, inst.costs) && IsPlan(inst, localPlan)
    requires |tasks| == |local| && Elements(local) == inst.graph.nodes
    requires forall i :: 0 <= i < |tasks| ==> SameTerms(m, tasks[i], local[i])
    requires forall i :: 0 <= i < |tasks| ==>
      tasks[i] in plan && local[i] in localPlan && plan[tasks[i]] == localPlan[local[i]]
    ensures forall i :: 0 <= i < |tasks| && local[i] != inst.order[0] && local[i] != inst.order[|inst.order| - 1] ==>
      Allowed(m, tasks[i], plan[tasks[i]])
  {
    forall i | 0 <= i < |tasks| && local[i] != inst.order[0] && local[i] != inst.order[|inst.order| - 1]
      ensures Allowed(m, tasks[i], plan[tasks[i]])
    {
      assert local[i] in Elements(local);
      InnerResourcesLaunchable(m, inst, source, sink, localPlan, local[i]);
      SameTermsSameLaunchables(m, tasks[i], local[i], localPlan[local[i]]);
      LaunchableIff(m, tasks[i], localPlan[local[i]]);
    }
  }
}
