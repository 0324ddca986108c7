/**
 * The integer program for general graphs (sky/optimizer.py): one-hot decision vectors, products
 * linearised by row and column sums, and the cost and time objectives.
 */
module IntegerProgram {
  import opened Prelude
  import opened Graphs
  import opened Placement
  import opened FinishTimes

  // ---------------------------------------------------------------------
  // One-hot vectors and their products.

  predicate Binary(x: seq<int>) {
    forall i :: 0 <= i < |x| ==> x[i] == 0 || x[i] == 1
  }

  function Sum(x: seq<int>): int {
    if x == [] then 0 else Sum(x[..|x| - 1]) + x[|x| - 1]
  }

  predicate OneHot(x: seq<int>) {
    Binary(x) && Sum(x) == 1
  }

  /** All zero except for a one at h. */
  ghost predicate HotAt(x: seq<int>, h: int) {
    0 <= h < |x| && forall i :: 0 <= i < |x| ==> x[i] == if i == h then 1 else 0
  }

  lemma {:induction false} SumOfZeros(x: seq<int>)
    requires forall i :: 0 <= i < |x| ==> x[i] == 0
    ensures Sum(x) == 0
  {
    if x == [] {
    } else {
      SumOfZeros(x[..|x| - 1]);
    }
  }

  lemma {:induction false} SumBounds(x: seq<int>)
    requires Binary(x)
    ensures Sum(x) >= 0
    ensures Sum(x) == 0 ==> forall i :: 0 <= i < |x| ==> x[i] == 0
  {
    if x == [] {
    } else {
      SumBounds(x[..|x| - 1]);
    }
  }

  lemma {:induction false} OneHotHasIndex(x: seq<int>) returns (h: nat)
    requires OneHot(x)
    ensures HotAt(x, h)
  {
    var rest := x[..|x| - 1];
    SumBounds(rest);
    if x[|x| - 1] == 1 {
      h := |x| - 1;
    } else {
      h := OneHotHasIndex(rest);
    }
  }

  lemma {:induction false} HotIsOneHot(x: seq<int>, h: nat)
    requires HotAt(x, h)
    ensures OneHot(x)
  {
    var rest := x[..|x| - 1];
    if h == |x| - 1 {
      SumOfZeros(rest);
    } else {
      HotIsOneHot(rest, h);
    }
  }

  /** The entry of a flattened matrix at a row and a column. */
  function At(e: seq<int>, width: nat, row: nat, col: nat): int
    requires width * row + col < |e|
  {
    e[width * row + col]
  }

  /** The sum of the first k entries of one row of a flattened matrix with `width` columns. */
  function RowSum(e: seq<int>, width: nat, row: nat, k: nat): int
    requires k <= width && width * row + k <= |e|
  {
    if k == 0 then 0 else RowSum(e, width, row, k - 1) + At(e, width, row, k - 1)
  }

  /** The sum of the first k entries of one column of a flattened matrix with `width` columns. */
  function ColSum(e: seq<int>, width: nat, col: nat, k: nat): int
    requires col < width && width * k <= |e|
  {
    if k == 0 then 0
    else
      MulStep(k - 1, width);
      ColSum(e, width, col, k - 1) + e[width * (k - 1) + col]
  }

  lemma MulStep(n: nat, w: nat)
    ensures (n + 1) * w == n * w + w && w * (n + 1) == w * n + w && w * n == n * w
  {
  }

  lemma MulMono(k: nat, n: nat, w: nat)
    requires k <= n
    ensures w * k <= n * w
  {
  }

  lemma FlatIndex(rows: nat, width: nat, a: nat, b: nat)
    requires a < rows && b < width
    ensures width * a + b < rows * width && width * a + width <= rows * width
  {
    MulStep(a, width);
    MulMono(a + 1, rows, width);
  }

  ghost predicate RowsAgree(e: seq<int>, x: seq<int>, y: seq<int>)
    requires |e| == |x| * |y|
  {
    forall a {:trigger x[a]} :: 0 <= a < |x| ==> |y| * a + |y| <= |e| && RowSum(e, |y|, a, |y|) == x[a]
  }

  ghost predicate ColsAgree(e: seq<int>, x: seq<int>, y: seq<int>)
    requires |e| == |x| * |y|
  {
    forall b {:trigger y[b]} :: 0 <= b < |y| ==> ColSum(e, |y|, b, |x|) == y[b]
  }

  /** The constraints that tie the edge vector `e` to the node vectors `x` and `y`. */
  ghost predicate Linearizes(e: seq<int>, x: seq<int>, y: seq<int>) {
    |e| == |x| * |y| && OneHot(e) && RowsAgree(e, x, y) && ColsAgree(e, x, y)
  }

  lemma {:induction false} RowSumBounds(e: seq<int>, width: nat, row: nat, k: nat)
    requires Binary(e) && k <= width && width * row + k <= |e|
    ensures RowSum(e, width, row, k) >= 0
    ensures RowSum(e, width, row, k) == 0 ==> forall b :: 0 <= b < k ==> At(e, width, row, b) == 0
  {
    if k == 0 {
    } else {
      RowSumBounds(e, width, row, k - 1);
    }
  }

  lemma {:induction false} ColSumBounds(e: seq<int>, width: nat, col: nat, k: nat, a: nat)
    requires Binary(e) && col < width && width * k <= |e| && a < k
    ensures width * a + col < |e|
    ensures ColSum(e, width, col, k) >= 0
    ensures ColSum(e, width, col, k) == 0 ==> e[width * a + col] == 0
    decreases k
  {
    FlatIndex(k, width, a, col);
    MulStep(k - 1, width);
    MulStep(k, width);
    ColSumStep(e, width, col, k);
    if k == 1 {
      assert ColSum(e, width, col, 0) == 0;
    } else if a < k - 1 {
      ColSumBounds(e, width, col, k - 1, a);
    } else {
      ColSumBounds(e, width, col, k - 1, 0);
    }
  }

  lemma {:induction false} RowSumSingle(e: seq<int>, width: nat, row: nat, k: nat, h: nat)
    requires k <= width && width * row + k <= |e|
    requires forall b :: 0 <= b < k && b != h ==> At(e, width, row, b) == 0
    ensures RowSum(e, width, row, k) == if h < k then At(e, width, row, h) else 0
  {
    if k == 0 {
    } else {
      RowSumSingle(e, width, row, k - 1, h);
    }
  }

  /** Off the hot row or the hot column the edge vector is zero. */
  lemma OffHotIsZero(e: seq<int>, x: seq<int>, y: seq<int>, a: nat, b: nat)
    requires Linearizes(e, x, y) && a < |x| && b < |y| && (x[a] == 0 || y[b] == 0)
    ensures |y| * a + b < |e| && e[|y| * a + b] == 0
  {
    FlatIndex(|x|, |y|, a, b);
    if x[a] == 0 {
      RowSumBounds(e, |y|, a, |y|);
      assert At(e, |y|, a, b) == 0;
    } else {
      ColSumBounds(e, |y|, b, |x|, a);
    }
  }

  /** The linearisation is exact: an edge entry is the product of its two node entries. */
  lemma EntryIsProduct(e: seq<int>, x: seq<int>, y: seq<int>, a: nat, b: nat)
    requires OneHot(x) && OneHot(y) && Linearizes(e, x, y) && a < |x| && b < |y|
    ensures |y| * a + b < |e| && e[|y| * a + b] == x[a] * y[b]
  {
    FlatIndex(|x|, |y|, a, b);
    if x[a] == 0 || y[b] == 0 {
      OffHotIsZero(e, x, y, a, b);
    } else {
      var h := OneHotHasIndex(y);
      forall c | 0 <= c < |y| && c != b ensures At(e, |y|, a, c) == 0 {
        OffHotIsZero(e, x, y, a, c);
      }
      RowSumSingle(e, |y|, a, |y|, b);
    }
  }

  /** The edge vector is hot exactly where both node vectors are. */
  lemma EdgeIsHot(e: seq<int>, x: seq<int>, y: seq<int>, a: nat, b: nat)
    requires OneHot(x) && OneHot(y) && Linearizes(e, x, y) && HotAt(x, a) && HotAt(y, b)
    ensures |y| * a + b < |e| && HotAt(e, |y| * a + b)
  {
    EntryIsProduct(e, x, y, a, b);
    var h := OneHotHasIndex(e);
  }

  // The product of two hot vectors satisfies the constraints.

  function Scaled(c: int, y: seq<int>): (r: seq<int>)
    ensures |r| == |y| && forall b :: 0 <= b < |y| ==> r[b] == c * y[b]
  {
    seq(|y|, b requires 0 <= b < |y| => c * y[b])
  }

  function Product(x: seq<int>, y: seq<int>): (e: seq<int>)
    ensures |e| == |x| * |y|
  {
    if x == [] then []
    else
      MulStep(|x| - 1, |y|);
      Product(x[..|x| - 1], y) + Scaled(x[|x| - 1], y)
  }

  lemma {:induction false} ProductAt(x: seq<int>, y: seq<int>, a: nat, b: nat)
    requires a < |x| && b < |y|
    ensures |y| * a + b < |x| * |y| && Product(x, y)[|y| * a + b] == x[a] * y[b]
  {
    FlatIndex(|x|, |y|, a, b);
    var n := |x| - 1;
    var first := Product(x[..n], y);
    MulStep(n, |y|);
    assert |first| == n * |y| && Product(x, y) == first + Scaled(x[n], y);
    if a == n {
    } else {
      ProductAt(x[..n], y, a, b);
    }
  }

  lemma {:induction false} ProductRow(x: seq<int>, y: seq<int>, a: nat, h: nat, k: nat)
    requires a < |x| && HotAt(y, h) && k <= |y|
    ensures |y| * a + |y| <= |x| * |y|
    ensures RowSum(Product(x, y), |y|, a, k) == if h < k then x[a] else 0
  {
    FlatIndex(|x|, |y|, a, 0);
    if k == 0 {
    } else {
      ProductRow(x, y, a, h, k - 1);
      ProductAt(x, y, a, k - 1);
    }
  }

  lemma ScaleByBit(c: int, d: int)
    ensures c == 0 ==> c * d == 0
    ensures c == 1 ==> c * d == d
  {
  }

  lemma {:induction false} ProductCol(x: seq<int>, y: seq<int>, b: nat, h: nat, k: nat)
    requires b < |y| && HotAt(x, h) && k <= |x| && |y| * k <= |Product(x, y)|
    ensures ColSum(Product(x, y), |y|, b, k) == if h < k then y[b] else 0
  {
    if k == 0 {
    } else {
      ColSumStep(Product(x, y), |y|, b, k);
      ProductCol(x, y, b, h, k - 1);
      ProductAt(x, y, k - 1, b);
      ScaleByBit(x[k - 1], y[b]);
    }
  }

  lemma ColSumStep(e: seq<int>, width: nat, col: nat, k: nat)
    requires col < width && 1 <= k && width * k <= |e|
    ensures width * (k - 1) <= |e| && width * (k - 1) + col < |e|
    ensures ColSum(e, width, col, k) == ColSum(e, width, col, k - 1) + e[width * (k - 1) + col]
  {
    MulStep(k - 1, width);
  }

  lemma {:induction false} ProductOfZeros(x: seq<int>, y: seq<int>)
    requires forall i :: 0 <= i < |x| ==> x[i] == 0
    ensures forall i :: 0 <= i < |x| * |y| ==> Product(x, y)[i] == 0
  {
    if x == [] {
    } else {
      MulStep(|x| - 1, |y|);
      ProductOfZeros(x[..|x| - 1], y);
    }
  }

  lemma {:induction false} ProductIsHot(x: seq<int>, y: seq<int>, a: nat, b: nat)
    requires HotAt(x, a) && HotAt(y, b)
    ensures |y| * a + b < |x| * |y| && HotAt(Product(x, y), |y| * a + b)
  {
    FlatIndex(|x|, |y|, a, b);
    var n := |x| - 1;
    var rest := x[..n];
    MulStep(n, |y|);
    assert Product(x, y) == Product(rest, y) + Scaled(x[n], y);
    if a == n {
      ProductOfZeros(rest, y);
    } else {
      ProductIsHot(rest, y, a, b);
    }
  }

  lemma ProductLinearizes(x: seq<int>, y: seq<int>, a: nat, b: nat)
    requires HotAt(x, a) && HotAt(y, b)
    ensures Linearizes(Product(x, y), x, y)
  {
    ProductIsHot(x, y, a, b);
    HotIsOneHot(Product(x, y), |y| * a + b);
    forall i | 0 <= i < |x| ensures |y| * i + |y| <= |x| * |y| && RowSum(Product(x, y), |y|, i, |y|) == x[i] {
      ProductRow(x, y, i, b, |y|);
    }
    MulStep(|x|, |y|);
    forall j | 0 <= j < |y| ensures ColSum(Product(x, y), |y|, j, |x|) == y[j] {
      ProductCol(x, y, j, a, |x|);
    }
  }

  // ---------------------------------------------------------------------
  // Linear objectives.

  function Dot(x: seq<int>, k: seq<real>): real
    requires |x| == |k|
  {
    if x == [] then 0.0 else Dot(x[..|x| - 1], k[..|k| - 1]) + x[|x| - 1] as real * k[|k| - 1]
  }

  lemma {:induction false} DotZero(x: seq<int>, k: seq<real>)
    requires |x| == |k| && forall i :: 0 <= i < |x| ==> x[i] == 0
    ensures Dot(x, k) == 0.0
  {
    if x == [] {
    } else {
      DotZero(x[..|x| - 1], k[..|k| - 1]);
    }
  }

  lemma {:induction false} DotHot(x: seq<int>, k: seq<real>, h: nat)
    requires |x| == |k| && HotAt(x, h)
    ensures Dot(x, k) == k[h]
  {
    var n := |x| - 1;
    if h == n {
      DotZero(x[..n], k[..n]);
    } else {
      DotHot(x[..n], k[..n], h);
    }
  }

  function Prices(row: CostRow): (k: seq<real>)
    ensures |k| == |row|
  {
    seq(|row|, i requires 0 <= i < |row| => row[i].cost)
  }

  function EgressRow(egress: Egress, u: Task, r: Resources, v: Task, rowV: CostRow): (f: seq<real>)
    ensures |f| == |rowV| && forall b :: 0 <= b < |rowV| ==> f[b] == egress(u, r, v, rowV[b].resources)
  {
    seq(|rowV|, b requires 0 <= b < |rowV| => egress(u, r, v, rowV[b].resources))
  }

  /** Egress for every pair of offers, the second index running fastest. */
  function FlatEgress(egress: Egress, u: Task, rowU: CostRow, v: Task, rowV: CostRow): (f: seq<real>)
    ensures |f| == |rowU| * |rowV|
  {
    if rowU == [] then []
    else
      var n := |rowU| - 1;
      MulStep(n, |rowV|);
      FlatEgress(egress, u, rowU[..n], v, rowV) + EgressRow(egress, u, rowU[n].resources, v, rowV)
  }

  lemma {:induction false} FlatEgressAt(egress: Egress, u: Task, rowU: CostRow, v: Task, rowV: CostRow, a: nat, b: nat)
    requires a < |rowU| && b < |rowV|
    ensures |rowV| * a + b < |rowU| * |rowV|
    ensures FlatEgress(egress, u, rowU, v, rowV)[|rowV| * a + b] == egress(u, rowU[a].resources, v, rowV[b].resources)
  {
    FlatIndex(|rowU|, |rowV|, a, b);
    var n := |rowU| - 1;
    MulStep(n, |rowV|);
    assert |FlatEgress(egress, u, rowU[..n], v, rowV)| == n * |rowV|;
    if a == n {
    } else {
      FlatEgressAt(egress, u, rowU[..n], v, rowV, a, b);
    }
  }

  /** The nested loops that prepare the egress constants of one edge. */
  method PrepareEgress(egress: Egress, u: Task, rowU: CostRow, v: Task, rowV: CostRow) returns (f: seq<real>)
    ensures f == FlatEgress(egress, u, rowU, v, rowV)
  {
    f := [];
    for a := 0 to |rowU|
      invariant f == FlatEgress(egress, u, rowU[..a], v, rowV)
    {
      var start := f;
      for b := 0 to |rowV|
        invariant f == start + EgressRow(egress, u, rowU[a].resources, v, rowV)[..b]
      {
        f := f + [egress(u, rowU[a].resources, v, rowV[b].resources)];
      }
      assert rowU[..a + 1][..a] == rowU[..a];
      assert f == FlatEgress(egress, u, rowU[..a + 1], v, rowV);
    }
    assert rowU[..|rowU|] == rowU;
  }

  // ---------------------------------------------------------------------
  // Feasible points and plans.

  /** The values of the binary decision variables. */
  datatype Point = Point(c: map<Task, seq<int>>, e: map<Edge, seq<int>>)

  ghost predicate NodeFeasible(inst: Instance, pt: Point, v: Task)
    requires v in inst.costs
  {
    v in pt.c && |pt.c[v]| == |inst.costs[v]| && OneHot(pt.c[v])
  }

  ghost predicate EdgeFeasible(pt: Point, e: Edge) {
    e.0 in pt.c && e.1 in pt.c && e in pt.e && Linearizes(pt.e[e], pt.c[e.0], pt.c[e.1])
  }

  ghost predicate Feasible(inst: Instance, pt: Point)
    requires Valid(inst)
  {
    && (forall v :: v in inst.graph.nodes ==> NodeFeasible(inst, pt, v))
    && (forall e :: e in inst.graph.edges ==> EdgeFeasible(pt, e))
  }

  /** The first position of a one, which is how the chosen resource is read off. */
  method SelectedIndex(x: seq<int>) returns (h: nat)
    requires OneHot(x)
    ensures HotAt(x, h)
  {
    ghost var hot := OneHotHasIndex(x);
    h := 0;
    while x[h] != 1
      invariant h <= hot
      decreases hot - h
    {
      h := h + 1;
    }
  }

  ghost function Hot(x: seq<int>): (h: nat)
    requires OneHot(x)
    ensures HotAt(x, h)
  {
    assert exists h: nat :: HotAt(x, h) by {
      var h := OneHotHasIndex(x);
    }
    var h: nat :| HotAt(x, h);
    h
  }

  ghost function Decode(inst: Instance, pt: Point): (p: Plan)
    requires Valid(inst) && Feasible(inst, pt)
    ensures IsPlan(inst, p)
  {
    map v | v in inst.graph.nodes :: Chosen(inst, pt, v)
  }

  method ReadChoice(inst: Instance, pt: Point, v: Task) returns (r: Resources)
    requires Valid(inst) && v in inst.graph.nodes && NodeFeasible(inst, pt, v)
    ensures r == Chosen(inst, pt, v)
  {
    var h := SelectedIndex(pt.c[v]);
    assert pt.c[v][Hot(pt.c[v])] == 1;
    r := inst.costs[v][h].resources;
  }

  ghost function Chosen(inst: Instance, pt: Point, v: Task): (r: Resources)
    requires Valid(inst) && v in inst.graph.nodes && NodeFeasible(inst, pt, v)
    ensures Offers(inst.costs[v], r)
  {
    inst.costs[v][Hot(pt.c[v])].resources
  }

  /** The tasks in `vs` are read, each as the solved variables choose. */
  ghost predicate ReadSoFar(inst: Instance, pt: Point, vs: seq<Task>, plan: Plan)
    requires Valid(inst) && Feasible(inst, pt) && Elements(vs) <= inst.graph.nodes
  {
    plan.Keys == Elements(vs) && forall v :: v in plan ==> plan[v] == Chosen(inst, pt, v)
  }

  lemma ReadOneMore(inst: Instance, pt: Point, vs: seq<Task>, plan: Plan, v: Task)
    requires Valid(inst) && Feasible(inst, pt) && Elements(vs) <= inst.graph.nodes && v in inst.graph.nodes
    requires ReadSoFar(inst, pt, vs, plan)
    ensures Elements(vs + [v]) <= inst.graph.nodes
    ensures ReadSoFar(inst, pt, vs + [v], plan[v := Chosen(inst, pt, v)])
  {
    ElementsPush(vs, v);
  }

  lemma ReadAll(inst: Instance, pt: Point, plan: Plan)
    requires Valid(inst) && Feasible(inst, pt)
    requires ReadSoFar(inst, pt, inst.order, plan)
    ensures plan == Decode(inst, pt)
  {
    assert plan.Keys == Decode(inst, pt).Keys;
  }

  /** The loop that reads the plan off the solved variables. */
  method ReadPlan(inst: Instance, pt: Point) returns (plan: Plan)
    requires Valid(inst) && Feasible(inst, pt)
    ensures plan == Decode(inst, pt)
  {
    plan := map[];
    for i := 0 to |inst.order|
      invariant Elements(inst.order[..i]) <= inst.graph.nodes
      invariant ReadSoFar(inst, pt, inst.order[..i], plan)
    {
      var v := inst.order[i];
      assert v in inst.graph.nodes && NodeFeasible(inst, pt, v);
      var r := ReadChoice(inst, pt, v);
      ReadOneMore(inst, pt, inst.order[..i], plan, v);
      plan := plan[v := r];
      assert inst.order[..i + 1] == inst.order[..i] + [v];
    }
    assert inst.order[..|inst.order|] == inst.order;
    ReadAll(inst, pt, plan);
  }

  ghost function NodeTerm(inst: Instance, pt: Point, v: Task): real
    requires v in inst.costs && NodeFeasible(inst, pt, v)
  {
    Dot(pt.c[v], Prices(inst.costs[v]))
  }

  ghost function EdgeTerm(inst: Instance, pt: Point, e: Edge): real
    requires e.0 in inst.costs && e.1 in inst.costs
    requires NodeFeasible(inst, pt, e.0) && NodeFeasible(inst, pt, e.1) && EdgeFeasible(pt, e)
  {
    Dot(pt.e[e], FlatEgress(inst.egress, e.0, inst.costs[e.0], e.1, inst.costs[e.1]))
  }

  lemma NodeTermIsCost(inst: Instance, pt: Point, v: Task)
    requires Valid(inst) && Feasible(inst, pt) && v in inst.graph.nodes
    ensures NodeFeasible(inst, pt, v) && NodeTerm(inst, pt, v) == NodeCost(inst, Decode(inst, pt), v)
  {
    assert NodeFeasible(inst, pt, v);
    var h := Hot(pt.c[v]);
    DotHot(pt.c[v], Prices(inst.costs[v]), h);
    CostAt(inst.costs[v], h);
  }

  lemma EdgeTermIsCost(inst: Instance, pt: Point, e: Edge)
    requires Valid(inst) && Feasible(inst, pt) && e in inst.graph.edges
    ensures e.0 in inst.graph.nodes && e.1 in inst.graph.nodes
    ensures NodeFeasible(inst, pt, e.0) && NodeFeasible(inst, pt, e.1) && EdgeFeasible(pt, e)
    ensures EdgeTerm(inst, pt, e) == EdgeCost(inst, Decode(inst, pt), e)
  {
    assert (e.0, e.1) == e;
    var u, v := e.0, e.1;
    assert NodeFeasible(inst, pt, u) && NodeFeasible(inst, pt, v) && EdgeFeasible(pt, e);
    HotEdgeTerm(inst, pt, e, Hot(pt.c[u]), Hot(pt.c[v]));
  }

  lemma HotEdgeTerm(inst: Instance, pt: Point, e: Edge, a: nat, b: nat)
    requires e.0 in inst.costs && e.1 in inst.costs
    requires NodeFeasible(inst, pt, e.0) && NodeFeasible(inst, pt, e.1) && EdgeFeasible(pt, e)
    requires HotAt(pt.c[e.0], a) && HotAt(pt.c[e.1], b)
    ensures EdgeTerm(inst, pt, e)
         == inst.egress(e.0, inst.costs[e.0][a].resources, e.1, inst.costs[e.1][b].resources)
  {
    var u, v := e.0, e.1;
    var rowU, rowV := inst.costs[u], inst.costs[v];
    EdgeIsHot(pt.e[e], pt.c[u], pt.c[v], a, b);
    FlatEgressAt(inst.egress, u, rowU, v, rowV, a, b);
    DotHot(pt.e[e], FlatEgress(inst.egress, u, rowU, v, rowV), |rowV| * a + b);
  }

  // ---------------------------------------------------------------------
  // The cost objective.

  ghost function NodeTerms(inst: Instance, pt: Point, vs: seq<Task>): real
    requires Valid(inst) && Feasible(inst, pt) && (forall v :: v in vs ==> v in inst.graph.nodes)
  {
    if vs == [] then 0.0
    else NodeTerms(inst, pt, vs[..|vs| - 1]) + NodeTerm(inst, pt, vs[|vs| - 1])
  }

  ghost function EdgeTerms(inst: Instance, pt: Point, es: seq<Edge>): real
    requires Valid(inst) && Feasible(inst, pt) && (forall e :: e in es ==> e in inst.graph.edges)
  {
    if es == [] then 0.0
    else
      EdgeTermIsCost(inst, pt, es[|es| - 1]);
      EdgeTerms(inst, pt, es[..|es| - 1]) + EdgeTerm(inst, pt, es[|es| - 1])
  }

  ghost function CostObjective(inst: Instance, pt: Point): real
    requires Valid(inst) && Feasible(inst, pt)
  {
    NodeTerms(inst, pt, inst.order) + EdgeTerms(inst, pt, inst.edges)
  }

  /** The value of the cost objective at the solved point. */
  method EvaluateCost(inst: Instance, pt: Point) returns (value: real)
    requires Valid(inst) && Feasible(inst, pt)
    ensures value == CostObjective(inst, pt)
  {
    var nodes := EvaluateNodes(inst, pt);
    var edges := EvaluateEdges(inst, pt);
    value := nodes + edges;
  }

  method EvaluateNodes(inst: Instance, pt: Point) returns (value: real)
    requires Valid(inst) && Feasible(inst, pt)
    ensures value == NodeTerms(inst, pt, inst.order)
  {
    value := 0.0;
    for i := 0 to |inst.order|
      invariant forall v :: v in inst.order[..i] ==> v in inst.graph.nodes
      invariant value == NodeTerms(inst, pt, inst.order[..i])
    {
      var v := inst.order[i];
      assert v in inst.graph.nodes && NodeFeasible(inst, pt, v);
      value := value + Dot(pt.c[v], Prices(inst.costs[v]));
      assert inst.order[..i + 1][..i] == inst.order[..i];
    }
    assert inst.order[..|inst.order|] == inst.order;
  }

  method EvaluateEdges(inst: Instance, pt: Point) returns (value: real)
    requires Valid(inst) && Feasible(inst, pt)
    ensures value == EdgeTerms(inst, pt, inst.edges)
  {
    value := 0.0;
    for i := 0 to |inst.edges|
      invariant forall e :: e in inst.edges[..i] ==> e in inst.graph.edges
      invariant value == EdgeTerms(inst, pt, inst.edges[..i])
    {
      var e := inst.edges[i];
      assert e in Elements(inst.edges);
      EdgeTermIsCost(inst, pt, e);
      var f := PrepareEgress(inst.egress, e.0, inst.costs[e.0], e.1, inst.costs[e.1]);
      value := value + Dot(pt.e[e], f);
      assert inst.edges[..i + 1][..i] == inst.edges[..i];
    }
    assert inst.edges[..|inst.edges|] == inst.edges;
  }

  lemma {:induction false} NodeTermsAreTotal(inst: Instance, pt: Point, vs: seq<Task>)
    requires Valid(inst) && Feasible(inst, pt) && (forall v :: v in vs ==> v in inst.graph.nodes)
    ensures NodeTerms(inst, pt, vs) == Total(NodeCosts(inst, Decode(inst, pt)), vs)
  {
    if vs == [] {
    } else {
      NodeTermsAreTotal(inst, pt, vs[..|vs| - 1]);
      NodeTermIsCost(inst, pt, vs[|vs| - 1]);
    }
  }

  lemma {:induction false} EdgeTermsAreTotal(inst: Instance, pt: Point, es: seq<Edge>)
    requires Valid(inst) && Feasible(inst, pt) && (forall e :: e in es ==> e in inst.graph.edges)
    ensures EdgeTerms(inst, pt, es) == Total(EdgeCosts(inst, Decode(inst, pt)), es)
  {
    if es == [] {
    } else {
      EdgeTermsAreTotal(inst, pt, es[..|es| - 1]);
      EdgeTermIsCost(inst, pt, es[|es| - 1]);
    }
  }

  /** At every feasible point the linear objective is the true cost of the plan it encodes. */
  lemma CostObjectiveIsPlanCost(inst: Instance, pt: Point)
    requires Valid(inst) && Feasible(inst, pt)
    ensures CostObjective(inst, pt) == TotalCost(inst, Decode(inst, pt))
  {
    NodeTermsAreTotal(inst, pt, inst.order);
    EdgeTermsAreTotal(inst, pt, inst.edges);
  }

  // ---------------------------------------------------------------------
  // Every plan is a feasible point.

  function Unit(n: nat, h: nat): (x: seq<int>)
    ensures |x| == n
  {
    seq(n, i => if i == h then 1 else 0)
  }

  ghost function Vector(inst: Instance, p: Plan, v: Task): (x: seq<int>)
    requires v in inst.costs && v in p && Offers(inst.costs[v], p[v])
    ensures |x| == |inst.costs[v]| && HotAt(x, OfferIndex(inst.costs[v], p[v]))
  {
    Unit(|inst.costs[v]|, OfferIndex(inst.costs[v], p[v]))
  }

  ghost function EdgeVector(inst: Instance, p: Plan, e: Edge): seq<int>
    requires Valid(inst) && IsPlan(inst, p)
  {
    if e.0 in p && e.1 in p then Product(Vector(inst, p, e.0), Vector(inst, p, e.1)) else []
  }

  ghost function Encode(inst: Instance, p: Plan): Point
    requires Valid(inst) && IsPlan(inst, p)
  {
    Point(map v | v in inst.graph.nodes :: Vector(inst, p, v),
          map e | e in inst.graph.edges :: EdgeVector(inst, p, e))
  }

  lemma EncodeNode(inst: Instance, p: Plan, v: Task)
    requires Valid(inst) && IsPlan(inst, p) && v in inst.graph.nodes
    ensures NodeFeasible(inst, Encode(inst, p), v) && Chosen(inst, Encode(inst, p), v) == p[v]
  {
    var x, h := Encode(inst, p).c[v], OfferIndex(inst.costs[v], p[v]);
    assert x == Vector(inst, p, v);
    HotIsOneHot(x, h);
    assert x[Hot(x)] == 1;
  }

  lemma EncodeEdge(inst: Instance, p: Plan, e: Edge)
    requires Valid(inst) && IsPlan(inst, p) && e in inst.graph.edges
    ensures EdgeFeasible(Encode(inst, p), e)
  {
    assert (e.0, e.1) == e;
    var c := Encode(inst, p).c;
    ProductLinearizes(c[e.0], c[e.1], OfferIndex(inst.costs[e.0], p[e.0]), OfferIndex(inst.costs[e.1], p[e.1]));
  }

  lemma EncodeFeasible(inst: Instance, p: Plan)
    requires Valid(inst) && IsPlan(inst, p)
    ensures Feasible(inst, Encode(inst, p))
  {
    forall v | v in inst.graph.nodes ensures NodeFeasible(inst, Encode(inst, p), v) {
      EncodeNode(inst, p, v);
    }
    forall e | e in inst.graph.edges ensures EdgeFeasible(Encode(inst, p), e) {
      EncodeEdge(inst, p, e);
    }
  }

  /** Encoding a plan gives a feasible point, and decoding it gives the plan back. */
  lemma EncodeRoundTrip(inst: Instance, p: Plan)
    requires Valid(inst) && IsPlan(inst, p)
    ensures Feasible(inst, Encode(inst, p)) && Decode(inst, Encode(inst, p)) == p
  {
    EncodeFeasible(inst, p);
    forall v | v in inst.graph.nodes ensures Decode(inst, Encode(inst, p))[v] == p[v] {
      EncodeNode(inst, p, v);
    }
  }

  // ---------------------------------------------------------------------
  // The time objective.

  ghost predicate EdgeTimed(inst: Instance, pt: Point, finish: map<Task, real>, e: Edge) {
    && e.0 in inst.costs && e.1 in inst.costs && e.0 in finish && e.1 in finish
    && NodeFeasible(inst, pt, e.0) && NodeFeasible(inst, pt, e.1) && EdgeFeasible(pt, e)
    && finish[e.1] >= NodeTerm(inst, pt, e.1) + finish[e.0] + EdgeTerm(inst, pt, e)
  }

  /** The extra variables and constraints of the time target. */
  ghost predicate TimeFeasible(inst: Instance, pt: Point, finish: map<Task, real>)
    requires Valid(inst)
  {
    && Feasible(inst, pt)
    && (forall v :: v in inst.graph.nodes ==> v in finish && finish[v] >= 0.0)
    && (forall e :: e in inst.graph.edges ==> EdgeTimed(inst, pt, finish, e))
  }

  lemma TimeConstraintsMatch(inst: Instance, pt: Point, finish: map<Task, real>)
    requires Valid(inst) && Feasible(inst, pt)
    ensures TimeFeasible(inst, pt, finish) <==> TimesFeasible(inst, Decode(inst, pt), finish)
  {
    var p := Decode(inst, pt);
    forall u, v | (u, v) in inst.graph.edges
      ensures EdgeTimed(inst, pt, finish, (u, v)) <==> EdgeOnTime(inst, p, finish, u, v)
    {
      EdgeTermIsCost(inst, pt, (u, v));
      NodeTermIsCost(inst, pt, v);
    }
    forall e | e in inst.graph.edges ensures e == (e.0, e.1) {
    }
  }

  // ---------------------------------------------------------------------
  // What an optimal point means.

  ghost predicate CostOptimal(inst: Instance, pt: Point)
    requires Valid(inst)
  {
    Feasible(inst, pt) && forall q :: Feasible(inst, q) ==> CostObjective(inst, pt) <= CostObjective(inst, q)
  }

  ghost predicate TimeOptimal(inst: Instance, pt: Point, finish: map<Task, real>)
    requires Valid(inst)
  {
    var sink := inst.order[|inst.order| - 1];
    && TimeFeasible(inst, pt, finish) && sink in finish
    && forall q, other :: TimeFeasible(inst, q, other) && sink in other ==> finish[sink] <= other[sink]
  }

  /** The minimum of the integer program is the minimum cost over all plans, attained by the decoded one. */
  lemma CostOptimalIsLeastPlan(inst: Instance, pt: Point)
    requires Valid(inst) && CostOptimal(inst, pt)
    ensures IsPlan(inst, Decode(inst, pt)) && CostObjective(inst, pt) == TotalCost(inst, Decode(inst, pt))
    ensures forall p :: IsPlan(inst, p) ==> CostObjective(inst, pt) <= TotalCost(inst, p)
  {
    CostObjectiveIsPlanCost(inst, pt);
    forall p | IsPlan(inst, p) ensures CostObjective(inst, pt) <= TotalCost(inst, p) {
      EncodeRoundTrip(inst, p);
      CostObjectiveIsPlanCost(inst, Encode(inst, p));
    }
  }

  /** The finish times of a plan solve the time constraints at the point that encodes it. */
  lemma FinishTimesSolve(inst: Instance, p: Plan)
    requires Valid(inst) && NonNegative(inst) && IsPlan(inst, p)
    ensures TimeFeasible(inst, Encode(inst, p), FinishMap(inst, p))
  {
    EncodeRoundTrip(inst, p);
    FinishIsFeasible(inst, p);
    TimeConstraintsMatch(inst, Encode(inst, p), FinishMap(inst, p));
  }

  lemma SinkTimeBound(inst: Instance, pt: Point, finish: map<Task, real>, p: Plan)
    requires Valid(inst) && NonNegative(inst) && TimeOptimal(inst, pt, finish) && IsPlan(inst, p)
    ensures finish[inst.order[|inst.order| - 1]] <= Finish(inst, p, |inst.order| - 1)
  {
    var n := |inst.order| - 1;
    FinishTimesSolve(inst, p);
    FinishMapAt(inst, p, n);
    assert finish[inst.order[n]] <= FinishMap(inst, p)[inst.order[n]];
  }

  /** The minimum of the time program is the least finish time over all plans, attained by the decoded one. */
  lemma TimeOptimalIsLeastPlan(inst: Instance, pt: Point, finish: map<Task, real>)
    requires Valid(inst) && NonNegative(inst) && Rooted(inst) && TimeOptimal(inst, pt, finish)
    ensures IsPlan(inst, Decode(inst, pt))
    ensures finish[inst.order[|inst.order| - 1]] == Finish(inst, Decode(inst, pt), |inst.order| - 1)
    ensures forall p :: IsPlan(inst, p) ==> finish[inst.order[|inst.order| - 1]] <= Finish(inst, p, |inst.order| - 1)
  {
    var p := Decode(inst, pt);
    TimeConstraintsMatch(inst, pt, finish);
    FinishIsLeast(inst, p, finish, |inst.order| - 1);
    forall q | IsPlan(inst, q) ensures finish[inst.order[|inst.order| - 1]] <= Finish(inst, q, |inst.order| - 1) {
      SinkTimeBound(inst, pt, finish, q);
    }
  }

  // ---------------------------------------------------------------------
  // Both algorithms agree on chains.

  /** On a chain the two algorithms return the same cost, and so the same best plans. */
  lemma AlgorithmsAgreeOnCost(inst: Instance, pt: Point, plan: Plan)
    requires Valid(inst) && inst.graph.IsChain() && CostOptimal(inst, pt) && IsPlan(inst, plan)
    requires forall p :: IsPlan(inst, p) ==>
      ChainValue(inst, plan, |inst.order| - 1) <= ChainValue(inst, p, |inst.order| - 1)
    ensures ChainValue(inst, plan, |inst.order| - 1) == CostObjective(inst, pt)
  {
    CostOptimalIsLeastPlan(inst, pt);
    ChainValueIsTotal(inst, plan);
    ChainValueIsTotal(inst, Decode(inst, pt));
  }

  lemma AlgorithmsAgreeOnTime(inst: Instance, pt: Point, finish: map<Task, real>, plan: Plan)
    requires Valid(inst) && inst.graph.IsChain() && NonNegative(inst) && TimeOptimal(inst, pt, finish)
    requires IsPlan(inst, plan)
    requires forall p :: IsPlan(inst, p) ==>
      ChainValue(inst, plan, |inst.order| - 1) <= ChainValue(inst, p, |inst.order| - 1)
    ensures ChainValue(inst, plan, |inst.order| - 1) == finish[inst.order[|inst.order| - 1]]
  {
    ChainIsRooted(inst);
    TimeOptimalIsLeastPlan(inst, pt, finish);
    ChainFinish(inst, plan);
    ChainFinish(inst, Decode(inst, pt));
  }
}
