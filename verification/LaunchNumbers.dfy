/**
 * Attempt numbers over whole runs (sky/global_user_state.py). A number is one more than the largest among
 * the live rows of the cluster, so what retention deletes decides whether numbers keep growing.
 */
module LaunchNumbers {
  import opened Prelude
  import opened LaunchAttempts
  import opened LaunchRuns

  /** The attempt, live or deleted, was opened for this cluster. */
  ghost predicate Belongs(s: State, id: AttemptId, cluster: string) {
    id in s.created && RowOf(s, id).Some? && RowOf(s, id).value.cluster == cluster
  }

  /** The number of an attempt, live or deleted. */
  ghost function NumberOf(s: State, id: AttemptId): nat
    requires RowOf(s, id).Some?
  {
    RowOf(s, id).value.seqNo
  }

  /** In creation order the numbers of all attempts the cluster ever had increase. */
  ghost predicate NumbersIncrease(s: State, cluster: string) {
    forall i, j :: 0 <= i < j < |s.created| && Belongs(s, s.created[i], cluster) && Belongs(s, s.created[j], cluster)
      ==> NumberOf(s, s.created[i]) < NumberOf(s, s.created[j])
  }

  /** The live row of the cluster with the largest number. */
  ghost predicate IsTop(t: Table, cluster: string, id: AttemptId) {
    id in OfCluster(t, cluster) && forall other :: other in OfCluster(t, cluster) ==> t[other].seqNo <= t[id].seqNo
  }

  /** Retention deletes the cluster's highest-numbered live row. */
  ghost predicate DropsTop(s: State, step: Step, cluster: string) {
    step.RetainStep? &&
    exists id :: IsTop(s.rows, cluster, id) && IsExpired(s.rows[id], Cutoff(step), HardCutoff(step))
  }

  /** The step opens a new attempt of the cluster. */
  predicate Allocates(s: State, step: Step, cluster: string) {
    Inserts(s, step) && step.cluster == cluster
  }

  /** No attempt the cluster ever had outranks all its live rows. */
  ghost predicate TopIsLive(s: State, cluster: string) {
    forall id :: Belongs(s, id, cluster) ==>
      exists live :: live in OfCluster(s.rows, cluster) && NumberOf(s, id) <= s.rows[live].seqNo
  }

  lemma {:induction false} SomeTop(t: Table, cluster: string, ids: set<AttemptId>) returns (top: AttemptId)
    requires ids <= OfCluster(t, cluster) && ids != {}
    ensures top in ids && forall other :: other in ids ==> t[other].seqNo <= t[top].seqNo
    decreases |ids|
  {
    var x :| x in ids;
    if ids == {x} {
      top := x;
    } else {
      assert ids - {x} != {};
      top := SomeTop(t, cluster, ids - {x});
      if t[top].seqNo < t[x].seqNo {
        top := x;
      }
    }
  }

  /** Only an allocation for the cluster adds to what belongs to it; all else keeps its number. */
  lemma BelongsStep(s: State, step: Step, cluster: string, id: AttemptId)
    requires IdsAccounted(s) && Enabled(s, step)
    ensures Belongs(s, id, cluster) ==>
      Belongs(Apply(s, step), id, cluster) && NumberOf(Apply(s, step), id) == NumberOf(s, id)
    ensures Belongs(Apply(s, step), id, cluster) && !Belongs(s, id, cluster) ==>
      Allocates(s, step, cluster) && id == step.newId && NumberOf(Apply(s, step), id) == step.n
  {
    if id in s.created {
      KeepsNumber(s, step, id);
    }
  }

  /** Positions of the creation log do not move. */
  lemma CreatedStep(s: State, step: Step)
    requires Enabled(s, step)
    ensures Apply(s, step).created == if Inserts(s, step) then s.created + [step.newId] else s.created
  {
  }

  // ---------------------------------------------------------------------
  // While the top row is kept.

  lemma TopStaysLive(s: State, step: Step, cluster: string)
    requires Inv(s) && Enabled(s, step) && TopIsLive(s, cluster) && !DropsTop(s, step, cluster)
    ensures TopIsLive(Apply(s, step), cluster)
  {
    var s' := Apply(s, step);
    forall id | Belongs(s', id, cluster)
      ensures exists live :: live in OfCluster(s'.rows, cluster) && NumberOf(s', id) <= s'.rows[live].seqNo
    {
      BelongsStep(s, step, cluster, id);
      if Allocates(s, step, cluster) {
        AllocationIsTop(s, step, cluster, id);
      } else {
        var live :| live in OfCluster(s.rows, cluster) && NumberOf(s, id) <= s.rows[live].seqNo;
        var top := SomeTop(s.rows, cluster, OfCluster(s.rows, cluster));
        assert IsTop(s.rows, cluster, top);
        StepExtendsRows(s, step, top);
        assert top in OfCluster(s'.rows, cluster);
      }
    }
  }

  /** A new attempt outranks everything the cluster ever had, as long as no deleted row outranks the live ones. */
  lemma AllocationIsTop(s: State, step: Step, cluster: string, id: AttemptId)
    requires IdsAccounted(s) && Enabled(s, step) && TopIsLive(s, cluster) && Allocates(s, step, cluster)
    requires Belongs(Apply(s, step), id, cluster)
    ensures step.newId in OfCluster(Apply(s, step).rows, cluster) && Apply(s, step).rows[step.newId].seqNo == step.n
    ensures if id == step.newId then NumberOf(Apply(s, step), id) == step.n else NumberOf(Apply(s, step), id) < step.n
  {
    BelongsStep(s, step, cluster, id);
    if id != step.newId {
      var live :| live in OfCluster(s.rows, cluster) && NumberOf(s, id) <= s.rows[live].seqNo;
    }
  }

  lemma NumbersStayIncreasing(s: State, step: Step, cluster: string)
    requires Inv(s) && Enabled(s, step) && NumbersIncrease(s, cluster)
    requires Allocates(s, step, cluster) ==> TopIsLive(s, cluster)
    ensures NumbersIncrease(Apply(s, step), cluster)
  {
    var s' := Apply(s, step);
    CreatedStep(s, step);
    forall i, j | 0 <= i < j < |s'.created|
                  && Belongs(s', s'.created[i], cluster) && Belongs(s', s'.created[j], cluster)
      ensures NumberOf(s', s'.created[i]) < NumberOf(s', s'.created[j])
    {
      var a, b := s'.created[i], s'.created[j];
      assert i < |s.created| && a == s.created[i];
      BelongsStep(s, step, cluster, a);
      BelongsStep(s, step, cluster, b);
      if j == |s.created| {
        AllocationIsTop(s, step, cluster, a);
        AllocationIsTop(s, step, cluster, b);
      }
    }
  }

  /** No attempt of the cluster is opened after retention has dropped its top row. */
  ghost predicate NoneAfterDrop(states: seq<State>, steps: seq<Step>, cluster: string)
    requires |states| == |steps| + 1
  {
    forall k, m {:trigger DropsTop(states[k], steps[k], cluster), Allocates(states[m], steps[m], cluster)} ::
      0 <= k < m < |steps| && DropsTop(states[k], steps[k], cluster) ==> !Allocates(states[m], steps[m], cluster)
  }

  ghost predicate KeptTop(states: seq<State>, steps: seq<Step>, cluster: string, k: nat)
    requires |states| == |steps| + 1 && k <= |steps|
  {
    forall j :: 0 <= j < k ==> !DropsTop(states[j], steps[j], cluster)
  }

  lemma {:induction false} IncreaseWithoutDrop(states: seq<State>, steps: seq<Step>, cluster: string, k: nat)
    requires IsRun(states, steps) && NoneAfterDrop(states, steps, cluster) && k <= |steps|
    ensures NumbersIncrease(states[k], cluster)
    ensures KeptTop(states, steps, cluster, k) ==> TopIsLive(states[k], cluster)
    decreases k
  {
    if k == 0 {
    } else {
      IncreaseWithoutDrop(states, steps, cluster, k - 1);
      RunKeepsInv(states, steps, k - 1);
      StepOf(states, steps, k - 1);
      assert KeptTop(states, steps, cluster, k) ==> KeptTop(states, steps, cluster, k - 1);
      AllocatesUndropped(states, steps, cluster, k - 1);
      NumbersStayIncreasing(states[k - 1], steps[k - 1], cluster);
      if KeptTop(states, steps, cluster, k) {
        TopStaysLive(states[k - 1], steps[k - 1], cluster);
      }
    }
  }

  lemma AllocatesUndropped(states: seq<State>, steps: seq<Step>, cluster: string, m: nat)
    requires |states| == |steps| + 1 && NoneAfterDrop(states, steps, cluster) && m < |steps|
    ensures Allocates(states[m], steps[m], cluster) ==> KeptTop(states, steps, cluster, m)
  {
  }

  // ---------------------------------------------------------------------
  // Once it is dropped.

  /** The attempt was opened for the cluster and outranks all its live rows. */
  ghost predicate Outranks(s: State, cluster: string, id: AttemptId) {
    && Belongs(s, id, cluster)
    && forall live :: live in OfCluster(s.rows, cluster) ==> s.rows[live].seqNo < NumberOf(s, id)
  }

  lemma DroppedTopOutranks(s: State, step: Step, cluster: string) returns (top: AttemptId)
    requires Inv(s) && Enabled(s, step) && DropsTop(s, step, cluster)
    ensures IsTop(s.rows, cluster, top) && Outranks(Apply(s, step), cluster, top)
  {
    top :| IsTop(s.rows, cluster, top) && IsExpired(s.rows[top], Cutoff(step), HardCutoff(step));
    assert top in s.created && Belongs(s, top, cluster);
    BelongsStep(s, step, cluster, top);
    forall live | live in OfCluster(Apply(s, step).rows, cluster)
      ensures Apply(s, step).rows[live].seqNo < s.rows[top].seqNo
    {
      KeptIsBelow(s, step, cluster, top, live);
    }
  }

  /** What retention keeps lies below the top row that it deletes. */
  lemma KeptIsBelow(s: State, step: Step, cluster: string, top: AttemptId, live: AttemptId)
    requires Inv(s) && step.RetainStep? && IsTop(s.rows, cluster, top)
    requires IsExpired(s.rows[top], Cutoff(step), HardCutoff(step)) && live in OfCluster(Apply(s, step).rows, cluster)
    ensures Apply(s, step).rows[live].seqNo < s.rows[top].seqNo
  {
    assert live in OfCluster(s.rows, cluster) && live != top;
    NumbersDiffer(s, live, top);
  }

  lemma OutranksStays(s: State, step: Step, cluster: string, id: AttemptId)
    requires IdsAccounted(s) && Enabled(s, step) && Outranks(s, cluster, id) && !Allocates(s, step, cluster)
    ensures Outranks(Apply(s, step), cluster, id)
  {
    var s' := Apply(s, step);
    BelongsStep(s, step, cluster, id);
    forall live | live in OfCluster(s'.rows, cluster) ensures s'.rows[live].seqNo < NumberOf(s', id) {
      if live in s.rows {
        StepExtendsRows(s, step, live);
        assert live in OfCluster(s.rows, cluster);
      } else {
        NewRowsAreCreated(s, step, live);
      }
    }
  }

  /** The next attempt of the cluster gets a number that is not above the dropped one. */
  lemma AllocationBelow(s: State, step: Step, cluster: string, id: AttemptId)
    requires IdsAccounted(s) && Enabled(s, step) && Outranks(s, cluster, id) && Allocates(s, step, cluster)
    ensures step.n <= NumberOf(s, id)
    ensures !NumbersIncrease(Apply(s, step), cluster)
  {
    var s' := Apply(s, step);
    CreatedStep(s, step);
    BelongsStep(s, step, cluster, id);
    BelongsStep(s, step, cluster, step.newId);
    var i := Position(s.created, id);
    assert s'.created[i] == id && s'.created[|s.created|] == step.newId;
    assert Belongs(s', step.newId, cluster) && NumberOf(s', step.newId) == step.n;
    assert NumberOf(s', s'.created[|s.created|]) <= NumberOf(s', s'.created[i]);
  }

  lemma DisorderStep(s: State, step: Step, cluster: string)
    requires IdsAccounted(s) && Enabled(s, step) && !NumbersIncrease(s, cluster)
    ensures !NumbersIncrease(Apply(s, step), cluster)
  {
    var a, b :| 0 <= a < b < |s.created| && Belongs(s, s.created[a], cluster) && Belongs(s, s.created[b], cluster)
                && NumberOf(s, s.created[a]) >= NumberOf(s, s.created[b]);
    CreatedStep(s, step);
    BelongsStep(s, step, cluster, s.created[a]);
    BelongsStep(s, step, cluster, s.created[b]);
    var after := Apply(s, step).created;
    assert after[a] == s.created[a] && after[b] == s.created[b];
  }

  /** Numbers once out of order stay so. */
  lemma {:induction false} DisorderStays(states: seq<State>, steps: seq<Step>, cluster: string, i: nat, j: nat)
    requires IsRun(states, steps) && i <= j <= |steps| && !NumbersIncrease(states[i], cluster)
    ensures !NumbersIncrease(states[j], cluster)
    decreases j
  {
    if i == j {
    } else {
      DisorderStays(states, steps, cluster, i, j - 1);
      RunKeepsInv(states, steps, j - 1);
      assert Enabled(states[j - 1], steps[j - 1]) && states[j] == Apply(states[j - 1], steps[j - 1]);
      DisorderStep(states[j - 1], steps[j - 1], cluster);
    }
  }

  /** From a row that outranks the live ones to the next allocation. */
  lemma {:induction false} AllocationBreaksOrder(states: seq<State>, steps: seq<Step>, cluster: string, k: nat, m: nat,
                                                 id: AttemptId)
    requires IsRun(states, steps) && k <= m < |steps| && Outranks(states[k], cluster, id)
    requires Allocates(states[m], steps[m], cluster)
    ensures !NumbersIncrease(states[m + 1], cluster)
    decreases m - k
  {
    RunKeepsInv(states, steps, k);
    assert Enabled(states[k], steps[k]) && states[k + 1] == Apply(states[k], steps[k]);
    if Allocates(states[k], steps[k], cluster) {
      AllocationBelow(states[k], steps[k], cluster, id);
      DisorderStays(states, steps, cluster, k + 1, m + 1);
    } else {
      OutranksStays(states[k], steps[k], cluster, id);
      AllocationBreaksOrder(states, steps, cluster, k + 1, m, id);
    }
  }

  /**
   * Over every run, the numbers of all attempts a cluster ever had increase in creation order if and only
   * if no attempt of it is opened after retention has deleted its highest-numbered live row.
   */
  lemma NumbersIncreaseIff(states: seq<State>, steps: seq<Step>, cluster: string)
    requires IsRun(states, steps)
    ensures NumbersIncrease(states[|steps|], cluster) <==> NoneAfterDrop(states, steps, cluster)
  {
    if NoneAfterDrop(states, steps, cluster) {
      IncreaseWithoutDrop(states, steps, cluster, |steps|);
    } else {
      var k, m :|
        && 0 <= k < m < |steps|
        && DropsTop(states[k], steps[k], cluster) && Allocates(states[m], steps[m], cluster);
      RunKeepsInv(states, steps, k);
      assert Enabled(states[k], steps[k]) && states[k + 1] == Apply(states[k], steps[k]);
      var top := DroppedTopOutranks(states[k], steps[k], cluster);
      AllocationBreaksOrder(states, steps, cluster, k + 1, m, top);
      DisorderStays(states, steps, cluster, m + 1, |steps|);
    }
  }

  /** No attempt of the cluster is opened from step `k` up to step `m`. */
  ghost predicate NoneBetween(states: seq<State>, steps: seq<Step>, cluster: string, k: nat, m: nat)
    requires |states| == |steps| + 1 && k <= m <= |steps|
  {
    forall i {:trigger Allocates(states[i], steps[i], cluster)} :: k <= i < m ==>
      !Allocates(states[i], steps[i], cluster)
  }

  lemma {:induction false} NextNumberBelow(states: seq<State>, steps: seq<Step>, cluster: string, k: nat, m: nat,
                                           id: AttemptId)
    requires IsRun(states, steps) && k <= m < |steps| && Outranks(states[k], cluster, id)
    requires Allocates(states[m], steps[m], cluster)
    requires NoneBetween(states, steps, cluster, k, m)
    ensures steps[m].n <= NumberOf(states[k], id)
    decreases m - k
  {
    RunKeepsInv(states, steps, k);
    assert Enabled(states[k], steps[k]) && states[k + 1] == Apply(states[k], steps[k]);
    if k == m {
      AllocationBelow(states[k], steps[k], cluster, id);
    } else {
      assert !Allocates(states[k], steps[k], cluster);
      BelongsStep(states[k], steps[k], cluster, id);
      OutranksStays(states[k], steps[k], cluster, id);
      NextNumberBelow(states, steps, cluster, k + 1, m, id);
    }
  }

  /** The first attempt after such a deletion gets a number not above the deleted one. */
  lemma NextNumberAfterDrop(states: seq<State>, steps: seq<Step>, cluster: string, k: nat, m: nat)
    returns (top: AttemptId)
    requires IsRun(states, steps) && k < m < |steps|
    requires DropsTop(states[k], steps[k], cluster) && Allocates(states[m], steps[m], cluster)
    requires NoneBetween(states, steps, cluster, k + 1, m)
    ensures IsTop(states[k].rows, cluster, top) && steps[m].n <= states[k].rows[top].seqNo
  {
    RunKeepsInv(states, steps, k);
    assert Enabled(states[k], steps[k]) && states[k + 1] == Apply(states[k], steps[k]);
    top := DroppedTopOutranks(states[k], steps[k], cluster);
    BelongsStep(states[k], steps[k], cluster, top);
    NextNumberBelow(states, steps, cluster, k + 1, m, top);
  }

  /** A concrete run in which a number repeats: the only attempt is closed, deleted, and the next is again 0. */
  lemma SequenceCanRestart() returns (states: seq<State>, steps: seq<Step>)
    ensures IsRun(states, steps) && |steps| == 4 && steps[0].OpenStep? && steps[3].OpenStep?
    ensures steps[0].cluster == steps[3].cluster && steps[0].n == steps[3].n && states[4].created == [0, 1]
  {
    var s0 := OpenStep("c", None, None, 0.0, 0, 0);
    var s1 := CloseStep(0, Failed);
    var s2 := RetainStep(10000.0, 10000.0, 1.0);
    var s3 := OpenStep("c", None, None, 20000.0, 1, 0);
    var row := NewRow("c", None, None, 0, 0.0);
    var a1 := Apply(INIT, s0);
    assert a1 == State(map[0 := row], [0], [], [], map[], map[]);
    var a2 := Apply(a1, s1);
    assert a2 == a1.(rows := map[0 := row.(outcome := Some(Failed))]);
    var a3 := Apply(a2, s2);
    assert a3.rows == map[] && a3.created == [0];
    var a4 := Apply(a3, s3);
    FourStepRun(s0, a1, s1, a2, s2, a3, s3, a4);
    states, steps := [INIT, a1, a2, a3, a4], [s0, s1, s2, s3];
  }
}
