/**
 * Runs of the launch-attempt protocol (sky/global_user_state.py): any number of server processes, each
 * committed statement one atomic step, in every interleaving.
 */
module LaunchRuns {
  import opened Prelude
  import opened LaunchAttempts

  /** A process that has looked up a row by name and not yet updated it. */
  datatype Pending = Pending(id: AttemptId, milestone: Milestone, ts: real)

  /** A deleted row and the cutoffs it was deleted under. */
  datatype Grave = Grave(row: Row, cutoff: real, hardCutoff: real)

  /** What a claim returned, the time it wrote, and whether it read its rows back by that time. */
  datatype Claim = Claim(returned: set<AttemptId>, now: real, readBack: bool)

  /** The table together with what has happened so far. */
  datatype State = State(
    rows: Table,
    created: seq<AttemptId>,           // every attempt ever inserted, in order
    claims: seq<Claim>,                // in order
    events: seq<AttemptId>,            // admission events, by attempt
    deleted: map<AttemptId, Grave>,
    pending: map<nat, Pending>)        // by process

  const INIT := State(map[], [], [], [], map[], map[])

  datatype Step =
    | OpenStep(cluster: string, onCloud: Option<string>, request: Option<string>, start: real, newId: AttemptId, n: nat)
    | StampStep(id: AttemptId, milestone: Milestone, ts: real)
    | LookStep(pid: nat, name: string, milestone: Milestone, ts: real, found: AttemptId)
    | WriteStep(pid: nat)
    | CloseStep(id: AttemptId, outcome: LaunchOutcome)
    | SweepStep(cutoff: real)
    | ClaimStep(limit: nat, now: real, winners: set<AttemptId>, readBack: bool)
    | RetainStep(now: real, later: real, hours: real)

  /** Opening finds a row of the same request in flight. */
  predicate Resumes(t: Table, step: Step)
    requires step.OpenStep?
  {
    step.request.Some? && InFlight(t, step.cluster, step.request.value) != {}
  }

  /** The step opens an attempt of its own. */
  predicate Inserts(s: State, step: Step) {
    step.OpenStep? && !Resumes(s.rows, step)
  }

  ghost predicate Enabled(s: State, step: Step) {
    match step
    case OpenStep(cluster, _, _, _, newId, n) =>
      newId !in s.created && (!Resumes(s.rows, step) ==> IsNextSeq(s.rows, cluster, n))
    case LookStep(_, name, _, _, found) => IsNewestOf(s.rows, OpenFor(s.rows, name), found)
    case WriteStep(pid) => pid in s.pending
    case ClaimStep(limit, _, winners, _) =>
      |winners| <= limit && forall id :: id in winners ==> id in s.rows && IsUnobserved(s.rows[id])
    case _ => true
  }

  function Cutoff(step: Step): real
    requires step.RetainStep?
  {
    step.now - step.hours * 3600.0
  }

  function HardCutoff(step: Step): real
    requires step.RetainStep?
  {
    step.later - step.hours * 2.0 * 3600.0
  }

  /**
   * What a claim hands to its caller: the rows its update matched, or, where the database cannot say which
   * those were, the rows that carry its time stamp afterwards.
   */
  function Returned(t: Table, step: Step): set<AttemptId>
    requires step.ClaimStep?
  {
    if step.readBack then Stamped(ClaimRows(t, step.winners, step.now), step.now) else step.winners
  }

  /** The row this update is about to announce, if it stamps ADMITTED for the first time. */
  function Announces(t: Table, p: Pending): bool {
    p.milestone == Admitted && p.id in t && Admitted !in t[p.id].stamps
  }

  ghost function Apply(s: State, step: Step): State
    requires Enabled(s, step)
  {
    match step
    case OpenStep(cluster, onCloud, request, start, newId, n) =>
      if Resumes(s.rows, step) then s
      else s.(rows := s.rows[newId := NewRow(cluster, onCloud, request, n, start)], created := s.created + [newId])
    case StampStep(id, m, ts) => s.(rows := StampRow(s.rows, id, m, ts))
    case LookStep(pid, name, m, ts, found) => s.(pending := s.pending[pid := Pending(found, m, ts)])
    case WriteStep(pid) =>
      var p := s.pending[pid];
      s.(rows := StampRow(s.rows, p.id, p.milestone, p.ts),
         events := if Announces(s.rows, p) then s.events + [p.id] else s.events,
         pending := s.pending - {pid})
    case CloseStep(id, outcome) => s.(rows := CloseRow(s.rows, id, outcome))
    case SweepStep(cutoff) => s.(rows := SweepRows(s.rows, cutoff))
    case ClaimStep(_, now, winners, readBack) =>
      s.(rows := ClaimRows(s.rows, winners, now),
         claims := s.claims + [Claim(Returned(s.rows, step), now, readBack)])
    case RetainStep(_, _, _) =>
      s.(rows := RetainRows(s.rows, Cutoff(step), HardCutoff(step)),
         deleted := s.deleted + map id | id in s.rows && IsExpired(s.rows[id], Cutoff(step), HardCutoff(step))
                                     :: Grave(s.rows[id], Cutoff(step), HardCutoff(step)))
  }

  // ---------------------------------------------------------------------
  // Invariants.

  /** Every attempt ever created is a row or a grave, never both, and ids are not reused. */
  ghost predicate IdsAccounted(s: State) {
    && Distinct(s.created)
    && s.rows.Keys !! s.deleted.Keys
    && Elements(s.created) == s.rows.Keys + s.deleted.Keys
    && forall pid :: pid in s.pending ==> s.pending[pid].id in s.created
  }

  /** Observed rows and deleted rows are closed. */
  ghost predicate ObservedIsClosed(s: State) {
    && (forall id :: id in s.rows && s.rows[id].observedAt.Some? ==> s.rows[id].outcome.Some?)
    && (forall id :: id in s.deleted ==> s.deleted[id].row.outcome.Some?)
  }

  ghost predicate EverClaimed(s: State, id: AttemptId) {
    exists k :: 0 <= k < |s.claims| && id in s.claims[k].returned
  }

  /** The row of an attempt, live or as it was when deleted. */
  ghost function RowOf(s: State, id: AttemptId): Option<Row> {
    if id in s.rows then Some(s.rows[id]) else if id in s.deleted then Some(s.deleted[id].row) else None
  }

  ghost predicate EverObserved(s: State, id: AttemptId) {
    RowOf(s, id).Some? && RowOf(s, id).value.observedAt.Some?
  }

  /** An attempt is marked observed exactly when some claim returned it. */
  ghost predicate ClaimsExact(s: State) {
    forall id :: EverClaimed(s, id) <==> EverObserved(s, id)
  }

  /** Whatever a claim returned bears its time, live or deleted. */
  ghost predicate ClaimsStamped(s: State) {
    forall k, id :: 0 <= k < |s.claims| && id in s.claims[k].returned ==>
      RowOf(s, id).Some? && RowOf(s, id).value.observedAt == Some(s.claims[k].now)
  }

  /** A claim returns something a second time only by reading back the time of the first. */
  ghost predicate ClaimsOnce(s: State) {
    forall j, k, id :: 0 <= j < k < |s.claims| && id in s.claims[j].returned && id in s.claims[k].returned ==>
      s.claims[k].readBack && s.claims[j].now == s.claims[k].now
  }

  /** What was deleted was past its cutoff, and if nobody had claimed it, past the hard one. */
  ghost predicate DeletionsJustified(s: State) {
    forall id :: id in s.deleted ==> IsExpired(s.deleted[id].row, s.deleted[id].cutoff, s.deleted[id].hardCutoff)
  }

  /** At most one open row per cluster name and request. */
  ghost predicate OneInFlight(s: State) {
    forall a, b :: (&& a in s.rows && b in s.rows && a != b && s.rows[a].IsOpen() && s.rows[b].IsOpen()
                    && s.rows[a].cluster == s.rows[b].cluster && s.rows[a].request.Some?)
      ==> s.rows[a].request != s.rows[b].request
  }

  /** Among the live rows of a cluster, sequence numbers follow creation order. */
  ghost predicate SeqFollowsCreation(s: State) {
    forall i, j :: (&& 0 <= i < j < |s.created| && s.created[i] in s.rows && s.created[j] in s.rows
                    && s.rows[s.created[i]].cluster == s.rows[s.created[j]].cluster)
      ==> s.rows[s.created[i]].seqNo < s.rows[s.created[j]].seqNo
  }

  /** Each attempt has at most one event, and only with the milestone stamped. */
  ghost predicate EventsOnce(s: State) {
    && Distinct(s.events)
    && forall id :: id in s.events ==> id in s.created && (id in s.rows ==> Admitted in s.rows[id].stamps)
  }

  ghost predicate Inv(s: State) {
    && IdsAccounted(s) && ObservedIsClosed(s) && ClaimsExact(s) && ClaimsStamped(s) && ClaimsOnce(s)
    && DeletionsJustified(s)
    && OneInFlight(s) && SeqFollowsCreation(s) && EventsOnce(s)
  }

  /** How a live row may change: columns are written once and never taken back. */
  ghost predicate Extends(a: Row, b: Row) {
    && a.cluster == b.cluster && a.onCloud == b.onCloud && a.request == b.request
    && a.seqNo == b.seqNo && a.start == b.start
    && (a.outcome.Some? ==> b.outcome == a.outcome)
    && (forall m :: m in a.stamps ==> m in b.stamps && b.stamps[m] == a.stamps[m])
    && (a.observedAt.Some? ==> b.observedAt == a.observedAt)
  }

  lemma ExtendsTransitive(a: Row, b: Row, c: Row)
    requires Extends(a, b) && Extends(b, c)
    ensures Extends(a, c)
  {
  }

  lemma StepExtendsRows(s: State, step: Step, id: AttemptId)
    requires IdsAccounted(s) && Enabled(s, step) && id in s.rows
    ensures id in Apply(s, step).rows ==> Extends(s.rows[id], Apply(s, step).rows[id])
    ensures id !in Apply(s, step).rows ==> step.RetainStep? && IsExpired(s.rows[id], Cutoff(step), HardCutoff(step))
  {
    assert id in s.created;
  }

  lemma NewRowsAreCreated(s: State, step: Step, id: AttemptId)
    requires Enabled(s, step) && id in Apply(s, step).rows && id !in s.rows
    ensures step.OpenStep? && !Resumes(s.rows, step) && id == step.newId && Apply(s, step).created == s.created + [id]
    ensures Apply(s, step).rows[id] == NewRow(step.cluster, step.onCloud, step.request, step.n, step.start)
  {
  }

  lemma KeepsIds(s: State, step: Step)
    requires IdsAccounted(s) && Enabled(s, step)
    ensures IdsAccounted(Apply(s, step))
  {
    var s' := Apply(s, step);
    if Inserts(s, step) {
      InsertKeepsIds(s, step);
    } else if step.RetainStep? {
      assert s'.rows.Keys + s'.deleted.Keys == s.rows.Keys + s.deleted.Keys;
    } else {
      assert s'.rows.Keys == s.rows.Keys;
    }
  }

  lemma InsertKeepsIds(s: State, step: Step)
    requires IdsAccounted(s) && Enabled(s, step) && Inserts(s, step)
    ensures IdsAccounted(Apply(s, step))
  {
    var s' := Apply(s, step);
    assert s'.rows.Keys == s.rows.Keys + {step.newId};
    ElementsPush(s.created, step.newId);
  }

  lemma KeepsClosed(s: State, step: Step)
    requires IdsAccounted(s) && ObservedIsClosed(s) && Enabled(s, step)
    ensures ObservedIsClosed(Apply(s, step))
  {
  }

  lemma KeepsDeletions(s: State, step: Step)
    requires IdsAccounted(s) && DeletionsJustified(s) && Enabled(s, step)
    ensures DeletionsJustified(Apply(s, step))
  {
  }

  lemma ObservedStep(s: State, step: Step, id: AttemptId)
    requires IdsAccounted(s) && Enabled(s, step)
    ensures EverObserved(Apply(s, step), id) <==> EverObserved(s, id) || (step.ClaimStep? && id in step.winners)
  {
    assert id in s.rows ==> id in s.created;
    assert id in s.deleted ==> id in s.created;
  }

  lemma ReturnedMeans(s: State, step: Step, id: AttemptId)
    requires step.ClaimStep? && Enabled(s, step)
    ensures id in Returned(s.rows, step)
       <==> id in step.winners || (step.readBack && id in s.rows && s.rows[id].observedAt == Some(step.now))
  {
    var after := ClaimRows(s.rows, step.winners, step.now);
    assert id in Stamped(after, step.now) <==> id in after && after[id].observedAt == Some(step.now);
  }

  lemma KeepsClaims(s: State, step: Step)
    requires IdsAccounted(s) && ClaimsExact(s) && Enabled(s, step)
    ensures ClaimsExact(Apply(s, step))
  {
    var s' := Apply(s, step);
    forall id ensures EverClaimed(s', id) <==> EverObserved(s', id) {
      ObservedStep(s, step, id);
      if step.ClaimStep? {
        EverClaimedAppend(s, s', Claim(Returned(s.rows, step), step.now, step.readBack), id);
        ReturnedMeans(s, step, id);
      } else {
        assert s'.claims == s.claims;
        assert EverClaimed(s', id) <==> EverClaimed(s, id);
      }
    }
  }

  lemma EverClaimedAppend(s: State, s': State, claim: Claim, id: AttemptId)
    requires s'.claims == s.claims + [claim]
    ensures EverClaimed(s', id) <==> EverClaimed(s, id) || id in claim.returned
  {
    if EverClaimed(s, id) {
      var k :| 0 <= k < |s.claims| && id in s.claims[k].returned;
      assert id in s'.claims[k].returned;
    }
    if id in claim.returned {
      assert id in s'.claims[|s.claims|].returned;
    }
  }

  lemma ObservedStays(s: State, step: Step, id: AttemptId)
    requires IdsAccounted(s) && Enabled(s, step) && EverObserved(s, id)
    ensures EverObserved(Apply(s, step), id)
    ensures RowOf(Apply(s, step), id).value.observedAt == RowOf(s, id).value.observedAt
  {
    assert id in s.rows ==> id in s.created;
    assert id in s.deleted ==> id in s.created;
  }

  lemma ReturnedIsStamped(s: State, step: Step, id: AttemptId)
    requires IdsAccounted(s) && step.ClaimStep? && Enabled(s, step) && id in Returned(s.rows, step)
    ensures RowOf(Apply(s, step), id).Some? && RowOf(Apply(s, step), id).value.observedAt == Some(step.now)
  {
    ReturnedMeans(s, step, id);
  }

  lemma KeepsStamped(s: State, step: Step)
    requires IdsAccounted(s) && ClaimsStamped(s) && Enabled(s, step)
    ensures ClaimsStamped(Apply(s, step))
  {
    var s' := Apply(s, step);
    forall k, id | 0 <= k < |s'.claims| && id in s'.claims[k].returned
      ensures RowOf(s', id).Some? && RowOf(s', id).value.observedAt == Some(s'.claims[k].now)
    {
      if k < |s.claims| {
        assert s'.claims[k] == s.claims[k];
        ObservedStays(s, step, id);
      } else {
        ReturnedIsStamped(s, step, id);
      }
    }
  }

  /** What was returned before can only be returned again by reading back the same time. */
  lemma ReturnedAgain(s: State, step: Step, j: nat, id: AttemptId)
    requires ClaimsStamped(s) && IdsAccounted(s) && step.ClaimStep? && Enabled(s, step)
    requires j < |s.claims| && id in s.claims[j].returned && id in Returned(s.rows, step)
    ensures step.readBack && s.claims[j].now == step.now
  {
    ReturnedMeans(s, step, id);
    assert id in s.rows && RowOf(s, id) == Some(s.rows[id]);
    assert !IsUnobserved(s.rows[id]);
  }

  lemma KeepsOnce(s: State, step: Step)
    requires IdsAccounted(s) && ClaimsStamped(s) && ClaimsOnce(s) && Enabled(s, step)
    ensures ClaimsOnce(Apply(s, step))
  {
    var s' := Apply(s, step);
    forall j, k, id | 0 <= j < k < |s'.claims| && id in s'.claims[j].returned && id in s'.claims[k].returned
      ensures s'.claims[k].readBack && s'.claims[j].now == s'.claims[k].now
    {
      assert s'.claims[j] == s.claims[j];
      if k < |s.claims| {
        assert s'.claims[k] == s.claims[k];
      } else {
        ReturnedAgain(s, step, j, id);
      }
    }
  }

  lemma KeepsOneInFlight(s: State, step: Step)
    requires IdsAccounted(s) && OneInFlight(s) && Enabled(s, step)
    ensures OneInFlight(Apply(s, step))
  {
    var s' := Apply(s, step);
    forall a, b | a in s'.rows && b in s'.rows && a != b && s'.rows[a].IsOpen() && s'.rows[b].IsOpen()
                  && s'.rows[a].cluster == s'.rows[b].cluster && s'.rows[a].request.Some?
      ensures s'.rows[a].request != s'.rows[b].request
    {
      OpenBefore(s, step, a);
      OpenBefore(s, step, b);
      if a !in s.rows {
        NewRequestDiffers(s, step, b);
      } else if b !in s.rows {
        NewRequestDiffers(s, step, a);
      }
    }
  }

  /** A fresh attempt is inserted only when no open row of the cluster carries its request. */
  lemma NewRequestDiffers(s: State, step: Step, id: AttemptId)
    requires step.OpenStep? && !Resumes(s.rows, step) && id in s.rows && s.rows[id].IsOpen()
    requires s.rows[id].cluster == step.cluster
    ensures step.request.Some? ==> s.rows[id].request != step.request
  {
    if step.request.Some? {
      assert id !in InFlight(s.rows, step.cluster, step.request.value);
    }
  }

  /** A row that was created before a step and is live after it was live before it. */
  lemma LiveBefore(s: State, step: Step, id: AttemptId)
    requires Enabled(s, step) && id in s.created && id in Apply(s, step).rows
    ensures id in s.rows
  {
  }

  /** An open row was open before the step, unless the step created it. */
  lemma OpenBefore(s: State, step: Step, id: AttemptId)
    requires IdsAccounted(s) && Enabled(s, step) && id in Apply(s, step).rows && Apply(s, step).rows[id].IsOpen()
    ensures id in s.rows ==>
      && s.rows[id].IsOpen() && s.rows[id].cluster == Apply(s, step).rows[id].cluster
      && s.rows[id].request == Apply(s, step).rows[id].request
    ensures id !in s.rows ==>
      && step.OpenStep? && !Resumes(s.rows, step) && id == step.newId
      && Apply(s, step).rows[id] == NewRow(step.cluster, step.onCloud, step.request, step.n, step.start)
  {
    if id in s.rows {
      StepExtendsRows(s, step, id);
    } else {
      NewRowsAreCreated(s, step, id);
    }
  }

  lemma KeepsSeq(s: State, step: Step)
    requires IdsAccounted(s) && SeqFollowsCreation(s) && Enabled(s, step)
    ensures SeqFollowsCreation(Apply(s, step))
  {
    var s' := Apply(s, step);
    forall i, j | 0 <= i < j < |s'.created| && s'.created[i] in s'.rows && s'.created[j] in s'.rows
                  && s'.rows[s'.created[i]].cluster == s'.rows[s'.created[j]].cluster
      ensures s'.rows[s'.created[i]].seqNo < s'.rows[s'.created[j]].seqNo
    {
      var a, b := s'.created[i], s'.created[j];
      assert i < |s.created| && a == s.created[i];
      LiveBefore(s, step, a);
      StepExtendsRows(s, step, a);
      if b in s.rows {
        StepExtendsRows(s, step, b);
        assert b in s.created;
      } else {
        NewRowsAreCreated(s, step, b);
        assert a in OfCluster(s.rows, step.cluster);
      }
    }
  }

  lemma KeepsEvents(s: State, step: Step)
    requires IdsAccounted(s) && EventsOnce(s) && Enabled(s, step)
    ensures EventsOnce(Apply(s, step))
  {
    var s' := Apply(s, step);
    forall id | id in s'.events ensures id in s'.created && (id in s'.rows ==> Admitted in s'.rows[id].stamps) {
      if id in s.rows {
        StepExtendsRows(s, step, id);
        assert id in s.created;
      } else if id in s'.rows {
        NewRowsAreCreated(s, step, id);
      }
    }
  }

  /** Every step of every process keeps the whole invariant. */
  lemma StepKeepsInv(s: State, step: Step)
    requires Inv(s) && Enabled(s, step)
    ensures Inv(Apply(s, step))
  {
    KeepsIds(s, step);
    KeepsClosed(s, step);
    KeepsClaims(s, step);
    KeepsStamped(s, step);
    KeepsOnce(s, step);
    KeepsDeletions(s, step);
    KeepsOneInFlight(s, step);
    KeepsSeq(s, step);
    KeepsEvents(s, step);
  }

  // ---------------------------------------------------------------------
  // Runs.

  ghost predicate IsRun(states: seq<State>, steps: seq<Step>) {
    && |states| == |steps| + 1 && states[0] == INIT
    && forall k {:trigger steps[k]} :: 0 <= k < |steps| ==>
         Enabled(states[k], steps[k]) && states[k + 1] == Apply(states[k], steps[k])
  }

  /** Step `k` of a run is enabled and leads to the next state. */
  lemma StepOf(states: seq<State>, steps: seq<Step>, k: nat)
    requires IsRun(states, steps) && k < |steps|
    ensures Enabled(states[k], steps[k]) && states[k + 1] == Apply(states[k], steps[k])
  {
    assert steps[k] == steps[k];
  }

  /** A run can be continued by any enabled step. */
  lemma RunExtends(states: seq<State>, steps: seq<Step>, step: Step)
    requires IsRun(states, steps) && Enabled(states[|steps|], step)
    ensures IsRun(states + [Apply(states[|steps|], step)], steps + [step])
  {
    var more, longer := states + [Apply(states[|steps|], step)], steps + [step];
    forall k | 0 <= k < |longer| ensures Enabled(more[k], longer[k]) && more[k + 1] == Apply(more[k], longer[k]) {
      if k < |steps| {
        StepOf(states, steps, k);
      }
    }
  }

  lemma FourStepRun(s0: Step, a1: State, s1: Step, a2: State, s2: Step, a3: State, s3: Step, a4: State)
    requires Enabled(INIT, s0) && a1 == Apply(INIT, s0) && Enabled(a1, s1) && a2 == Apply(a1, s1)
    requires Enabled(a2, s2) && a3 == Apply(a2, s2) && Enabled(a3, s3) && a4 == Apply(a3, s3)
    ensures IsRun([INIT, a1, a2, a3, a4], [s0, s1, s2, s3])
  {
  }

  lemma {:induction false} RunKeepsInv(states: seq<State>, steps: seq<Step>, k: nat)
    requires IsRun(states, steps) && k <= |steps|
    ensures Inv(states[k])
    decreases k
  {
    if k == 0 {
    } else {
      RunKeepsInv(states, steps, k - 1);
      assert Enabled(states[k - 1], steps[k - 1]);
      StepKeepsInv(states[k - 1], steps[k - 1]);
    }
  }

  lemma {:induction false} CreatedGrows(states: seq<State>, steps: seq<Step>, i: nat, j: nat)
    requires IsRun(states, steps) && i <= j <= |steps|
    ensures states[i].created <= states[j].created && states[i].claims <= states[j].claims
    decreases j
  {
    if i == j {
    } else {
      CreatedGrows(states, steps, i, j - 1);
      assert states[j] == Apply(states[j - 1], steps[j - 1]);
    }
  }

  /** A row that was once live is among the created ones ever after. */
  lemma CreatedStays(states: seq<State>, steps: seq<Step>, i: nat, j: nat, id: AttemptId)
    requires IsRun(states, steps) && i <= j <= |steps| && id in states[i].rows
    ensures id in states[j].created
  {
    RunKeepsInv(states, steps, i);
    CreatedGrows(states, steps, i, j);
    assert id in states[i].created;
  }

  /** A row that is live at both ends of a stretch of a run is live all along, and only ever extended. */
  lemma {:induction false} RowsAreWriteOnce(states: seq<State>, steps: seq<Step>, i: nat, j: nat, id: AttemptId)
    requires IsRun(states, steps) && i <= j <= |steps| && id in states[i].rows && id in states[j].rows
    ensures Extends(states[i].rows[id], states[j].rows[id])
    decreases j
  {
    if i == j {
    } else {
      RunKeepsInv(states, steps, j - 1);
      StepOf(states, steps, j - 1);
      CreatedStays(states, steps, i, j - 1, id);
      LiveBefore(states[j - 1], steps[j - 1], id);
      RowsAreWriteOnce(states, steps, i, j - 1, id);
      StepExtendsRows(states[j - 1], steps[j - 1], id);
      ExtendsTransitive(states[i].rows[id], states[j - 1].rows[id], states[j].rows[id]);
    }
  }

  /** A row that was once created is found live or deleted ever after, with its cluster and number. */
  lemma KeepsNumber(s: State, step: Step, id: AttemptId)
    requires IdsAccounted(s) && Enabled(s, step) && id in s.created
    ensures RowOf(s, id).Some? && RowOf(Apply(s, step), id).Some?
    ensures RowOf(Apply(s, step), id).value.cluster == RowOf(s, id).value.cluster
    ensures RowOf(Apply(s, step), id).value.seqNo == RowOf(s, id).value.seqNo
  {
    assert id in s.rows || id in s.deleted;
    if id in s.rows {
      StepExtendsRows(s, step, id);
    }
  }

  /** Live rows of one cluster have different numbers. */
  lemma NumbersDiffer(s: State, a: AttemptId, b: AttemptId)
    requires Inv(s) && a in s.rows && b in s.rows && a != b && s.rows[a].cluster == s.rows[b].cluster
    ensures s.rows[a].seqNo != s.rows[b].seqNo
  {
    assert a in s.created && b in s.created;
    var i, j := Position(s.created, a), Position(s.created, b);
    assert s.created[i] == a && s.created[j] == b;
  }
}
