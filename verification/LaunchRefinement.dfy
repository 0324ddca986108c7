/**
 * The store of launch attempts against the transition system: whatever sequence of calls is made on the
 * store, its table is reached by a run, and the run logs the claims and admission events that the calls
 * returned. What is proved of runs about tables, claims and events therefore holds of the store.
 */
module LaunchRefinement {
  import opened Prelude
  import opened LaunchAttempts
  import opened LaunchRuns

  datatype Call =
    | OpenCall(cluster: string, onCloud: Option<string>, request: Option<string>, start: real, newId: AttemptId)
    | StampCall(id: AttemptId, milestone: Milestone, ts: real)
    | NameCall(name: string, milestone: Milestone, ts: real)
    | CloseCall(id: AttemptId, outcome: LaunchOutcome)
    | SweepCall(now: real, hours: real)
    | ClaimCall(limit: nat, now: real, readBack: bool)
    | CleanCall(now: real, later: real, hours: real)

  /** The rows a call claimed, and the attempt whose admission it announced. */
  datatype Output = Output(claimed: set<AttemptId>, event: Option<AttemptId>)

  const NOTHING := Output({}, None)

  ghost predicate NameEffect(t: Table, name: string, m: Milestone, ts: real, t': Table, event: Option<AttemptId>) {
    if OpenFor(t, name) == {} then t' == t && event == None
    else exists id :: IsNewestOf(t, OpenFor(t, name), id) && t' == StampRow(t, id, m, ts)
           && event == if m == Admitted && Admitted !in t[id].stamps then Some(id) else None
  }

  ghost predicate ClaimEffect(t: Table, call: Call, winners: set<AttemptId>, t': Table, claimed: set<AttemptId>)
    requires call.ClaimCall?
  {
    && IsClaim(t, call.limit, winners) && t' == ClaimRows(t, winners, call.now)
    && claimed == if call.readBack then Stamped(t', call.now) else winners
  }

  /** What a call may do to the table, and what it returns then. */
  ghost predicate Effect(t: Table, call: Call, t': Table, out: Output) {
    match call
    case OpenCall(cluster, onCloud, request, start, newId) =>
      out == NOTHING && exists id :: Opened(t, cluster, onCloud, request, start, newId, id, t')
    case StampCall(id, m, ts) => out == NOTHING && t' == StampRow(t, id, m, ts)
    case NameCall(name, m, ts) => out.claimed == {} && NameEffect(t, name, m, ts, t', out.event)
    case CloseCall(id, outcome) => out == NOTHING && t' == CloseRow(t, id, outcome)
    case SweepCall(now, hours) => out == NOTHING && t' == SweepRows(t, now - hours * 3600.0)
    case ClaimCall(_, _, _) =>
      out.event == None && exists winners :: ClaimEffect(t, call, winners, t', out.claimed)
    case CleanCall(now, later, hours) =>
      out == NOTHING && t' == RetainRows(t, now - hours * 3600.0, later - hours * 2.0 * 3600.0)
  }

  /** Each call on the store has its effect. */
  method Execute(store: AttemptStore, call: Call) returns (out: Output)
    requires call.OpenCall? ==> call.newId !in store.rows
    modifies store
    ensures Effect(old(store.rows), call, store.rows, out)
  {
    out := NOTHING;
    match call
    case OpenCall(cluster, onCloud, request, start, newId) =>
      var _ := store.Open(cluster, onCloud, request, start, newId);
    case StampCall(id, m, ts) =>
      var _ := store.RecordMilestone(id, m, ts);
    case NameCall(name, m, ts) =>
      var event := store.RecordMilestoneForCluster(name, m, ts);
      out := Output({}, event);
    case CloseCall(id, outcome) =>
      store.Close(id, outcome);
    case SweepCall(now, hours) =>
      var _ := store.SweepAbandoned(now, hours);
    case ClaimCall(limit, now, readBack) =>
      var claimed;
      ghost var winners;
      if readBack {
        claimed, winners := store.ClaimByToken(limit, now);
      } else {
        claimed := store.Claim(limit, now);
        winners := claimed;
      }
      out := Output(claimed, None);
      assert ClaimEffect(old(store.rows), call, winners, store.rows, claimed);
    case CleanCall(now, later, hours) =>
      var _ := store.CleanUp(now, later, hours);
  }

  // ---------------------------------------------------------------------
  // One call.

  /** The steps lead from one state to the other. */
  ghost predicate Realizes(s: State, steps: seq<Step>, s': State)
    decreases |steps|
  {
    if steps == [] then s' == s
    else Enabled(s, steps[0]) && Realizes(Apply(s, steps[0]), steps[1..], s')
  }

  function ClaimOf(call: Call, out: Output): seq<Claim> {
    if call.ClaimCall? then [Claim(out.claimed, call.now, call.readBack)] else []
  }

  function EventOf(out: Output): seq<AttemptId> {
    if out.event.Some? then [out.event.value] else []
  }

  /** The call's table, and what it returned, added to the logs. */
  ghost predicate Logs(s: State, call: Call, t': Table, out: Output, s': State) {
    && s'.rows == t'
    && s'.claims == s.claims + ClaimOf(call, out)
    && s'.events == s.events + EventOf(out)
    && (s'.created == s.created || (call.OpenCall? && s'.created == s.created + [call.newId]))
  }

  lemma OpenIsStep(s: State, call: Call, t': Table, out: Output) returns (step: Step)
    requires call.OpenCall? && Effect(s.rows, call, t', out) && call.newId !in s.created
    ensures Enabled(s, step) && Logs(s, call, t', out, Apply(s, step))
  {
    var n: nat := 0;
    step := OpenStep(call.cluster, call.onCloud, call.request, call.start, call.newId, n);
    if !Resumes(s.rows, step) {
      var id :| Opened(s.rows, call.cluster, call.onCloud, call.request, call.start, call.newId, id, t');
      n :| IsNextSeq(s.rows, call.cluster, n)
           && t' == s.rows[call.newId := NewRow(call.cluster, call.onCloud, call.request, n, call.start)];
      step := step.(n := n);
    }
  }

  lemma ClaimIsStep(s: State, call: Call, t': Table, out: Output) returns (step: Step)
    requires call.ClaimCall? && Effect(s.rows, call, t', out)
    ensures Enabled(s, step) && Logs(s, call, t', out, Apply(s, step))
  {
    var winners :| ClaimEffect(s.rows, call, winners, t', out.claimed);
    step := ClaimStep(call.limit, call.now, winners, call.readBack);
  }

  lemma StatementIsStep(s: State, call: Call, t': Table, out: Output) returns (step: Step)
    requires !call.OpenCall? && !call.NameCall? && !call.ClaimCall? && Effect(s.rows, call, t', out)
    ensures Enabled(s, step) && Logs(s, call, t', out, Apply(s, step))
  {
    match call
    case StampCall(id, m, ts) => step := StampStep(id, m, ts);
    case CloseCall(id, outcome) => step := CloseStep(id, outcome);
    case SweepCall(now, hours) => step := SweepStep(now - hours * 3600.0);
    case CleanCall(now, later, hours) => step := RetainStep(now, later, hours);
  }

  /** Stamping by name is the lookup and the update of one process in a row, or nothing. */
  lemma NameIsSteps(s: State, call: Call, t': Table, out: Output) returns (steps: seq<Step>, s': State)
    requires call.NameCall? && Effect(s.rows, call, t', out)
    ensures Realizes(s, steps, s') && Logs(s, call, t', out, s')
  {
    if OpenFor(s.rows, call.name) == {} {
      steps, s' := [], s;
    } else {
      var id :|
        && IsNewestOf(s.rows, OpenFor(s.rows, call.name), id)
        && t' == StampRow(s.rows, id, call.milestone, call.ts)
        && out.event == if call.milestone == Admitted && Admitted !in s.rows[id].stamps then Some(id) else None;
      var look := LookStep(0, call.name, call.milestone, call.ts, id);
      var mid := Apply(s, look);
      assert mid.pending[0] == Pending(id, call.milestone, call.ts) && mid.rows == s.rows;
      s' := Apply(mid, WriteStep(0));
      steps := [look, WriteStep(0)];
      assert steps[1..] == [WriteStep(0)] && steps[1..][1..] == [];
      assert Realizes(mid, [WriteStep(0)], s');
    }
  }

  /** Every call is realized by steps of the system. */
  lemma CallIsSteps(s: State, call: Call, t': Table, out: Output) returns (steps: seq<Step>, s': State)
    requires Effect(s.rows, call, t', out) && (call.OpenCall? ==> call.newId !in s.created)
    ensures Realizes(s, steps, s') && Logs(s, call, t', out, s')
  {
    if call.NameCall? {
      steps, s' := NameIsSteps(s, call, t', out);
    } else {
      var step;
      if call.OpenCall? {
        step := OpenIsStep(s, call, t', out);
      } else if call.ClaimCall? {
        step := ClaimIsStep(s, call, t', out);
      } else {
        step := StatementIsStep(s, call, t', out);
      }
      steps, s' := [step], Apply(s, step);
      assert Realizes(s', steps[1..], s');
    }
  }

  lemma {:induction false} RunRealizes(states: seq<State>, steps: seq<Step>, more: seq<Step>, s': State)
    returns (states': seq<State>, steps': seq<Step>)
    requires IsRun(states, steps) && Realizes(states[|steps|], more, s')
    ensures IsRun(states', steps') && states'[|steps'|] == s'
    decreases |more|
  {
    if more == [] {
      states', steps' := states, steps;
    } else {
      RunExtends(states, steps, more[0]);
      states', steps' := RunRealizes(states + [Apply(states[|steps|], more[0])], steps + [more[0]], more[1..], s');
    }
  }

  // ---------------------------------------------------------------------
  // Histories.

  /** From the empty table, each call with its effect, and never an id used twice. */
  ghost predicate IsHistory(tables: seq<Table>, calls: seq<Call>, outs: seq<Output>) {
    && |tables| == |calls| + 1 && |outs| == |calls| && tables[0] == map[]
    && (forall k {:trigger calls[k]} :: 0 <= k < |calls| ==> Effect(tables[k], calls[k], tables[k + 1], outs[k]))
    && (forall j, k :: 0 <= j < k < |calls| && calls[j].OpenCall? && calls[k].OpenCall? ==>
          calls[j].newId != calls[k].newId)
  }

  ghost predicate OpenedBy(calls: seq<Call>, k: nat, id: AttemptId)
    requires k <= |calls|
  {
    exists j :: 0 <= j < k && calls[j].OpenCall? && calls[j].newId == id
  }

  /** What the first `k` calls claimed, in order. */
  function ClaimLog(calls: seq<Call>, outs: seq<Output>, k: nat): seq<Claim>
    requires k <= |calls| == |outs|
  {
    if k == 0 then [] else ClaimLog(calls, outs, k - 1) + ClaimOf(calls[k - 1], outs[k - 1])
  }

  /** What the first `k` calls announced, in order. */
  function EventLog(outs: seq<Output>, k: nat): seq<AttemptId>
    requires k <= |outs|
  {
    if k == 0 then [] else EventLog(outs, k - 1) + EventOf(outs[k - 1])
  }

  /** Every history of the store is a run: the same table, the same claims and the same events. */
  lemma {:induction false} StoreRefinesSystem(tables: seq<Table>, calls: seq<Call>, outs: seq<Output>, k: nat)
    returns (states: seq<State>, steps: seq<Step>)
    requires IsHistory(tables, calls, outs) && k <= |calls|
    ensures IsRun(states, steps) && states[|steps|].rows == tables[k]
    ensures states[|steps|].claims == ClaimLog(calls, outs, k)
    ensures states[|steps|].events == EventLog(outs, k)
    ensures forall id :: id in states[|steps|].created ==> OpenedBy(calls, k, id)
    decreases k
  {
    if k == 0 {
      states, steps := [INIT], [];
    } else {
      var before, done := StoreRefinesSystem(tables, calls, outs, k - 1);
      var s := before[|done|];
      var call := calls[k - 1];
      assert Effect(s.rows, call, tables[k], outs[k - 1]);
      assert call.OpenCall? ==> !OpenedBy(calls, k - 1, call.newId);
      var more, s' := CallIsSteps(s, call, tables[k], outs[k - 1]);
      states, steps := RunRealizes(before, done, more, s');
      OpenedGrows(calls, k, s, s');
    }
  }

  lemma OpenedGrows(calls: seq<Call>, k: nat, s: State, s': State)
    requires 1 <= k <= |calls| && forall id :: id in s.created ==> OpenedBy(calls, k - 1, id)
    requires s'.created == s.created || (calls[k - 1].OpenCall? && s'.created == s.created + [calls[k - 1].newId])
    ensures forall id :: id in s'.created ==> OpenedBy(calls, k, id)
  {
    forall id | id in s'.created ensures OpenedBy(calls, k, id) {
      if id in s.created {
        assert OpenedBy(calls, k - 1, id);
      }
    }
  }

  // ---------------------------------------------------------------------
  // What runs say about the store.

  /** What the invariants of runs say about every table of the store. */
  lemma StoreTablesSound(tables: seq<Table>, calls: seq<Call>, outs: seq<Output>, k: nat)
    requires IsHistory(tables, calls, outs) && k <= |calls|
    ensures forall id :: id in tables[k] && tables[k][id].observedAt.Some? ==> tables[k][id].outcome.Some?
    ensures forall a, b ::
      a in tables[k] && b in tables[k] && a != b && tables[k][a].cluster == tables[k][b].cluster ==>
      && tables[k][a].seqNo != tables[k][b].seqNo
      && (tables[k][a].IsOpen() && tables[k][b].IsOpen() && tables[k][a].request.Some? ==>
            tables[k][a].request != tables[k][b].request)
  {
    var states, steps := StoreRefinesSystem(tables, calls, outs, k);
    var s := states[|steps|];
    RunKeepsInv(states, steps, |steps|);
    forall a, b | a in s.rows && b in s.rows && a != b && s.rows[a].cluster == s.rows[b].cluster
      ensures s.rows[a].seqNo != s.rows[b].seqNo
    {
      NumbersDiffer(s, a, b);
    }
  }

  lemma {:induction false} ClaimLogAt(calls: seq<Call>, outs: seq<Output>, j: nat, k: nat)
    requires j < k <= |calls| == |outs| && calls[j].ClaimCall?
    ensures var i := |ClaimLog(calls, outs, j)|;
      && i < |ClaimLog(calls, outs, k)|
      && ClaimLog(calls, outs, k)[i] == Claim(outs[j].claimed, calls[j].now, calls[j].readBack)
    decreases k
  {
    if k == j + 1 {
    } else {
      ClaimLogAt(calls, outs, j, k - 1);
    }
  }

  /** Two claims of the store return one attempt only if the later one reads back the time of the earlier one. */
  lemma StoreClaimsOnce(tables: seq<Table>, calls: seq<Call>, outs: seq<Output>, j: nat, k: nat, id: AttemptId)
    requires IsHistory(tables, calls, outs) && j < k < |calls| && calls[j].ClaimCall? && calls[k].ClaimCall?
    requires id in outs[j].claimed && id in outs[k].claimed
    ensures calls[k].readBack && calls[j].now == calls[k].now
  {
    var states, steps := StoreRefinesSystem(tables, calls, outs, |calls|);
    RunKeepsInv(states, steps, |steps|);
    ClaimLogAt(calls, outs, j, |calls|);
    ClaimLogAt(calls, outs, j, k);
    ClaimLogAt(calls, outs, k, |calls|);
    var log, a, b := ClaimLog(calls, outs, |calls|), |ClaimLog(calls, outs, j)|, |ClaimLog(calls, outs, k)|;
    assert a < b && id in log[a].returned && id in log[b].returned;
  }

  lemma {:induction false} EventLogAt(outs: seq<Output>, j: nat, k: nat)
    requires j < k <= |outs| && outs[j].event.Some?
    ensures |EventLog(outs, j)| < |EventLog(outs, k)|
    ensures EventLog(outs, k)[|EventLog(outs, j)|] == outs[j].event.value
    decreases k
  {
    if k == j + 1 {
    } else {
      EventLogAt(outs, j, k - 1);
    }
  }

  /** No two calls on the store announce the admission of one attempt. */
  lemma StoreAnnouncesOnce(tables: seq<Table>, calls: seq<Call>, outs: seq<Output>, j: nat, k: nat)
    requires IsHistory(tables, calls, outs) && j < k < |calls| && outs[j].event.Some?
    ensures outs[k].event != outs[j].event
  {
    if outs[k].event.Some? {
      var states, steps := StoreRefinesSystem(tables, calls, outs, |calls|);
      RunKeepsInv(states, steps, |steps|);
      EventLogAt(outs, j, |calls|);
      EventLogAt(outs, j, k);
      EventLogAt(outs, k, |calls|);
    }
  }
}
