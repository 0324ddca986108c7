/**
 * Stamping milestones by cluster name over whole runs (sky/global_user_state.py): a process looks up the
 * newest open row for the name and updates it in a second statement.
 */
module LaunchStamps {
  import opened Prelude
  import opened LaunchAttempts
  import opened LaunchRuns

  /** Over every run an attempt has at most one admission event. */
  lemma AdmissionAnnouncedOnce(states: seq<State>, steps: seq<Step>, k: nat)
    requires IsRun(states, steps) && k <= |steps|
    ensures Distinct(states[k].events)
  {
    RunKeepsInv(states, steps, k);
  }

  /** Launches of a cluster start no earlier than the attempts of it already in the table. */
  ghost predicate StartsMonotone(states: seq<State>, steps: seq<Step>) {
    |states| == |steps| + 1 && forall k {:trigger steps[k]} :: 0 <= k < |steps| ==> StartsLate(states[k], steps[k])
  }

  ghost predicate StartsLate(s: State, step: Step) {
    step.OpenStep? ==> forall id :: id in OfCluster(s.rows, step.cluster) ==> s.rows[id].start <= step.start
  }

  /** Among the live rows of a cluster, starts follow creation order. */
  ghost predicate StartsFollowCreation(s: State) {
    forall i, j :: (&& 0 <= i < j < |s.created| && s.created[i] in s.rows && s.created[j] in s.rows
                    && s.rows[s.created[i]].cluster == s.rows[s.created[j]].cluster)
      ==> s.rows[s.created[i]].start <= s.rows[s.created[j]].start
  }

  lemma {:induction false} StartsStayOrdered(states: seq<State>, steps: seq<Step>, k: nat)
    requires IsRun(states, steps) && StartsMonotone(states, steps) && k <= |steps|
    ensures StartsFollowCreation(states[k])
    decreases k
  {
    if k == 0 {
    } else {
      StartsStayOrdered(states, steps, k - 1);
      RunKeepsInv(states, steps, k - 1);
      assert states[k] == Apply(states[k - 1], steps[k - 1]) && StartsLate(states[k - 1], steps[k - 1]);
      StartsStep(states[k - 1], steps[k - 1]);
    }
  }

  lemma StartsStep(s: State, step: Step)
    requires IdsAccounted(s) && StartsFollowCreation(s) && Enabled(s, step) && StartsLate(s, step)
    ensures StartsFollowCreation(Apply(s, step))
  {
    var s' := Apply(s, step);
    forall i, j | 0 <= i < j < |s'.created| && s'.created[i] in s'.rows && s'.created[j] in s'.rows
                  && s'.rows[s'.created[i]].cluster == s'.rows[s'.created[j]].cluster
      ensures s'.rows[s'.created[i]].start <= s'.rows[s'.created[j]].start
    {
      var a, b := s'.created[i], s'.created[j];
      assert i < |s.created| && a == s.created[i];
      LiveBefore(s, step, a);
      StepExtendsRows(s, step, a);
      if b in s.rows {
        StepExtendsRows(s, step, b);
        assert b in s.created;
      } else {
        NewRowsAreCreated(s, step, b);
      }
    }
  }

  /** All rows open for the name belong to one cluster. */
  ghost predicate Unambiguous(s: State, name: string) {
    forall a, b :: a in OpenFor(s.rows, name) && b in OpenFor(s.rows, name) ==> s.rows[a].cluster == s.rows[b].cluster
  }

  /** Some row open for the name was created after `id`. */
  ghost predicate Outrun(s: State, name: string, id: AttemptId) {
    exists i, j :: 0 <= i < j < |s.created| && s.created[i] == id && s.created[j] in OpenFor(s.rows, name)
  }

  /** `id` is the open row for the name that was created last. */
  ghost predicate IsLatestOpen(s: State, name: string, id: AttemptId) {
    id in OpenFor(s.rows, name) && !Outrun(s, name, id)
  }

  /** With ordered starts and an unambiguous name, the lookup finds the open row created last. */
  lemma LookupFindsLatest(s: State, name: string, id: AttemptId)
    requires IdsAccounted(s) && SeqFollowsCreation(s) && StartsFollowCreation(s) && Unambiguous(s, name)
    ensures IsNewestOf(s.rows, OpenFor(s.rows, name), id) <==> IsLatestOpen(s, name, id)
  {
    var open := OpenFor(s.rows, name);
    if id in open {
      assert id in s.created;
      var i := Position(s.created, id);
      forall j | 0 <= j < |s.created| && s.created[j] in open
        ensures NotNewer(s.rows[s.created[j]], s.rows[id]) <==> j <= i
      {
        SortsByCreation(s, name, j, i);
      }
      forall other | other in open ensures other in s.created {
        assert other in s.rows;
      }
      assert forall other :: other in open ==> s.created[Position(s.created, other)] == other;
    }
  }

  /** Among open rows of one cluster the sort order of the lookup is creation order. */
  lemma SortsByCreation(s: State, name: string, a: nat, b: nat)
    requires IdsAccounted(s) && SeqFollowsCreation(s) && StartsFollowCreation(s) && Unambiguous(s, name)
    requires a < |s.created| && b < |s.created| && s.created[a] in OpenFor(s.rows, name)
    requires s.created[b] in OpenFor(s.rows, name)
    ensures NotNewer(s.rows[s.created[a]], s.rows[s.created[b]]) <==> a <= b
  {
  }

  // ---------------------------------------------------------------------
  // From the lookup to the update.

  /** The step is a lookup or an update of this process. */
  predicate IsBy(step: Step, pid: nat) {
    (step.LookStep? || step.WriteStep?) && step.pid == pid
  }

  /** Step `i` is the lookup whose result this process holds at time `j`. */
  ghost predicate IsLookOf(states: seq<State>, steps: seq<Step>, i: nat, j: nat, pid: nat)
    requires |states| == |steps| + 1 && i < j <= |steps|
  {
    && steps[i].LookStep? && steps[i].pid == pid
    && (forall m :: i < m < j ==> !IsBy(steps[m], pid))
    && pid in states[j].pending
    && states[j].pending[pid] == Pending(steps[i].found, steps[i].milestone, steps[i].ts)
  }

  /** What a process is about to update is what its own last lookup found. */
  lemma {:induction false} PendingFromLook(states: seq<State>, steps: seq<Step>, j: nat, pid: nat) returns (i: nat)
    requires IsRun(states, steps) && j <= |steps| && pid in states[j].pending
    ensures i < j && IsLookOf(states, steps, i, j, pid)
    decreases j
  {
    if j == 0 {
      assert false;
    } else {
      var step := steps[j - 1];
      assert states[j] == Apply(states[j - 1], step);
      if IsBy(step, pid) {
        i := j - 1;
      } else {
        i := PendingFromLook(states, steps, j - 1, pid);
      }
    }
  }

  /** Between the two statements an attempt was opened that is open for the name at the update. */
  ghost predicate Overtaken(states: seq<State>, steps: seq<Step>, i: nat, j: nat, name: string)
    requires |states| == |steps| + 1 && i <= j <= |steps|
  {
    exists m :: i < m < j && Inserts(states[m], steps[m]) && steps[m].newId in OpenFor(states[j].rows, name)
  }

  /** Whatever was created between two times was inserted by some step between them. */
  lemma {:induction false} InsertedBetween(states: seq<State>, steps: seq<Step>, i: nat, j: nat, id: AttemptId)
    returns (m: nat)
    requires IsRun(states, steps) && i <= j <= |steps| && id in states[j].created && id !in states[i].created
    ensures i <= m < j && Inserts(states[m], steps[m]) && steps[m].newId == id
    decreases j
  {
    if i == j {
      assert false;
    } else {
      assert states[j] == Apply(states[j - 1], steps[j - 1]);
      if id in states[j - 1].created {
        m := InsertedBetween(states, steps, i, j - 1, id);
      } else {
        m := j - 1;
      }
    }
  }

  /** An attempt opened in between comes after everything the lookup could see. */
  lemma OvertakenIsOutrun(states: seq<State>, steps: seq<Step>, i: nat, j: nat, name: string, id: AttemptId)
    requires IsRun(states, steps) && i <= j <= |steps| && id in states[i].created
    requires Overtaken(states, steps, i, j, name)
    ensures Outrun(states[j], name, id)
  {
    var m :| i < m < j && Inserts(states[m], steps[m]) && steps[m].newId in OpenFor(states[j].rows, name);
    StepOf(states, steps, m);
    CreatedGrows(states, steps, i, m);
    CreatedGrows(states, steps, m + 1, j);
    AppendedComesLater(states[i].created, states[m].created, states[j].created, id, steps[m].newId);
  }

  lemma AppendedComesLater(short: seq<AttemptId>, middle: seq<AttemptId>, long: seq<AttemptId>, a: AttemptId,
                           b: AttemptId)
    requires short <= middle && middle + [b] <= long && a in short
    ensures exists i, j :: 0 <= i < j < |long| && long[i] == a && long[j] == b
  {
    var i := Position(short, a);
    assert middle[i] == a && (middle + [b])[i] == a && (middle + [b])[|middle|] == b;
    assert long[i] == a && long[|middle|] == b;
  }

  /** Only an attempt opened in between can come after the row found. */
  lemma OutrunIsOvertaken(states: seq<State>, steps: seq<Step>, i: nat, j: nat, name: string, id: AttemptId)
    requires IsRun(states, steps) && i < j <= |steps| && steps[i].LookStep? && IsLatestOpen(states[i], name, id)
    requires Outrun(states[j], name, id)
    ensures Overtaken(states, steps, i, j, name)
  {
    var s, t := states[i], states[j];
    RunKeepsInv(states, steps, i);
    RunKeepsInv(states, steps, j);
    CreatedGrows(states, steps, i, j);
    var a, b :| 0 <= a < b < |t.created| && t.created[a] == id && t.created[b] in OpenFor(t.rows, name);
    var later := t.created[b];
    if later in s.created {
      StillOpenWasOpen(states, steps, i, j, name, later);
      LaterInPrefix(s.created, t.created, a, b);
      assert false;
    } else {
      var m := InsertedBetween(states, steps, i, j, later);
      assert m != i;
    }
  }

  /**
   * An update by name stamps the row that the process's own last lookup found and no other. It misses, with
   * a later row open for the name, if and only if that row was opened between the two statements.
   */
  lemma StampHitsLatest(states: seq<State>, steps: seq<Step>, j: nat) returns (i: nat)
    requires IsRun(states, steps) && StartsMonotone(states, steps) && j < |steps| && steps[j].WriteStep?
    ensures i < j && IsLookOf(states, steps, i, j, steps[j].pid)
    ensures states[j + 1].rows == StampRow(states[j].rows, steps[i].found, steps[i].milestone, steps[i].ts)
    ensures Unambiguous(states[i], steps[i].name) ==>
      && IsLatestOpen(states[i], steps[i].name, steps[i].found)
      && (Outrun(states[j], steps[i].name, steps[i].found) <==> Overtaken(states, steps, i, j, steps[i].name))
  {
    assert Enabled(states[j], steps[j]) && states[j + 1] == Apply(states[j], steps[j]);
    i := PendingFromLook(states, steps, j, steps[j].pid);
    assert Enabled(states[i], steps[i]);
    if Unambiguous(states[i], steps[i].name) {
      var name, id := steps[i].name, steps[i].found;
      RunKeepsInv(states, steps, i);
      StartsStayOrdered(states, steps, i);
      LookupFindsLatest(states[i], name, id);
      assert id in states[i].created;
      if Overtaken(states, steps, i, j, name) {
        OvertakenIsOutrun(states, steps, i, j, name, id);
      } else if Outrun(states[j], name, id) {
        OutrunIsOvertaken(states, steps, i, j, name, id);
      }
    }
  }

  /** While nothing is opened for the name in between, older open rows left by crashed launches are not touched. */
  lemma OlderRowsUntouched(states: seq<State>, steps: seq<Step>, i: nat, j: nat, id: AttemptId)
    requires IsRun(states, steps) && StartsMonotone(states, steps) && j < |steps| && steps[j].WriteStep?
    requires i < j && IsLookOf(states, steps, i, j, steps[j].pid) && Unambiguous(states[i], steps[i].name)
    requires !Overtaken(states, steps, i, j, steps[i].name)
    requires id in states[j].rows && Outrun(states[j], steps[i].name, id)
    ensures id in states[j + 1].rows && states[j + 1].rows[id] == states[j].rows[id]
  {
    var i' := StampHitsLatest(states, steps, j);
    SameLook(states, steps, i, i', j, steps[j].pid);
  }

  lemma SameLook(states: seq<State>, steps: seq<Step>, i: nat, i': nat, j: nat, pid: nat)
    requires |states| == |steps| + 1 && i < j <= |steps| && i' < j
    requires IsLookOf(states, steps, i, j, pid) && IsLookOf(states, steps, i', j, pid)
    ensures i == i'
  {
    assert IsBy(steps[i], pid) && IsBy(steps[i'], pid);
  }

  /** The table of one open row, and with a second one opened later under another request. */
  lemma SecondOpen(s: State, cluster: string, a: string, b: string)
    requires a != b && s.rows == map[0 := NewRow(cluster, None, Some(a), 0, 0.0)] && s.created == [0]
    ensures var step := OpenStep(cluster, None, Some(b), 1.0, 1, 1);
      && Enabled(s, step) && Inserts(s, step) && StartsLate(s, step)
      && Outrun(Apply(s, step), cluster, 0) && 0 in OpenFor(Apply(s, step).rows, cluster)
      && Admitted !in Apply(s, step).rows[0].stamps && Apply(s, step).pending == s.pending
  {
    var step := OpenStep(cluster, None, Some(b), 1.0, 1, 1);
    assert InFlight(s.rows, cluster, b) == {};
    assert 0 in OfCluster(s.rows, cluster);
    var s' := Apply(s, step);
    assert s'.created[0] == 0 && s'.created[1] == 1 && 1 in OpenFor(s'.rows, cluster);
  }

  /**
   * For every cluster name and any two requests there is a run, with ordered starts, in which the stamp
   * lands on the older open row because the other one was opened in between.
   */
  lemma StampCanMiss(cluster: string, a: string, b: string) returns (states: seq<State>, steps: seq<Step>)
    requires a != b
    ensures IsRun(states, steps) && StartsMonotone(states, steps) && |steps| == 4 && steps[3].WriteStep?
    ensures Outrun(states[3], cluster, 0) && 0 in OpenFor(states[3].rows, cluster)
    ensures 0 in states[4].rows && Admitted in states[4].rows[0].stamps && Admitted !in states[3].rows[0].stamps
  {
    var s0 := OpenStep(cluster, None, Some(a), 0.0, 0, 0);
    var s1 := LookStep(7, cluster, Admitted, 2.0, 0);
    var s2 := OpenStep(cluster, None, Some(b), 1.0, 1, 1);
    FirstOpen(cluster, a);
    var a1 := Apply(INIT, s0);
    var a2 := Apply(a1, s1);
    SecondOpen(a2, cluster, a, b);
    var a3 := Apply(a2, s2);
    var a4 := Apply(a3, WriteStep(7));
    assert StartsLate(INIT, s0);
    FourStepRun(s0, a1, s1, a2, s2, a3, WriteStep(7), a4);
    states, steps := [INIT, a1, a2, a3, a4], [s0, s1, s2, WriteStep(7)];
  }

  lemma FirstOpen(cluster: string, a: string)
    ensures var step := OpenStep(cluster, None, Some(a), 0.0, 0, 0);
      && Enabled(INIT, step)
      && Apply(INIT, step) == State(map[0 := NewRow(cluster, None, Some(a), 0, 0.0)], [0], [], [], map[], map[])
      && OpenFor(Apply(INIT, step).rows, cluster) == {0}
  {
    assert InFlight(INIT.rows, cluster, a) == {};
  }

  /** Of two positions of a longer log, the later one lies in the prefix only where the prefix has it. */
  lemma LaterInPrefix(short: seq<AttemptId>, long: seq<AttemptId>, a: nat, m: nat)
    requires short <= long && Distinct(long) && a < m < |long| && long[m] in short
    ensures m < |short| && short[a] == long[a] && short[m] == long[m]
  {
    var k := Position(short, long[m]);
    assert long[k] == long[m];
  }

  /** A row open for the name now, and created by an earlier time, was open for it then. */
  lemma StillOpenWasOpen(states: seq<State>, steps: seq<Step>, i: nat, j: nat, name: string, id: AttemptId)
    requires IsRun(states, steps) && i <= j <= |steps| && id in states[i].created && id in OpenFor(states[j].rows, name)
    ensures id in OpenFor(states[i].rows, name)
  {
    RunKeepsInv(states, steps, i);
    if id in states[i].rows {
      RowsAreWriteOnce(states, steps, i, j, id);
    } else {
      assert id in states[i].deleted;
      DeletedStays(states, steps, i, j, id);
      RunKeepsInv(states, steps, j);
      assert false;
    }
  }

  lemma {:induction false} DeletedStays(states: seq<State>, steps: seq<Step>, i: nat, j: nat, id: AttemptId)
    requires IsRun(states, steps) && i <= j <= |steps| && id in states[i].deleted
    ensures id in states[j].deleted
    decreases j
  {
    if i == j {
    } else {
      DeletedStays(states, steps, i, j - 1, id);
      assert states[j] == Apply(states[j - 1], steps[j - 1]);
    }
  }
}
