/**
 * What becomes of finished launch attempts over whole runs (sky/global_user_state.py): who claims them,
 * how often, and when they may be deleted.
 */
module LaunchClaims {
  import opened Prelude
  import opened LaunchAttempts
  import opened LaunchRuns

  // ---------------------------------------------------------------------
  // Claims.

  ghost predicate ClaimsAt(states: seq<State>, steps: seq<Step>, k: nat, id: AttemptId)
    requires |states| == |steps| + 1 && k < |steps|
  {
    steps[k].ClaimStep? && id in Returned(states[k].rows, steps[k])
  }

  /** No attempt is returned by two claims of the run. */
  ghost predicate ClaimsDisjoint(states: seq<State>, steps: seq<Step>)
    requires |states| == |steps| + 1
  {
    forall j, k, id :: 0 <= j < k < |steps| && ClaimsAt(states, steps, j, id) ==> !ClaimsAt(states, steps, k, id)
  }

  /** The update of step `j` stamped this row with the time `now`. */
  predicate WinsAt(steps: seq<Step>, j: nat, id: AttemptId, now: real)
    requires j < |steps|
  {
    steps[j].ClaimStep? && steps[j].now == now && id in steps[j].winners
  }

  /** An earlier claim used the time stamp of claim `k` on a row that is still in the table. */
  ghost predicate ReusesStamp(states: seq<State>, steps: seq<Step>, k: nat)
    requires |states| == |steps| + 1 && k < |steps| && steps[k].ClaimStep?
  {
    exists j, id :: 0 <= j < k && id in states[k].rows && WinsAt(steps, j, id, steps[k].now)
  }

  /** A live row carries a claim's time stamp exactly when an earlier claim of that time won it. */
  lemma {:induction false} ObservedByClaim(states: seq<State>, steps: seq<Step>, k: nat, id: AttemptId, now: real)
    requires IsRun(states, steps) && k <= |steps| && id in states[k].rows
    ensures states[k].rows[id].observedAt == Some(now) <==> exists j :: 0 <= j < k && WinsAt(steps, j, id, now)
    decreases k
  {
    if k == 0 {
    } else {
      var s, step := states[k - 1], steps[k - 1];
      RunKeepsInv(states, steps, k - 1);
      assert Enabled(s, step) && states[k] == Apply(s, step);
      assert WinsAt(steps, k - 1, id, now) ==> states[k].rows[id].observedAt == Some(now);
      if id in s.rows {
        ObservedByClaim(states, steps, k - 1, id, now);
        StampedByStep(s, step, id, now);
      } else {
        NewRowsAreCreated(s, step, id);
        forall j | 0 <= j < k ensures !WinsAt(steps, j, id, now) {
          NeverBeforeCreated(states, steps, j, k - 1, id);
        }
      }
    }
  }

  lemma StampedByStep(s: State, step: Step, id: AttemptId, now: real)
    requires Enabled(s, step) && id in s.rows && id in Apply(s, step).rows && IdsAccounted(s)
    ensures Apply(s, step).rows[id].observedAt == Some(now)
       <==> s.rows[id].observedAt == Some(now) || (step.ClaimStep? && step.now == now && id in step.winners)
  {
    assert id in s.created;
  }

  /** Nothing claims a row that is not there yet. */
  lemma NeverBeforeCreated(states: seq<State>, steps: seq<Step>, j: nat, k: nat, id: AttemptId)
    requires IsRun(states, steps) && j <= k < |steps| && Inserts(states[k], steps[k]) && id == steps[k].newId
    ensures !(steps[j].ClaimStep? && id in steps[j].winners)
  {
    assert Enabled(states[j], steps[j]) && Enabled(states[k], steps[k]);
    CreatedGrows(states, steps, j, k);
    RunKeepsInv(states, steps, j);
    assert id !in states[j].created;
    assert id !in states[j].rows;
  }

  /** Claimed once, a row stays marked as long as it lives. */
  lemma ClaimedStaysObserved(states: seq<State>, steps: seq<Step>, j: nat, k: nat, id: AttemptId)
    requires IsRun(states, steps) && j < k < |steps| && ClaimsAt(states, steps, j, id) && id in states[k].rows
    ensures states[k].rows[id].observedAt.Some?
  {
    assert states[j + 1] == Apply(states[j], steps[j]);
    CreatedGrows(states, steps, j + 1, k);
    assert id in states[j + 1].claims[|states[j].claims|].returned;
    assert id in states[k].claims[|states[j].claims|].returned;
    assert EverClaimed(states[k], id);
    RunKeepsInv(states, steps, k);
    assert EverObserved(states[k], id);
  }

  /** What is claimed is in the table and closed. */
  lemma ClaimedIsClosed(states: seq<State>, steps: seq<Step>, k: nat, id: AttemptId)
    requires IsRun(states, steps) && k < |steps| && ClaimsAt(states, steps, k, id)
    ensures id in states[k].rows && states[k].rows[id].outcome.Some?
  {
    RunKeepsInv(states, steps, k);
    assert Enabled(states[k], steps[k]);
    ReturnedMeans(states[k], steps[k], id);
  }

  /** A claim returns a row for the second time only by reading back a time stamp that was used before. */
  lemma SecondClaimReuses(states: seq<State>, steps: seq<Step>, j: nat, k: nat, id: AttemptId)
    requires IsRun(states, steps) && j < k < |steps| && ClaimsAt(states, steps, j, id) && ClaimsAt(states, steps, k, id)
    ensures steps[k].readBack && ReusesStamp(states, steps, k)
  {
    assert Enabled(states[k], steps[k]);
    ClaimedIsClosed(states, steps, k, id);
    ClaimedStaysObserved(states, steps, j, k, id);
    ReturnedMeans(states[k], steps[k], id);
    assert id !in steps[k].winners;
    ObservedByClaim(states, steps, k, id, steps[k].now);
    var i :| 0 <= i < k && WinsAt(steps, i, id, steps[k].now);
  }

  /** Reading back a time stamp that was used before returns the earlier claim's rows again. */
  lemma ReuseClaimsAgain(states: seq<State>, steps: seq<Step>, k: nat) returns (j: nat, id: AttemptId)
    requires IsRun(states, steps) && k < |steps| && steps[k].ClaimStep? && steps[k].readBack
    requires ReusesStamp(states, steps, k)
    ensures j < k && ClaimsAt(states, steps, j, id) && ClaimsAt(states, steps, k, id)
  {
    j, id :| 0 <= j < k && id in states[k].rows && WinsAt(steps, j, id, steps[k].now);
    assert Enabled(states[j], steps[j]) && Enabled(states[k], steps[k]);
    ObservedByClaim(states, steps, k, id, steps[k].now);
    ReturnedMeans(states[j], steps[j], id);
    ReturnedMeans(states[k], steps[k], id);
  }

  /**
   * Over every interleaving, no attempt is returned by two claims if and only if no claim that reads its
   * rows back by time stamp shares the stamp with an earlier claim some row of which is still there.
   */
  lemma ClaimsDisjointIff(states: seq<State>, steps: seq<Step>)
    requires IsRun(states, steps)
    ensures ClaimsDisjoint(states, steps)
       <==> forall k :: 0 <= k < |steps| && steps[k].ClaimStep? && steps[k].readBack ==> !ReusesStamp(states, steps, k)
  {
    forall k | 0 <= k < |steps| && steps[k].ClaimStep? && steps[k].readBack && ReusesStamp(states, steps, k)
      ensures !ClaimsDisjoint(states, steps)
    {
      var j, id := ReuseClaimsAgain(states, steps, k);
    }
    if !ClaimsDisjoint(states, steps) {
      var j, k, id :| 0 <= j < k < |steps| && ClaimsAt(states, steps, j, id) && ClaimsAt(states, steps, k, id);
      SecondClaimReuses(states, steps, j, k, id);
    }
  }

  /** No two claims of the run that read back, or are read back, share a clock reading. */
  ghost predicate TokensDistinct(steps: seq<Step>) {
    forall j, k :: 0 <= j < k < |steps| && steps[j].ClaimStep? && steps[k].ClaimStep? && steps[k].readBack
      ==> steps[j].now != steps[k].now
  }

  /** With distinct tokens, as with RETURNING, an attempt is claimed at most once and only when closed. */
  lemma ClaimedAtMostOnce(states: seq<State>, steps: seq<Step>, j: nat, k: nat, id: AttemptId)
    requires IsRun(states, steps) && TokensDistinct(steps) && j < |steps| && k < |steps|
    requires ClaimsAt(states, steps, j, id) && ClaimsAt(states, steps, k, id)
    ensures j == k
    ensures id in states[j].rows && states[j].rows[id].outcome.Some?
  {
    ClaimedIsClosed(states, steps, j, id);
    ClaimsDisjointIff(states, steps);
  }

  /** A concrete run in which two read-back claims at one instant return the same attempt. */
  lemma ReadBackCanClaimTwice() returns (states: seq<State>, steps: seq<Step>)
    ensures IsRun(states, steps) && |steps| == 4
    ensures ClaimsAt(states, steps, 2, 0) && ClaimsAt(states, steps, 3, 0)
  {
    var s0 := OpenStep("c", None, None, 0.0, 0, 0);
    var s1 := CloseStep(0, Failed);
    var s2 := ClaimStep(500, 9.0, {0}, true);
    var s3 := ClaimStep(500, 9.0, {}, true);
    var row := NewRow("c", None, None, 0, 0.0);
    var a1 := Apply(INIT, s0);
    assert a1 == State(map[0 := row], [0], [], [], map[], map[]);
    var a2 := Apply(a1, s1);
    assert a2.rows == map[0 := row.(outcome := Some(Failed))];
    var a3 := Apply(a2, s2);
    ReturnedMeans(a2, s2, 0);
    var a4 := Apply(a3, s3);
    ReturnedMeans(a3, s3, 0);
    FourStepRun(s0, a1, s1, a2, s2, a3, s3, a4);
    states, steps := [INIT, a1, a2, a3, a4], [s0, s1, s2, s3];
  }

  // ---------------------------------------------------------------------
  // Sweeping.

  /** In every run a sweep leaves no open row that started before its cutoff, and touches no other. */
  lemma SweepInRun(states: seq<State>, steps: seq<Step>, k: nat, id: AttemptId)
    requires IsRun(states, steps) && k < |steps| && steps[k].SweepStep? && id in states[k].rows
    ensures id in states[k + 1].rows
    ensures states[k + 1].rows[id].outcome == None ==> steps[k].cutoff <= states[k].rows[id].start
    ensures states[k].rows[id].outcome == None && states[k].rows[id].start < steps[k].cutoff ==>
      states[k + 1].rows[id] == states[k].rows[id].(outcome := Some(Abandoned))
    ensures states[k].rows[id].outcome.Some? || steps[k].cutoff <= states[k].rows[id].start ==>
      states[k + 1].rows[id] == states[k].rows[id]
  {
    StepOf(states, steps, k);
    SweepMeans(states[k].rows, steps[k].cutoff);
  }

  // ---------------------------------------------------------------------
  // Retention.

  /** In every run retention deletes exactly the closed rows past the window that are claimed or past twice of it. */
  lemma RetentionInRun(states: seq<State>, steps: seq<Step>, k: nat, id: AttemptId)
    requires IsRun(states, steps) && k < |steps| && steps[k].RetainStep? && id in states[k].rows
    ensures var row := states[k].rows[id];
      id !in states[k + 1].rows <==>
        && row.outcome.Some? && row.start < steps[k].now - steps[k].hours * 3600.0
        && (EverClaimed(states[k], id) || row.start < steps[k].later - steps[k].hours * 7200.0)
    ensures id in states[k + 1].rows ==> states[k + 1].rows[id] == states[k].rows[id]
  {
    RunKeepsInv(states, steps, k);
    StepOf(states, steps, k);
    assert EverClaimed(states[k], id) <==> EverObserved(states[k], id);
  }

  /**
   * A finished attempt is never lost silently: at any later time it is claimed, or still in the table, or
   * it was deleted unclaimed after starting before the hard cutoff, twice the retention window back.
   */
  lemma FinishedIsAccounted(states: seq<State>, steps: seq<Step>, i: nat, j: nat, id: AttemptId)
    requires IsRun(states, steps) && i <= j <= |steps| && id in states[i].rows && states[i].rows[id].outcome.Some?
    ensures EverClaimed(states[j], id) || id in states[j].rows
         || (id in states[j].deleted && states[j].deleted[id].row.start < states[j].deleted[id].hardCutoff)
  {
    RunKeepsInv(states, steps, i);
    RunKeepsInv(states, steps, j);
    CreatedGrows(states, steps, i, j);
    assert id in states[i].created && id in states[j].created;
  }

  /** A row goes only by retention, closed, past the window, and past twice the window if nobody claimed it. */
  lemma DeletionIsRetention(states: seq<State>, steps: seq<Step>, k: nat, id: AttemptId)
    requires IsRun(states, steps) && k < |steps| && id in states[k].rows && id !in states[k + 1].rows
    ensures steps[k].RetainStep? && states[k].rows[id].outcome.Some?
    ensures states[k].rows[id].start < steps[k].now - steps[k].hours * 3600.0
    ensures !EverClaimed(states[k], id) ==> states[k].rows[id].start < steps[k].later - steps[k].hours * 7200.0
  {
    RunKeepsInv(states, steps, k);
    assert states[k + 1] == Apply(states[k], steps[k]);
    StepExtendsRows(states[k], steps[k], id);
  }
}
