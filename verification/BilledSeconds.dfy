/**
 * What a cluster is billed against what it was used (sky/global_user_state.py). Stopping or terminating a
 * stopped cluster moves the end of its last interval, so over a run the two can differ.
 */
module BilledSeconds {
  import opened Prelude
  import opened UsageIntervals

  /** The operation ends the last interval of this history. */
  predicate Stops(db: Db, op: Op, h: Hash) {
    op.Remove? && op.name in db.clusters && db.clusters[op.name] == h && Stored(db, h) != []
  }

  /** It does so although that interval has ended, at an earlier second. */
  predicate StopsLate(db: Db, op: Op, h: Hash) {
    && Stops(db, op, h)
    && var last := Stored(db, h)[|Stored(db, h)| - 1];
       last.end.Some? && last.end.value < op.removedAt
  }

  /** The operation launches or refreshes the cluster of this history. */
  predicate Touches(db: Db, op: Op, h: Hash) {
    op.Update? && !Refused(db, op) && HashFor(db, op) == h
  }

  function StartOf(op: Op): int
    requires op.Update?
  {
    if op.isLaunch then op.now else op.later
  }

  /** Intervals that end at the first stop after their start, and stay so. */
  function NextUse(db: Db, op: Op, h: Hash, used: seq<Interval>): seq<Interval> {
    if Touches(db, op, h) then Resumed(used, StartOf(op))
    else if Stops(db, op, h) && used != [] && used[|used| - 1].end.None? then Ended(used, op.removedAt)
    else used
  }

  /** From each start to its first stop, over the first `k` operations. */
  function Use(dbs: seq<Db>, ops: seq<Op>, h: Hash, k: nat): seq<Interval>
    requires |dbs| == |ops| + 1 && k <= |ops|
  {
    if k == 0 then [] else NextUse(dbs[k - 1], ops[k - 1], h, Use(dbs, ops, h, k - 1))
  }

  /** The same starts, the same interval open if any, and no later ends. */
  ghost predicate Within(used: seq<Interval>, billed: seq<Interval>) {
    |used| == |billed| && forall i :: 0 <= i < |used| ==> IntervalWithin(used[i], billed[i])
  }

  predicate IntervalWithin(u: Interval, b: Interval) {
    && u.start == b.start && (u.end.Some? <==> b.end.Some?)
    && (u.end.Some? ==> u.start <= u.end.value <= b.end.value)
  }

  lemma SplitEqual(used: seq<Interval>, billed: seq<Interval>)
    requires |used| == |billed| > 0
    ensures var n := |used| - 1; used == billed <==> used[..n] == billed[..n] && used[n] == billed[n]
  {
    var n := |used| - 1;
    assert used == used[..n] + [used[n]] && billed == billed[..n] + [billed[n]];
  }

  /** What an operation does to the stored intervals. */
  function NextStored(db: Db, op: Op, h: Hash): seq<Interval> {
    if Touches(db, op, h) then Resumed(Stored(db, h), StartOf(op))
    else if Stops(db, op, h) then Ended(Stored(db, h), op.removedAt)
    else Stored(db, h)
  }

  lemma StoredStep(db: Db, op: Op, h: Hash)
    ensures Stored(Apply(db, op), h) == NextStored(db, op, h)
  {
  }

  lemma ResumedWithin(used: seq<Interval>, billed: seq<Interval>, start: int)
    requires Within(used, billed)
    ensures Within(Resumed(used, start), Resumed(billed, start))
    ensures Resumed(used, start) == Resumed(billed, start) <==> used == billed
  {
    var n := |used|;
    if n == 0 || used[n - 1].end.Some? {
      assert Resumed(used, start)[..n] == used && Resumed(billed, start)[..n] == billed;
    }
  }

  /** The first stop of the last interval. */
  lemma EndedWithin(used: seq<Interval>, billed: seq<Interval>, now: int)
    requires Within(used, billed) && used != [] && used[|used| - 1].end.None? && used[|used| - 1].start <= now
    ensures Within(Ended(used, now), Ended(billed, now))
    ensures Ended(used, now) == Ended(billed, now) <==> used == billed
  {
    var n := |used| - 1;
    assert IntervalWithin(used[n], billed[n]) && used[n] == billed[n];
    SplitEqual(used, billed);
    SplitEqual(Ended(used, now), Ended(billed, now));
    assert Ended(used, now)[..n] == used[..n] && Ended(billed, now)[..n] == billed[..n];
  }

  /** Any further stop of it. */
  lemma EndedAgainWithin(used: seq<Interval>, billed: seq<Interval>, now: int)
    requires Within(used, billed) && used != [] && billed[|used| - 1].end.Some? && billed[|used| - 1].end.value <= now
    ensures Within(used, Ended(billed, now))
    ensures used == Ended(billed, now) <==> used == billed && billed[|used| - 1].end.value == now
  {
    var n := |used| - 1;
    var next := Ended(billed, now);
    assert next[..n] == billed[..n] && next[n] == Interval(billed[n].start, Some(now));
    SplitEqual(used, billed);
    SplitEqual(used, next);
    assert IntervalWithin(used[n], billed[n]);
  }

  lemma UseStep(db: Db, clock: int, op: Op, h: Hash, used: seq<Interval>)
    requires DbOk(db, clock) && Timely(db, clock, op) && Within(used, Stored(db, h))
    ensures Within(NextUse(db, op, h, used), NextStored(db, op, h))
    ensures NextUse(db, op, h, used) == NextStored(db, op, h) <==> used == Stored(db, h) && !StopsLate(db, op, h)
  {
    var billed := Stored(db, h);
    if Touches(db, op, h) {
      ResumedWithin(used, billed, StartOf(op));
    } else if Stops(db, op, h) {
      assert IntervalWithin(used[|used| - 1], billed[|used| - 1]);
      StoredOrdered(db, clock, h);
      if used[|used| - 1].end.None? {
        EndedWithin(used, billed, op.removedAt);
      } else {
        EndedAgainWithin(used, billed, op.removedAt);
      }
    }
  }

  ghost predicate NoLateStop(dbs: seq<Db>, ops: seq<Op>, h: Hash, k: nat)
    requires |dbs| == |ops| + 1 && k <= |ops|
  {
    forall j {:trigger StopsLate(dbs[j], ops[j], h)} :: 0 <= j < k ==> !StopsLate(dbs[j], ops[j], h)
  }

  /** The same, step by step. */
  ghost predicate Punctual(dbs: seq<Db>, ops: seq<Op>, h: Hash, k: nat)
    requires |dbs| == |ops| + 1 && k <= |ops|
  {
    k == 0 || (Punctual(dbs, ops, h, k - 1) && !StopsLate(dbs[k - 1], ops[k - 1], h))
  }

  lemma {:induction false} PunctualIff(dbs: seq<Db>, ops: seq<Op>, h: Hash, k: nat)
    requires |dbs| == |ops| + 1 && k <= |ops|
    ensures Punctual(dbs, ops, h, k) <==> NoLateStop(dbs, ops, h, k)
  {
    if k == 0 {
    } else {
      PunctualIff(dbs, ops, h, k - 1);
    }
  }

  /** The use over the first `k` operations fits what is stored after them, and is it without a late stop. */
  ghost predicate UseFits(dbs: seq<Db>, ops: seq<Op>, h: Hash, k: nat)
    requires |dbs| == |ops| + 1 && k <= |ops|
  {
    && Within(Use(dbs, ops, h, k), Stored(dbs[k], h))
    && (Use(dbs, ops, h, k) == Stored(dbs[k], h) <==> Punctual(dbs, ops, h, k))
  }

  /** At operation `k` of a run: the state is sound, the operation timely, and this is what it does to the intervals. */
  lemma RunAt(dbs: seq<Db>, clocks: seq<int>, ops: seq<Op>, k: nat, h: Hash)
    requires IsRun(dbs, clocks, ops) && k < |ops|
    ensures DbOk(dbs[k], clocks[k]) && Timely(dbs[k], clocks[k], ops[k])
    ensures Stored(dbs[k + 1], h) == NextStored(dbs[k], ops[k], h)
  {
    RunKeepsOk(dbs, clocks, ops, k);
    assert IsStep(dbs, clocks, ops, k);
    StoredStep(dbs[k], ops[k], h);
  }

  lemma UseFitsNext(dbs: seq<Db>, clocks: seq<int>, ops: seq<Op>, k: nat, h: Hash)
    requires IsRun(dbs, clocks, ops) && 1 <= k <= |ops| && UseFits(dbs, ops, h, k - 1)
    ensures UseFits(dbs, ops, h, k)
  {
    RunAt(dbs, clocks, ops, k - 1, h);
    UseStep(dbs[k - 1], clocks[k - 1], ops[k - 1], h, Use(dbs, ops, h, k - 1));
  }

  lemma {:induction false} UseInRun(dbs: seq<Db>, clocks: seq<int>, ops: seq<Op>, k: nat, h: Hash)
    requires IsRun(dbs, clocks, ops) && k <= |ops|
    ensures UseFits(dbs, ops, h, k)
    decreases k
  {
    if k == 0 {
    } else {
      UseInRun(dbs, clocks, ops, k - 1, h);
      UseFitsNext(dbs, clocks, ops, k, h);
    }
  }

  lemma LengthWithin(u: Interval, b: Interval, now: int)
    requires IntervalWithin(u, b)
    ensures EndAt(u, now) - u.start <= EndAt(b, now) - b.start
    ensures EndAt(u, now) - u.start == EndAt(b, now) - b.start <==> u == b
  {
  }

  lemma {:induction false} DurationWithin(used: seq<Interval>, billed: seq<Interval>, now: int)
    requires Within(used, billed)
    ensures Duration(used, now) <= Duration(billed, now)
    ensures Duration(used, now) == Duration(billed, now) <==> used == billed
  {
    if used == [] {
    } else {
      var n := |used| - 1;
      assert forall i :: 0 <= i < n ==> IntervalWithin(used[..n][i], billed[..n][i]);
      DurationWithin(used[..n], billed[..n], now);
      LengthWithin(used[n], billed[n], now);
      SplitEqual(used, billed);
    }
  }

  lemma WithinOrdered(used: seq<Interval>, billed: seq<Interval>, clock: int)
    requires Within(used, billed) && Ordered(billed, clock)
    ensures Ordered(used, clock)
  {
    forall i, j | 0 <= i < j < |used| ensures used[i].end.Some? && used[i].end.value <= used[j].start {
      assert IntervalWithin(used[i], billed[i]) && IntervalWithin(used[j], billed[j]);
    }
    forall i | 0 <= i < |used| ensures IntervalWithin(used[i], billed[i]) {
    }
  }

  // ---------------------------------------------------------------------
  // The seconds of use, from the operations alone.

  predicate Concerns(db: Db, op: Op, h: Hash) {
    Touches(db, op, h) || Stops(db, op, h)
  }

  function TimeOf(op: Op): int {
    if op.Update? then StartOf(op) else op.removedAt
  }

  /** Of the operations that concern the cluster up to this second, the last one launches or refreshes it. */
  ghost predicate UsedAt(dbs: seq<Db>, ops: seq<Op>, h: Hash, k: nat, t: int)
    requires |dbs| == |ops| + 1 && k <= |ops|
  {
    exists j: nat :: j < k && IsLastUse(dbs, ops, h, k, t, j)
  }

  ghost predicate IsLastUse(dbs: seq<Db>, ops: seq<Op>, h: Hash, k: nat, t: int, j: nat)
    requires |dbs| == |ops| + 1 && j < k <= |ops|
  {
    && Touches(dbs[j], ops[j], h) && StartOf(ops[j]) <= t
    && forall i {:trigger Concerns(dbs[i], ops[i], h)} ::
         j < i < k && Concerns(dbs[i], ops[i], h) ==> t < TimeOf(ops[i])
  }

  /** What one more operation changes. */
  predicate UsedAfter(db: Db, op: Op, h: Hash, t: int, before: bool) {
    if !Concerns(db, op, h) || t < TimeOf(op) then before else op.Update?
  }

  lemma UsedAtStep(dbs: seq<Db>, ops: seq<Op>, h: Hash, k: nat, t: int)
    requires |dbs| == |ops| + 1 && 1 <= k <= |ops|
    ensures UsedAt(dbs, ops, h, k, t) <==> UsedAfter(dbs[k - 1], ops[k - 1], h, t, UsedAt(dbs, ops, h, k - 1, t))
  {
    var db, op := dbs[k - 1], ops[k - 1];
    forall j: nat | j < k - 1
      ensures IsLastUse(dbs, ops, h, k, t, j)
         <==> IsLastUse(dbs, ops, h, k - 1, t, j) && (Concerns(db, op, h) ==> t < TimeOf(op))
    {
      LastUseStep(dbs, ops, h, k, t, j);
    }
    assert IsLastUse(dbs, ops, h, k, t, k - 1) <==> Touches(db, op, h) && StartOf(op) <= t;
    if j: nat :| j < k && IsLastUse(dbs, ops, h, k, t, j) {
      assert j == k - 1 || IsLastUse(dbs, ops, h, k - 1, t, j);
    }
    var n := k - 1;
    if j: nat :| j < n && IsLastUse(dbs, ops, h, n, t, j) {
      assert !Concerns(db, op, h) || t < TimeOf(op) ==> IsLastUse(dbs, ops, h, k, t, j);
    }
  }

  lemma LastUseStep(dbs: seq<Db>, ops: seq<Op>, h: Hash, k: nat, t: int, j: nat)
    requires |dbs| == |ops| + 1 && j < k - 1 && k <= |ops|
    ensures IsLastUse(dbs, ops, h, k, t, j)
       <==> IsLastUse(dbs, ops, h, k - 1, t, j) && (Concerns(dbs[k - 1], ops[k - 1], h) ==> t < TimeOf(ops[k - 1]))
  {
  }

  /** From some start on and before its end, if it has one. */
  ghost predicate Covers(ivs: seq<Interval>, t: int) {
    exists i :: 0 <= i < |ivs| && CoveredBy(ivs[i], t)
  }

  predicate CoveredBy(iv: Interval, t: int) {
    iv.start <= t && (iv.end.Some? ==> t < iv.end.value)
  }

  lemma CoversPush(ivs: seq<Interval>, iv: Interval, t: int)
    ensures Covers(ivs + [iv], t) <==> Covers(ivs, t) || CoveredBy(iv, t)
  {
    var more := ivs + [iv];
    assert more[|ivs|] == iv;
    if i :| 0 <= i < |ivs| && CoveredBy(ivs[i], t) {
      assert more[i] == ivs[i];
    }
    if i :| 0 <= i < |more| && CoveredBy(more[i], t) {
      assert i < |ivs| ==> more[i] == ivs[i];
    }
  }

  /** All but the last have ended, before the last one started and before now. */
  lemma EndsBefore(used: seq<Interval>, clock: int, i: nat)
    requires Ordered(used, clock) && i < |used| - 1
    ensures used[i].end.Some? && used[i].end.value <= used[|used| - 1].start && used[i].end.value <= clock
  {
  }

  /** Nothing closed covers what comes after it. */
  lemma CoversLast(used: seq<Interval>, clock: int, t: int)
    requires used != [] && Ordered(used, clock) && (used[|used| - 1].start <= t || clock <= t)
    ensures Covers(used, t) <==> CoveredBy(used[|used| - 1], t)
  {
    var n := |used| - 1;
    forall i | 0 <= i < n ensures !CoveredBy(used[i], t) {
      EndsBefore(used, clock, i);
    }
  }

  lemma ResumedCovers(used: seq<Interval>, clock: int, start: int, t: int)
    requires Ordered(used, clock) && clock <= start
    ensures Covers(Resumed(used, start), t) <==> start <= t || Covers(used, t)
  {
    if used == [] || used[|used| - 1].end.Some? {
      CoversPush(used, Interval(start, None), t);
    } else if start <= t {
      CoversLast(used, clock, t);
    }
  }

  lemma StoppedCovers(used: seq<Interval>, clock: int, stop: int, t: int)
    requires used != [] && Ordered(used, clock) && clock <= stop
    ensures Covers(if used[|used| - 1].end.None? then Ended(used, stop) else used, t) <==> t < stop && Covers(used, t)
  {
    var n := |used| - 1;
    if used[n].end.None? {
      CoversPush(used[..n], used[n], t);
      CoversPush(used[..n], Interval(used[n].start, Some(stop)), t);
      assert used == used[..n] + [used[n]];
    }
    if stop <= t {
      EarlierEnded(used, clock, t);
    }
  }

  lemma NextUseCovers(db: Db, clock: int, op: Op, h: Hash, used: seq<Interval>, t: int)
    requires Ordered(used, clock) && Timely(db, clock, op) && (Stops(db, op, h) ==> used != [])
    ensures Covers(NextUse(db, op, h, used), t) <==> UsedAfter(db, op, h, t, Covers(used, t))
  {
    if Touches(db, op, h) {
      ResumedCovers(used, clock, StartOf(op), t);
    } else if Stops(db, op, h) {
      StoppedCovers(used, clock, op.removedAt, t);
    }
  }

  lemma EarlierEnded(used: seq<Interval>, clock: int, t: int)
    requires used != [] && Ordered(used, clock) && clock <= t
    ensures !Covers(used[..|used| - 1], t) && (used[|used| - 1].end.Some? ==> !Covers(used, t))
  {
    var n := |used| - 1;
    forall i | 0 <= i < n ensures used[i].end.Some? && !CoveredBy(used[i], t) {
      EndsBefore(used, clock, i);
    }
    assert forall i :: 0 <= i < n ==> used[..n][i] == used[i];
  }

  /** The intervals of use cover exactly the seconds at which the last operation is a launch or refresh. */
  lemma {:induction false} UseCovers(dbs: seq<Db>, clocks: seq<int>, ops: seq<Op>, k: nat, h: Hash, t: int)
    requires IsRun(dbs, clocks, ops) && k <= |ops|
    ensures Covers(Use(dbs, ops, h, k), t) <==> UsedAt(dbs, ops, h, k, t)
    decreases k
  {
    if k == 0 {
    } else {
      UseCovers(dbs, clocks, ops, k - 1, h, t);
      UsedAtStep(dbs, ops, h, k, t);
      UseCoversNext(dbs, clocks, ops, k, h, t);
    }
  }

  lemma UseCoversNext(dbs: seq<Db>, clocks: seq<int>, ops: seq<Op>, k: nat, h: Hash, t: int)
    requires IsRun(dbs, clocks, ops) && 1 <= k <= |ops|
    ensures Covers(Use(dbs, ops, h, k), t)
       <==> UsedAfter(dbs[k - 1], ops[k - 1], h, t, Covers(Use(dbs, ops, h, k - 1), t))
  {
    var used := Use(dbs, ops, h, k - 1);
    UseInRun(dbs, clocks, ops, k - 1, h);
    RunAt(dbs, clocks, ops, k - 1, h);
    StoredOrdered(dbs[k - 1], clocks[k - 1], h);
    WithinOrdered(used, Stored(dbs[k - 1], h), clocks[k - 1]);
    NextUseCovers(dbs[k - 1], clocks[k - 1], ops[k - 1], h, used, t);
  }

  /**
   * At every point of every run, a cluster is billed at least the seconds at which the last operation on it is
   * a launch or refresh, and exactly those if and only if no stop or termination hit it when it had been
   * stopped at an earlier second.
   */
  lemma BilledIsUsedIff(dbs: seq<Db>, clocks: seq<int>, ops: seq<Op>, k: nat, h: Hash, now: int)
    returns (seconds: set<int>)
    requires IsRun(dbs, clocks, ops) && k <= |ops| && h in dbs[k].history && clocks[k] <= now
    ensures forall t :: t in seconds <==> t < now && UsedAt(dbs, ops, h, k, t)
    ensures |seconds| <= Duration(dbs[k].history[h].intervals, now)
    ensures Duration(dbs[k].history[h].intervals, now) == |seconds| <==> NoLateStop(dbs, ops, h, k)
  {
    var used, billed := Use(dbs, ops, h, k), dbs[k].history[h].intervals;
    RunKeepsOk(dbs, clocks, ops, k);
    UseInRun(dbs, clocks, ops, k, h);
    PunctualIff(dbs, ops, h, k);
    WithinOrdered(used, billed, clocks[k]);
    DurationCountsSeconds(used, clocks[k], now);
    DurationWithin(used, billed, now);
    seconds := SecondsInUse(used, now);
    forall t ensures t in seconds <==> t < now && UsedAt(dbs, ops, h, k, t) {
      UseCovers(dbs, clocks, ops, k, h, t);
      SecondsAreCovered(used, clocks[k], now, t);
    }
  }

  lemma SecondsAreCovered(used: seq<Interval>, clock: int, now: int, t: int)
    requires used != [] && Ordered(used, clock) && clock <= now
    ensures t in SecondsInUse(used, now) <==> t < now && Covers(used, t)
  {
    if i :| 0 <= i < |used| && CoveredBy(used[i], t) {
      assert i > 0 ==> used[0].end.Some? && used[0].start <= used[0].end.value <= used[i].start;
    }
  }
}
