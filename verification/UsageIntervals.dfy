/**
 * Cluster usage intervals (sky/global_user_state.py): what launching, restarting, stopping and
 * terminating do to the billed intervals and to the two columns derived from them.
 */
module UsageIntervals {
  import opened Prelude

  /** A stretch of use in whole seconds; an open one has no end yet. */
  datatype Interval = Interval(start: int, end: Option<int>)

  /** One row of the cluster history table. */
  datatype History = History(intervals: seq<Interval>, lastActivity: Option<int>, launchedAt: Option<int>)

  type Hash = nat

  /** Live clusters by name, and the history rows by cluster hash. */
  datatype Db = Db(clusters: map<string, Hash>, history: map<Hash, History>)

  // ---------------------------------------------------------------------
  // Derived columns.

  function LaunchTime(ivs: seq<Interval>): Option<int> {
    if ivs == [] then None else Some(ivs[0].start)
  }

  function LastActivity(ivs: seq<Interval>): Option<int> {
    if ivs == [] then None
    else
      var last := ivs[|ivs| - 1];
      if last.end.Some? then last.end else Some(last.start)
  }

  // ---------------------------------------------------------------------
  // Well-formed histories.

  /** Ordered, non-overlapping, only the last one possibly open, and nothing in the future. */
  ghost predicate Ordered(ivs: seq<Interval>, clock: int) {
    && (forall i :: 0 <= i < |ivs| ==> ivs[i].start <= clock)
    && (forall i :: 0 <= i < |ivs| && ivs[i].end.Some? ==> ivs[i].start <= ivs[i].end.value <= clock)
    && (forall i, j :: 0 <= i < j < |ivs| ==> ivs[i].end.Some? && ivs[i].end.value <= ivs[j].start)
  }

  ghost predicate HistoryOk(h: History, clock: int) {
    h.intervals != [] && Ordered(h.intervals, clock)
    && h.lastActivity == LastActivity(h.intervals) && h.launchedAt == LaunchTime(h.intervals)
  }

  ghost predicate DbOk(db: Db, clock: int) {
    && (forall name :: name in db.clusters ==> db.clusters[name] in db.history)
    && (forall h :: h in db.history ==> HistoryOk(db.history[h], clock))
  }

  // ---------------------------------------------------------------------
  // The two operations.

  datatype Op =
    /** Launch or refresh; `now` is read first and `later` when no launch time was taken. */
    | Update(name: string, isLaunch: bool, existing: Option<Hash>, now: int, later: int, newHash: Hash)
    /** Stop, or terminate and forget the cluster. */
    | Remove(name: string, terminate: bool, removedAt: int)

  function Stored(db: Db, h: Hash): seq<Interval> {
    if h in db.history then db.history[h].intervals else []
  }

  /** A new interval is opened at the first launch and after a stop; a running one is left alone. */
  function Resumed(ivs: seq<Interval>, start: int): seq<Interval> {
    if ivs == [] || ivs[|ivs| - 1].end.Some? then ivs + [Interval(start, None)] else ivs
  }

  /** The last interval ends now, whether or not it had already ended. */
  function Ended(ivs: seq<Interval>, now: int): seq<Interval>
    requires ivs != []
  {
    ivs[..|ivs| - 1] + [Interval(ivs[|ivs| - 1].start, Some(now))]
  }

  function HashFor(db: Db, op: Op): Hash
    requires op.Update?
  {
    if op.name in db.clusters then db.clusters[op.name] else op.newHash
  }

  /** A caller that insists on a hash is refused when the live cluster has another one. */
  predicate Refused(db: Db, op: Op)
    requires op.Update?
  {
    op.existing.Some? && (op.name !in db.clusters || db.clusters[op.name] != op.existing.value)
  }

  function Apply(db: Db, op: Op): Db {
    match op
    case Update(name, isLaunch, existing, now, later, newHash) =>
      if Refused(db, op) then db
      else
        var h := HashFor(db, op);
        var ivs := Resumed(Stored(db, h), if isLaunch then now else later);
        Db(db.clusters[name := h], db.history[h := History(ivs, LastActivity(ivs), LaunchTime(ivs))])
    case Remove(name, terminate, now) =>
      var history :=
        if name in db.clusters && Stored(db, db.clusters[name]) != [] then
          var h := db.clusters[name];
          var ivs := Ended(Stored(db, h), now);
          db.history[h := db.history[h].(intervals := ivs, lastActivity := LastActivity(ivs))]
        else db.history;
      Db(if terminate then db.clusters - {name} else db.clusters, history)
  }

  /** The clock never runs backwards and new hashes are new. */
  ghost predicate Timely(db: Db, clock: int, op: Op) {
    match op
    case Update(_, _, _, now, later, newHash) => clock <= now <= later && newHash !in db.history
    case Remove(_, _, now) => clock <= now
  }

  function ClockAfter(op: Op): int {
    match op
    case Update(_, _, _, _, later, _) => later
    case Remove(_, _, now) => now
  }

  lemma OrderedLater(ivs: seq<Interval>, clock: int, later: int)
    requires Ordered(ivs, clock) && clock <= later
    ensures Ordered(ivs, later)
  {
  }

  lemma ResumedOrdered(ivs: seq<Interval>, clock: int, start: int)
    requires Ordered(ivs, clock) && clock <= start
    ensures Ordered(Resumed(ivs, start), start)
  {
    OrderedLater(ivs, clock, start);
    var next := Resumed(ivs, start);
    forall i, j | 0 <= i < j < |next| ensures next[i].end.Some? && next[i].end.value <= next[j].start {
      assert next[i] == ivs[i];
    }
  }

  lemma EndedOrdered(ivs: seq<Interval>, clock: int, now: int)
    requires ivs != [] && Ordered(ivs, clock) && clock <= now
    ensures Ordered(Ended(ivs, now), now) && LaunchTime(Ended(ivs, now)) == LaunchTime(ivs)
  {
    var next := Ended(ivs, now);
    assert forall i :: 0 <= i < |ivs| - 1 ==> next[i] == ivs[i];
  }

  lemma StoredOrdered(db: Db, clock: int, h: Hash)
    requires DbOk(db, clock)
    ensures Ordered(Stored(db, h), clock)
  {
  }

  /** Every operation keeps every history well formed, columns included. */
  lemma ApplyKeepsOk(db: Db, clock: int, op: Op)
    requires DbOk(db, clock) && Timely(db, clock, op)
    ensures DbOk(Apply(db, op), ClockAfter(op)) && clock <= ClockAfter(op)
  {
    var after, later := Apply(db, op), ClockAfter(op);
    forall h | h in after.history ensures HistoryOk(after.history[h], later) {
      if h in db.history && after.history[h] == db.history[h] {
        OrderedLater(db.history[h].intervals, clock, later);
      } else if op.Update? {
        var start := if op.isLaunch then op.now else op.later;
        StoredOrdered(db, clock, h);
        ResumedOrdered(Stored(db, h), clock, start);
        OrderedLater(after.history[h].intervals, start, later);
      } else {
        EndedOrdered(db.history[h].intervals, clock, later);
      }
    }
  }

  // ---------------------------------------------------------------------
  // Runs.

  ghost predicate IsRun(dbs: seq<Db>, clocks: seq<int>, ops: seq<Op>) {
    && |dbs| == |clocks| == |ops| + 1 && dbs[0] == Db(map[], map[])
    && forall k {:trigger IsStep(dbs, clocks, ops, k)} :: 0 <= k < |ops| ==> IsStep(dbs, clocks, ops, k)
  }

  ghost predicate IsStep(dbs: seq<Db>, clocks: seq<int>, ops: seq<Op>, k: nat)
    requires |dbs| == |clocks| == |ops| + 1 && k < |ops|
  {
    Timely(dbs[k], clocks[k], ops[k]) && dbs[k + 1] == Apply(dbs[k], ops[k]) && clocks[k + 1] == ClockAfter(ops[k])
  }

  /** At every point of every run all histories are ordered and their columns are up to date. */
  lemma {:induction false} RunKeepsOk(dbs: seq<Db>, clocks: seq<int>, ops: seq<Op>, k: nat)
    requires IsRun(dbs, clocks, ops) && k <= |ops|
    ensures DbOk(dbs[k], clocks[k])
  {
    if k == 0 {
    } else {
      RunKeepsOk(dbs, clocks, ops, k - 1);
      assert IsStep(dbs, clocks, ops, k - 1);
      ApplyKeepsOk(dbs[k - 1], clocks[k - 1], ops[k - 1]);
    }
  }

  // ---------------------------------------------------------------------
  // Duration.

  function EndAt(iv: Interval, now: int): int {
    if iv.end.Some? then iv.end.value else now
  }

  function Duration(ivs: seq<Interval>, now: int): int {
    if ivs == [] then 0
    else Duration(ivs[..|ivs| - 1], now) + (EndAt(ivs[|ivs| - 1], now) - ivs[|ivs| - 1].start)
  }

  /** Only the last interval is open, which is what the source asserts. */
  predicate OnlyLastOpen(ivs: seq<Interval>) {
    forall i :: 0 <= i < |ivs| - 1 ==> ivs[i].end.Some?
  }

  /** None where the source fails its assertion. */
  method GetDuration(ivs: seq<Interval>, now: int) returns (total: Option<int>)
    ensures total.Some? <==> OnlyLastOpen(ivs)
    ensures total.Some? ==> total.value == Duration(ivs, now)
  {
    var sum := 0;
    for i := 0 to |ivs|
      invariant sum == Duration(ivs[..i], now)
      invariant forall j :: 0 <= j < i && j < |ivs| - 1 ==> ivs[j].end.Some?
    {
      assert ivs[..i + 1][..i] == ivs[..i];
      var end := now;
      if ivs[i].end.None? {
        if i != |ivs| - 1 {
          return None;
        }
      } else {
        end := ivs[i].end.value;
      }
      sum := sum + (end - ivs[i].start);
    }
    assert ivs[..|ivs|] == ivs;
    total := Some(sum);
  }

  function Range(a: int, b: int): (r: set<int>)
    ensures forall t :: t in r <==> a <= t < b
    decreases b - a
  {
    if b <= a then {} else Range(a, b - 1) + {b - 1}
  }

  lemma {:induction false} RangeSize(a: int, b: int)
    requires a <= b
    ensures |Range(a, b)| == b - a
    decreases b - a
  {
    if a == b {
    } else {
      RangeSize(a, b - 1);
    }
  }

  /** From some start on and before its end, or before now where it has none. */
  ghost predicate InUse(ivs: seq<Interval>, now: int, t: int) {
    exists i :: 0 <= i < |ivs| && ivs[i].start <= t && t < (if ivs[i].end.Some? then ivs[i].end.value else now)
  }

  /** The seconds since the first start during which the cluster was in use. */
  ghost function SecondsInUse(ivs: seq<Interval>, now: int): set<int>
    requires ivs != []
  {
    set t | ivs[0].start <= t < now && InUse(ivs, now, t)
  }

  /** A duration counts every second of use once: it is the number of seconds in use. */
  lemma {:induction false} DurationCountsSeconds(ivs: seq<Interval>, clock: int, now: int)
    requires ivs != [] && Ordered(ivs, clock) && clock <= now
    ensures Duration(ivs, now) == |SecondsInUse(ivs, now)|
    decreases |ivs|
  {
    var n := |ivs| - 1;
    RangeSize(ivs[n].start, EndAt(ivs[n], now));
    if n == 0 {
      assert ivs[..0] == [];
      OneInterval(ivs[0], now);
      assert ivs == [ivs[0]];
    } else {
      DurationCountsSeconds(ivs[..n], clock, now);
      SecondsSplit(ivs, clock, now);
    }
  }

  lemma OneInterval(iv: Interval, now: int)
    requires EndAt(iv, now) <= now
    ensures SecondsInUse([iv], now) == Range(iv.start, EndAt(iv, now))
  {
    forall t ensures InUse([iv], now, t) <==> iv.start <= t < EndAt(iv, now) {
      assert [iv][0] == iv;
    }
  }

  /** The last interval adds its own seconds and repeats none. */
  lemma SecondsSplit(ivs: seq<Interval>, clock: int, now: int)
    requires |ivs| >= 2 && Ordered(ivs, clock) && clock <= now
    ensures var n := |ivs| - 1; var last := Range(ivs[n].start, EndAt(ivs[n], now));
      SecondsInUse(ivs, now) == SecondsInUse(ivs[..n], now) + last && SecondsInUse(ivs[..n], now) !! last
  {
    var n := |ivs| - 1;
    forall t
      ensures t in SecondsInUse(ivs, now)
         <==> t in SecondsInUse(ivs[..n], now) || ivs[n].start <= t < EndAt(ivs[n], now)
    {
      InUseSplit(ivs, now, t);
    }
    forall t | t in SecondsInUse(ivs[..n], now) ensures t < ivs[n].start {
      var i :| 0 <= i < n && ivs[..n][i].start <= t < EndAt(ivs[..n][i], now);
      assert ivs[i].end.Some? && ivs[i].end.value <= ivs[n].start;
    }
  }

  lemma InUseSplit(ivs: seq<Interval>, now: int, t: int)
    requires ivs != []
    ensures InUse(ivs, now, t)
       <==> InUse(ivs[..|ivs| - 1], now, t) || ivs[|ivs| - 1].start <= t < EndAt(ivs[|ivs| - 1], now)
  {
    var n := |ivs| - 1;
    if InUse(ivs[..n], now, t) {
      var i :| 0 <= i < n && ivs[..n][i].start <= t < EndAt(ivs[..n][i], now);
      assert ivs[i].start <= t < EndAt(ivs[i], now);
    }
    if InUse(ivs, now, t) {
      var i :| 0 <= i < |ivs| && ivs[i].start <= t < EndAt(ivs[i], now);
      assert i < n ==> ivs[..n][i] == ivs[i];
    }
  }

  /** At every point of every run a duration query succeeds and stays between 0 and the age of the cluster. */
  lemma DurationInRun(dbs: seq<Db>, clocks: seq<int>, ops: seq<Op>, k: nat, h: Hash, now: int)
    requires IsRun(dbs, clocks, ops) && k <= |ops| && h in dbs[k].history && clocks[k] <= now
    ensures dbs[k].history[h].intervals != [] && OnlyLastOpen(dbs[k].history[h].intervals)
    ensures 0 <= Duration(dbs[k].history[h].intervals, now) <= now - dbs[k].history[h].intervals[0].start
  {
    RunKeepsOk(dbs, clocks, ops, k);
    var ivs := dbs[k].history[h].intervals;
    DurationCountsSeconds(ivs, clocks[k], now);
    RangeSize(ivs[0].start, now);
    SubsetSize(SecondsInUse(ivs, now), Range(ivs[0].start, now));
  }

  /** Stopping a cluster that is already stopped bills the time in between. */
  lemma StoppingTwiceExtends(ivs: seq<Interval>, first: int, second: int, now: int)
    requires ivs != []
    ensures Ended(Ended(ivs, first), second) == Ended(ivs, second)
    ensures Duration(Ended(ivs, second), now) == Duration(Ended(ivs, first), now) + (second - first)
  {
    assert Ended(ivs, first)[..|ivs| - 1] == ivs[..|ivs| - 1];
    assert Ended(ivs, second)[..|ivs| - 1] == ivs[..|ivs| - 1];
  }

  // ---------------------------------------------------------------------
  // What launching and stopping do to a history.

  /**
   * After a launch or refresh the last interval is open: as it was if it was open already, and otherwise a new
   * one from this time on. The columns are the first start and the last one.
   */
  ghost predicate LaunchEffect(before: map<Hash, History>, after: map<Hash, History>, h: Hash, start: int) {
    && after.Keys == before.Keys + {h} && (forall k :: k in before && k != h ==> after[k] == before[k])
    && var was := if h in before then before[h].intervals else [];
       var now := after[h].intervals;
       && now != [] && now[|now| - 1].end == None
       && (was != [] && was[|was| - 1].end == None ==> now == was)
       && (was == [] || was[|was| - 1].end != None ==> now == was + [Interval(start, None)])
       && after[h].launchedAt == Some(now[0].start) && after[h].lastActivity == Some(now[|now| - 1].start)
  }

  lemma LaunchMeans(before: map<Hash, History>, h: Hash, start: int)
    ensures var ivs := Resumed(if h in before then before[h].intervals else [], start);
      LaunchEffect(before, before[h := History(ivs, LastActivity(ivs), LaunchTime(ivs))], h, start)
  {
  }

  /** After a stop the last interval, if there is one, ends now; its start, all others and the first start stay. */
  ghost predicate StopEffect(before: map<Hash, History>, after: map<Hash, History>, h: Hash, stop: int) {
    && after.Keys == before.Keys && (forall k :: k in before && k != h ==> after[k] == before[k])
    && (h in before && before[h].intervals == [] ==> after[h] == before[h])
    && (h in before && before[h].intervals != [] ==>
          var was, now, n := before[h].intervals, after[h].intervals, |before[h].intervals| - 1;
          && |now| == n + 1 && now[..n] == was[..n] && now[n].start == was[n].start && now[n].end == Some(stop)
          && after[h].launchedAt == before[h].launchedAt && after[h].lastActivity == Some(stop))
  }

  // ---------------------------------------------------------------------
  // The store.

  class ClusterStore {
    var clusters: map<string, Hash>
    var history: map<Hash, History>

    ghost function Value(): Db
      reads this
    {
      Db(clusters, history)
    }

    constructor ()
      ensures Value() == Db(map[], map[])
    {
      clusters, history := map[], map[];
    }

    method AddOrUpdate(name: string, isLaunch: bool, existing: Option<Hash>, now: int, later: int, newHash: Hash)
      returns (ok: bool)
      modifies this
      ensures Value() == Apply(old(Value()), Update(name, isLaunch, existing, now, later, newHash))
      ensures ok <==> !Refused(old(Value()), Update(name, isLaunch, existing, now, later, newHash))
      ensures ok <==> existing == None || (name in old(clusters) && Some(old(clusters)[name]) == existing)
      ensures !ok ==> clusters == old(clusters) && history == old(history)
      ensures ok ==> name in clusters && clusters == old(clusters)[name := clusters[name]]
      ensures ok ==> clusters[name] == if name in old(clusters) then old(clusters)[name] else newHash
      ensures ok ==> LaunchEffect(old(history), history, clusters[name], if isLaunch then now else later)
    {
      var launchedAt := if isLaunch then Some(now) else None;
      var h := if name in clusters then clusters[name] else newHash;
      var intervals := if h in history then history[h].intervals else [];
      if intervals == [] || intervals[|intervals| - 1].end.Some? {
        if launchedAt.None? {
          launchedAt := Some(later);
        }
        intervals := intervals + [Interval(launchedAt.value, None)];
      }
      if existing.Some? && (name !in clusters || clusters[name] != existing.value) {
        return false;
      }
      LaunchMeans(history, h, if isLaunch then now else later);
      clusters := clusters[name := h];
      history := history[h := History(intervals, LastActivity(intervals), LaunchTime(intervals))];
      ok := true;
    }

    method RemoveCluster(name: string, terminate: bool, now: int)
      modifies this
      ensures Value() == Apply(old(Value()), Remove(name, terminate, now))
      ensures forall n :: n in clusters <==> n in old(clusters) && (terminate ==> n != name)
      ensures forall n :: n in clusters ==> clusters[n] == old(clusters)[n]
      ensures name !in old(clusters) ==> history == old(history)
      ensures name in old(clusters) ==> StopEffect(old(history), history, old(clusters)[name], now)
    {
      if name in clusters {
        var h := clusters[name];
        var intervals := if h in history then history[h].intervals else [];
        if intervals != [] {
          var start := intervals[|intervals| - 1].start;
          intervals := intervals[..|intervals| - 1] + [Interval(start, Some(now))];
          var found := SetUsageIntervals(h, intervals);
        }
      }
      if terminate {
        clusters := clusters - {name};
      }
    }

    /**
     * Stores the intervals, keeps the activity column in step with them and leaves the launch column and all
     * other rows alone. Reports, as the source's error does, that there is no such row.
     */
    method SetUsageIntervals(h: Hash, intervals: seq<Interval>) returns (found: bool)
      modifies this`history
      ensures found <==> h in old(history)
      ensures history.Keys == old(history).Keys && forall k :: k in history && k != h ==> history[k] == old(history)[k]
      ensures found ==> history[h].intervals == intervals && history[h].launchedAt == old(history)[h].launchedAt
      ensures found && intervals != [] ==>
        var last := intervals[|intervals| - 1];
        history[h].lastActivity == Some(if last.end.Some? then last.end.value else last.start)
      ensures found && intervals == [] ==> history[h].lastActivity == None
    {
      found := h in history;
      if found {
        history := history[h := history[h].(intervals := intervals, lastActivity := LastActivity(intervals))];
      }
    }
  }
}
