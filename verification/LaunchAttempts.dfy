/**
 * The launch-attempt table (sky/global_user_state.py): rows, the statements that change them, and the
 * store that executes those statements.
 */
module LaunchAttempts {
  import opened Prelude

  type AttemptId = nat

  datatype Milestone = InstancesRequested | Admitted | InstancesReady

  datatype LaunchOutcome = Succeeded | Failed | Abandoned

  /** One provisioning attempt; a NULL column is None, and an unset milestone is absent. */
  datatype Row = Row(
    cluster: string, onCloud: Option<string>, request: Option<string>, seqNo: nat, start: real,
    stamps: map<Milestone, real>, outcome: Option<LaunchOutcome>, observedAt: Option<real>)
  {
    predicate IsOpen() { outcome.None? }

    /** Called by its display name or by its on-cloud name. */
    predicate Answers(name: string) { cluster == name || onCloud == Some(name) }
  }

  /** Open, and called by this name or known by it on its cloud. */
  ghost predicate CalledOpen(row: Row, name: string) {
    row.outcome == None && (row.cluster == name || row.onCloud == Some(name))
  }

  /** Open, of the same cluster and of the same request. */
  ghost predicate Continues(row: Row, cluster: string, request: Option<string>) {
    row.outcome == None && row.cluster == cluster && request.Some? && row.request == request
  }

  /** Started later, or at the same time with a larger number. */
  ghost predicate SortsAfter(a: Row, b: Row) {
    a.start > b.start || (a.start == b.start && a.seqNo > b.seqNo)
  }

  /** Closed rows that nobody has observed, up to the limit, and none left out that started before a chosen one. */
  ghost predicate ClaimsOldest(t: Table, limit: nat, ids: set<AttemptId>) {
    && |ids| <= limit && (forall k :: k in ids ==> k in t && t[k].outcome.Some? && t[k].observedAt == None)
    && (forall k :: k in t && k !in ids && t[k].outcome.Some? && t[k].observedAt == None ==>
          |ids| == limit && forall w :: w in ids ==> t[w].start <= t[k].start)
  }

  /** These rows are marked as observed now, and nothing else changes. */
  ghost predicate OnlyMarked(before: Table, after: Table, ids: set<AttemptId>, now: real) {
    && after.Keys == before.Keys
    && forall k :: k in before ==> after[k] == if k in ids then before[k].(observedAt := Some(now)) else before[k]
  }

  /** Only this row may differ, and only by a milestone stamped for the first time. */
  ghost predicate OnlyStamped(before: Table, after: Table, id: AttemptId, m: Milestone, ts: real) {
    && after.Keys == before.Keys && (forall k :: k in before && k != id ==> after[k] == before[k])
    && (id in before ==>
          && after[id] == before[id].(stamps := after[id].stamps)
          && after[id].stamps == if m in before[id].stamps then before[id].stamps else before[id].stamps[m := ts])
  }

  type Table = map<AttemptId, Row>

  // ---------------------------------------------------------------------
  // The statements, as functions of the table.

  function StampRow(t: Table, id: AttemptId, m: Milestone, ts: real): Table {
    if id in t && m !in t[id].stamps then t[id := t[id].(stamps := t[id].stamps[m := ts])] else t
  }

  function CloseRow(t: Table, id: AttemptId, outcome: LaunchOutcome): Table {
    if id in t && t[id].IsOpen() then t[id := t[id].(outcome := Some(outcome))] else t
  }

  predicate IsAbandoned(row: Row, cutoff: real) {
    row.IsOpen() && row.start < cutoff
  }

  function SweepRows(t: Table, cutoff: real): Table {
    map id | id in t :: if IsAbandoned(t[id], cutoff) then t[id].(outcome := Some(Abandoned)) else t[id]
  }

  /** Closed and not yet turned into metrics. */
  predicate IsUnobserved(row: Row) {
    row.outcome.Some? && row.observedAt.None?
  }

  function ClaimRows(t: Table, winners: set<AttemptId>, now: real): Table {
    map id | id in t :: if id in winners then t[id].(observedAt := Some(now)) else t[id]
  }

  /** The rows that carry a claim's time stamp. */
  function Stamped(t: Table, now: real): set<AttemptId> {
    set id | id in t && t[id].observedAt == Some(now)
  }

  /** The delete condition as it is written: one age range and one more test. */
  predicate IsExpired(row: Row, cutoff: real, hardCutoff: real) {
    row.outcome.Some? && row.start < cutoff && (row.observedAt.Some? || row.start < hardCutoff)
  }

  /** The delete condition as it reads: observed rows at the window, all others at twice the window. */
  predicate IsExpiredEither(row: Row, cutoff: real, hardCutoff: real) {
    row.outcome.Some? && ((row.observedAt.Some? && row.start < cutoff) || row.start < hardCutoff)
  }

  function RetainRows(t: Table, cutoff: real, hardCutoff: real): Table {
    map id | id in t && !IsExpired(t[id], cutoff, hardCutoff) :: t[id]
  }

  ghost predicate FormsAgree(cutoff: real, hardCutoff: real) {
    forall row :: IsExpired(row, cutoff, hardCutoff) <==> IsExpiredEither(row, cutoff, hardCutoff)
  }

  /** The two ways to write the delete condition agree on every row exactly when the hard cutoff is the older one. */
  lemma RetentionFormsAgree(cutoff: real, hardCutoff: real)
    ensures FormsAgree(cutoff, hardCutoff) <==> hardCutoff <= cutoff
  {
    if cutoff < hardCutoff {
      var row := Row("", None, None, 0, cutoff, map[], Some(Failed), None);
      assert !IsExpired(row, cutoff, hardCutoff) && IsExpiredEither(row, cutoff, hardCutoff);
    }
  }

  /** In terms of the call: two clock reads, and a window that is given in hours. */
  lemma RetentionAgreesForWindow(now: real, later: real, hours: real)
    ensures FormsAgree(now - hours * 3600.0, later - hours * 2.0 * 3600.0) <==> later - now <= hours * 3600.0
  {
    RetentionFormsAgree(now - hours * 3600.0, later - hours * 2.0 * 3600.0);
  }

  /** A window of no length, which is accepted, fails as soon as the clock moves between the two reads. */
  lemma NoWindowDisagrees(now: real, later: real)
    requires now < later
    ensures !FormsAgree(now - 0.0 * 3600.0, later - 0.0 * 2.0 * 3600.0)
  {
    RetentionAgreesForWindow(now, later, 0.0);
  }

  /** Closed are exactly the open rows that started before the cutoff, as abandoned; all else stays as it was. */
  ghost predicate SweepEffect(before: Table, after: Table, cutoff: real) {
    && after.Keys == before.Keys
    && (forall k :: k in after ==>
          (after[k].outcome == None <==> before[k].outcome == None && cutoff <= before[k].start))
    && (forall k :: k in after && after[k] != before[k] ==> after[k] == before[k].(outcome := Some(Abandoned)))
    && (forall k :: k in after && before[k].outcome.Some? ==> after[k] == before[k])
  }

  lemma SweepMeans(t: Table, cutoff: real)
    ensures SweepEffect(t, SweepRows(t, cutoff), cutoff)
    ensures (set id | id in t && IsAbandoned(t[id], cutoff)) == set id | id in t && SweepRows(t, cutoff)[id] != t[id]
  {
  }

  // ---------------------------------------------------------------------
  // Lookups.

  /** Sorted by start and then by sequence number. */
  predicate NotNewer(a: Row, b: Row) {
    a.start < b.start || (a.start == b.start && a.seqNo <= b.seqNo)
  }

  ghost predicate IsNewestOf(t: Table, ids: set<AttemptId>, id: AttemptId) {
    id in ids && ids <= t.Keys && forall other :: other in ids ==> NotNewer(t[other], t[id])
  }

  function InFlight(t: Table, cluster: string, request: string): set<AttemptId> {
    set id | id in t && t[id].cluster == cluster && t[id].request == Some(request) && t[id].IsOpen()
  }

  function OpenFor(t: Table, name: string): set<AttemptId> {
    set id | id in t && t[id].Answers(name) && t[id].IsOpen()
  }

  function OfCluster(t: Table, cluster: string): set<AttemptId> {
    set id | id in t && t[id].cluster == cluster
  }

  /** One more than the largest number of the cluster's live rows, or 0 without any. */
  ghost predicate IsNextSeq(t: Table, cluster: string, n: nat) {
    && (forall id :: id in OfCluster(t, cluster) ==> t[id].seqNo < n)
    && (n > 0 ==> exists id :: id in OfCluster(t, cluster) && t[id].seqNo == n - 1)
  }

  function NewRow(cluster: string, onCloud: Option<string>, request: Option<string>, n: nat, start: real): Row {
    Row(cluster, onCloud, request, n, start, map[], None, None)
  }

  /** The effect of opening: either a row in flight is resumed, or a fresh one is inserted. */
  ghost predicate Opened(t: Table, cluster: string, onCloud: Option<string>, request: Option<string>, start: real,
                         newId: AttemptId, id: AttemptId, t': Table) {
    if request.Some? && InFlight(t, cluster, request.value) != {} then
      IsNewestOf(t, InFlight(t, cluster, request.value), id) && t' == t
    else
      id == newId && exists n ::
        IsNextSeq(t, cluster, n) && t' == t[newId := NewRow(cluster, onCloud, request, n, start)]
  }

  /** Resumed is the newest open row of the same request; without one a fresh row gets the next number. */
  ghost predicate OpenEffect(before: Table, after: Table, cluster: string, onCloud: Option<string>,
                             request: Option<string>, start: real, newId: AttemptId, id: AttemptId)
  {
    if exists k :: k in before && Continues(before[k], cluster, request) then
      && after == before && id in before && Continues(before[id], cluster, request)
      && forall k :: k in before && Continues(before[k], cluster, request) ==> !SortsAfter(before[k], before[id])
    else
      && id == newId
      && exists n ::
           && IsFresh(before, cluster, n)
           && after == before[newId := Row(cluster, onCloud, request, n, start, map[], None, None)]
  }

  /** Above every number of the cluster in the table, and one above some of them unless there is none. */
  ghost predicate IsFresh(t: Table, cluster: string, n: nat) {
    && (forall k :: k in t && t[k].cluster == cluster ==> t[k].seqNo < n)
    && (n == 0 || exists k :: k in t && t[k].cluster == cluster && t[k].seqNo + 1 == n)
  }

  lemma OpenedMeans(before: Table, after: Table, cluster: string, onCloud: Option<string>, request: Option<string>,
                    start: real, newId: AttemptId, id: AttemptId)
    requires Opened(before, cluster, onCloud, request, start, newId, id, after)
    ensures OpenEffect(before, after, cluster, onCloud, request, start, newId, id)
  {
    assert request.Some? ==>
      forall k :: k in before ==>
        (k in InFlight(before, cluster, request.value) <==> Continues(before[k], cluster, request));
    if exists k :: k in before && Continues(before[k], cluster, request) {
      assert InFlight(before, cluster, request.value) != {};
    } else {
      var n :| IsNextSeq(before, cluster, n) && after == before[newId := NewRow(cluster, onCloud, request, n, start)];
      forall k | k in before && before[k].cluster == cluster ensures before[k].seqNo < n {
        assert k in OfCluster(before, cluster);
      }
      assert IsFresh(before, cluster, n);
    }
  }

  /** Nothing happens without an open row of the name; otherwise the newest is stamped, and announced if due. */
  ghost predicate StampsNewest(before: Table, after: Table, name: string, m: Milestone, ts: real,
                               event: Option<AttemptId>)
  {
    if forall k :: k in before ==> !CalledOpen(before[k], name) then after == before && event == None
    else
      exists id ::
        && IsNewestCalled(before, name, id) && OnlyStamped(before, after, id, m, ts)
        && event == if m == Admitted && Admitted !in before[id].stamps then Some(id) else None
  }

  ghost predicate IsNewestCalled(t: Table, name: string, id: AttemptId) {
    && id in t && CalledOpen(t[id], name)
    && forall k :: k in t && CalledOpen(t[k], name) ==> !SortsAfter(t[k], t[id])
  }

  lemma NewestMeans(t: Table, name: string, found: Option<AttemptId>)
    requires found.None? <==> OpenFor(t, name) == {}
    requires found.Some? ==> IsNewestOf(t, OpenFor(t, name), found.value)
    ensures found.None? <==> forall k :: k in t ==> !CalledOpen(t[k], name)
    ensures found.Some? ==> IsNewestCalled(t, name, found.value)
  {
    assert forall k :: k in t ==> (k in OpenFor(t, name) <==> CalledOpen(t[k], name));
    if k :| k in t && CalledOpen(t[k], name) {
      assert k in OpenFor(t, name);
    }
  }

  /** The oldest unobserved rows, at most `limit` of them. */
  ghost predicate IsClaim(t: Table, limit: nat, winners: set<AttemptId>) {
    && (forall id :: id in winners ==> id in t && IsUnobserved(t[id]))
    && |winners| <= limit
    && (forall id :: id in t && id !in winners && IsUnobserved(t[id]) ==>
          |winners| == limit && forall w :: w in winners ==> t[w].start <= t[id].start)
  }

  method Newest(t: Table, ids: set<AttemptId>) returns (newest: Option<AttemptId>)
    requires ids <= t.Keys
    ensures newest.None? <==> ids == {}
    ensures newest.Some? ==> IsNewestOf(t, ids, newest.value)
  {
    newest := None;
    var left := ids;
    while left != {}
      invariant left <= ids
      invariant newest.None? <==> left == ids
      invariant newest.Some? ==> newest.value in ids
      invariant newest.Some? ==> forall other :: other in ids && other !in left ==> NotNewer(t[other], t[newest.value])
    {
      var id :| id in left;
      if newest.None? || NotNewer(t[newest.value], t[id]) {
        newest := Some(id);
      }
      left := left - {id};
    }
  }

  method NextSeq(t: Table, cluster: string) returns (n: nat)
    ensures IsNextSeq(t, cluster, n)
  {
    n := 0;
    var left := OfCluster(t, cluster);
    while left != {}
      invariant left <= OfCluster(t, cluster)
      invariant forall id :: id in OfCluster(t, cluster) && id !in left ==> t[id].seqNo < n
      invariant n > 0 ==> exists id :: id in OfCluster(t, cluster) && t[id].seqNo == n - 1
    {
      var id :| id in left;
      if t[id].seqNo >= n {
        n := t[id].seqNo + 1;
      }
      left := left - {id};
    }
  }

  method Oldest(t: Table, ids: set<AttemptId>) returns (oldest: AttemptId)
    requires ids <= t.Keys && ids != {}
    ensures oldest in ids && forall other :: other in ids ==> t[oldest].start <= t[other].start
  {
    oldest :| oldest in ids;
    var left := ids;
    while left != {}
      invariant left <= ids && oldest in ids
      invariant forall other :: other in ids && other !in left ==> t[oldest].start <= t[other].start
    {
      var id :| id in left;
      if t[id].start < t[oldest].start {
        oldest := id;
      }
      left := left - {id};
    }
  }

  /** The rows that the claim's subquery selects. */
  method SelectClaim(t: Table, limit: nat) returns (winners: set<AttemptId>)
    ensures IsClaim(t, limit, winners)
  {
    winners := {};
    var left := set id | id in t && IsUnobserved(t[id]);
    while left != {} && |winners| < limit
      invariant left <= t.Keys && winners !! left && |winners| <= limit
      invariant forall id :: id in t && IsUnobserved(t[id]) <==> id in left || id in winners
      invariant forall w, id :: w in winners && id in left ==> t[w].start <= t[id].start
    {
      var id := Oldest(t, left);
      winners := winners + {id};
      left := left - {id};
    }
  }

  // ---------------------------------------------------------------------
  // The store.

  class AttemptStore {
    var rows: Table

    constructor ()
      ensures rows == map[]
    {
      rows := map[];
    }

    method Open(cluster: string, onCloud: Option<string>, request: Option<string>, start: real, newId: AttemptId)
      returns (id: AttemptId)
      requires newId !in rows
      modifies this
      ensures Opened(old(rows), cluster, onCloud, request, start, newId, id, rows)
      ensures OpenEffect(old(rows), rows, cluster, onCloud, request, start, newId, id)
    {
      if request.Some? {
        var inFlight := Newest(rows, InFlight(rows, cluster, request.value));
        if inFlight.Some? {
          OpenedMeans(rows, rows, cluster, onCloud, request, start, newId, inFlight.value);
          return inFlight.value;
        }
      }
      var n := NextSeq(rows, cluster);
      var next := rows[newId := NewRow(cluster, onCloud, request, n, start)];
      OpenedMeans(rows, next, cluster, onCloud, request, start, newId, newId);
      rows := next;
      id := newId;
    }

    method RecordMilestone(id: AttemptId, m: Milestone, ts: real) returns (stamped: bool)
      modifies this
      ensures rows == StampRow(old(rows), id, m, ts)
      ensures stamped <==> id in old(rows) && m !in old(rows)[id].stamps
      ensures OnlyStamped(old(rows), rows, id, m, ts)
    {
      stamped := id in rows && m !in rows[id].stamps;
      if stamped {
        rows := rows[id := rows[id].(stamps := rows[id].stamps[m := ts])];
      }
    }

    /** The lookup half of stamping by cluster name. */
    method FindInFlight(name: string) returns (id: Option<AttemptId>)
      ensures id.None? <==> OpenFor(rows, name) == {}
      ensures id.Some? ==> IsNewestOf(rows, OpenFor(rows, name), id.value)
    {
      id := Newest(rows, OpenFor(rows, name));
    }

    /** Stamping by cluster name: the newest open row, and an event only if this call stamped ADMITTED. */
    method RecordMilestoneForCluster(name: string, m: Milestone, ts: real) returns (event: Option<AttemptId>)
      modifies this
      ensures OpenFor(old(rows), name) == {} ==> rows == old(rows) && event == None
      ensures OpenFor(old(rows), name) != {} ==>
        exists id :: IsNewestOf(old(rows), OpenFor(old(rows), name), id) && rows == StampRow(old(rows), id, m, ts)
          && event == if m == Admitted && Admitted !in old(rows)[id].stamps then Some(id) else None
      ensures StampsNewest(old(rows), rows, name, m, ts, event)
    {
      event := None;
      var found := FindInFlight(name);
      NewestMeans(rows, name, found);
      if found.None? {
        return;
      }
      var stamped := RecordMilestone(found.value, m, ts);
      if stamped && m == Admitted {
        event := Some(found.value);
      }
    }

    method Close(id: AttemptId, outcome: LaunchOutcome)
      modifies this
      ensures rows == CloseRow(old(rows), id, outcome)
      ensures rows.Keys == old(rows).Keys && forall k :: k in rows ==>
        rows[k] == if k == id && old(rows)[k].outcome == None then old(rows)[k].(outcome := Some(outcome))
                   else old(rows)[k]
    {
      if id in rows && rows[id].outcome.None? {
        rows := rows[id := rows[id].(outcome := Some(outcome))];
      }
    }

    method SweepAbandoned(now: real, olderThanHours: real) returns (count: nat)
      modifies this
      ensures rows == SweepRows(old(rows), now - olderThanHours * 3600.0)
      ensures count == |set id | id in old(rows) && IsAbandoned(old(rows)[id], now - olderThanHours * 3600.0)|
      ensures SweepEffect(old(rows), rows, now - olderThanHours * 3600.0)
      ensures count == |set k | k in old(rows) && rows[k] != old(rows)[k]|
    {
      var cutoff := now - olderThanHours * 3600.0;
      ghost var before := rows;
      ghost var swept: set<AttemptId> := {};
      var left := rows.Keys;
      count := 0;
      while left != {}
        invariant left <= rows.Keys && rows.Keys == before.Keys && count == |swept|
        invariant forall id :: id in before ==>
          rows[id] == if id in left then before[id] else SweepRows(before, cutoff)[id]
        invariant forall id :: id in swept <==> id in before && id !in left && IsAbandoned(before[id], cutoff)
      {
        var id :| id in left;
        if rows[id].outcome.None? && rows[id].start < cutoff {
          rows := rows[id := rows[id].(outcome := Some(Abandoned))];
          count := count + 1;
          swept := swept + {id};
        }
        left := left - {id};
      }
      assert swept == set id | id in before && IsAbandoned(before[id], cutoff);
      assert rows == SweepRows(before, cutoff);
      SweepMeans(before, cutoff);
    }

    method Claim(limit: nat, now: real) returns (claimed: set<AttemptId>)
      modifies this
      ensures IsClaim(old(rows), limit, claimed)
      ensures rows == ClaimRows(old(rows), claimed, now)
      ensures ClaimsOldest(old(rows), limit, claimed) && OnlyMarked(old(rows), rows, claimed, now)
    {
      claimed := SelectClaim(rows, limit);
      rows := ClaimRows(rows, claimed, now);
    }

    /** Without RETURNING the claimed rows are read back by their time stamp. */
    method ClaimByToken(limit: nat, now: real) returns (claimed: set<AttemptId>, ghost winners: set<AttemptId>)
      modifies this
      ensures IsClaim(old(rows), limit, winners)
      ensures rows == ClaimRows(old(rows), winners, now)
      ensures claimed == Stamped(rows, now)
      ensures ClaimsOldest(old(rows), limit, winners) && OnlyMarked(old(rows), rows, winners, now)
      ensures forall k :: k in claimed <==> k in rows && rows[k].observedAt == Some(now)
    {
      var chosen := SelectClaim(rows, limit);
      winners := chosen;
      rows := ClaimRows(rows, chosen, now);
      claimed := Stamped(rows, now);
    }

    method CleanUp(now: real, later: real, retentionHours: real) returns (count: nat)
      modifies this
      ensures rows == RetainRows(old(rows), now - retentionHours * 3600.0, later - retentionHours * 2.0 * 3600.0)
      ensures count == |old(rows)| - |rows|
      ensures forall k :: k in rows ==> k in old(rows) && rows[k] == old(rows)[k]
      ensures forall k :: k in old(rows) ==> (k !in rows <==>
        && old(rows)[k].outcome.Some? && old(rows)[k].start < now - retentionHours * 3600.0
        && (old(rows)[k].observedAt.Some? || old(rows)[k].start < later - retentionHours * 2.0 * 3600.0))
    {
      var cutoff := now - retentionHours * 3600.0;
      var hardCutoff := later - retentionHours * 2.0 * 3600.0;
      ghost var before := rows;
      var left := rows.Keys;
      count := 0;
      while left != {}
        invariant left <= rows.Keys <= before.Keys && count + |rows| == |before|
        invariant forall id :: id in rows <==> id in left || id in RetainRows(before, cutoff, hardCutoff)
        invariant forall id :: id in rows ==> rows[id] == before[id]
      {
        var id :| id in left;
        var row := rows[id];
        if row.outcome.Some? && row.start < cutoff && (row.observedAt.Some? || row.start < hardCutoff) {
          rows := rows - {id};
          count := count + 1;
        }
        left := left - {id};
      }
    }
  }

  /**
   * Reading back by time stamp returns exactly the rows this call claimed if and only if no row already
   * carried that time stamp.
   */
  lemma TokenIdentifiesClaim(t: Table, limit: nat, winners: set<AttemptId>, now: real)
    requires IsClaim(t, limit, winners)
    ensures Stamped(ClaimRows(t, winners, now), now) == winners
       <==> forall id :: id in t ==> t[id].observedAt != Some(now)
  {
    var back := Stamped(ClaimRows(t, winners, now), now);
    assert winners <= back;
    if id :| id in t && t[id].observedAt == Some(now) {
      assert id in back && id !in winners;
    }
  }
}
