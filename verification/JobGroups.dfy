/**
 * Placement of job groups (sky/optimizer.py): infra pins, the common-infrastructure search and what
 * becomes of in-group networking.
 */
module JobGroups {
  import opened Prelude
  import opened Graphs
  import opened Placement
  import opened Infras
  import opened Pins
  import opened Dags
  import OptimizeDag
  import Optimizer

  // ---------------------------------------------------------------------
  // The job group.

  datatype Outcome =
    | Placed
    | Unavailable       // ResourcesUnavailableError
    | AssertionFailed   // a lookup of the last step, or a task with a reserved name optimized alone

  /** The tri-state networking setting of a group; unset counts as on. */
  datatype Networking = Unset | On | Off

  datatype PinVerdict = PinsContradict | CrossInfra | SearchCommon

  predicate IsKubernetes(c: Cloud) {
    Lower(c.repr) == KUBERNETES
  }

  /** The resource sits on Kubernetes. */
  predicate OnKubernetes(r: Resources) {
    r.cloud.Some? && IsKubernetes(r.cloud.value)
  }

  /** All tasks are placed on Kubernetes in one region. */
  ghost predicate Colocated(tasks: seq<Task>, best: map<Task, Resources>) {
    exists region :: ColocatedIn(tasks, best, region)
  }

  ghost predicate ColocatedIn(tasks: seq<Task>, best: map<Task, Resources>, region: Option<string>) {
    forall i :: 0 <= i < |tasks| ==> tasks[i] in best && OnKubernetes(best[tasks[i]]) && best[tasks[i]].region == region
  }

  method KeepKubernetes(cands: Candidates) returns (kept: Candidates)
    requires Consistent(cands)
    ensures Consistent(kept)
    ensures forall i :: 0 <= i < |kept| ==> kept[i] in cands && IsKubernetes(kept[i].cloud)
    ensures forall c :: Bucket(kept, c) == if IsKubernetes(c) then Bucket(cands, c) else []
  {
    kept := [];
    for i := 0 to |cands|
      invariant Consistent(kept)
      invariant forall j :: 0 <= j < |kept| ==> kept[j] in cands[..i] && IsKubernetes(kept[j].cloud)
      invariant forall j :: 0 <= j < i && IsKubernetes(cands[j].cloud) ==> cands[j] in kept
    {
      if IsKubernetes(cands[i].cloud) {
        kept := kept + [cands[i]];
      }
    }
    forall c ensures Bucket(kept, c) == if IsKubernetes(c) then Bucket(cands, c) else [] {
      KeptBucket(cands, kept, c);
    }
  }

  lemma KeptBucket(cands: Candidates, kept: Candidates, c: Cloud)
    requires KeysDistinct(cands) && KeysDistinct(kept)
    requires forall i :: 0 <= i < |kept| ==> kept[i] in cands && IsKubernetes(kept[i].cloud)
    requires forall i :: 0 <= i < |cands| && IsKubernetes(cands[i].cloud) ==> cands[i] in kept
    ensures Bucket(kept, c) == if IsKubernetes(c) then Bucket(cands, c) else []
  {
    if i :| 0 <= i < |kept| && kept[i].cloud == c {
      BucketAt(kept, i);
      BucketAt(cands, Position(cands, kept[i]));
    } else {
      BucketAbsent(kept, c);
      if IsKubernetes(c) {
        forall i | 0 <= i < |cands| ensures cands[i].cloud != c {
          assert IsKubernetes(cands[i].cloud) ==> cands[i] in kept;
        }
        BucketAbsent(cands, c);
      }
    }
  }

  ghost predicate AllConsistent(cands: seq<Candidates>) {
    forall t :: 0 <= t < |cands| ==> Consistent(cands[t])
  }

  ghost predicate AllKubernetes(cands: seq<Candidates>) {
    forall t, i :: 0 <= t < |cands| && 0 <= i < |cands[t]| ==> IsKubernetes(cands[t][i].cloud)
  }

  function FirstIn(rs: seq<Resources>, region: Option<string>): (r: Option<Resources>)
    ensures r.None? <==> forall k :: 0 <= k < |rs| ==> rs[k].region != region
    ensures r.Some? ==> exists k :: IsFirstIn(rs, region, k) && rs[k] == r.value
  {
    if rs == [] then None
    else if rs[0].region == region then
      assert IsFirstIn(rs, region, 0);
      Some(rs[0])
    else
      var r := FirstIn(rs[1..], region);
      assert forall k :: IsFirstIn(rs[1..], region, k) ==> IsFirstIn(rs, region, k + 1) && rs[k + 1] == rs[1..][k];
      r
  }

  ghost predicate IsFirstIn(rs: seq<Resources>, region: Option<string>, k: int) {
    0 <= k < |rs| && rs[k].region == region && forall j :: 0 <= j < k ==> rs[j].region != region
  }

  /** The first resource in the region under the first cloud of that name, or None. */
  function MatchOf(cands: Candidates, name: string, region: Option<string>): Option<Resources> {
    if cands == [] then None
    else if cands[0].cloud.repr == name then FirstIn(cands[0].resources, region)
    else MatchOf(cands[1..], name, region)
  }

  lemma {:induction false} MatchAt(cands: Candidates, name: string, region: Option<string>, i: nat)
    requires i < |cands| && cands[i].cloud.repr == name && forall j :: 0 <= j < i ==> cands[j].cloud.repr != name
    ensures MatchOf(cands, name, region) == FirstIn(cands[i].resources, region)
  {
    if i == 0 {
    } else {
      MatchAt(cands[1..], name, region, i - 1);
    }
  }

  /** The entry the lookup stops at: the first one of that name. */
  ghost predicate IsFirstNamed(cands: Candidates, name: string, i: nat) {
    i < |cands| && cands[i].cloud.repr == name && forall j :: 0 <= j < i ==> cands[j].cloud.repr != name
  }

  lemma {:induction false} NamedEntry(cands: Candidates, name: string, region: Option<string>) returns (i: nat)
    requires MatchOf(cands, name, region).Some?
    ensures IsFirstNamed(cands, name, i) && MatchOf(cands, name, region) == FirstIn(cands[i].resources, region)
  {
    if cands[0].cloud.repr == name {
      i := 0;
    } else {
      i := NamedEntry(cands[1..], name, region);
      i := i + 1;
    }
  }

  /** The two lookups succeed exactly when the first cloud of that name has a resource in the region. */
  lemma LookupSucceedsIff(cands: Candidates, name: string, region: Option<string>)
    ensures MatchOf(cands, name, region).Some?
       <==> exists i: nat :: IsFirstNamed(cands, name, i) && EntryHas(cands[i], (name, region))
  {
    if MatchOf(cands, name, region).Some? {
      var i := NamedEntry(cands, name, region);
      assert EntryHas(cands[i], (name, region));
    }
    if i: nat :| IsFirstNamed(cands, name, i) && EntryHas(cands[i], (name, region)) {
      MatchAt(cands, name, region, i);
    }
  }

  /** What the lookups find is among a task's launchables, on that infrastructure. */
  lemma MatchMeans(world: World, setting: Networking, t: Task, cands: Candidates, infra: Infra)
    requires CandidatesOf(world, setting, t, cands) && MatchOf(cands, infra.0.repr, infra.1).Some?
    ensures var r := MatchOf(cands, infra.0.repr, infra.1).value;
      OnInfra(r, IdOf(infra)) && r in world.Launchable(t)
  {
    var r := MatchOf(cands, infra.0.repr, infra.1).value;
    var i := NamedEntry(cands, infra.0.repr, infra.1);
    BucketAt(cands, i);
    ForCloudMembers(world.Launchable(t), cands[i].cloud, r);
  }

  method Match(cands: Candidates, name: string, region: Option<string>) returns (r: Option<Resources>)
    ensures r == MatchOf(cands, name, region)
  {
    var i := 0;
    while i < |cands| && cands[i].cloud.repr != name
      invariant 0 <= i <= |cands|
      invariant MatchOf(cands, name, region) == MatchOf(cands[i..], name, region)
    {
      assert cands[i..][1..] == cands[i + 1..];
      i := i + 1;
    }
    if i == |cands| {
      return None;
    }
    var rs := cands[i].resources;
    var k := 0;
    while k < |rs| && rs[k].region != region
      invariant 0 <= k <= |rs|
      invariant FirstIn(rs, region) == FirstIn(rs[k..], region)
    {
      assert rs[k..][1..] == rs[k + 1..];
      k := k + 1;
    }
    r := if k < |rs| then Some(rs[k]) else None;
  }

  /** The unblocked launchables of the first `n` options, concatenated. */
  function LaunchableUpTo(m: OptimizeDag.Market, t: Task, n: nat): seq<Resources>
    requires n <= |m.request(t).options|
  {
    if n == 0 then [] else LaunchableUpTo(m, t, n - 1) + OptimizeDag.Viable(m, t, m.request(t).options[n - 1])
  }

  /** The candidates of a job are what its options offer, blocked resources left out. */
  lemma {:induction false} LaunchableMembers(m: OptimizeDag.Market, t: Task, n: nat, r: Resources)
    requires n <= |m.request(t).options|
    ensures r in LaunchableUpTo(m, t, n) <==> exists k: nat :: k < n && OptimizeDag.Offered(m, t, k, r)
  {
    if n == 0 {
    } else {
      LaunchableMembers(m, t, n - 1, r);
      OptimizeDag.ViableMembers(m, t, n - 1, r);
    }
  }

  /** They come option by option. */
  lemma {:induction false} LaunchableInOrder(m: OptimizeDag.Market, t: Task, k: nat, n: nat)
    requires k < n <= |m.request(t).options|
    ensures LaunchableUpTo(m, t, k) + OptimizeDag.Viable(m, t, m.request(t).options[k]) <= LaunchableUpTo(m, t, n)
  {
    if n == k + 1 {
    } else {
      LaunchableInOrder(m, t, k, n - 1);
    }
  }

  /** Everything outside the group that placement consults. */
  datatype World = World(
    setup: Optimizer.Setup,                      // the market and whatever optimizing a task alone needs
    score: Score)                                // cost or time of a task on a resource
  {
    function Request(t: Task): seq<Resources> {
      setup.market.request(t).options
    }

    function Launchable(t: Task): seq<Resources> {
      LaunchableUpTo(setup.market, t, |Request(t)|)
    }
  }

  function RequestsOf(world: World): Options {
    t => world.Request(t)
  }

  /** This task can be launched at all, and on Kubernetes if networking is required. */
  ghost predicate Feasible(world: World, setting: Networking, t: Task) {
    world.Launchable(t) != [] && (setting == On ==> exists r :: r in world.Launchable(t) && OnKubernetes(r))
  }

  /** A task's launchables grouped by cloud, only Kubernetes ones if networking is required. */
  ghost predicate CandidatesOf(world: World, setting: Networking, t: Task, cands: Candidates) {
    && Consistent(cands)
    && (forall c ::
          Bucket(cands, c) == if setting != On || IsKubernetes(c) then ForCloud(world.Launchable(t), c) else [])
    && (setting == On ==> forall i :: 0 <= i < |cands| ==> IsKubernetes(cands[i].cloud))
  }

  ghost predicate CandidatesFor(world: World, setting: Networking, tasks: seq<Task>, cands: seq<Candidates>) {
    |cands| == |tasks| && forall t :: 0 <= t < |tasks| ==> CandidatesOf(world, setting, tasks[t], cands[t])
  }

  lemma {:induction false} ForCloudMembers(list: seq<Resources>, c: Cloud, r: Resources)
    ensures r in ForCloud(list, c) <==> r in list && r.cloud == Some(c)
  {
    if list == [] {
    } else {
      ForCloudMembers(list[..|list| - 1], c, r);
      assert list == list[..|list| - 1] + [list[|list| - 1]];
    }
  }

  /** The job is offered this resource, on Kubernetes if networking is required. */
  ghost predicate IsCandidate(world: World, setting: Networking, t: Task, r: Resources) {
    && (exists k: nat :: OptimizeDag.Offered(world.setup.market, t, k, r))
    && (setting == On ==> r.cloud.Some? && Lower(r.cloud.value.repr) == "kubernetes")
  }

  /** A job can take part in the search exactly when it has a candidate. */
  lemma FeasibleMeans(world: World, setting: Networking, t: Task)
    ensures Feasible(world, setting, t) <==> exists r :: IsCandidate(world, setting, t, r)
  {
    var list := world.Launchable(t);
    forall r ensures r in list <==> exists k: nat :: OptimizeDag.Offered(world.setup.market, t, k, r) {
      LaunchableMembers(world.setup.market, t, |world.Request(t)|, r);
    }
    if list != [] {
      assert list[0] in list;
    }
    assert forall r :: r in list && (setting == On ==> OnKubernetes(r)) <==> IsCandidate(world, setting, t, r);
    if Feasible(world, setting, t) {
      if setting == On {
        var r :| r in list && OnKubernetes(r);
        assert IsCandidate(world, setting, t, r);
      } else {
        assert IsCandidate(world, setting, t, list[0]);
      }
    }
  }

  /** Under each cloud a job's candidates are exactly the ones on that cloud. */
  lemma CandidatesMean(world: World, setting: Networking, t: Task, cands: Candidates, c: Cloud, r: Resources)
    requires CandidatesOf(world, setting, t, cands)
    ensures (exists i :: 0 <= i < |cands| && cands[i].cloud == c && r in cands[i].resources)
       <==> IsCandidate(world, setting, t, r) && r.cloud == Some(c)
  {
    ForCloudMembers(world.Launchable(t), c, r);
    LaunchableMembers(world.setup.market, t, |world.Request(t)|, r);
    if i :| 0 <= i < |cands| && cands[i].cloud == c && r in cands[i].resources {
      BucketAt(cands, i);
    }
    if r in Bucket(cands, c) {
      var i := BucketIndex(cands, c);
    }
  }

  lemma EmptyWithoutKubernetes(list: seq<Resources>, kept: Candidates)
    requires Consistent(kept) && forall c :: Bucket(kept, c) == if IsKubernetes(c) then ForCloud(list, c) else []
    ensures kept == [] <==> !exists r :: r in list && OnKubernetes(r)
  {
    if kept != [] {
      BucketAt(kept, 0);
      var r := kept[0].resources[0];
      assert r in kept[0].resources;
      ForCloudMembers(list, kept[0].cloud, r);
    }
    if r :| r in list && OnKubernetes(r) {
      ForCloudMembers(list, r.cloud.value, r);
      var i := BucketIndex(kept, r.cloud.value);
    }
  }

  method TaskCandidates(world: World, setting: Networking, t: Task) returns (cands: Option<Candidates>)
    ensures cands.Some? <==> Feasible(world, setting, t)
    ensures cands.Some? ==> CandidatesOf(world, setting, t, cands.value)
  {
    var list := world.Launchable(t);
    if list == [] {
      return None;
    }
    var grouped := GroupByCloud(list);
    if setting == On {
      grouped := KeepKubernetes(grouped);
      EmptyWithoutKubernetes(list, grouped);
      if grouped == [] {
        return None;
      }
    }
    cands := Some(grouped);
  }

  lemma CandidatesAreConsistent(world: World, setting: Networking, tasks: seq<Task>, cands: seq<Candidates>)
    requires CandidatesFor(world, setting, tasks, cands)
    ensures AllConsistent(cands) && (setting == On ==> AllKubernetes(cands))
  {
    forall t | 0 <= t < |cands|
      ensures Consistent(cands[t])
      ensures setting == On ==> forall i :: 0 <= i < |cands[t]| ==> IsKubernetes(cands[t][i].cloud)
    {
      assert CandidatesOf(world, setting, tasks[t], cands[t]);
    }
  }

  /** What optimizing single tasks takes for granted. */
  ghost predicate Ready(world: World, tasks: seq<Task>) {
    Optimizer.Works(world.setup) && world.setup.source !in tasks && world.setup.sink !in tasks
      && world.setup.source != world.setup.sink
  }

  ghost predicate PlaceableAlone(world: World, t: Task) {
    !Optimizer.IsReserved(t) && !OptimizeDag.Unplaceable(world.setup.market, t)
  }

  /** The resource belongs to `t` in a best plan of the DAG that holds `t` only. */
  ghost predicate BestAlone(world: World, t: Task, r: Resources) {
    exists plan: map<Task, Resources>, objective ::
      Optimizer.BestFor(world.setup, Graph({t}, {}), plan, objective) && t in plan && plan[t] == r
  }

  /** How optimizing this task by itself fails. */
  function FailureOf(t: Task): Outcome {
    if Optimizer.IsReserved(t) then AssertionFailed else Unavailable
  }

  lemma ReadyForOne(world: World, tasks: seq<Task>, i: nat)
    requires Ready(world, tasks) && i < |tasks|
    ensures Ready(world, [tasks[i]])
  {
    assert tasks[i] in tasks;
  }

  lemma LoneTaskAccepted(world: World, t: Task)
    requires Ready(world, [t])
    ensures Optimizer.Accepts(world.setup, Graph({t}, {}))
  {
    assert t in [t];
    assert IsTopologicalOrder(Graph({t}, {}), [t]);
    OrderedIsAcyclic(Graph({t}, {}), [t]);
  }

  method OptimizeTask(world: World, t: Task) returns (r: Option<Resources>, failed: Outcome)
    requires Ready(world, [t])
    ensures r.Some? <==> PlaceableAlone(world, t)
    ensures r.Some? ==> BestAlone(world, t, r.value)
    ensures failed == FailureOf(t)
    ensures failed == if t.name == Some("skypilot-dummy-source") || t.name == Some("skypilot-dummy-sink")
                      then AssertionFailed else Unavailable
  {
    var dag := new Dag();
    dag.Add(t);
    assert dag.graph == Graph({t}, {}) && dag.tasks == [t] && Elements(dag.tasks) == {t};
    LoneTaskAccepted(world, t);
    var ending := Optimizer.Optimize(world.setup, dag);
    assert Optimizer.HasReserved([t]) <==> Optimizer.IsReserved(t) by {
      assert t in [t];
    }
    assert t in [t];
    failed := FailureOf(t);
    r := if ending.Planned? then Some(ending.best[t]) else None;
  }

  class JobGroup {
    const tasks: seq<Task>
    var interConnection: Networking
    var best: map<Task, Resources>

    constructor (tasks: seq<Task>, interConnection: Networking)
      ensures this.tasks == tasks && this.interConnection == interConnection && best == map[]
    {
      this.tasks, this.interConnection := tasks, interConnection;
      best := map[];
    }

    predicate InterConnectionEnabled()
      reads this
    {
      interConnection != Off
    }

    /**
     * Checks the pins against the networking setting. Required networking contradicts a pin off Kubernetes
     * and pins that conflict; otherwise conflicting pins mean placing each job by itself, with networking off.
     */
    method ValidatePins(world: World) returns (verdict: PinVerdict)
      modifies this`interConnection
      ensures verdict == VerdictOf(world, tasks, old(interConnection))
      ensures interConnection == if verdict == CrossInfra then Off else old(interConnection)
      ensures verdict == PinsContradict <==>
        old(interConnection) == On && (PinnedOff(tasks, RequestsOf(world)) || PinsConflict(tasks, RequestsOf(world)))
      ensures verdict == CrossInfra <==> old(interConnection) != On && PinsConflict(tasks, RequestsOf(world))
      ensures interConnection != old(interConnection) ==> old(interConnection) == Unset && interConnection == Off
      ensures verdict == CrossInfra ==> interConnection == Off
    {
      var off, conflict := CheckPins(tasks, RequestsOf(world));
      if interConnection == On {
        verdict := if off || conflict then PinsContradict else SearchCommon;
      } else if !conflict {
        verdict := SearchCommon;
      } else {
        if interConnection == Unset {
          interConnection := Off;
        }
        verdict := CrossInfra;
      }
    }

    /** Places every task by itself, in a DAG of its own. */
    method OptimizeIndependent(world: World) returns (outcome: Outcome)
      requires Ready(world, tasks)
      modifies this`best
      ensures PlacedAlone(world, tasks, outcome, best)
    {
      for i := 0 to |tasks|
        invariant AllAlone(world, tasks[..i], best)
      {
        ReadyForOne(world, tasks, i);
        var r, failed := OptimizeTask(world, tasks[i]);
        if r.None? {
          FailsFirst(world, tasks, best, i);
          return failed;
        }
        OneMoreFits(tasks, best, FitsAlone(world), i, r.value);
        best := best[tasks[i] := r.value];
      }
      assert tasks[..|tasks|] == tasks;
      outcome := Placed;
    }

    /** The candidates of every task, limited to Kubernetes when networking is explicitly required. */
    method CollectCandidates(world: World) returns (cands: Option<seq<Candidates>>)
      ensures cands.Some? <==> forall t :: 0 <= t < |tasks| ==> Feasible(world, interConnection, tasks[t])
      ensures cands.Some? ==> CandidatesFor(world, interConnection, tasks, cands.value)
    {
      var list: seq<Candidates> := [];
      for t := 0 to |tasks|
        invariant |list| == t
        invariant forall s :: 0 <= s < t ==> Feasible(world, interConnection, tasks[s])
        invariant forall s :: 0 <= s < t ==> CandidatesOf(world, interConnection, tasks[s], list[s])
      {
        var found := TaskCandidates(world, interConnection, tasks[t]);
        if found.None? {
          return None;
        }
        list := list + [found.value];
      }
      cands := Some(list);
    }

    /** Gives every task a resource on the selected infrastructure; false where a lookup asserts. */
    method AssignAll(world: World, cands: seq<Candidates>, infra: Infra) returns (ok: bool)
      requires CandidatesFor(world, interConnection, tasks, cands)
      modifies this`best
      ensures ok <==> AllMatch(cands, infra)
      ensures ok ==> AllOn(world, tasks, best, infra) && FirstTaken(tasks, best, cands, infra)
    {
      for t := 0 to |tasks|
        invariant forall i :: 0 <= i < t ==> MatchOf(cands[i], infra.0.repr, infra.1).Some?
        invariant AllOn(world, tasks[..t], best, infra)
        invariant FirstTaken(tasks[..t], best, cands[..t], infra)
      {
        var r := Match(cands[t], infra.0.repr, infra.1);
        if r.None? {
          return false;
        }
        AssignOne(world, interConnection, tasks, cands, best, infra, t);
        TakeOne(tasks, best, cands, infra, t);
        best := best[tasks[t] := r.value];
      }
      assert tasks[..|tasks|] == tasks && cands[..|tasks|] == cands;
      ok := true;
    }

    /** Places the whole group on a common infrastructure, switching an unset setting off elsewhere than Kubernetes. */
    method PlaceOn(world: World, cands: seq<Candidates>, infra: Infra) returns (outcome: Outcome)
      requires CandidatesFor(world, interConnection, tasks, cands) && CommonTo(cands, IdOf(infra))
      modifies this
      ensures interConnection == SettingOn(old(interConnection), infra)
      ensures outcome == if AllMatch(cands, infra) then Placed else AssertionFailed
      ensures outcome == Placed ==> AllOn(world, tasks, best, infra) && FirstTaken(tasks, best, cands, infra)
    {
      var ok := AssignAll(world, cands, infra);
      if interConnection == Unset && !IsKubernetes(infra.0) {
        interConnection := Off;
      }
      outcome := if ok then Placed else AssertionFailed;
    }

    /**
     * The search for one common infrastructure. Without candidates it fails; without anything common it
     * fails when networking is on and places tasks one by one when it is off; otherwise every task goes
     * to the best common infrastructure.
     */
    method OptimizeSameInfra(world: World) returns (outcome: Outcome, ghost found: Search)
      requires Ready(world, tasks)
      modifies this
      ensures SearchEnds(world, tasks, old(interConnection), interConnection, outcome, best, found)
    {
      found := Search(None, [], None);
      var collected := CollectCandidates(world);
      if collected.None? {
        return Unavailable, found;
      }
      CandidatesAreConsistent(world, interConnection, tasks, collected.value);
      var shared := FindCommonInfras(collected.value);
      found := Search(collected, shared, None);
      if shared == [] {
        if InterConnectionEnabled() {
          return Unavailable, found;
        }
        outcome := OptimizeIndependent(world);
        return;
      }
      var infra := SelectBestInfra(world.score, tasks, collected.value, shared);
      found := Search(collected, shared, Some(infra));
      SelectedIsCommon(collected.value, shared, infra);
      outcome := PlaceOn(world, collected.value, infra);
    }

    /**
     * Every way the placement of a group can end. Contradicted networking raises at once; conflicting pins
     * place each job by itself with networking off; everything else is up to the search.
     */
    method OptimizeJobGroup(world: World) returns (outcome: Outcome, ghost found: Search)
      requires Ready(world, tasks)
      modifies this
      ensures GroupEnds(world, tasks, old(interConnection), old(best), interConnection, outcome, best, found)
      ensures old(interConnection) == On
        && (PinnedOff(tasks, RequestsOf(world)) || PinsConflict(tasks, RequestsOf(world)))
        ==> outcome == Unavailable && interConnection == On && best == old(best)
      ensures old(interConnection) != On && PinsConflict(tasks, RequestsOf(world))
        ==> interConnection == Off && PlacedAlone(world, tasks, outcome, best)
    {
      found := Search(None, [], None);
      var verdict := ValidatePins(world);
      match verdict
      case PinsContradict =>
        outcome := Unavailable;
      case CrossInfra =>
        outcome := OptimizeIndependent(world);
      case SearchCommon =>
        outcome, found := OptimizeSameInfra(world);
    }
  }

  // ---------------------------------------------------------------------
  // How placement can end.

  ghost function VerdictOf(world: World, tasks: seq<Task>, setting: Networking): PinVerdict {
    var options := RequestsOf(world);
    if setting == On then
      if PinnedOff(tasks, options) || PinsConflict(tasks, options) then PinsContradict else SearchCommon
    else if PinsConflict(tasks, options) then CrossInfra else SearchCommon
  }

  /** What the search had in hand: the candidates, what they have in common, and what was selected. */
  datatype Search = Search(cands: Option<seq<Candidates>>, common: seq<Infra>, infra: Option<Infra>)

  /** An unset setting is switched off when the group is placed elsewhere than on Kubernetes. */
  function SettingOn(was: Networking, infra: Infra): Networking {
    if was == Unset && !IsKubernetes(infra.0) then Off else was
  }

  ghost predicate AllMatch(cands: seq<Candidates>, infra: Infra) {
    forall t :: 0 <= t < |cands| ==> MatchOf(cands[t], infra.0.repr, infra.1).Some?
  }

  /** The group was placed on the best common infrastructure, unless a lookup failed. */
  ghost predicate PlacedOn(world: World, tasks: seq<Task>, cands: seq<Candidates>, common: seq<Infra>, infra: Infra,
                           outcome: Outcome, best: map<Task, Resources>)
    requires |tasks| == |cands|
  {
    && IsBest(world.score, tasks, cands, common, infra)
    && outcome == (if AllMatch(cands, infra) then Placed else AssertionFailed)
    && (outcome == Placed ==> AllOn(world, tasks, best, infra) && FirstTaken(tasks, best, cands, infra))
  }

  /** Every way the search can end. */
  ghost predicate SearchEnds(world: World, tasks: seq<Task>, was: Networking, now: Networking, outcome: Outcome,
                             best: map<Task, Resources>, found: Search)
  {
    && (found.cands.Some? <==> forall t :: 0 <= t < |tasks| ==> Feasible(world, was, tasks[t]))
    && match found
       case Search(None, _, _) => outcome == Unavailable && now == was
       case Search(Some(cands), common, infra) =>
         && CandidatesFor(world, was, tasks, cands) && CommonList(cands, common)
         && (common == [] ==>
               now == was && if was != Off then outcome == Unavailable else PlacedAlone(world, tasks, outcome, best))
         && (common != [] ==>
               && infra.Some? && now == SettingOn(was, infra.value)
               && PlacedOn(world, tasks, cands, common, infra.value, outcome, best))
  }

  /** Every way the placement of a group can end. */
  ghost predicate GroupEnds(world: World, tasks: seq<Task>, was: Networking, before: map<Task, Resources>,
                            now: Networking, outcome: Outcome, best: map<Task, Resources>, found: Search)
  {
    match VerdictOf(world, tasks, was)
    case PinsContradict => outcome == Unavailable && now == On && best == before
    case CrossInfra => now == Off && PlacedAlone(world, tasks, outcome, best)
    case SearchCommon => SearchEnds(world, tasks, was, now, outcome, best, found)
  }

  /** A normal return with networking still on means: all tasks on Kubernetes in one region. */
  lemma NetworkingMeansColocated(world: World, tasks: seq<Task>, was: Networking, before: map<Task, Resources>,
                                 now: Networking, outcome: Outcome, best: map<Task, Resources>, found: Search)
    requires GroupEnds(world, tasks, was, before, now, outcome, best, found) && outcome == Placed && now != Off
    ensures Colocated(tasks, best)
    ensures was != Off && (was == On ==> now == On)
  {
    var cands, infra := found.cands.value, found.infra.value;
    CandidatesAreConsistent(world, was, tasks, cands);
    SelectedIsCommon(cands, found.common, infra);
    if was == On {
      CommonOnKubernetes(cands, infra);
    }
    OnInfraIsColocated(world, tasks, best, infra);
  }

  /** An unset setting stays unset on Kubernetes and is switched off elsewhere; a given one is left alone. */
  lemma SettingAfterSearch(world: World, tasks: seq<Task>, was: Networking, now: Networking, outcome: Outcome,
                           best: map<Task, Resources>, found: Search)
    requires SearchEnds(world, tasks, was, now, outcome, best, found)
    requires found.cands.Some? && found.common != []
    ensures now == Off <==> was == Off || (was == Unset && Lower(found.infra.value.0.repr) != "kubernetes")
    ensures now == On <==> was == On
  {
  }

  /** With candidates for all and nothing in common: an error while networking is on, each job by itself while off. */
  lemma NothingCommonEnds(world: World, tasks: seq<Task>, was: Networking, now: Networking, outcome: Outcome,
                          best: map<Task, Resources>, found: Search)
    requires SearchEnds(world, tasks, was, now, outcome, best, found)
    requires found.cands.Some? && forall id :: !CommonTo(found.cands.value, id)
    ensures was != Off ==> outcome == Unavailable
    ensures was == Off ==>
      (outcome == Placed <==> forall i :: 0 <= i < |tasks| ==> PlaceableAlone(world, tasks[i]))
    ensures was == Off && outcome == Placed ==>
      forall i :: 0 <= i < |tasks| ==> tasks[i] in best && BestAlone(world, tasks[i], best[tasks[i]])
  {
    NothingCommonNothingListed(found.cands.value, found.common);
    if was == Off && outcome == Placed {
      forall i | 0 <= i < |tasks| ensures tasks[i] in best && BestAlone(world, tasks[i], best[tasks[i]]) {
        assert FitsAlone(world)(tasks[i], best[tasks[i]]);
      }
    }
  }

  /** The setting only ever moves from unset to off. */
  lemma SettingOnlyDegrades(world: World, tasks: seq<Task>, was: Networking, before: map<Task, Resources>,
                            now: Networking, outcome: Outcome, best: map<Task, Resources>, found: Search)
    requires GroupEnds(world, tasks, was, before, now, outcome, best, found)
    ensures now == was || (was == Unset && now == Off)
  {
  }

  /** With one cloud per name and no reserved task names, no assertion fails. */
  lemma NoAssertionFails(world: World, tasks: seq<Task>, was: Networking, before: map<Task, Resources>,
                         now: Networking, outcome: Outcome, best: map<Task, Resources>, found: Search)
    requires GroupEnds(world, tasks, was, before, now, outcome, best, found)
    requires forall i :: 0 <= i < |tasks| ==> !Optimizer.IsReserved(tasks[i])
    requires found.cands.Some? ==> OneKeyPerName(found.cands.value)
    ensures outcome != AssertionFailed
  {
    if found.cands.Some? && found.common != [] && found.infra.Some? && VerdictOf(world, tasks, was) == SearchCommon {
      CandidatesAreConsistent(world, was, tasks, found.cands.value);
      SelectedIsCommon(found.cands.value, found.common, found.infra.value);
      MatchesFound(found.cands.value, found.infra.value);
    }
  }

  /** Every task is at a best resource of its own, or the first task that has none decides the failure. */
  ghost predicate PlacedAlone(world: World, tasks: seq<Task>, outcome: Outcome, best: map<Task, Resources>) {
    if forall i :: 0 <= i < |tasks| ==> PlaceableAlone(world, tasks[i]) then
      outcome == Placed && AllAlone(world, tasks, best)
    else
      exists i :: FirstFailure(world, tasks, i) && outcome == FailureOf(tasks[i])
  }

  ghost predicate AllAlone(world: World, tasks: seq<Task>, best: map<Task, Resources>) {
    AllFit(tasks, best, FitsAlone(world))
  }

  ghost function FitsAlone(world: World): (Task, Resources) -> bool {
    (t, r) => PlaceableAlone(world, t) && BestAlone(world, t, r)
  }

  /** Every task of the list has a resource, and one that fits it. */
  ghost predicate AllFit(tasks: seq<Task>, best: map<Task, Resources>, fits: (Task, Resources) -> bool) {
    forall i :: 0 <= i < |tasks| ==> tasks[i] in best && fits(tasks[i], best[tasks[i]])
  }

  lemma OneMoreFits(tasks: seq<Task>, best: map<Task, Resources>, fits: (Task, Resources) -> bool, i: nat, r: Resources)
    requires i < |tasks| && AllFit(tasks[..i], best, fits) && fits(tasks[i], r)
    ensures AllFit(tasks[..i + 1], best[tasks[i] := r], fits)
  {
    forall j | 0 <= j < i + 1 ensures tasks[..i + 1][j] == if j < i then tasks[..i][j] else tasks[i] {
    }
  }

  lemma FailsFirst(world: World, tasks: seq<Task>, best: map<Task, Resources>, i: nat)
    requires i < |tasks| && AllAlone(world, tasks[..i], best) && !PlaceableAlone(world, tasks[i])
    ensures FirstFailure(world, tasks, i)
  {
    forall j | 0 <= j < i ensures PlaceableAlone(world, tasks[j]) {
      assert tasks[..i][j] == tasks[j] && FitsAlone(world)(tasks[j], best[tasks[j]]);
    }
  }

  ghost predicate FirstFailure(world: World, tasks: seq<Task>, i: int) {
    0 <= i < |tasks| && !PlaceableAlone(world, tasks[i]) && forall j :: 0 <= j < i ==> PlaceableAlone(world, tasks[j])
  }

  /** Every task is on the infrastructure, with one of its own launchables. */
  ghost predicate AllOn(world: World, tasks: seq<Task>, best: map<Task, Resources>, infra: Infra) {
    AllFit(tasks, best, FitsOn(world, infra))
  }

  /** Every task has the first of its candidates in the region, as looked up for its last place in the list. */
  ghost predicate FirstTaken(tasks: seq<Task>, best: map<Task, Resources>, cands: seq<Candidates>, infra: Infra)
    requires |tasks| == |cands|
  {
    forall i :: 0 <= i < |tasks| && tasks[i] !in tasks[i + 1..] ==>
      tasks[i] in best && MatchOf(cands[i], infra.0.repr, infra.1) == Some(best[tasks[i]])
  }

  lemma TakeOne(tasks: seq<Task>, best: map<Task, Resources>, cands: seq<Candidates>, infra: Infra, t: nat)
    requires t < |tasks| == |cands| && FirstTaken(tasks[..t], best, cands[..t], infra)
    requires MatchOf(cands[t], infra.0.repr, infra.1).Some?
    ensures FirstTaken(tasks[..t + 1], best[tasks[t] := MatchOf(cands[t], infra.0.repr, infra.1).value],
                       cands[..t + 1], infra)
  {
    var more, fewer := tasks[..t + 1], tasks[..t];
    forall i | 0 <= i < t && more[i] !in more[i + 1..] ensures fewer[i] !in fewer[i + 1..] && more[i] != tasks[t] {
      assert more[i + 1..] == fewer[i + 1..] + [tasks[t]];
      assert tasks[t] in more[i + 1..];
    }
  }

  lemma AssignOne(world: World, setting: Networking, tasks: seq<Task>, cands: seq<Candidates>,
                  best: map<Task, Resources>, infra: Infra, t: nat)
    requires t < |tasks| == |cands| && CandidatesOf(world, setting, tasks[t], cands[t])
    requires MatchOf(cands[t], infra.0.repr, infra.1).Some? && AllOn(world, tasks[..t], best, infra)
    ensures AllOn(world, tasks[..t + 1], best[tasks[t] := MatchOf(cands[t], infra.0.repr, infra.1).value], infra)
  {
    var r := MatchOf(cands[t], infra.0.repr, infra.1).value;
    MatchMeans(world, setting, tasks[t], cands[t], infra);
    assert FitsOn(world, infra)(tasks[t], r);
    OneMoreFits(tasks, best, FitsOn(world, infra), t, r);
  }

  ghost function FitsOn(world: World, infra: Infra): (Task, Resources) -> bool {
    (t, r) => OnInfra(r, IdOf(infra)) && r in world.Launchable(t)
  }

  ghost predicate OnInfra(r: Resources, id: InfraId) {
    r.region == id.1 && r.cloud.Some? && r.cloud.value.repr == id.0
  }

  /** With one key per name the two lookups of the last step always find something. */
  lemma MatchFound(cands: seq<Candidates>, t: nat, infra: Infra)
    requires t < |cands| && OneKeyPerName(cands) && CommonTo(cands, IdOf(infra)) && KeysDistinct(cands[t])
    ensures MatchOf(cands[t], infra.0.repr, infra.1).Some?
  {
    assert HasInfra(cands[t], IdOf(infra));
    var i :| 0 <= i < |cands[t]| && EntryHas(cands[t][i], IdOf(infra));
    forall j | 0 <= j < i ensures cands[t][j].cloud.repr != infra.0.repr {
      assert cands[t][j].cloud != cands[t][i].cloud;
    }
    MatchAt(cands[t], infra.0.repr, infra.1, i);
  }

  lemma MatchesFound(cands: seq<Candidates>, infra: Infra)
    requires AllConsistent(cands) && CommonTo(cands, IdOf(infra))
    ensures OneKeyPerName(cands) ==> forall t :: 0 <= t < |cands| ==> MatchOf(cands[t], infra.0.repr, infra.1).Some?
  {
    if OneKeyPerName(cands) {
      forall t | 0 <= t < |cands| ensures MatchOf(cands[t], infra.0.repr, infra.1).Some? {
        MatchFound(cands, t, infra);
      }
    }
  }

  lemma OnInfraIsColocated(world: World, tasks: seq<Task>, best: map<Task, Resources>, infra: Infra)
    requires IsKubernetes(infra.0) && AllOn(world, tasks, best, infra)
    ensures Colocated(tasks, best)
  {
    assert ColocatedIn(tasks, best, infra.1);
  }

  lemma SelectedIsCommon(cands: seq<Candidates>, common: seq<Infra>, infra: Infra)
    requires CommonList(cands, common) && infra in common
    ensures CommonTo(cands, IdOf(infra)) && SomeKey(cands, infra.0)
  {
    var k := Position(common, infra);
    assert IdOf(common[k]) == IdOf(infra) && Listed(common, IdOf(infra));
  }

  lemma CommonOnKubernetes(cands: seq<Candidates>, infra: Infra)
    requires AllKubernetes(cands) && SomeKey(cands, infra.0)
    ensures IsKubernetes(infra.0)
  {
    var t :| 0 <= t < |cands| && IsKey(cands[t], infra.0);
    var i :| 0 <= i < |cands[t]| && cands[t][i].cloud == infra.0;
  }

  function LoneEntry(c: Cloud, region: string): CloudEntry {
    CloudEntry(c, [Resources(Some(c), Some(region), 0)])
  }

  /**
   * Two cloud objects that print alike can defeat the lookup, although the infrastructure is common. The
   * clouds of the source all print differently, so it takes a cloud class from outside.
   */
  lemma LookupNeedsOneKeyPerName(a: Cloud, b: Cloud, region: string, other: string)
    requires a != b && a.repr == b.repr && region != other
    ensures var cands := [LoneEntry(a, other), LoneEntry(b, region)];
      Consistent(cands) && CommonTo([cands], (a.repr, Some(region))) && MatchOf(cands, a.repr, Some(region)).None?
  {
    var cands := [LoneEntry(a, other), LoneEntry(b, region)];
    assert cands[1].resources[0].region == Some(region);
    assert EntryHas(cands[1], (a.repr, Some(region)));
    assert HasInfra([cands][0], (a.repr, Some(region)));
  }

  // ---------------------------------------------------------------------
  // What skipping the search loses.

  /** The catalog stays within what an option pins. */
  ghost predicate MarketHonours(m: OptimizeDag.Market) {
    forall t, o, r :: r in m.launchables(t, o) ==> r.cloud.Some? ==> Honours(o, r.cloud.value, r)
  }

  lemma {:induction false} LaunchableFrom(m: OptimizeDag.Market, t: Task, n: nat, r: Resources) returns (o: nat)
    requires n <= |m.request(t).options| && r in LaunchableUpTo(m, t, n)
    ensures o < n && r in m.launchables(t, m.request(t).options[o])
  {
    if n == 0 {
      assert false;
    } else if r in LaunchableUpTo(m, t, n - 1) {
      o := LaunchableFrom(m, t, n - 1, r);
    } else {
      o := n - 1;
      OptimizeDag.UnblockedMembers(m, m.launchables(t, m.request(t).options[o]), r);
    }
  }

  lemma CandidateHonours(world: World, setting: Networking, t: Task, cands: Candidates, i: nat, k: nat)
    requires MarketHonours(world.setup.market) && CandidatesOf(world, setting, t, cands)
    requires i < |cands| && k < |cands[i].resources|
    ensures HonoursSome(world.Request(t), cands[i].cloud, cands[i].resources[k])
  {
    var r := cands[i].resources[k];
    BucketAt(cands, i);
    ForCloudMembers(world.Launchable(t), cands[i].cloud, r);
    var o := LaunchableFrom(world.setup.market, t, |world.Request(t)|, r);
    assert Honours(world.Request(t)[o], cands[i].cloud, r);
  }

  lemma CandidatesWithinPins(world: World, setting: Networking, t: Task, cands: Candidates)
    requires MarketHonours(world.setup.market) && CandidatesOf(world, setting, t, cands)
    ensures RespectsPins(world.Request(t), cands)
  {
    forall i, k | 0 <= i < |cands| && 0 <= k < |cands[i].resources|
      ensures HonoursSome(world.Request(t), cands[i].cloud, cands[i].resources[k])
    {
      CandidateHonours(world, setting, t, cands, i, k);
    }
  }

  /** Had the search been made in spite of conflicting pins, it would have found nothing in common. */
  lemma SearchFindsNothing(world: World, setting: Networking, tasks: seq<Task>, cands: seq<Candidates>,
                           common: seq<Infra>)
    requires MarketHonours(world.setup.market) && PinsConflict(tasks, RequestsOf(world))
    requires CandidatesFor(world, setting, tasks, cands) && CommonList(cands, common)
    ensures common == []
  {
    forall i | 0 <= i < |tasks| ensures RespectsPins(RequestsOf(world)(tasks[i]), cands[i]) {
      CandidatesWithinPins(world, setting, tasks[i], cands[i]);
    }
    ConflictMeansNothingCommon(tasks, RequestsOf(world), cands);
  }
}
