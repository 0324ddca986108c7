/**
 * Infra pins of job groups (sky/optimizer.py): what the options of each job pin, when the pins of a group
 * conflict, and why a conflict rules out every common infrastructure.
 */
module Pins {
  import opened Prelude
  import opened Graphs
  import opened Placement
  import opened Infras

  type Options = Task -> seq<Resources>

  /** Pin sets by task name. */
  type PinMap = map<string, set<string>>

  function InfraName(c: Cloud, region: string): string {
    c.repr + "/" + region
  }

  /** Every option names a cloud, and there is at least one. */
  predicate PinsClouds(options: seq<Resources>) {
    options != [] && forall i :: 0 <= i < |options| ==> options[i].cloud.Some?
  }

  /** Every option names a cloud and a region, and there is at least one. */
  predicate PinsInfras(options: seq<Resources>) {
    PinsClouds(options) && forall i :: 0 <= i < |options| ==> options[i].region.Some?
  }

  /** The exact set of clouds a task can run on, or None when it is flexible across clouds. */
  ghost predicate AreCloudPins(options: seq<Resources>, pins: Option<set<string>>) {
    if PinsClouds(options) then
      pins.Some? && forall n :: n in pins.value <==> exists i :: 0 <= i < |options| && options[i].cloud.value.repr == n
    else pins.None?
  }

  /** The exact set of infrastructures a task can run on, or None when it is flexible within a cloud. */
  ghost predicate AreInfraPins(options: seq<Resources>, pins: Option<set<string>>) {
    if PinsInfras(options) then
      pins.Some? && forall n :: n in pins.value <==>
        exists i :: 0 <= i < |options| && InfraName(options[i].cloud.value, options[i].region.value) == n
    else pins.None?
  }

  method TaskPinSets(options: seq<Resources>) returns (clouds: Option<set<string>>, infras: Option<set<string>>)
    ensures AreCloudPins(options, clouds) && AreInfraPins(options, infras)
  {
    var cloudPins: set<string> := {};
    var infraPins: Option<set<string>> := Some({});
    for i := 0 to |options|
      invariant forall j :: 0 <= j < i ==> options[j].cloud.Some?
      invariant forall n :: n in cloudPins <==> exists j :: 0 <= j < i && options[j].cloud.value.repr == n
      invariant infraPins.Some? <==> forall j :: 0 <= j < i ==> options[j].region.Some?
      invariant infraPins.Some? ==> forall n :: n in infraPins.value <==>
        exists j :: 0 <= j < i && InfraName(options[j].cloud.value, options[j].region.value) == n
      invariant i > 0 ==> options[0].cloud.value.repr in cloudPins
    {
      if options[i].cloud.None? {
        return None, None;
      }
      cloudPins := cloudPins + {options[i].cloud.value.repr};
      if options[i].region.None? {
        infraPins := None;
      } else if infraPins.Some? {
        infraPins := Some(infraPins.value + {InfraName(options[i].cloud.value, options[i].region.value)});
      }
    }
    if cloudPins == {} {
      return None, None;
    }
    return Some(cloudPins), infraPins;
  }

  ghost function CloudPin(options: seq<Resources>): (pins: Option<set<string>>)
    ensures AreCloudPins(options, pins)
  {
    if PinsClouds(options) then Some(set i | 0 <= i < |options| :: options[i].cloud.value.repr) else None
  }

  ghost function InfraPin(options: seq<Resources>): (pins: Option<set<string>>)
    ensures AreInfraPins(options, pins)
  {
    if PinsInfras(options) then
      Some(set i | 0 <= i < |options| :: InfraName(options[i].cloud.value, options[i].region.value))
    else None
  }

  /** The pin sets of a task are determined by its options. */
  lemma PinSetsAreExact(options: seq<Resources>, clouds: Option<set<string>>, infras: Option<set<string>>)
    requires AreCloudPins(options, clouds) && AreInfraPins(options, infras)
    ensures clouds == CloudPin(options) && infras == InfraPin(options)
  {
    if clouds.Some? {
      assert clouds.value == CloudPin(options).value;
    }
    if infras.Some? {
      assert infras.value == InfraPin(options).value;
    }
  }

  // ---------------------------------------------------------------------
  // The pins of a group.

  /** An unnamed task is filed under the text of its missing name. */
  function NameOf(t: Task): string {
    if t.name.Some? then t.name.value else "None"
  }

  /** The pin sets by name, each pinned task overwriting what an earlier one of its name has stored. */
  ghost function Gathered(tasks: seq<Task>, pin: Task -> Option<set<string>>): PinMap {
    if tasks == [] then map[]
    else
      var t := tasks[|tasks| - 1];
      var rest := Gathered(tasks[..|tasks| - 1], pin);
      if pin(t).Some? then rest[NameOf(t) := pin(t).value] else rest
  }

  ghost function CloudPins(tasks: seq<Task>, options: Options): PinMap {
    Gathered(tasks, t => CloudPin(options(t)))
  }

  ghost function InfraPins(tasks: seq<Task>, options: Options): PinMap {
    Gathered(tasks, t => InfraPin(options(t)))
  }

  /** Among tasks of this name, `i` is the last that pins anything. */
  ghost predicate IsLastPinned(tasks: seq<Task>, pin: Task -> Option<set<string>>, name: string, i: nat) {
    && i < |tasks| && NameOf(tasks[i]) == name && pin(tasks[i]).Some?
    && forall j :: i < j < |tasks| && NameOf(tasks[j]) == name ==> pin(tasks[j]).None?
  }

  /** What is stored under a name is the pin set of the last pinned task of that name, if there is one. */
  lemma {:induction false} LastPinWins(tasks: seq<Task>, pin: Task -> Option<set<string>>, name: string)
    ensures name in Gathered(tasks, pin) <==> exists i: nat :: IsLastPinned(tasks, pin, name, i)
    ensures forall i: nat :: IsLastPinned(tasks, pin, name, i) ==> Some(Gathered(tasks, pin)[name]) == pin(tasks[i])
  {
    if tasks == [] {
    } else {
      var n := |tasks| - 1;
      var rest := tasks[..n];
      LastPinWins(rest, pin, name);
      if NameOf(tasks[n]) == name && pin(tasks[n]).Some? {
        assert IsLastPinned(tasks, pin, name, n);
      } else {
        forall i: nat ensures IsLastPinned(tasks, pin, name, i) <==> IsLastPinned(rest, pin, name, i) {
          assert i < n ==> rest[i] == tasks[i];
          assert forall j :: i < j < n ==> rest[j] == tasks[j];
        }
      }
    }
  }

  method GatherPins(tasks: seq<Task>, options: Options) returns (clouds: PinMap, infras: PinMap)
    ensures clouds == CloudPins(tasks, options) && infras == InfraPins(tasks, options)
  {
    clouds, infras := map[], map[];
    for i := 0 to |tasks|
      invariant clouds == CloudPins(tasks[..i], options) && infras == InfraPins(tasks[..i], options)
    {
      var c, n := TaskPinSets(options(tasks[i]));
      PinSetsAreExact(options(tasks[i]), c, n);
      assert tasks[..i + 1][..i] == tasks[..i];
      if c.Some? {
        clouds := clouds[NameOf(tasks[i]) := c.value];
      }
      if n.Some? {
        infras := infras[NameOf(tasks[i]) := n.value];
      }
    }
    assert tasks[..|tasks|] == tasks;
  }

  ghost predicate Shared(pins: PinMap, x: string) {
    forall k :: k in pins ==> x in pins[k]
  }

  /** More than one pinned name, and nothing that all of them allow. */
  ghost predicate Conflict(pins: PinMap) {
    |pins| > 1 && forall x :: !Shared(pins, x)
  }

  method Intersect(pins: PinMap) returns (common: set<string>)
    requires pins != map[]
    ensures forall x :: x in common <==> Shared(pins, x)
  {
    var first :| first in pins;
    common := pins[first];
    var left := pins.Keys - {first};
    while left != {}
      invariant left <= pins.Keys
      invariant forall x :: x in common <==> forall k :: k in pins && k !in left ==> x in pins[k]
    {
      var k :| k in left;
      common := common * pins[k];
      left := left - {k};
    }
  }

  method HasConflict(pins: PinMap) returns (conflict: bool)
    ensures conflict <==> Conflict(pins)
  {
    if |pins| <= 1 {
      return false;
    }
    var common := Intersect(pins);
    conflict := common == {};
    if !conflict {
      var x :| x in common;
      assert Shared(pins, x);
    }
  }

  ghost predicate AnyOffKubernetes(pins: PinMap) {
    exists k :: k in pins && forall n :: n in pins[k] ==> Lower(n) != KUBERNETES
  }

  method FindOffKubernetes(pins: PinMap) returns (found: bool)
    ensures found <==> AnyOffKubernetes(pins)
  {
    found := false;
    var left := pins.Keys;
    while left != {}
      invariant left <= pins.Keys
      invariant found <==> exists k :: k in pins && k !in left && forall n :: n in pins[k] ==> Lower(n) != KUBERNETES
    {
      var k :| k in left;
      if forall n | n in pins[k] :: Lower(n) != KUBERNETES {
        found := true;
      }
      left := left - {k};
    }
  }

  /** Some name is pinned, and only off Kubernetes. */
  ghost predicate PinnedOff(tasks: seq<Task>, options: Options) {
    AnyOffKubernetes(CloudPins(tasks, options))
  }

  /** The pinned names share no cloud, or no infrastructure. */
  ghost predicate PinsConflict(tasks: seq<Task>, options: Options) {
    Conflict(CloudPins(tasks, options)) || Conflict(InfraPins(tasks, options))
  }

  method CheckPins(tasks: seq<Task>, options: Options) returns (off: bool, conflict: bool)
    ensures off <==> PinnedOff(tasks, options)
    ensures conflict <==> PinsConflict(tasks, options)
  {
    var clouds, infras := GatherPins(tasks, options);
    off := FindOffKubernetes(clouds);
    var cloudsConflict := HasConflict(clouds);
    var infrasConflict := HasConflict(infras);
    conflict := cloudsConflict || infrasConflict;
  }

  // ---------------------------------------------------------------------
  // What the pin check means for the jobs.

  /** A job is pinned to clouds when every alternative names one, and then to exactly those. */
  lemma CloudPinMeans(options: seq<Resources>)
    ensures CloudPin(options).Some? <==> options != [] && forall r :: r in options ==> r.cloud != None
    ensures CloudPin(options).Some? ==> forall n :: n in CloudPin(options).value <==>
      exists r :: r in options && r.cloud.Some? && r.cloud.value.repr == n
  {
    assert forall r :: r in options ==> exists i :: 0 <= i < |options| && options[i] == r;
    assert forall i :: 0 <= i < |options| ==> options[i] in options;
  }

  /** A job is pinned to infrastructures when every alternative names a cloud and a region of it. */
  lemma InfraPinMeans(options: seq<Resources>)
    ensures InfraPin(options).Some? <==>
      options != [] && forall r :: r in options ==> r.cloud != None && r.region != None
    ensures InfraPin(options).Some? ==> forall n :: n in InfraPin(options).value <==>
      exists r :: r in options && r.cloud.Some? && r.region.Some? && r.cloud.value.repr + "/" + r.region.value == n
  {
    assert forall r :: r in options ==> exists i :: 0 <= i < |options| && options[i] == r;
    assert forall i :: 0 <= i < |options| ==> options[i] in options;
    if InfraPin(options).Some? {
      forall n ensures n in InfraPin(options).value <==>
        exists r :: r in options && r.cloud.Some? && r.region.Some? && r.cloud.value.repr + "/" + r.region.value == n
      {
        if i :| 0 <= i < |options| && InfraName(options[i].cloud.value, options[i].region.value) == n {
          assert options[i] in options;
        }
        if r :| r in options && r.cloud.value.repr + "/" + r.region.value == n {
          assert InfraName(r.cloud.value, r.region.value) == n;
        }
      }
    }
  }

  /** The last pinned job of its name. */
  ghost predicate Pinned(tasks: seq<Task>, pin: Task -> Option<set<string>>, i: nat) {
    i < |tasks| && IsLastPinned(tasks, pin, NameOf(tasks[i]), i)
  }

  lemma TwoNames(pins: PinMap)
    ensures |pins| > 1 <==> exists a, b :: a in pins && b in pins && a != b
  {
    assert |pins.Keys| == |pins|;
    if a, b :| a in pins && b in pins && a != b {
      AtLeastTwo(pins.Keys, a, b);
    }
    if |pins| > 1 {
      var a :| a in pins;
      var rest := pins.Keys - {a};
      assert |rest| == |pins.Keys| - 1;
      var b :| b in rest;
    }
  }

  lemma StoredPin(tasks: seq<Task>, pin: Task -> Option<set<string>>, name: string)
    ensures name in Gathered(tasks, pin) <==> exists i: nat :: Pinned(tasks, pin, i) && NameOf(tasks[i]) == name
    ensures forall i: nat :: Pinned(tasks, pin, i) && NameOf(tasks[i]) == name ==>
      Some(Gathered(tasks, pin)[name]) == pin(tasks[i])
  {
    LastPinWins(tasks, pin, name);
    if i: nat :| IsLastPinned(tasks, pin, name, i) {
      assert Pinned(tasks, pin, i);
    }
  }

  /** Two pinned jobs have different names. */
  ghost predicate TwoPinned(tasks: seq<Task>, pin: Task -> Option<set<string>>) {
    exists i: nat, j: nat :: Pinned(tasks, pin, i) && Pinned(tasks, pin, j) && NameOf(tasks[i]) != NameOf(tasks[j])
  }

  /** Some pinned job rules this place out. */
  ghost predicate RuledOut(tasks: seq<Task>, pin: Task -> Option<set<string>>, x: string) {
    exists i: nat :: Pinned(tasks, pin, i) && x !in pin(tasks[i]).value
  }

  lemma TwoPinnedIff(tasks: seq<Task>, pin: Task -> Option<set<string>>)
    ensures |Gathered(tasks, pin)| > 1 <==> TwoPinned(tasks, pin)
  {
    var pins := Gathered(tasks, pin);
    TwoNames(pins);
    if a, b :| a in pins && b in pins && a != b {
      StoredPin(tasks, pin, a);
      StoredPin(tasks, pin, b);
      var i: nat :| Pinned(tasks, pin, i) && NameOf(tasks[i]) == a;
      var j: nat :| Pinned(tasks, pin, j) && NameOf(tasks[j]) == b;
    }
    if i: nat, j: nat :| Pinned(tasks, pin, i) && Pinned(tasks, pin, j) && NameOf(tasks[i]) != NameOf(tasks[j]) {
      StoredPin(tasks, pin, NameOf(tasks[i]));
      StoredPin(tasks, pin, NameOf(tasks[j]));
    }
  }

  lemma RuledOutIff(tasks: seq<Task>, pin: Task -> Option<set<string>>, x: string)
    ensures !Shared(Gathered(tasks, pin), x) <==> RuledOut(tasks, pin, x)
  {
    var pins := Gathered(tasks, pin);
    if k :| k in pins && x !in pins[k] {
      StoredPin(tasks, pin, k);
      var i: nat :| Pinned(tasks, pin, i) && NameOf(tasks[i]) == k;
    }
    if i: nat :| Pinned(tasks, pin, i) && x !in pin(tasks[i]).value {
      StoredPin(tasks, pin, NameOf(tasks[i]));
    }
  }

  /** Pins conflict when two names are pinned and every place is ruled out by some pinned job, and only then. */
  lemma ConflictMeans(tasks: seq<Task>, pin: Task -> Option<set<string>>)
    ensures Conflict(Gathered(tasks, pin)) <==> TwoPinned(tasks, pin) && forall x :: RuledOut(tasks, pin, x)
  {
    TwoPinnedIff(tasks, pin);
    forall x ensures !Shared(Gathered(tasks, pin), x) <==> RuledOut(tasks, pin, x) {
      RuledOutIff(tasks, pin, x);
    }
  }

  /** Every place is ruled out, at the level of clouds or at the level of infrastructures. */
  lemma PinsConflictMeans(tasks: seq<Task>, options: Options)
    ensures var clouds, infras := (t: Task) => CloudPin(options(t)), (t: Task) => InfraPin(options(t));
      PinsConflict(tasks, options) <==>
        || (TwoPinned(tasks, clouds) && forall x :: RuledOut(tasks, clouds, x))
        || (TwoPinned(tasks, infras) && forall x :: RuledOut(tasks, infras, x))
  {
    var clouds, infras := (t: Task) => CloudPin(options(t)), (t: Task) => InfraPin(options(t));
    assert CloudPins(tasks, options) == Gathered(tasks, clouds) && InfraPins(tasks, options) == Gathered(tasks, infras);
    ConflictMeans(tasks, clouds);
    ConflictMeans(tasks, infras);
  }

  /** All alternatives of the job are on clouds called something else than Kubernetes, in whatever case. */
  ghost predicate AllOffKubernetes(options: seq<Resources>) {
    forall r :: r in options ==> r.cloud.Some? && Lower(r.cloud.value.repr) != "kubernetes"
  }

  lemma OffKubernetesMeans(options: seq<Resources>)
    requires CloudPin(options).Some?
    ensures (forall n :: n in CloudPin(options).value ==> Lower(n) != KUBERNETES) <==> AllOffKubernetes(options)
  {
    CloudPinMeans(options);
  }

  /** The group is pinned off Kubernetes when the last pinned job of some name is. */
  lemma PinnedOffMeans(tasks: seq<Task>, options: Options)
    ensures PinnedOff(tasks, options) <==>
      exists i: nat :: Pinned(tasks, t => CloudPin(options(t)), i) && AllOffKubernetes(options(tasks[i]))
  {
    var pin := (t: Task) => CloudPin(options(t));
    var pins := Gathered(tasks, pin);
    assert pins == CloudPins(tasks, options);
    if k :| k in pins && forall n :: n in pins[k] ==> Lower(n) != KUBERNETES {
      StoredPin(tasks, pin, k);
      var i: nat :| Pinned(tasks, pin, i) && NameOf(tasks[i]) == k;
      OffKubernetesMeans(options(tasks[i]));
    }
    if i: nat :| Pinned(tasks, pin, i) && AllOffKubernetes(options(tasks[i])) {
      StoredPin(tasks, pin, NameOf(tasks[i]));
      OffKubernetesMeans(options(tasks[i]));
    }
  }

  /** A job without a name is filed together with one that is called None. */
  lemma NamelessIsNone(a: Task, b: Task)
    requires a.name == None
    ensures NameOf(a) == NameOf(b) <==> b.name == None || b.name == Some("None")
  {
  }

  // ---------------------------------------------------------------------
  // A pin conflict rules out every common infrastructure.

  /** What launchability owes the request: a candidate stays within what its option pins. */
  predicate Honours(option: Resources, c: Cloud, r: Resources) {
    && (option.cloud.Some? ==> option.cloud.value.repr == c.repr)
    && (option.region.Some? ==> option.region == r.region)
  }

  ghost predicate RespectsPins(options: seq<Resources>, cands: Candidates) {
    forall i, k :: 0 <= i < |cands| && 0 <= k < |cands[i].resources| ==>
      HonoursSome(options, cands[i].cloud, cands[i].resources[k])
  }

  ghost predicate HonoursSome(options: seq<Resources>, c: Cloud, r: Resources) {
    exists o :: 0 <= o < |options| && Honours(options[o], c, r)
  }

  ghost predicate WithinPins(tasks: seq<Task>, options: Options, cands: seq<Candidates>) {
    |cands| == |tasks| && forall i :: 0 <= i < |tasks| ==> RespectsPins(options(tasks[i]), cands[i])
  }

  lemma CommonInfraIsPinned(options: seq<Resources>, cands: Candidates, id: InfraId)
    requires RespectsPins(options, cands) && HasInfra(cands, id)
    ensures CloudPin(options).Some? ==> id.0 in CloudPin(options).value
    ensures InfraPin(options).Some? ==> id.1.Some? && id.0 + "/" + id.1.value in InfraPin(options).value
  {
    var i :| 0 <= i < |cands| && EntryHas(cands[i], id);
    var k :| 0 <= k < |cands[i].resources| && cands[i].resources[k].region == id.1;
    var o :| 0 <= o < |options| && Honours(options[o], cands[i].cloud, cands[i].resources[k]);
    if InfraPin(options).Some? {
      assert InfraName(options[o].cloud.value, options[o].region.value) == id.0 + "/" + id.1.value;
    }
  }

  /** Every stored pin set is the one of some task. */
  lemma GatheredFrom(tasks: seq<Task>, pin: Task -> Option<set<string>>, name: string) returns (i: nat)
    requires name in Gathered(tasks, pin)
    ensures i < |tasks| && pin(tasks[i]) == Some(Gathered(tasks, pin)[name])
  {
    LastPinWins(tasks, pin, name);
    i :| IsLastPinned(tasks, pin, name, i);
  }

  lemma SharedCloud(tasks: seq<Task>, options: Options, cands: seq<Candidates>, id: InfraId)
    requires WithinPins(tasks, options, cands) && CommonTo(cands, id)
    ensures Shared(CloudPins(tasks, options), id.0)
  {
    var pins := CloudPins(tasks, options);
    forall k | k in pins ensures id.0 in pins[k] {
      var i := GatheredFrom(tasks, t => CloudPin(options(t)), k);
      CommonInfraIsPinned(options(tasks[i]), cands[i], id);
    }
  }

  lemma SharedInfra(tasks: seq<Task>, options: Options, cands: seq<Candidates>, id: InfraId)
    requires WithinPins(tasks, options, cands) && CommonTo(cands, id) && InfraPins(tasks, options) != map[]
    ensures id.1.Some? && Shared(InfraPins(tasks, options), id.0 + "/" + id.1.value)
  {
    var pins := InfraPins(tasks, options);
    forall k | k in pins ensures id.1.Some? && id.0 + "/" + id.1.value in pins[k] {
      var i := GatheredFrom(tasks, t => InfraPin(options(t)), k);
      CommonInfraIsPinned(options(tasks[i]), cands[i], id);
    }
    var k :| k in pins;
  }

  /**
   * Whenever the pin check reports a conflict, whether over clouds or over infrastructures and even if
   * task names repeat, no infrastructure is common to all tasks, whatever candidates they have
   * within their pins. Skipping the search loses nothing.
   */
  lemma ConflictMeansNothingCommon(tasks: seq<Task>, options: Options, cands: seq<Candidates>)
    requires PinsConflict(tasks, options) && WithinPins(tasks, options, cands)
    ensures forall id :: !CommonTo(cands, id)
    ensures forall result :: CommonList(cands, result) ==> result == []
  {
    forall id ensures !CommonTo(cands, id) {
      if CommonTo(cands, id) {
        if Conflict(CloudPins(tasks, options)) {
          SharedCloud(tasks, options, cands, id);
        } else {
          SharedInfra(tasks, options, cands, id);
        }
      }
    }
    forall result | CommonList(cands, result) ensures result == [] {
      NothingCommonNothingListed(cands, result);
    }
  }

  lemma NothingCommonNothingListed(cands: seq<Candidates>, result: seq<Infra>)
    requires CommonList(cands, result) && forall id :: !CommonTo(cands, id)
    ensures result == []
  {
    if result != [] {
      assert Listed(result, IdOf(result[0]));
    }
  }
}
