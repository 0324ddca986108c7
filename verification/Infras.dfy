/**
 * Common infrastructure for a job group (sky/optimizer.py): grouping candidates by cloud,
 * intersecting them across tasks, and selecting the best infrastructure.
 */
module Infras {
  import opened Prelude
  import opened Graphs
  import opened Placement

  // ---------------------------------------------------------------------
  // Strings: ASCII lower case, and the order that sorting uses.

  function LowerChar(c: char): char {
    if 'A' <= c <= 'Z' then c - 'A' + 'a' else c
  }

  function Lower(s: string): string {
    seq(|s|, i requires 0 <= i < |s| => LowerChar(s[i]))
  }

  predicate LexLeq(a: string, b: string) {
    a == [] || (b != [] && (a[0] < b[0] || (a[0] == b[0] && LexLeq(a[1..], b[1..]))))
  }

  lemma {:induction false} LexTotal(a: string, b: string)
    ensures LexLeq(a, b) || LexLeq(b, a)
  {
    if a == [] || b == [] || a[0] != b[0] {
    } else {
      LexTotal(a[1..], b[1..]);
    }
  }

  lemma {:induction false} LexAntisymmetric(a: string, b: string)
    requires LexLeq(a, b) && LexLeq(b, a)
    ensures a == b
  {
    if a == [] || b == [] {
    } else {
      LexAntisymmetric(a[1..], b[1..]);
      assert a == [a[0]] + a[1..] && b == [b[0]] + b[1..];
    }
  }

  lemma {:induction false} LexTransitive(a: string, b: string, c: string)
    requires LexLeq(a, b) && LexLeq(b, c)
    ensures LexLeq(a, c)
  {
    if a == [] || a[0] < b[0] || b[0] < c[0] {
    } else {
      LexTransitive(a[1..], b[1..], c[1..]);
    }
  }

  /** In sorted order: one is a prefix of the other, or they first differ at a smaller character. */
  ghost predicate TextLeq(a: string, b: string) {
    a <= b || exists i :: DiffersAt(a, b, i)
  }

  ghost predicate DiffersAt(a: string, b: string, i: int) {
    0 <= i < |a| && i < |b| && a[..i] == b[..i] && a[i] < b[i]
  }

  lemma DiffersLater(a: string, b: string, i: nat)
    requires a != [] && b != [] && a[0] == b[0]
    ensures DiffersAt(a[1..], b[1..], i) <==> DiffersAt(a, b, i + 1)
  {
    if i < |a| - 1 && i < |b| - 1 {
      assert a[..i + 1] == [a[0]] + a[1..][..i] && b[..i + 1] == [b[0]] + b[1..][..i];
      assert a[1..][..i] == a[..i + 1][1..] && b[1..][..i] == b[..i + 1][1..];
    }
  }

  lemma TextLeqTail(a: string, b: string)
    requires a != [] && b != [] && a[0] == b[0]
    ensures TextLeq(a, b) <==> TextLeq(a[1..], b[1..])
  {
    assert a == [a[0]] + a[1..] && b == [b[0]] + b[1..];
    assert a <= b <==> a[1..] <= b[1..];
    if i :| DiffersAt(a[1..], b[1..], i) {
      DiffersLater(a, b, i);
    }
    if i :| DiffersAt(a, b, i) {
      DiffersLater(a, b, i - 1);
    }
  }

  lemma {:induction false} LexIsTextOrder(a: string, b: string)
    ensures LexLeq(a, b) <==> TextLeq(a, b)
  {
    if a == [] || b == [] || a[0] != b[0] {
      if a != [] && b != [] {
        assert DiffersAt(a, b, 0) <==> a[0] < b[0];
      }
    } else {
      LexIsTextOrder(a[1..], b[1..]);
      TextLeqTail(a, b);
    }
  }

  /** Lower case changes capital letters to the small ones at the same place of the alphabet, and nothing else. */
  lemma LowerMeans(s: string, i: nat)
    requires i < |s|
    ensures |Lower(s)| == |s| && !('A' <= Lower(s)[i] <= 'Z')
    ensures if 'A' <= s[i] <= 'Z' then Lower(s)[i] as int - 'a' as int == s[i] as int - 'A' as int
            else Lower(s)[i] == s[i]
  {
  }

  lemma KubernetesInAnyCase()
    ensures Lower("Kubernetes") == KUBERNETES && Lower("KUBERNETES") == KUBERNETES && Lower("aws") != KUBERNETES
  {
    assert Lower("aws")[0] == 'a' && KUBERNETES[0] == 'k';
  }

  type Key = (string, string)

  predicate KeyLeq(a: Key, b: Key) {
    if a.0 == b.0 then LexLeq(a.1, b.1) else LexLeq(a.0, b.0)
  }

  lemma KeyTotal(a: Key, b: Key)
    ensures KeyLeq(a, b) || KeyLeq(b, a)
  {
    LexTotal(a.0, b.0);
    LexTotal(a.1, b.1);
  }

  lemma KeyAntisymmetric(a: Key, b: Key)
    requires KeyLeq(a, b) && KeyLeq(b, a)
    ensures a == b
  {
    if a.0 != b.0 {
      LexAntisymmetric(a.0, b.0);
    } else {
      LexAntisymmetric(a.1, b.1);
    }
  }

  lemma KeyTransitive(a: Key, b: Key, c: Key)
    requires KeyLeq(a, b) && KeyLeq(b, c)
    ensures KeyLeq(a, c)
  {
    if a.0 == b.0 == c.0 {
      LexTransitive(a.1, b.1, c.1);
    } else if a.0 != b.0 && b.0 != c.0 {
      LexTransitive(a.0, b.0, c.0);
      if a.0 == c.0 {
        LexAntisymmetric(a.0, b.0);
      }
    }
  }

  // ---------------------------------------------------------------------
  // Candidates by cloud.

  /** One entry of the dictionary from clouds to launchable resources. */
  datatype CloudEntry = CloudEntry(cloud: Cloud, resources: seq<Resources>)

  /** The dictionary of one task, in insertion order. */
  type Candidates = seq<CloudEntry>

  ghost predicate KeysDistinct(cands: Candidates) {
    forall i, j :: 0 <= i < j < |cands| ==> cands[i].cloud != cands[j].cloud
  }

  /** Every entry holds resources of its own cloud, and at least one. */
  ghost predicate Consistent(cands: Candidates) {
    && KeysDistinct(cands)
    && forall i :: 0 <= i < |cands| ==>
         cands[i].resources != [] && forall r :: r in cands[i].resources ==> r.cloud == Some(cands[i].cloud)
  }

  /** The launchables of one cloud, in list order. */
  function ForCloud(list: seq<Resources>, c: Cloud): seq<Resources> {
    if list == [] then []
    else
      var last := list[|list| - 1];
      ForCloud(list[..|list| - 1], c) + (if last.cloud == Some(c) then [last] else [])
  }

  /** Grouping keeps the order of the list. */
  lemma {:induction false} ForCloudConcat(a: seq<Resources>, b: seq<Resources>, c: Cloud)
    ensures ForCloud(a + b, c) == ForCloud(a, c) + ForCloud(b, c)
    decreases |b|
  {
    if b == [] {
      assert a + b == a;
    } else {
      var n := |b| - 1;
      ForCloudConcat(a, b[..n], c);
      assert (a + b)[..|a + b| - 1] == a + b[..n];
    }
  }

  lemma ForCloudOne(r: Resources, c: Cloud)
    ensures ForCloud([r], c) == if r.cloud == Some(c) then [r] else []
  {
    assert [r][..0] == [];
  }

  /** The value stored under a cloud, empty when there is none. */
  function Bucket(cands: Candidates, c: Cloud): seq<Resources> {
    if cands == [] then []
    else if cands[0].cloud == c then cands[0].resources
    else Bucket(cands[1..], c)
  }

  lemma {:induction false} BucketAt(cands: Candidates, i: nat)
    requires KeysDistinct(cands) && i < |cands|
    ensures Bucket(cands, cands[i].cloud) == cands[i].resources
  {
    if i == 0 {
    } else {
      BucketAt(cands[1..], i - 1);
    }
  }

  lemma {:induction false} BucketAbsent(cands: Candidates, c: Cloud)
    requires forall i :: 0 <= i < |cands| ==> cands[i].cloud != c
    ensures Bucket(cands, c) == []
  {
    if cands == [] {
    } else {
      BucketAbsent(cands[1..], c);
    }
  }

  /** A non-empty bucket is an entry. */
  lemma {:induction false} BucketIndex(cands: Candidates, c: Cloud) returns (i: nat)
    requires Bucket(cands, c) != []
    ensures i < |cands| && cands[i].cloud == c && cands[i].resources == Bucket(cands, c)
  {
    if cands[0].cloud == c {
      i := 0;
    } else {
      i := BucketIndex(cands[1..], c);
      i := i + 1;
    }
  }

  method FindEntry(cands: Candidates, c: Cloud) returns (i: nat)
    ensures i <= |cands|
    ensures i < |cands| ==> cands[i].cloud == c
    ensures i == |cands| ==> forall j :: 0 <= j < |cands| ==> cands[j].cloud != c
  {
    i := 0;
    while i < |cands| && cands[i].cloud != c
      invariant 0 <= i <= |cands|
      invariant forall j :: 0 <= j < i ==> cands[j].cloud != c
    {
      i := i + 1;
    }
  }

  /** Appending to the list stored under the cloud of `r`, creating it when absent. */
  method AddCandidate(cands: Candidates, c: Cloud, r: Resources) returns (next: Candidates)
    requires Consistent(cands) && r.cloud == Some(c)
    ensures Consistent(next)
    ensures forall d :: Bucket(next, d) == Bucket(cands, d) + (if d == c then [r] else [])
  {
    var i := FindEntry(cands, c);
    if i < |cands| {
      next := cands[i := CloudEntry(c, cands[i].resources + [r])];
    } else {
      next := cands + [CloudEntry(c, [r])];
    }
    forall d ensures Bucket(next, d) == Bucket(cands, d) + (if d == c then [r] else []) {
      BucketAfterAdd(cands, c, r, i, next, d);
    }
  }

  lemma BucketAfterAdd(cands: Candidates, c: Cloud, r: Resources, i: nat, next: Candidates, d: Cloud)
    requires KeysDistinct(cands) && KeysDistinct(next) && i <= |cands|
    requires if i < |cands| then cands[i].cloud == c && next == cands[i := CloudEntry(c, cands[i].resources + [r])]
             else (forall j :: 0 <= j < |cands| ==> cands[j].cloud != c) && next == cands + [CloudEntry(c, [r])]
    ensures Bucket(next, d) == Bucket(cands, d) + (if d == c then [r] else [])
  {
    if d == c {
      BucketAt(next, i);
      if i < |cands| {
        BucketAt(cands, i);
      } else {
        BucketAbsent(cands, c);
      }
    } else if j :| 0 <= j < |cands| && cands[j].cloud == d {
      assert next[j] == cands[j];
      BucketAt(next, j);
      BucketAt(cands, j);
    } else {
      BucketAbsent(cands, d);
      BucketAbsent(next, d);
    }
  }

  method GroupByCloud(list: seq<Resources>) returns (cands: Candidates)
    ensures Consistent(cands)
    ensures forall c :: Bucket(cands, c) == ForCloud(list, c)
  {
    cands := [];
    for i := 0 to |list|
      invariant Consistent(cands)
      invariant forall c :: Bucket(cands, c) == ForCloud(list[..i], c)
    {
      assert list[..i + 1][..i] == list[..i];
      if list[i].cloud.Some? {
        cands := AddCandidate(cands, list[i].cloud.value, list[i]);
      }
    }
    assert list[..|list|] == list;
  }

  // ---------------------------------------------------------------------
  // Common infrastructure.

  /** A cloud by name, with a region. */
  type InfraId = (string, Option<string>)

  type Infra = (Cloud, Option<string>)

  function IdOf(infra: Infra): InfraId {
    (infra.0.repr, infra.1)
  }

  /** Some entry whose cloud prints as the name has a resource in the region. */
  ghost predicate HasInfra(cands: Candidates, id: InfraId) {
    exists i :: 0 <= i < |cands| && EntryHas(cands[i], id)
  }

  ghost predicate EntryHas(entry: CloudEntry, id: InfraId) {
    entry.cloud.repr == id.0 && exists k :: 0 <= k < |entry.resources| && entry.resources[k].region == id.1
  }

  ghost predicate CommonTo(tasks: seq<Candidates>, id: InfraId) {
    tasks != [] && forall t :: 0 <= t < |tasks| ==> HasInfra(tasks[t], id)
  }

  ghost predicate HasCloudNamed(cands: Candidates, name: string) {
    exists i :: 0 <= i < |cands| && cands[i].cloud.repr == name
  }

  method EntryInfras(entry: CloudEntry) returns (ids: set<InfraId>)
    ensures forall id :: id in ids <==> EntryHas(entry, id)
  {
    ids := {};
    for k := 0 to |entry.resources|
      invariant forall id :: id in ids <==>
        entry.cloud.repr == id.0 && exists n :: 0 <= n < k && entry.resources[n].region == id.1
    {
      ids := ids + {(entry.cloud.repr, entry.resources[k].region)};
    }
  }

  method TaskInfras(cands: Candidates) returns (ids: set<InfraId>)
    ensures forall id :: id in ids <==> HasInfra(cands, id)
  {
    ids := {};
    for i := 0 to |cands|
      invariant forall id :: id in ids <==> exists n :: 0 <= n < i && EntryHas(cands[n], id)
    {
      var more := EntryInfras(cands[i]);
      ids := ids + more;
    }
  }

  method FindCloudNamed(cands: Candidates, name: string) returns (i: nat)
    ensures i <= |cands|
    ensures i < |cands| ==> cands[i].cloud.repr == name
    ensures forall j :: 0 <= j < i ==> cands[j].cloud.repr != name
  {
    i := 0;
    while i < |cands| && cands[i].cloud.repr != name
      invariant 0 <= i <= |cands|
      invariant forall j :: 0 <= j < i ==> cands[j].cloud.repr != name
    {
      i := i + 1;
    }
  }

  /** The cloud object behind a name: the first match in task order. */
  method CloudNamed(tasks: seq<Candidates>, name: string) returns (c: Cloud)
    requires exists t :: 0 <= t < |tasks| && HasCloudNamed(tasks[t], name)
    ensures c.repr == name
    ensures SomeKey(tasks, c)
  {
    var t := 0;
    while true
      invariant 0 <= t <= |tasks|
      invariant forall s :: 0 <= s < t ==> !HasCloudNamed(tasks[s], name)
      decreases |tasks| - t
    {
      assert t < |tasks|;
      var i := FindCloudNamed(tasks[t], name);
      if i < |tasks[t]| {
        c := tasks[t][i].cloud;
        assert IsKey(tasks[t], c);
        return;
      }
      t := t + 1;
    }
  }

  /** The cloud is a key of some task's dictionary. */
  ghost predicate SomeKey(tasks: seq<Candidates>, c: Cloud) {
    exists t :: 0 <= t < |tasks| && IsKey(tasks[t], c)
  }

  ghost predicate IsKey(cands: Candidates, c: Cloud) {
    exists i :: 0 <= i < |cands| && cands[i].cloud == c
  }

  ghost predicate Listed(result: seq<Infra>, id: InfraId) {
    exists k :: 0 <= k < |result| && IdOf(result[k]) == id
  }

  /** Exactly the ids that every task has, each once, behind a cloud some task has as a key. */
  ghost predicate CommonList(tasks: seq<Candidates>, result: seq<Infra>) {
    && (forall id :: CommonTo(tasks, id) <==> Listed(result, id))
    && (forall j, k :: 0 <= j < k < |result| ==> IdOf(result[j]) != IdOf(result[k]))
    && (forall k :: 0 <= k < |result| ==> SomeKey(tasks, result[k].0))
  }

  method CommonIds(tasks: seq<Candidates>) returns (ids: set<InfraId>)
    requires tasks != []
    ensures forall id :: id in ids <==> CommonTo(tasks, id)
  {
    ids := TaskInfras(tasks[0]);
    for t := 1 to |tasks|
      invariant forall id :: id in ids <==> forall s :: 0 <= s < t ==> HasInfra(tasks[s], id)
    {
      var more := TaskInfras(tasks[t]);
      ids := ids * more;
    }
  }

  method FindCommonInfras(tasks: seq<Candidates>) returns (result: seq<Infra>)
    ensures CommonList(tasks, result)
  {
    result := [];
    if tasks == [] {
      return;
    }
    var ids := CommonIds(tasks);
    result := NameClouds(tasks, ids);
  }

  /** Turns names back into cloud objects, in no particular order. */
  method NameClouds(tasks: seq<Candidates>, ids: set<InfraId>) returns (result: seq<Infra>)
    requires forall id :: id in ids ==> CommonTo(tasks, id)
    ensures forall id :: id in ids <==> Listed(result, id)
    ensures forall j, k :: 0 <= j < k < |result| ==> IdOf(result[j]) != IdOf(result[k])
    ensures forall k :: 0 <= k < |result| ==> SomeKey(tasks, result[k].0)
  {
    result := [];
    var left := ids;
    while left != {}
      invariant left <= ids
      invariant forall id :: id in ids && id !in left <==> Listed(result, id)
      invariant forall j, k :: 0 <= j < k < |result| ==> IdOf(result[j]) != IdOf(result[k])
      invariant forall k :: 0 <= k < |result| ==> SomeKey(tasks, result[k].0)
    {
      var id :| id in left;
      NamedByFirst(tasks, id);
      var c := CloudNamed(tasks, id.0);
      ListedAfterAppend(result, (c, id.1));
      assert !Listed(result, id);
      result := result + [(c, id.1)];
      left := left - {id};
    }
  }

  lemma ListedAfterAppend(before: seq<Infra>, x: Infra)
    ensures forall id :: Listed(before + [x], id) <==> Listed(before, id) || id == IdOf(x)
  {
    var after := before + [x];
    assert after[|before|] == x;
    forall id | Listed(before, id) ensures Listed(after, id) {
      var k :| 0 <= k < |before| && IdOf(before[k]) == id;
      assert after[k] == before[k];
    }
  }

  lemma NamedByFirst(tasks: seq<Candidates>, id: InfraId)
    requires CommonTo(tasks, id)
    ensures exists t :: 0 <= t < |tasks| && HasCloudNamed(tasks[t], id.0)
  {
    assert HasInfra(tasks[0], id);
    var i :| 0 <= i < |tasks[0]| && EntryHas(tasks[0][i], id);
    assert HasCloudNamed(tasks[0], id.0);
  }

  // ---------------------------------------------------------------------
  // Scores.

  type Score = (Task, Resources) -> real

  /** The least score among the resources that fit the region; none when nothing fits. */
  function LeastScore(score: Score, task: Task, rs: seq<Resources>, region: Option<string>): Option<real> {
    if rs == [] then None
    else
      var last := rs[|rs| - 1];
      var rest := LeastScore(score, task, rs[..|rs| - 1], region);
      if (last.region == region || last.region == None) && (rest.None? || score(task, last) < rest.value)
      then Some(score(task, last)) else rest
  }

  lemma {:induction false} LeastScoreIsLeast(score: Score, task: Task, rs: seq<Resources>, region: Option<string>)
    ensures LeastScore(score, task, rs, region).None?
       <==> forall r :: r in rs ==> r.region != region && r.region != None
    ensures LeastScore(score, task, rs, region).Some? ==>
      && (forall r :: r in rs && (r.region == region || r.region == None) ==>
            LeastScore(score, task, rs, region).value <= score(task, r))
      && (exists r ::
            && r in rs && (r.region == region || r.region == None)
            && LeastScore(score, task, rs, region).value == score(task, r))
  {
    if rs == [] {
    } else {
      LeastScoreIsLeast(score, task, rs[..|rs| - 1], region);
      assert forall r :: r in rs <==> r in rs[..|rs| - 1] || r == rs[|rs| - 1];
    }
  }

  method BestTaskScore(score: Score, task: Task, rs: seq<Resources>, region: Option<string>)
    returns (best: Option<real>)
    ensures best == LeastScore(score, task, rs, region)
  {
    best := None;
    for i := 0 to |rs|
      invariant best == LeastScore(score, task, rs[..i], region)
    {
      assert rs[..i + 1][..i] == rs[..i];
      if rs[i].region == region || rs[i].region == None {
        var s := score(task, rs[i]);
        if best.None? || s < best.value {
          best := Some(s);
        }
      }
    }
    assert rs[..|rs|] == rs;
  }

  /** The sum over tasks of the least score on an infrastructure; none when some task does not fit. */
  function TotalScore(score: Score, tasks: seq<Task>, cands: seq<Candidates>, infra: Infra): Option<real>
    requires |tasks| == |cands|
  {
    if tasks == [] then Some(0.0)
    else
      var n := |tasks| - 1;
      var rest := TotalScore(score, tasks[..n], cands[..n], infra);
      var own := LeastScore(score, tasks[n], Bucket(cands[n], infra.0), infra.1);
      if rest.None? || own.None? then None else Some(rest.value + own.value)
  }

  lemma {:induction false} TotalScoreNone(score: Score, tasks: seq<Task>, cands: seq<Candidates>, infra: Infra, n: nat)
    requires |tasks| == |cands| && n < |tasks|
    requires LeastScore(score, tasks[n], Bucket(cands[n], infra.0), infra.1).None?
    ensures TotalScore(score, tasks, cands, infra).None?
  {
    var last := |tasks| - 1;
    if n == last {
    } else {
      TotalScoreNone(score, tasks[..last], cands[..last], infra, n);
    }
  }

  method ScoreInfra(score: Score, tasks: seq<Task>, cands: seq<Candidates>, infra: Infra) returns (total: Option<real>)
    requires |tasks| == |cands|
    requires forall t :: 0 <= t < |cands| ==> Consistent(cands[t])
    ensures total == TotalScore(score, tasks, cands, infra)
  {
    var sum := 0.0;
    for n := 0 to |tasks|
      invariant TotalScore(score, tasks[..n], cands[..n], infra) == Some(sum)
    {
      assert tasks[..n + 1][..n] == tasks[..n] && cands[..n + 1][..n] == cands[..n];
      var i := FindEntry(cands[n], infra.0);
      if i == |cands[n]| {
        BucketAbsent(cands[n], infra.0);
        TotalScoreNone(score, tasks, cands, infra, n);
        return None;
      }
      BucketAt(cands[n], i);
      var own := BestTaskScore(score, tasks[n], cands[n][i].resources, infra.1);
      if own.None? {
        TotalScoreNone(score, tasks, cands, infra, n);
        return None;
      }
      sum := sum + own.value;
    }
    assert tasks[..|tasks|] == tasks && cands[..|cands|] == cands;
    total := Some(sum);
  }

  // ---------------------------------------------------------------------
  // Selection.

  function SortKey(infra: Infra): Key {
    (Lower(infra.0.repr), if infra.1.Some? then infra.1.value else "")
  }

  ghost predicate SortedByKey(s: seq<Infra>) {
    forall i, j :: 0 <= i < j < |s| ==> KeyLeq(SortKey(s[i]), SortKey(s[j]))
  }

  method InsertSorted(s: seq<Infra>, x: Infra) returns (r: seq<Infra>)
    requires SortedByKey(s)
    ensures SortedByKey(r) && multiset(r) == multiset(s) + multiset{x}
  {
    var i := 0;
    while i < |s| && KeyLeq(SortKey(s[i]), SortKey(x))
      invariant 0 <= i <= |s|
      invariant forall j :: 0 <= j < i ==> KeyLeq(SortKey(s[j]), SortKey(x))
    {
      i := i + 1;
    }
    r := s[..i] + [x] + s[i..];
    assert s == s[..i] + s[i..];
    InsertKeepsSorted(s, x, i);
  }

  lemma InsertKeepsSorted(s: seq<Infra>, x: Infra, i: nat)
    requires SortedByKey(s) && i <= |s|
    requires forall j :: 0 <= j < i ==> KeyLeq(SortKey(s[j]), SortKey(x))
    requires i < |s| ==> !KeyLeq(SortKey(s[i]), SortKey(x))
    ensures SortedByKey(s[..i] + [x] + s[i..])
  {
    var r := s[..i] + [x] + s[i..];
    forall a, b | 0 <= a < b < |r| ensures KeyLeq(SortKey(r[a]), SortKey(r[b])) {
      if a == i {
        KeyTotal(SortKey(s[i]), SortKey(x));
        KeyReflexive(SortKey(s[i]));
        KeyTransitive(SortKey(x), SortKey(s[i]), SortKey(s[b - 1]));
      }
    }
  }

  lemma KeyReflexive(a: Key)
    ensures KeyLeq(a, a)
  {
    KeyTotal(a, a);
  }

  method SortInfras(s: seq<Infra>) returns (r: seq<Infra>)
    ensures SortedByKey(r) && multiset(r) == multiset(s)
  {
    r := [];
    for i := 0 to |s|
      invariant SortedByKey(r) && multiset(r) == multiset(s[..i])
    {
      r := InsertSorted(r, s[i]);
      assert s[..i + 1] == s[..i] + [s[i]];
    }
    assert s[..|s|] == s;
  }

  /** `x` is at least as good as `y`: a valid, lower score, or an equal one and an earlier key. */
  ghost predicate Beats(score: Score, tasks: seq<Task>, cands: seq<Candidates>, x: Infra, y: Infra)
    requires |tasks| == |cands|
  {
    var a, b := TotalScore(score, tasks, cands, x), TotalScore(score, tasks, cands, y);
    if a.Some? && b.Some? then a.value < b.value || (a.value == b.value && KeyLeq(SortKey(x), SortKey(y)))
    else if a.Some? then true
    else b.None? && KeyLeq(SortKey(x), SortKey(y))
  }

  ghost predicate IsBest(score: Score, tasks: seq<Task>, cands: seq<Candidates>, common: seq<Infra>, x: Infra)
    requires |tasks| == |cands|
  {
    x in common && forall y :: y in common ==> Beats(score, tasks, cands, x, y)
  }

  method ScanSorted(score: Score, tasks: seq<Task>, cands: seq<Candidates>, sorted: seq<Infra>) returns (best: Infra)
    requires |tasks| == |cands| && sorted != [] && SortedByKey(sorted)
    requires forall t :: 0 <= t < |cands| ==> Consistent(cands[t])
    ensures IsBest(score, tasks, cands, sorted, best)
  {
    var found: Option<nat> := None;
    var least := 0.0;
    for i := 0 to |sorted|
      invariant found.Some? ==> found.value < i && TotalScore(score, tasks, cands, sorted[found.value]) == Some(least)
      invariant found.None? ==> forall j :: 0 <= j < i ==> TotalScore(score, tasks, cands, sorted[j]).None?
      invariant found.Some? ==> forall j :: 0 <= j < i ==>
        var s := TotalScore(score, tasks, cands, sorted[j]);
        s.None? || least < s.value || (least == s.value && found.value <= j)
    {
      var total := ScoreInfra(score, tasks, cands, sorted[i]);
      if total.Some? && (found.None? || total.value < least) {
        found, least := Some(i), total.value;
      }
    }
    var k := if found.Some? then found.value else 0;
    best := sorted[k];
    KeyReflexive(SortKey(best));
    forall y | y in sorted ensures Beats(score, tasks, cands, best, y) {
      var j := Position(sorted, y);
      assert k < j ==> KeyLeq(SortKey(sorted[k]), SortKey(sorted[j]));
    }
  }

  lemma SingleIsBest(score: Score, tasks: seq<Task>, cands: seq<Candidates>, common: seq<Infra>)
    requires |tasks| == |cands| && |common| == 1
    ensures IsBest(score, tasks, cands, common, common[0])
  {
    KeyReflexive(SortKey(common[0]));
  }

  method SelectBestInfra(score: Score, tasks: seq<Task>, cands: seq<Candidates>, common: seq<Infra>)
    returns (best: Infra)
    requires |tasks| == |cands| && common != []
    requires forall t :: 0 <= t < |cands| ==> Consistent(cands[t])
    ensures IsBest(score, tasks, cands, common, best)
  {
    if |common| == 1 {
      SingleIsBest(score, tasks, cands, common);
      return common[0];
    }
    var sorted := SortInfras(common);
    assert sorted != [] by {
      assert |multiset(sorted)| == |multiset(common)|;
    }
    best := ScanSorted(score, tasks, cands, sorted);
    assert best in multiset(sorted);
    forall y | y in common ensures Beats(score, tasks, cands, best, y) {
      assert y in multiset(common);
    }
  }

  /** The selection does not depend on the order of the list when different infrastructures have different keys. */
  lemma SelectionIgnoresOrder(score: Score, tasks: seq<Task>, cands: seq<Candidates>, a: seq<Infra>, b: seq<Infra>,
                              x: Infra, y: Infra)
    requires |tasks| == |cands| && Elements(a) == Elements(b)
    requires forall p, q :: p in a && q in a && SortKey(p) == SortKey(q) ==> p == q
    requires IsBest(score, tasks, cands, a, x) && IsBest(score, tasks, cands, b, y)
    ensures x == y
  {
    assert x in Elements(a) && y in Elements(b);
    assert Beats(score, tasks, cands, x, y) && Beats(score, tasks, cands, y, x);
    KeyAntisymmetric(SortKey(x), SortKey(y));
  }

  // ---------------------------------------------------------------------
  // One cloud key per name.

  ghost predicate OneKeyPerName(cands: seq<Candidates>) {
    forall s, i, t, j ::
      (&& 0 <= s < |cands| && 0 <= i < |cands[s]| && 0 <= t < |cands| && 0 <= j < |cands[t]|
       && cands[s][i].cloud.repr == cands[t][j].cloud.repr) ==> cands[s][i].cloud == cands[t][j].cloud
  }

  /** With one key per name every common infrastructure fits every task. */
  lemma CommonFits(score: Score, tasks: seq<Task>, cands: seq<Candidates>, infra: Infra, n: nat) returns (k: nat)
    requires |tasks| == |cands| && OneKeyPerName(cands) && n < |cands| && KeysDistinct(cands[n])
    requires CommonTo(cands, IdOf(infra)) && SomeKey(cands, infra.0)
    ensures k < |Bucket(cands[n], infra.0)| && Bucket(cands[n], infra.0)[k].region == infra.1
    ensures LeastScore(score, tasks[n], Bucket(cands[n], infra.0), infra.1).Some?
  {
    var s :| 0 <= s < |cands| && IsKey(cands[s], infra.0);
    var i :| 0 <= i < |cands[s]| && cands[s][i].cloud == infra.0;
    assert HasInfra(cands[n], IdOf(infra));
    var j :| 0 <= j < |cands[n]| && EntryHas(cands[n][j], IdOf(infra));
    assert cands[n][j].cloud == infra.0;
    BucketAt(cands[n], j);
    k :| 0 <= k < |cands[n][j].resources| && cands[n][j].resources[k].region == infra.1;
    LeastScoreIsLeast(score, tasks[n], Bucket(cands[n], infra.0), infra.1);
    assert Bucket(cands[n], infra.0)[k] in Bucket(cands[n], infra.0);
  }

  lemma {:induction false} TotalScoreSome(score: Score, tasks: seq<Task>, cands: seq<Candidates>, infra: Infra)
    requires |tasks| == |cands|
    requires forall n :: 0 <= n < |tasks| ==> LeastScore(score, tasks[n], Bucket(cands[n], infra.0), infra.1).Some?
    ensures TotalScore(score, tasks, cands, infra).Some?
  {
    if tasks == [] {
    } else {
      var n := |tasks| - 1;
      assert LeastScore(score, tasks[n], Bucket(cands[n], infra.0), infra.1).Some?;
      forall k | 0 <= k < n
        ensures LeastScore(score, tasks[..n][k], Bucket(cands[..n][k], infra.0), infra.1).Some?
      {
        assert LeastScore(score, tasks[k], Bucket(cands[k], infra.0), infra.1).Some?;
      }
      TotalScoreSome(score, tasks[..n], cands[..n], infra);
    }
  }

  lemma CommonScored(score: Score, tasks: seq<Task>, cands: seq<Candidates>, common: seq<Infra>, infra: Infra)
    requires |tasks| == |cands| && OneKeyPerName(cands) && CommonList(cands, common) && infra in common
    requires forall t :: 0 <= t < |cands| ==> Consistent(cands[t])
    ensures TotalScore(score, tasks, cands, infra).Some?
  {
    var c := Position(common, infra);
    assert IdOf(common[c]) == IdOf(infra) && Listed(common, IdOf(infra));
    forall n | 0 <= n < |tasks| ensures LeastScore(score, tasks[n], Bucket(cands[n], infra.0), infra.1).Some? {
      var k := CommonFits(score, tasks, cands, infra, n);
    }
    TotalScoreSome(score, tasks, cands, infra);
  }

  // ---------------------------------------------------------------------
  // What is selected, in terms of choices.

  /** The resource is offered under this cloud and fits the region. */
  ghost predicate Fitting(cands: Candidates, infra: Infra, r: Resources) {
    exists i :: (&& 0 <= i < |cands| && cands[i].cloud == infra.0 && r in cands[i].resources
                 && (r.region == infra.1 || r.region == None))
  }

  ghost predicate HasFitting(cands: Candidates, infra: Infra) {
    exists r :: Fitting(cands, infra, r)
  }

  /** One fitting resource for every task. */
  ghost predicate IsChoice(cands: seq<Candidates>, infra: Infra, rs: seq<Resources>) {
    |rs| == |cands| && forall t :: 0 <= t < |cands| ==> Fitting(cands[t], infra, rs[t])
  }

  function Paired(tasks: seq<Task>, rs: seq<Resources>): (ps: seq<(Task, Resources)>)
    requires |tasks| == |rs|
    ensures |ps| == |tasks| && forall i :: 0 <= i < |ps| ==> ps[i] == (tasks[i], rs[i])
  {
    seq(|tasks|, i requires 0 <= i < |tasks| => (tasks[i], rs[i]))
  }

  ghost function PairScore(score: Score): ((Task, Resources)) -> real {
    (p: (Task, Resources)) => score(p.0, p.1)
  }

  /** The sum of the scores of a choice. */
  ghost function Worth(score: Score, tasks: seq<Task>, rs: seq<Resources>): real
    requires |tasks| == |rs|
  {
    Total(PairScore(score), Paired(tasks, rs))
  }

  lemma WorthSplits(score: Score, tasks: seq<Task>, rs: seq<Resources>)
    requires |tasks| == |rs| > 0
    ensures var n := |tasks| - 1; Worth(score, tasks, rs) == Worth(score, tasks[..n], rs[..n]) + score(tasks[n], rs[n])
  {
    var n := |tasks| - 1;
    assert Paired(tasks, rs)[..n] == Paired(tasks[..n], rs[..n]);
  }

  lemma FittingIsInBucket(cands: Candidates, infra: Infra, r: Resources)
    requires KeysDistinct(cands)
    ensures Fitting(cands, infra, r) <==> r in Bucket(cands, infra.0) && (r.region == infra.1 || r.region == None)
  {
    if Fitting(cands, infra, r) {
      var i :| 0 <= i < |cands| && cands[i].cloud == infra.0 && r in cands[i].resources;
      BucketAt(cands, i);
    }
    if r in Bucket(cands, infra.0) {
      var i := BucketIndex(cands, infra.0);
    }
  }

  /** A task is scored exactly when something fits, and then no higher than anything that fits. */
  lemma OwnScore(score: Score, task: Task, cands: Candidates, infra: Infra)
    requires KeysDistinct(cands)
    ensures var own := LeastScore(score, task, Bucket(cands, infra.0), infra.1);
      && (own.Some? <==> exists r :: Fitting(cands, infra, r))
      && (own.Some? ==> forall r :: Fitting(cands, infra, r) ==> own.value <= score(task, r))
      && (own.Some? ==> exists r :: Fitting(cands, infra, r) && own.value == score(task, r))
  {
    LeastScoreIsLeast(score, task, Bucket(cands, infra.0), infra.1);
    forall r ensures Fitting(cands, infra, r)
                <==> r in Bucket(cands, infra.0) && (r.region == infra.1 || r.region == None)
    {
      FittingIsInBucket(cands, infra, r);
    }
  }

  lemma OwnChoice(score: Score, task: Task, cands: Candidates, infra: Infra) returns (r: Resources)
    requires KeysDistinct(cands) && LeastScore(score, task, Bucket(cands, infra.0), infra.1).Some?
    ensures Fitting(cands, infra, r)
    ensures LeastScore(score, task, Bucket(cands, infra.0), infra.1).value == score(task, r)
  {
    OwnScore(score, task, cands, infra);
    r :| Fitting(cands, infra, r) && LeastScore(score, task, Bucket(cands, infra.0), infra.1).value == score(task, r);
  }

  /** No choice is worth less than the score. */
  lemma {:induction false} ScoreIsLeast(score: Score, tasks: seq<Task>, cands: seq<Candidates>, infra: Infra,
                                        rs: seq<Resources>)
    requires |tasks| == |cands| && forall t :: 0 <= t < |cands| ==> Consistent(cands[t])
    requires IsChoice(cands, infra, rs)
    ensures TotalScore(score, tasks, cands, infra).Some?
    ensures TotalScore(score, tasks, cands, infra).value <= Worth(score, tasks, rs)
  {
    if tasks == [] {
    } else {
      var n := |tasks| - 1;
      assert forall t :: 0 <= t < n ==> cands[..n][t] == cands[t] && rs[..n][t] == rs[t];
      ScoreIsLeast(score, tasks[..n], cands[..n], infra, rs[..n]);
      OwnScore(score, tasks[n], cands[n], infra);
      WorthSplits(score, tasks, rs);
    }
  }

  /** The resource fits, and nothing that fits scores less. */
  ghost predicate Attains(score: Score, task: Task, cands: Candidates, infra: Infra, r: Resources) {
    Fitting(cands, infra, r) && LeastScore(score, task, Bucket(cands, infra.0), infra.1) == Some(score(task, r))
  }

  lemma {:induction false} ScoreOfAttaining(score: Score, tasks: seq<Task>, cands: seq<Candidates>, infra: Infra,
                                            rs: seq<Resources>)
    requires |tasks| == |cands| == |rs|
    requires forall t :: 0 <= t < |tasks| ==> Attains(score, tasks[t], cands[t], infra, rs[t])
    ensures TotalScore(score, tasks, cands, infra) == Some(Worth(score, tasks, rs))
  {
    if tasks == [] {
    } else {
      var n := |tasks| - 1;
      assert Attains(score, tasks[n], cands[n], infra, rs[n]);
      ScoreOfAttaining(score, tasks[..n], cands[..n], infra, rs[..n]);
      WorthSplits(score, tasks, rs);
    }
  }

  /** What is scored has least choices task by task. */
  lemma {:induction false} AttainingChoices(score: Score, tasks: seq<Task>, cands: seq<Candidates>, infra: Infra)
    returns (rs: seq<Resources>)
    requires |tasks| == |cands| && TotalScore(score, tasks, cands, infra).Some?
    requires forall t :: 0 <= t < |cands| ==> KeysDistinct(cands[t])
    ensures |rs| == |tasks| && forall t :: 0 <= t < |tasks| ==> Attains(score, tasks[t], cands[t], infra, rs[t])
  {
    if tasks == [] {
      rs := [];
    } else {
      var n := |tasks| - 1;
      var rest := AttainingChoices(score, tasks[..n], cands[..n], infra);
      var r := OwnChoice(score, tasks[n], cands[n], infra);
      rs := rest + [r];
      forall t | 0 <= t < |tasks| ensures Attains(score, tasks[t], cands[t], infra, rs[t]) {
        assert t < n ==> Attains(score, tasks[..n][t], cands[..n][t], infra, rest[t]);
      }
    }
  }

  /** Some choice is worth the score. */
  lemma ScoreIsAttained(score: Score, tasks: seq<Task>, cands: seq<Candidates>, infra: Infra)
    returns (rs: seq<Resources>)
    requires |tasks| == |cands| && forall t :: 0 <= t < |cands| ==> Consistent(cands[t])
    requires TotalScore(score, tasks, cands, infra).Some?
    ensures IsChoice(cands, infra, rs) && TotalScore(score, tasks, cands, infra).value == Worth(score, tasks, rs)
  {
    rs := AttainingChoices(score, tasks, cands, infra);
    ScoreOfAttaining(score, tasks, cands, infra, rs);
    forall t | 0 <= t < |cands| ensures Fitting(cands[t], infra, rs[t]) {
      assert Attains(score, tasks[t], cands[t], infra, rs[t]);
    }
  }

  /** An infrastructure is scored exactly when every task has something that fits it. */
  lemma ScoredIff(score: Score, tasks: seq<Task>, cands: seq<Candidates>, infra: Infra)
    requires |tasks| == |cands| && forall t :: 0 <= t < |cands| ==> Consistent(cands[t])
    ensures TotalScore(score, tasks, cands, infra).Some?
       <==> forall t :: 0 <= t < |cands| ==> HasFitting(cands[t], infra)
  {
    if TotalScore(score, tasks, cands, infra).Some? {
      var rs := ScoreIsAttained(score, tasks, cands, infra);
      forall t | 0 <= t < |cands| ensures HasFitting(cands[t], infra) {
        assert Fitting(cands[t], infra, rs[t]);
      }
    } else if forall t :: 0 <= t < |cands| ==> HasFitting(cands[t], infra) {
      forall t | 0 <= t < |tasks| ensures LeastScore(score, tasks[t], Bucket(cands[t], infra.0), infra.1).Some? {
        OwnScore(score, tasks[t], cands[t], infra);
      }
      TotalScoreSome(score, tasks, cands, infra);
    }
  }

  /** No choice on another listed infrastructure is worth less than this one. */
  ghost predicate LeastAmong(score: Score, tasks: seq<Task>, cands: seq<Candidates>, common: seq<Infra>,
                             rs: seq<Resources>)
    requires |tasks| == |cands| == |rs|
  {
    forall y, other :: y in common && IsChoice(cands, y, other) ==>
      Worth(score, tasks, rs) <= Worth(score, tasks, other)
  }

  /** By cloud name in lower case, and then by region, an absent one first. */
  ghost predicate KeyNotAfter(x: Infra, y: Infra) {
    if Lower(x.0.repr) != Lower(y.0.repr) then TextLeq(Lower(x.0.repr), Lower(y.0.repr))
    else TextLeq(if x.1.Some? then x.1.value else "", if y.1.Some? then y.1.value else "")
  }

  lemma KeyOrderMeans(x: Infra, y: Infra)
    ensures KeyLeq(SortKey(x), SortKey(y)) <==> KeyNotAfter(x, y)
  {
    LexIsTextOrder(SortKey(x).0, SortKey(y).0);
    LexIsTextOrder(SortKey(x).1, SortKey(y).1);
  }

  /**
   * The selected infrastructure has a choice if any listed one has, and then a choice that no choice on a
   * listed infrastructure undercuts. Where another reaches the same sum, or none has a choice, its key is not
   * after the other's.
   */
  lemma SelectionMeans(score: Score, tasks: seq<Task>, cands: seq<Candidates>, common: seq<Infra>, x: Infra)
    returns (rs: Option<seq<Resources>>)
    requires |tasks| == |cands| && forall t :: 0 <= t < |cands| ==> Consistent(cands[t])
    requires IsBest(score, tasks, cands, common, x)
    ensures rs.None? ==> forall y, other :: y in common ==> !IsChoice(cands, y, other)
    ensures rs.None? ==> forall y :: y in common ==> KeyNotAfter(x, y)
    ensures rs.Some? ==> IsChoice(cands, x, rs.value) && LeastAmong(score, tasks, cands, common, rs.value)
    ensures rs.Some? ==> forall y, other ::
      (y in common && IsChoice(cands, y, other) && Worth(score, tasks, other) == Worth(score, tasks, rs.value)) ==>
      KeyNotAfter(x, y)
  {
    var mine := TotalScore(score, tasks, cands, x);
    if mine.None? {
      rs := None;
    } else {
      var least := ScoreIsAttained(score, tasks, cands, x);
      rs := Some(least);
    }
    forall y | y in common
      ensures Beats(score, tasks, cands, x, y) && (KeyLeq(SortKey(x), SortKey(y)) <==> KeyNotAfter(x, y))
    {
      KeyOrderMeans(x, y);
    }
    forall y, other | y in common && IsChoice(cands, y, other)
      ensures mine.Some? && mine.value <= Worth(score, tasks, other)
      ensures mine.value == Worth(score, tasks, other) ==> KeyNotAfter(x, y)
    {
      ScoreIsLeast(score, tasks, cands, y, other);
      assert Beats(score, tasks, cands, x, y);
    }
  }

  /** With one cloud key per name every common infrastructure has a choice, and the selected one the least. */
  lemma SelectedIsLeast(score: Score, tasks: seq<Task>, cands: seq<Candidates>, common: seq<Infra>, x: Infra)
    returns (rs: seq<Resources>)
    requires |tasks| == |cands| && OneKeyPerName(cands) && CommonList(cands, common)
    requires forall t :: 0 <= t < |cands| ==> Consistent(cands[t])
    requires IsBest(score, tasks, cands, common, x)
    ensures IsChoice(cands, x, rs) && LeastAmong(score, tasks, cands, common, rs)
    ensures forall y :: y in common ==> exists other :: IsChoice(cands, y, other)
  {
    forall y | y in common ensures exists other :: IsChoice(cands, y, other) {
      CommonScored(score, tasks, cands, common, y);
      var other := ScoreIsAttained(score, tasks, cands, y);
    }
    var found := SelectionMeans(score, tasks, cands, common, x);
    CommonScored(score, tasks, cands, common, x);
    var some := ScoreIsAttained(score, tasks, cands, x);
    rs := found.value;
  }
}
