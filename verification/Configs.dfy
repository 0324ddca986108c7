/**
 * Scoped configuration (sky/skypilot_config.py, sky/utils/config_utils.py): nested lookup, recursive
 * merge, scope resolution, the default admission timeout and the removal of queue names.
 */
module Configs {
  import opened Prelude

  /** A configuration value: null, a number, any other leaf (text stands for it), or a mapping. */
  datatype Tree = Null | Number(n: int) | Leaf(text: string) | Node(children: map<string, Tree>)

  type Path = seq<string>

  const CONTEXTS := "context_configs"
  const WORKSPACES := "workspaces"
  const ADMISSION_PATH: Path := ["kubernetes", "kueue", "admission_timeout"]

  /** How pod_config and custom_metadata of two kubernetes blocks are combined. */
  type PodMerge = (Tree, Tree) -> Tree

  // ---------------------------------------------------------------------
  // Lookup, update and removal along a path.

  function Child(t: Tree, k: string): Tree {
    if t.Node? && k in t.children then t.children[k] else Null
  }

  /** The value at a path; Null when a key is missing or something on the way is not a mapping. */
  function Lookup(t: Tree, p: Path): Tree
    decreases p
  {
    if p == [] then t else Lookup(Child(t, p[0]), p[1..])
  }

  function Put(t: Tree, k: string, v: Tree): Tree {
    if t.Node? then Node(t.children[k := v]) else Node(map[k := v])
  }

  /** The tree with a value placed at a path, turning what is in the way into mappings. */
  function SetPath(t: Tree, p: Path, v: Tree): Tree
    decreases p
  {
    if p == [] then v else Put(t, p[0], SetPath(Child(t, p[0]), p[1..], v))
  }

  function PopPath(t: Tree, p: Path): Tree {
    if p == [] || !t.Node? || p[0] !in t.children then t
    else if |p| == 1 then Node(t.children - {p[0]})
    else Node(t.children[p[0] := PopPath(t.children[p[0]], p[1..])])
  }

  /** The paths part ways at some point before either ends. */
  predicate Diverges(p: Path, q: Path) {
    p != [] && q != [] && (p[0] != q[0] || Diverges(p[1..], q[1..]))
  }

  lemma {:induction false} LookupAppend(t: Tree, p: Path, q: Path)
    ensures Lookup(t, p + q) == Lookup(Lookup(t, p), q)
    decreases p
  {
    if p == [] {
      assert p + q == q;
    } else {
      assert (p + q)[1..] == p[1..] + q;
      LookupAppend(Child(t, p[0]), p[1..], q);
    }
  }

  lemma {:induction false} LookupNull(p: Path)
    ensures Lookup(Null, p) == Null
  {
    if p == [] {
    } else {
      LookupNull(p[1..]);
    }
  }

  lemma {:induction false} SetPathHere(t: Tree, p: Path, v: Tree)
    ensures Lookup(SetPath(t, p, v), p) == v
    decreases p
  {
    if p == [] {
    } else {
      SetPathHere(Child(t, p[0]), p[1..], v);
    }
  }

  lemma {:induction false} SetPathElsewhere(t: Tree, p: Path, v: Tree, q: Path)
    requires Diverges(p, q)
    ensures Lookup(SetPath(t, p, v), q) == Lookup(t, q)
    decreases p
  {
    if p[0] != q[0] {
    } else {
      SetPathElsewhere(Child(t, p[0]), p[1..], v, q[1..]);
    }
  }

  lemma {:induction false} PopHere(t: Tree, p: Path)
    requires p != []
    ensures Lookup(PopPath(t, p), p) == Null
  {
    if !t.Node? || p[0] !in t.children {
      LookupNull(p[1..]);
    } else if |p| == 1 {
    } else {
      PopHere(t.children[p[0]], p[1..]);
    }
  }

  lemma {:induction false} PopElsewhere(t: Tree, p: Path, q: Path)
    requires Diverges(p, q)
    ensures Lookup(PopPath(t, p), q) == Lookup(t, q)
  {
    if !t.Node? || p[0] !in t.children || p[0] != q[0] {
    } else {
      PopElsewhere(t.children[p[0]], p[1..], q[1..]);
    }
  }

  /** Removing something never makes anything else appear. */
  lemma {:induction false} PopKeepsNull(t: Tree, p: Path, q: Path)
    requires Lookup(t, q) == Null
    ensures Lookup(PopPath(t, p), q) == Null
  {
    if q == [] || p == [] || !t.Node? || p[0] !in t.children {
    } else if p[0] != q[0] {
      assert Child(PopPath(t, p), q[0]) == Child(t, q[0]);
    } else if |p| == 1 {
      LookupNull(q[1..]);
    } else {
      PopKeepsNull(t.children[p[0]], p[1..], q[1..]);
    }
  }

  // ---------------------------------------------------------------------
  // Recursive merge.

  /** The keys of a kubernetes block that are merged in their own way. */
  predicate IsPodKey(k: string) {
    k == "custom_metadata" || k == "pod_config"
  }

  /**
   * The base with the override merged in; `k8s` tells whether this is the top of a kubernetes block.
   * Mappings are merged key by key and anything else is replaced.
   */
  function Merge(pod: PodMerge, k8s: bool, b: Tree, o: Tree): Tree
    decreases o, 1
  {
    if b.Node? && o.Node? then
      Node(map k | k in b.children.Keys + o.children.Keys :: MergeKey(pod, k8s, b, o, k))
    else o
  }

  function MergeKey(pod: PodMerge, k8s: bool, b: Tree, o: Tree, k: string): Tree
    requires b.Node? && o.Node? && k in b.children.Keys + o.children.Keys
    decreases o, 0
  {
    if k !in o.children then b.children[k]
    else if k !in b.children then o.children[k]
    else if k8s && IsPodKey(k) then pod(b.children[k], o.children[k])
    else Merge(pod, !k8s && k == KUBERNETES, b.children[k], o.children[k])
  }

  /** No key of the path is one of the specially merged ones. */
  predicate AvoidsPod(k8s: bool, p: Path)
    decreases p
  {
    p == [] || (!(k8s && IsPodKey(p[0])) && AvoidsPod(!k8s && p[0] == KUBERNETES, p[1..]))
  }

  /** In-place setting of a nested key: a one-path override merged into the config. */
  function SetNested(pod: PodMerge, t: Tree, p: Path, v: Tree): Tree {
    Merge(pod, false, t, SetPath(Null, p, v))
  }

  /** Merging in a one-path override is setting that path. */
  lemma {:induction false} MergeOnePath(pod: PodMerge, k8s: bool, t: Tree, p: Path, v: Tree)
    requires p != [] && AvoidsPod(k8s, p) && !v.Node?
    ensures Merge(pod, k8s, t, SetPath(Null, p, v)) == SetPath(t, p, v)
    decreases p
  {
    var k := p[0];
    var o := SetPath(Null, p, v);
    assert o.children == map[k := SetPath(Null, p[1..], v)];
    if t.Node? {
      if k in t.children && |p| > 1 {
        MergeOnePath(pod, !k8s && k == KUBERNETES, t.children[k], p[1..], v);
      }
      assert MergeKey(pod, k8s, t, o, k) == SetPath(Child(t, k), p[1..], v);
      forall j | j in t.children && j != k ensures MergeKey(pod, k8s, t, o, j) == t.children[j] {
      }
      assert Merge(pod, k8s, t, o).children == t.children[k := SetPath(Child(t, k), p[1..], v)];
    } else {
      NotANode(t, p, v);
    }
  }

  /** What is not a mapping is replaced, whatever it is. */
  lemma NotANode(t: Tree, p: Path, v: Tree)
    requires p != [] && !t.Node?
    ensures SetPath(t, p, v) == SetPath(Null, p, v)
  {
  }

  /** One key of a merge, with absent children read as Null. */
  lemma MergeChild(pod: PodMerge, k8s: bool, b: Tree, o: Tree, k: string)
    requires o.Node? && !(k8s && IsPodKey(k))
    ensures Child(Merge(pod, k8s, b, o), k)
         == if k in o.children then Merge(pod, !k8s && k == KUBERNETES, Child(b, k), o.children[k])
             else if b.Node? then Child(b, k) else Null
  {
  }

  /** Setting one path of the base does not change what a merge shows at a path that parts from it. */
  lemma {:induction false} MergeElsewhere(pod: PodMerge, k8s: bool, b: Tree, p: Path, v: Tree, o: Tree, q: Path)
    requires Diverges(p, q) && AvoidsPod(k8s, p)
    ensures Lookup(Merge(pod, k8s, SetPath(b, p, v), o), q) == Lookup(Merge(pod, k8s, b, o), q)
    decreases p
  {
    if !o.Node? {
    } else {
      var k := p[0];
      var b' := SetPath(b, p, v);
      if q[0] == k {
        MergeChild(pod, k8s, b, o, k);
        MergeChild(pod, k8s, b', o, k);
        if k in o.children {
          MergeElsewhere(pod, !k8s && k == KUBERNETES, Child(b, k), p[1..], v, o.children[k], q[1..]);
        } else {
          SetPathElsewhere(Child(b, k), p[1..], v, q[1..]);
          LookupNull(q[1..]);
        }
      } else {
        OtherChild(pod, k8s, b, p, v, o, q[0]);
      }
    }
  }

  lemma OtherChild(pod: PodMerge, k8s: bool, b: Tree, p: Path, v: Tree, o: Tree, k: string)
    requires p != [] && o.Node? && k != p[0]
    ensures Child(Merge(pod, k8s, SetPath(b, p, v), o), k) == Child(Merge(pod, k8s, b, o), k)
  {
    var b' := SetPath(b, p, v);
    assert b.Node? ==> (k in b'.children <==> k in b.children) && (k in b.children ==> b'.children[k] == b.children[k]);
    assert !b.Node? ==> k !in b'.children;
  }

  /** The override itself decides the value at the path, by setting it or by replacing something on the way. */
  predicate Masks(o: Tree, p: Path) {
    !o.Node? || (p != [] && p[0] in o.children && (|p| == 1 || Masks(o.children[p[0]], p[1..])))
  }

  /** Setting an unset path of the base shows through a merge unless the override masks the path. */
  lemma {:induction false} MergeHere(pod: PodMerge, k8s: bool, b: Tree, p: Path, v: Tree, o: Tree)
    requires p != [] && AvoidsPod(k8s, p) && !v.Node? && Lookup(b, p) == Null
    ensures Lookup(Merge(pod, k8s, SetPath(b, p, v), o), p)
         == if Masks(o, p) then Lookup(Merge(pod, k8s, b, o), p) else v
    ensures !Masks(o, p) ==> Lookup(Merge(pod, k8s, b, o), p) == Null
    decreases p
  {
    if !o.Node? {
    } else {
      var k := p[0];
      MergeChild(pod, k8s, b, o, k);
      MergeChild(pod, k8s, SetPath(b, p, v), o, k);
      if k in o.children {
        if |p| > 1 {
          MergeHere(pod, !k8s && k == KUBERNETES, Child(b, k), p[1..], v, o.children[k]);
        }
      } else {
        SetPathHere(Child(b, k), p[1..], v);
        LookupNull(p[1..]);
      }
    }
  }

  /** Where the override sets a plain value, the merge shows it. */
  lemma {:induction false} MergeOverrides(pod: PodMerge, k8s: bool, b: Tree, o: Tree, q: Path)
    requires AvoidsPod(k8s, q) && !Lookup(o, q).Node? && Lookup(o, q) != Null
    ensures Lookup(Merge(pod, k8s, b, o), q) == Lookup(o, q)
    decreases q
  {
    if q == [] {
    } else {
      var k := q[0];
      if k !in (if o.Node? then o.children.Keys else {}) {
        LookupNull(q[1..]);
      }
      MergeChild(pod, k8s, b, o, k);
      MergeOverrides(pod, !k8s && k == KUBERNETES, Child(b, k), o.children[k], q[1..]);
    }
  }

  /** Where it neither sets the path nor replaces something on the way, the merge shows the base. */
  lemma {:induction false} MergeKeepsBase(pod: PodMerge, k8s: bool, b: Tree, o: Tree, q: Path)
    requires q != [] && AvoidsPod(k8s, q) && !Masks(o, q)
    ensures Lookup(Merge(pod, k8s, b, o), q) == Lookup(b, q)
    decreases q
  {
    var k := q[0];
    MergeChild(pod, k8s, b, o, k);
    if k in o.children {
      MergeKeepsBase(pod, !k8s && k == KUBERNETES, Child(b, k), o.children[k], q[1..]);
    }
  }

  predicate Has(t: Tree, k: string) {
    t.Node? && k in t.children
  }

  /** At the top of a kubernetes block the base's pod config and metadata are combined with the override's. */
  lemma PodBlocksCombined(pod: PodMerge, b: Tree, o: Tree, k: string)
    requires k == "pod_config" || k == "custom_metadata"
    requires Has(b, KUBERNETES) && Has(Child(b, KUBERNETES), k) && Has(o, KUBERNETES) && Has(Child(o, KUBERNETES), k)
    ensures Lookup(Merge(pod, false, b, o), [KUBERNETES, k])
         == pod(Lookup(b, [KUBERNETES, k]), Lookup(o, [KUBERNETES, k]))
  {
    MergeChild(pod, false, b, o, KUBERNETES);
    var path := [KUBERNETES, k];
    assert path[1..] == [k] && [k][1..] == [];
    forall t: Tree ensures Lookup(t, path) == Child(Child(t, KUBERNETES), k) {
      assert Lookup(t, path) == Lookup(Child(t, KUBERNETES), [k]);
      assert Lookup(Child(t, KUBERNETES), [k]) == Lookup(Child(Child(t, KUBERNETES), k), []);
    }
  }

  // ---------------------------------------------------------------------
  // Scope resolution.

  /** Key prefixes of a cloud's block, most specific first. */
  function Prefixes(cloud: string, region: Option<string>, partition: Option<string>): seq<Path> {
    (if region.None? then []
     else if cloud == "slurm" then
       (if partition.Some? then [[cloud, "cluster_configs", region.value, "partition_configs", partition.value]]
         else [])
       + [[cloud, "cluster_configs", region.value]]
     else [[cloud, CONTEXTS, region.value]])
    + [[cloud]]
  }

  /** The first value that is set: prefixes in order and, at each prefix, spellings in order. */
  function FirstAt(t: Tree, prefix: Path, keys: seq<Path>): Tree {
    if keys == [] then Null
    else if Lookup(t, prefix + keys[0]) != Null then Lookup(t, prefix + keys[0])
    else FirstAt(t, prefix, keys[1..])
  }

  function FirstOf(t: Tree, prefixes: seq<Path>, keys: seq<Path>): Tree {
    if prefixes == [] then Null
    else if FirstAt(t, prefixes[0], keys) != Null then FirstAt(t, prefixes[0], keys)
    else FirstOf(t, prefixes[1..], keys)
  }

  function Overridden(pod: PodMerge, t: Tree, override: Option<Tree>): Tree {
    if override.Some? then Merge(pod, false, t, override.value) else t
  }

  /** The workspace subtree when there is one, and then the whole config, each under the override given. */
  function Resolve(pod: PodMerge, config: Tree, prefixes: seq<Path>, keys: seq<Path>, workspace: string,
                   override: Option<Tree>): Tree {
    var ws := Lookup(config, [WORKSPACES, workspace]);
    var own := if ws != Null then FirstOf(Overridden(pod, ws, override), prefixes, keys) else Null;
    if own != Null then own else FirstOf(Overridden(pod, config, override), prefixes, keys)
  }

  /** The configs to be searched, most specific first. */
  function Scopes(config: Tree, workspace: string): seq<Tree> {
    var ws := Lookup(config, [WORKSPACES, workspace]);
    (if ws != Null then [ws] else []) + [config]
  }

  /** What one scope holds at one prefix and spelling, under the override. */
  function Entry(pod: PodMerge, scope: Tree, override: Option<Tree>, prefix: Path, key: Path): Tree {
    Lookup(Overridden(pod, scope, override), prefix + key)
  }

  /** Scope, prefix and spelling `at` hold a value, and nothing before them in that order does. */
  ghost predicate IsFirstSet(pod: PodMerge, scopes: seq<Tree>, override: Option<Tree>, prefixes: seq<Path>,
                             keys: seq<Path>, at: (nat, nat, nat))
  {
    && at.0 < |scopes| && at.1 < |prefixes| && at.2 < |keys|
    && Entry(pod, scopes[at.0], override, prefixes[at.1], keys[at.2]) != Null
    && (forall j :: 0 <= j < at.2 ==> Entry(pod, scopes[at.0], override, prefixes[at.1], keys[j]) == Null)
    && (forall i, j :: 0 <= i < at.1 && 0 <= j < |keys| ==>
          Entry(pod, scopes[at.0], override, prefixes[i], keys[j]) == Null)
    && (forall s, i, j :: 0 <= s < at.0 && 0 <= i < |prefixes| && 0 <= j < |keys| ==>
          Entry(pod, scopes[s], override, prefixes[i], keys[j]) == Null)
  }

  /** The spelling that decides at one prefix, if any. */
  lemma {:induction false} FirstAtIs(t: Tree, prefix: Path, keys: seq<Path>) returns (j: nat)
    ensures FirstAt(t, prefix, keys) == Null <==> j == |keys|
    ensures j <= |keys| && forall l :: 0 <= l < j ==> Lookup(t, prefix + keys[l]) == Null
    ensures j < |keys| ==> FirstAt(t, prefix, keys) == Lookup(t, prefix + keys[j]) != Null
  {
    if keys == [] || Lookup(t, prefix + keys[0]) != Null {
      j := 0;
    } else {
      j := FirstAtIs(t, prefix, keys[1..]);
      j := j + 1;
    }
  }

  /** The prefix and spelling that decide in one scope, if any. */
  lemma {:induction false} FirstOfIs(t: Tree, prefixes: seq<Path>, keys: seq<Path>) returns (i: nat, j: nat)
    ensures FirstOf(t, prefixes, keys) == Null <==> i == |prefixes|
    ensures i <= |prefixes| && forall h, l :: 0 <= h < i && 0 <= l < |keys| ==> Lookup(t, prefixes[h] + keys[l]) == Null
    ensures i < |prefixes| ==>
      && j < |keys| && FirstOf(t, prefixes, keys) == Lookup(t, prefixes[i] + keys[j]) != Null
      && forall l :: 0 <= l < j ==> Lookup(t, prefixes[i] + keys[l]) == Null
  {
    if prefixes == [] {
      i, j := 0, 0;
    } else {
      j := FirstAtIs(t, prefixes[0], keys);
      if j < |keys| {
        i := 0;
      } else {
        i, j := FirstOfIs(t, prefixes[1..], keys);
        forall h, l | 0 <= h < i + 1 && 0 <= l < |keys| ensures Lookup(t, prefixes[h] + keys[l]) == Null {
          if h > 0 {
            assert prefixes[h] == prefixes[1..][h - 1];
          }
        }
        i := i + 1;
      }
    }
  }

  /** Nothing is set anywhere. */
  ghost predicate NothingSet(pod: PodMerge, scopes: seq<Tree>, override: Option<Tree>, prefixes: seq<Path>,
                             keys: seq<Path>)
  {
    forall s, i, j :: 0 <= s < |scopes| && 0 <= i < |prefixes| && 0 <= j < |keys| ==>
      Entry(pod, scopes[s], override, prefixes[i], keys[j]) == Null
  }

  /**
   * The resolver returns the value at the first scope, prefix and spelling, in that order, that is set under
   * the override, and nothing exactly when none is.
   */
  lemma ResolveIsFirstSet(pod: PodMerge, config: Tree, prefixes: seq<Path>, keys: seq<Path>, workspace: string,
                          override: Option<Tree>)
    ensures var value := Resolve(pod, config, prefixes, keys, workspace, override);
      var scopes := Scopes(config, workspace);
      && (value != Null ==> exists at: (nat, nat, nat) ::
            && IsFirstSet(pod, scopes, override, prefixes, keys, at)
            && value == Entry(pod, scopes[at.0], override, prefixes[at.1], keys[at.2]))
      && (value == Null <==> NothingSet(pod, scopes, override, prefixes, keys))
  {
    var scopes := Scopes(config, workspace);
    var last := |scopes| - 1;
    var i, j := FirstOfIs(Overridden(pod, scopes[0], override), prefixes, keys);
    if i < |prefixes| {
      assert IsFirstSet(pod, scopes, override, prefixes, keys, (0, i, j));
    } else {
      i, j := FirstOfIs(Overridden(pod, scopes[last], override), prefixes, keys);
      if i < |prefixes| {
        assert IsFirstSet(pod, scopes, override, prefixes, keys, (last, i, j));
      } else {
        NothingInScopes(pod, scopes, override, prefixes, keys);
      }
    }
  }

  lemma NothingInScopes(pod: PodMerge, scopes: seq<Tree>, override: Option<Tree>, prefixes: seq<Path>, keys: seq<Path>)
    requires 1 <= |scopes| <= 2
    requires forall i, j :: 0 <= i < |prefixes| && 0 <= j < |keys| ==>
      && Entry(pod, scopes[0], override, prefixes[i], keys[j]) == Null
      && Entry(pod, scopes[|scopes| - 1], override, prefixes[i], keys[j]) == Null
    ensures NothingSet(pod, scopes, override, prefixes, keys)
  {
  }

  method EffectiveValue(pod: PodMerge, config: Tree, cloud: string, keys: seq<Path>, region: Option<string>,
                        partition: Option<string>, workspace: string, override: Option<Tree>)
    returns (value: Tree)
    ensures value == Resolve(pod, config, Prefixes(cloud, region, partition), keys, workspace, override)
  {
    var prefixes := Prefixes(cloud, region, partition);
    var scopes: seq<Tree> := [];
    var ws := Lookup(config, [WORKSPACES, workspace]);
    if ws != Null {
      scopes := scopes + [ws];
    }
    scopes := scopes + [config];
    for s := 0 to |scopes|
      invariant forall r :: 0 <= r < s ==> FirstOf(Overridden(pod, scopes[r], override), prefixes, keys) == Null
    {
      var scope := if override.Some? then Merge(pod, false, scopes[s], override.value) else scopes[s];
      value := FindFirst(scope, prefixes, keys);
      if value != Null {
        assert ws != Null ==> scopes[0] == ws;
        return;
      }
    }
    assert ws != Null ==> scopes[0] == ws;
    assert scopes[|scopes| - 1] == config;
    value := Null;
  }

  method FindFirst(t: Tree, prefixes: seq<Path>, keys: seq<Path>) returns (value: Tree)
    ensures value == FirstOf(t, prefixes, keys)
  {
    for i := 0 to |prefixes|
      invariant FirstOf(t, prefixes, keys) == FirstOf(t, prefixes[i..], keys)
    {
      assert prefixes[i..][1..] == prefixes[i + 1..];
      for j := 0 to |keys|
        invariant FirstAt(t, prefixes[i], keys) == FirstAt(t, prefixes[i], keys[j..])
      {
        assert keys[j..][1..] == keys[j + 1..];
        value := Lookup(t, prefixes[i] + keys[j]);
        if value != Null {
          return;
        }
      }
    }
    value := Null;
  }

  // ---------------------------------------------------------------------
  // The order of scopes, spelled out.

  /** The first value set along a list of full paths. */
  function FirstSet(t: Tree, paths: seq<Path>): Tree {
    if paths == [] then Null
    else if Lookup(t, paths[0]) != Null then Lookup(t, paths[0])
    else FirstSet(t, paths[1..])
  }

  lemma {:induction false} FirstSetConcat(t: Tree, a: seq<Path>, b: seq<Path>)
    ensures FirstSet(t, a + b) == if FirstSet(t, a) != Null then FirstSet(t, a) else FirstSet(t, b)
    decreases |a|
  {
    if a == [] {
      assert a + b == b;
    } else {
      assert (a + b)[1..] == a[1..] + b;
      FirstSetConcat(t, a[1..], b);
    }
  }

  /** The paths of one spelling at these prefixes, inside a scope. */
  function Under(scope: Path, prefixes: seq<Path>, key: Path): (paths: seq<Path>)
    ensures |paths| == |prefixes| && forall i :: 0 <= i < |paths| ==> paths[i] == scope + prefixes[i] + key
  {
    seq(|prefixes|, i requires 0 <= i < |prefixes| => scope + prefixes[i] + key)
  }

  lemma {:induction false} FirstOfIsFirstSet(t: Tree, scope: Path, prefixes: seq<Path>, key: Path)
    ensures FirstOf(Lookup(t, scope), prefixes, [key]) == FirstSet(t, Under(scope, prefixes, key))
    decreases |prefixes|
  {
    if prefixes == [] {
    } else {
      assert FirstAt(Lookup(t, scope), prefixes[0], [key]) == Lookup(Lookup(t, scope), prefixes[0] + key);
      LookupAppend(t, scope, prefixes[0] + key);
      assert scope + (prefixes[0] + key) == scope + prefixes[0] + key;
      FirstOfIsFirstSet(t, scope, prefixes[1..], key);
      assert Under(scope, prefixes, key)[1..] == Under(scope, prefixes[1..], key);
    }
  }

  lemma {:induction false} NothingInNull(prefixes: seq<Path>, key: Path)
    ensures FirstOf(Null, prefixes, [key]) == Null
    decreases |prefixes|
  {
    if prefixes == [] {
    } else {
      LookupNull(prefixes[0] + key);
      assert FirstAt(Null, prefixes[0], [key]) == Null;
      NothingInNull(prefixes[1..], key);
    }
  }

  /** Without an override: first the paths inside the workspace, then those of the whole config. */
  lemma ResolveAlongPaths(pod: PodMerge, config: Tree, prefixes: seq<Path>, key: Path, workspace: string)
    ensures Resolve(pod, config, prefixes, [key], workspace, None)
         == FirstSet(config, Under([WORKSPACES, workspace], prefixes, key) + Under([], prefixes, key))
  {
    FirstOfIsFirstSet(config, [WORKSPACES, workspace], prefixes, key);
    FirstOfIsFirstSet(config, [], prefixes, key);
    NothingInNull(prefixes, key);
    FirstSetConcat(config, Under([WORKSPACES, workspace], prefixes, key), Under([], prefixes, key));
  }

  /** Any cloud but slurm: the context of the workspace, its cloud, the global context, the global cloud. */
  lemma ContextOrder(pod: PodMerge, config: Tree, cloud: string, region: string, partition: Option<string>, key: Path,
                     workspace: string)
    requires cloud != "slurm"
    ensures Resolve(pod, config, Prefixes(cloud, Some(region), partition), [key], workspace, None)
         == FirstSet(config, [[WORKSPACES, workspace, cloud, "context_configs", region] + key,
                              [WORKSPACES, workspace, cloud] + key,
                              [cloud, "context_configs", region] + key,
                              [cloud] + key])
  {
    var prefixes := Prefixes(cloud, Some(region), partition);
    var ws := [WORKSPACES, workspace];
    ResolveAlongPaths(pod, config, prefixes, key, workspace);
    assert prefixes == [[cloud, "context_configs", region], [cloud]];
    assert ws + prefixes[0] == [WORKSPACES, workspace, cloud, "context_configs", region];
    assert ws + prefixes[1] == [WORKSPACES, workspace, cloud];
    assert [] + prefixes[0] == prefixes[0] && [] + prefixes[1] == prefixes[1];
    assert Under(ws, prefixes, key) == [ws + prefixes[0] + key, ws + prefixes[1] + key];
    assert Under([], prefixes, key) == [prefixes[0] + key, prefixes[1] + key];
  }

  /** Slurm: in each scope the partition, then its cluster, then the cloud. */
  lemma PartitionOrder(pod: PodMerge, config: Tree, region: string, partition: string, key: Path, workspace: string)
    ensures Resolve(pod, config, Prefixes("slurm", Some(region), Some(partition)), [key], workspace, None)
         == FirstSet(config,
              [[WORKSPACES, workspace, "slurm", "cluster_configs", region, "partition_configs", partition] + key,
               [WORKSPACES, workspace, "slurm", "cluster_configs", region] + key,
               [WORKSPACES, workspace, "slurm"] + key,
               ["slurm", "cluster_configs", region, "partition_configs", partition] + key,
               ["slurm", "cluster_configs", region] + key,
               ["slurm"] + key])
  {
    var prefixes := Prefixes("slurm", Some(region), Some(partition));
    var ws := [WORKSPACES, workspace];
    ResolveAlongPaths(pod, config, prefixes, key, workspace);
    var p, c, s := ["slurm", "cluster_configs", region, "partition_configs", partition],
                   ["slurm", "cluster_configs", region], ["slurm"];
    assert prefixes == [p, c, s];
    assert ws + p == [WORKSPACES, workspace, "slurm", "cluster_configs", region, "partition_configs", partition];
    assert ws + c == [WORKSPACES, workspace, "slurm", "cluster_configs", region];
    assert ws + s == [WORKSPACES, workspace, "slurm"];
    assert [] + p == p && [] + c == c && [] + s == s;
    assert Under(ws, prefixes, key) == [ws + p + key, ws + c + key, ws + s + key];
    assert Under([], prefixes, key) == [p + key, c + key, s + key];
    assert Under(ws, prefixes, key) + Under([], prefixes, key)
        == [ws + p + key, ws + c + key, ws + s + key, p + key, c + key, s + key];
  }

  /** Without a region only the cloud, in the workspace and then globally; without a partition no partition. */
  lemma FewerPrefixes(pod: PodMerge, config: Tree, cloud: string, region: string, partition: Option<string>, key: Path,
                      workspace: string)
    ensures Resolve(pod, config, Prefixes(cloud, None, partition), [key], workspace, None)
         == FirstSet(config, [[WORKSPACES, workspace, cloud] + key, [cloud] + key])
    ensures Prefixes("slurm", Some(region), None) == [["slurm", "cluster_configs", region], ["slurm"]]
  {
    var prefixes := Prefixes(cloud, None, partition);
    ResolveAlongPaths(pod, config, prefixes, key, workspace);
    assert prefixes == [[cloud]] && [] + [cloud] == [cloud];
    assert [WORKSPACES, workspace] + [cloud] == [WORKSPACES, workspace, cloud];
    assert Under([WORKSPACES, workspace], prefixes, key) == [[WORKSPACES, workspace] + [cloud] + key];
    assert Under([], prefixes, key) == [[cloud] + key];
  }

  /** What an override sets at the most specific prefix wins over everything. */
  lemma OverrideWins(pod: PodMerge, config: Tree, prefixes: seq<Path>, key: Path, workspace: string, override: Tree)
    requires prefixes != [] && AvoidsPod(false, prefixes[0] + key)
    requires !Lookup(override, prefixes[0] + key).Node? && Lookup(override, prefixes[0] + key) != Null
    ensures Resolve(pod, config, prefixes, [key], workspace, Some(override)) == Lookup(override, prefixes[0] + key)
  {
    var ws := Lookup(config, [WORKSPACES, workspace]);
    MergeOverrides(pod, false, ws, override, prefixes[0] + key);
    MergeOverrides(pod, false, config, override, prefixes[0] + key);
    assert forall t :: FirstAt(t, prefixes[0], [key]) == Lookup(t, prefixes[0] + key);
  }

  // ---------------------------------------------------------------------
  // The default admission timeout.

  const ADMISSION_KEYS: seq<Path> := [["kueue", "admission_timeout"]]

  function AdmissionTimeout(pod: PodMerge, config: Tree, region: Option<string>, workspace: string,
                            override: Option<Tree>): Tree {
    Resolve(pod, config, Prefixes(KUBERNETES, region, None), ADMISSION_KEYS, workspace, override)
  }

  /** The config a launch runs under: bounded elsewhere, and nothing set globally, means waiting forever. */
  method QueueAdmissionConfig(pod: PodMerge, config: Tree, byServe: bool, byJobs: bool, schedulingTimeoutSet: bool)
    returns (used: Tree)
    ensures used == if (byServe || (byJobs && schedulingTimeoutSet)) && Lookup(config, ADMISSION_PATH) == Null
                    then SetPath(config, ADMISSION_PATH, Number(-1)) else config
  {
    var boundedElsewhere := byServe || (byJobs && schedulingTimeoutSet);
    used := config;
    if boundedElsewhere && Lookup(config, ADMISSION_PATH) == Null {
      used := SetNested(pod, config, ADMISSION_PATH, Number(-1));
      AdmissionAvoidsPod();
      MergeOnePath(pod, false, config, ADMISSION_PATH, Number(-1));
    }
  }

  lemma AdmissionAvoidsPod()
    ensures AvoidsPod(false, ADMISSION_PATH)
  {
    assert ADMISSION_PATH[0] == KUBERNETES && ADMISSION_PATH[1..][0] == "kueue";
    assert "kueue"[0] == 'k' && "custom_metadata"[0] == 'c' && "pod_config"[0] == 'p';
    assert AvoidsPod(true, ADMISSION_PATH[1..]) by {
      assert AvoidsPod(false, ADMISSION_PATH[1..][1..]) by {
        assert AvoidsPod(false, ADMISSION_PATH[1..][1..][1..]);
      }
    }
  }

  lemma KeysDiffer()
    ensures KUBERNETES != WORKSPACES && CONTEXTS != "kueue"
  {
    assert KUBERNETES[0] == 'k' && WORKSPACES[0] == 'w' && CONTEXTS[0] == 'c' && "kueue"[0] == 'k';
  }

  lemma AdmissionDiverges(region: string, workspace: string)
    ensures Diverges(ADMISSION_PATH, [KUBERNETES, CONTEXTS, region] + ADMISSION_KEYS[0])
    ensures Diverges(ADMISSION_PATH, [WORKSPACES, workspace])
    ensures [KUBERNETES] + ADMISSION_KEYS[0] == ADMISSION_PATH
  {
    KeysDiffer();
    var q := [KUBERNETES, CONTEXTS, region] + ADMISSION_KEYS[0];
    assert q[0] == ADMISSION_PATH[0] && q[1..][0] == CONTEXTS && ADMISSION_PATH[1..][0] == "kueue";
    assert Diverges(ADMISSION_PATH[1..], q[1..]);
  }

  /** A single spelling at the context scope and then at the cloud scope. */
  lemma TwoScopes(t: Tree, region: Option<string>, key: Path)
    ensures FirstOf(t, Prefixes(KUBERNETES, region, None), [key])
         == (var here := Lookup(t, [KUBERNETES] + key);
             if region.Some? && Lookup(t, [KUBERNETES, CONTEXTS, region.value] + key) != Null
             then Lookup(t, [KUBERNETES, CONTEXTS, region.value] + key) else here)
  {
    assert KUBERNETES[0] == 'k' && "slurm"[0] == 's';
    assert FirstAt(t, [KUBERNETES], [key]) == Lookup(t, [KUBERNETES] + key);
    assert FirstOf(t, [[KUBERNETES]], [key]) == Lookup(t, [KUBERNETES] + key);
    if region.Some? {
      var prefixes := Prefixes(KUBERNETES, region, None);
      assert prefixes == [[KUBERNETES, CONTEXTS, region.value], [KUBERNETES]];
      assert prefixes[1..] == [[KUBERNETES]];
      assert FirstAt(t, prefixes[0], [key]) == Lookup(t, prefixes[0] + key);
    } else {
      assert Prefixes(KUBERNETES, region, None) == [[KUBERNETES]];
    }
  }

  lemma GlobalScopeAfterDefault(pod: PodMerge, config: Tree, region: Option<string>, override: Option<Tree>)
    requires Lookup(config, ADMISSION_PATH) == Null
    ensures var prefixes := Prefixes(KUBERNETES, region, None);
      var before := FirstOf(Overridden(pod, config, override), prefixes, ADMISSION_KEYS);
      FirstOf(Overridden(pod, SetPath(config, ADMISSION_PATH, Number(-1)), override), prefixes, ADMISSION_KEYS)
        == if before == Null && !(override.Some? && Masks(override.value, ADMISSION_PATH)) then Number(-1) else before
  {
    var after := SetPath(config, ADMISSION_PATH, Number(-1));
    var key := ADMISSION_KEYS[0];
    assert ADMISSION_KEYS == [key];
    TwoScopes(Overridden(pod, config, override), region, key);
    TwoScopes(Overridden(pod, after, override), region, key);
    AdmissionDiverges("", "");
    AdmissionAvoidsPod();
    if region.Some? {
      AdmissionDiverges(region.value, "");
    }
    if override.Some? {
      MergeHere(pod, false, config, ADMISSION_PATH, Number(-1), override.value);
      if region.Some? {
        var context := [KUBERNETES, CONTEXTS, region.value];
        MergeElsewhere(pod, false, config, ADMISSION_PATH, Number(-1), override.value, context + key);
      }
    } else {
      SetPathHere(config, ADMISSION_PATH, Number(-1));
      if region.Some? {
        SetPathElsewhere(config, ADMISSION_PATH, Number(-1), [KUBERNETES, CONTEXTS, region.value] + key);
      }
    }
  }

  /**
   * Installing the default changes the resolved timeout only where nothing was resolved before, and then
   * to exactly -1; it stays unresolved only where the given override blanks the setting out.
   */
  lemma DefaultOnlyFillsGap(pod: PodMerge, config: Tree, region: Option<string>, workspace: string,
                            override: Option<Tree>)
    requires Lookup(config, ADMISSION_PATH) == Null
    ensures var before := AdmissionTimeout(pod, config, region, workspace, override);
      AdmissionTimeout(pod, SetPath(config, ADMISSION_PATH, Number(-1)), region, workspace, override)
        == if before == Null && !(override.Some? && Masks(override.value, ADMISSION_PATH)) then Number(-1) else before
  {
    AdmissionDiverges("", workspace);
    SetPathElsewhere(config, ADMISSION_PATH, Number(-1), [WORKSPACES, workspace]);
    GlobalScopeAfterDefault(pod, config, region, override);
  }

  // ---------------------------------------------------------------------
  // Removing queue names.

  /** The blocks in which a kubernetes queue name can be set. */
  predicate IsQueueScope(p: Path) {
    || p == [KUBERNETES]
    || (|p| == 3 && p[0] == KUBERNETES && p[1] == CONTEXTS)
    || (|p| == 3 && p[0] == WORKSPACES && p[2] == KUBERNETES)
    || (|p| == 5 && p[0] == WORKSPACES && p[2] == KUBERNETES && p[3] == CONTEXTS)
  }

  /** The path parts from every place a queue name can be removed from. */
  ghost predicate Unrelated(keys: seq<Path>, q: Path) {
    forall scope, k :: IsQueueScope(scope) && k in keys ==> Diverges(scope + k, q)
  }

  /** Nothing new is set, and everything unrelated to queue names is as before. */
  ghost predicate OnlyQueuesGone(keys: seq<Path>, before: Tree, after: Tree) {
    && (forall q :: Lookup(before, q) == Null ==> Lookup(after, q) == Null)
    && (forall q :: Unrelated(keys, q) ==> Lookup(after, q) == Lookup(before, q))
    && (forall q :: NoMapping(after, q) ==> NoMapping(before, q))
    && (forall q :: NoMapping(before, q) && !Removable(keys, q) ==> NoMapping(after, q))
  }

  /** The path leads to something that is there and is not a mapping; a null value counts as there. */
  predicate NoMapping(t: Tree, q: Path) {
    if q == [] then !t.Node? else t.Node? && q[0] in t.children && NoMapping(t.children[q[0]], q[1..])
  }

  /** A queue name can be removed at this path or at a place on the way to it. */
  ghost predicate Removable(keys: seq<Path>, q: Path) {
    exists scope, k :: IsQueueScope(scope) && k in keys && scope + k <= q
  }

  lemma {:induction false} PopMakesNoLeaf(t: Tree, p: Path, q: Path)
    requires NoMapping(PopPath(t, p), q)
    ensures NoMapping(t, q)
  {
    if q == [] || p == [] || !t.Node? || p[0] !in t.children {
    } else if p[0] == q[0] && |p| > 1 {
      PopMakesNoLeaf(t.children[p[0]], p[1..], q[1..]);
    }
  }

  lemma {:induction false} PopKeepsLeaf(t: Tree, p: Path, q: Path)
    requires NoMapping(t, q) && !(p <= q)
    ensures NoMapping(PopPath(t, p), q)
  {
    if q == [] || p[0] !in t.children || p[0] != q[0] {
    } else {
      assert p[1..] <= q[1..] ==> p <= q;
      PopKeepsLeaf(t.children[p[0]], p[1..], q[1..]);
    }
  }

  ghost predicate NoQueueAt(keys: seq<Path>, t: Tree, scope: Path) {
    forall k :: k in keys ==> Lookup(t, scope + k) == Null
  }

  method PopIfSet(config: Tree, scope: Path, keys: seq<Path>) returns (after: Tree)
    requires IsQueueScope(scope)
    ensures OnlyQueuesGone(keys, config, after) && NoQueueAt(keys, after, scope)
  {
    after := config;
    for i := 0 to |keys|
      invariant OnlyQueuesGone(keys, config, after) && NoQueueAt(keys[..i], after, scope)
    {
      assert keys[..i + 1] == keys[..i] + [keys[i]];
      var path := scope + keys[i];
      if Lookup(after, path) != Null {
        ghost var was := after;
        after := PopPath(after, path);
        PopHere(was, path);
        forall q | Lookup(was, q) == Null ensures Lookup(after, q) == Null {
          PopKeepsNull(was, path, q);
        }
        forall q | Unrelated(keys, q) ensures Lookup(after, q) == Lookup(was, q) {
          PopElsewhere(was, path, q);
        }
        forall q | NoMapping(after, q) ensures NoMapping(was, q) {
          PopMakesNoLeaf(was, path, q);
        }
        forall q | NoMapping(was, q) && !Removable(keys, q) ensures NoMapping(after, q) {
          PopKeepsLeaf(was, path, q);
        }
      }
    }
    assert keys[..|keys|] == keys;
  }

  lemma NullsStay(keys: seq<Path>, before: Tree, after: Tree, scope: Path)
    requires OnlyQueuesGone(keys, before, after) && NoQueueAt(keys, before, scope)
    ensures NoQueueAt(keys, after, scope)
  {
  }

  function Names(t: Tree): set<string> {
    if t.Node? then t.children.Keys else {}
  }

  lemma AbsentLookup(t: Tree, block: Path, name: string, more: Path)
    requires name !in Names(Lookup(t, block))
    ensures Lookup(t, block + ([name] + more)) == Null
  {
    LookupAppend(t, block, [name] + more);
    assert ([name] + more)[0] == name && ([name] + more)[1..] == more;
    LookupNull(more);
  }

  lemma Regroup(block: Path, name: string, rest: Path, k: Path)
    ensures block + [name] + rest + k == block + ([name] + (rest + k))
  {
  }

  lemma AbsentHasNoQueue(keys: seq<Path>, t: Tree, block: Path, name: string, rest: Path)
    requires name !in Names(Lookup(t, block))
    ensures NoQueueAt(keys, t, block + [name] + rest)
  {
    forall k | k in keys ensures Lookup(t, block + [name] + rest + k) == Null {
      AbsentLookup(t, block, name, rest + k);
      Regroup(block, name, rest, k);
    }
  }

  predicate IsBlock(scope: Path) {
    scope == [KUBERNETES] || (|scope| == 3 && scope[0] == WORKSPACES && scope[2] == KUBERNETES)
  }

  /** The names of a mapping's entries, none where it is missing; None where listing them raises. */
  method Entries(t: Tree, p: Path) returns (names: Option<set<string>>)
    ensures names.None? <==> NoMapping(t, p)
    ensures names.Some? ==> names.value == Names(Lookup(t, p))
  {
    var at, rest := t, p;
    while rest != [] && at.Node? && rest[0] in at.children
      invariant NoMapping(t, p) <==> NoMapping(at, rest)
      invariant Lookup(t, p) == Lookup(at, rest)
      decreases |rest|
    {
      at, rest := at.children[rest[0]], rest[1..];
    }
    if rest == [] && !at.Node? {
      return None;
    }
    if rest != [] {
      LookupNull(rest[1..]);
    }
    names := Some(if rest == [] then at.children.Keys else {});
  }

  /** Raises exactly where the contexts are there and are not a mapping. */
  method RemoveFromContexts(config: Tree, scope: Path, keys: seq<Path>) returns (result: Option<Tree>)
    requires IsBlock(scope)
    ensures result.None? <==> NoMapping(config, scope + [CONTEXTS])
    ensures result.Some? ==> OnlyQueuesGone(keys, config, result.value)
    ensures result.Some? ==> forall c :: NoQueueAt(keys, result.value, scope + [CONTEXTS, c])
  {
    var after := config;
    var names := Entries(config, scope + [CONTEXTS]);
    if names.None? {
      return None;
    }
    var left := names.value;
    forall c | c !in left ensures NoQueueAt(keys, after, scope + [CONTEXTS, c]) {
      AbsentHasNoQueue(keys, config, scope + [CONTEXTS], c, []);
      assert scope + [CONTEXTS] + [c] + [] == scope + [CONTEXTS, c];
    }
    while left != {}
      invariant OnlyQueuesGone(keys, config, after)
      invariant forall c :: c !in left ==> NoQueueAt(keys, after, scope + [CONTEXTS, c])
    {
      var c :| c in left;
      ghost var was := after;
      assert IsQueueScope(scope + [CONTEXTS, c]);
      after := PopIfSet(after, scope + [CONTEXTS, c], keys);
      forall d | d !in left ensures NoQueueAt(keys, after, scope + [CONTEXTS, d]) {
        NullsStay(keys, was, after, scope + [CONTEXTS, d]);
      }
      left := left - {c};
    }
    result := Some(after);
  }

  /** One block and its contexts. */
  method RemoveFromBlock(config: Tree, scope: Path, keys: seq<Path>) returns (result: Option<Tree>)
    requires IsBlock(scope)
    ensures result.None? ==> NoMapping(config, scope + [CONTEXTS])
    ensures NoMapping(config, scope + [CONTEXTS]) && !Removable(keys, scope + [CONTEXTS]) ==> result.None?
    ensures result.Some? ==> OnlyQueuesGone(keys, config, result.value) && BlockClear(keys, result.value, scope)
  {
    var popped := PopIfSet(config, scope, keys);
    result := RemoveFromContexts(popped, scope, keys);
    if result.Some? {
      NullsStay(keys, popped, result.value, scope);
    }
  }

  /** No queue name in a kubernetes block or in any of its contexts. */
  ghost predicate BlockClear(keys: seq<Path>, t: Tree, scope: Path) {
    NoQueueAt(keys, t, scope) && forall c :: NoQueueAt(keys, t, scope + [CONTEXTS, c])
  }

  lemma ClearStays(keys: seq<Path>, before: Tree, after: Tree, scope: Path)
    requires OnlyQueuesGone(keys, before, after) && BlockClear(keys, before, scope)
    ensures BlockClear(keys, after, scope)
  {
    NullsStay(keys, before, after, scope);
    forall c ensures NoQueueAt(keys, after, scope + [CONTEXTS, c]) {
      NullsStay(keys, before, after, scope + [CONTEXTS, c]);
    }
  }

  lemma AbsentWorkspaceClear(keys: seq<Path>, t: Tree, w: string)
    requires w !in Names(Lookup(t, [WORKSPACES]))
    ensures BlockClear(keys, t, [WORKSPACES, w, KUBERNETES])
  {
    AbsentHasNoQueue(keys, t, [WORKSPACES], w, [KUBERNETES]);
    assert [WORKSPACES] + [w] + [KUBERNETES] == [WORKSPACES, w, KUBERNETES];
    forall c ensures NoQueueAt(keys, t, [WORKSPACES, w, KUBERNETES] + [CONTEXTS, c]) {
      AbsentHasNoQueue(keys, t, [WORKSPACES], w, [KUBERNETES, CONTEXTS, c]);
      assert [WORKSPACES] + [w] + [KUBERNETES, CONTEXTS, c] == [WORKSPACES, w, KUBERNETES] + [CONTEXTS, c];
    }
  }

  /** The mappings whose entries are listed: the workspaces, and the contexts of each block. */
  predicate IsListed(p: Path) {
    p == [WORKSPACES] || (|p| >= 1 && p[|p| - 1] == CONTEXTS && IsBlock(p[..|p| - 1]))
  }

  /** No listed mapping can be removed, as long as no queue key is empty or the contexts themselves. */
  lemma ListedNotRemovable(keys: seq<Path>, p: Path)
    requires IsListed(p) && [] !in keys && [CONTEXTS] !in keys
    ensures !Removable(keys, p)
  {
    KeysDiffer();
    forall scope, k | IsQueueScope(scope) && k in keys ensures !(scope + k <= p) {
      assert k != [] && k != [CONTEXTS];
      assert |k| == 1 ==> k == [k[0]];
      assert (scope + k)[0] == scope[0] && (scope + k)[|scope|] == k[0];
    }
  }

  /** Whatever listed path has no mapping lies in one of these workspaces. */
  ghost predicate OnlyInside(t: Tree, workspaces: set<string>) {
    forall p :: IsListed(p) && NoMapping(t, p) ==> |p| == 4 && p[1] in workspaces
  }

  lemma AbsentIsNoLeaf(t: Tree, w: string, more: Path)
    requires !NoMapping(t, [WORKSPACES]) && w !in Names(Lookup(t, [WORKSPACES]))
    ensures !NoMapping(t, [WORKSPACES, w] + more)
  {
    var p := [WORKSPACES, w] + more;
    assert p[0] == WORKSPACES && p[1..][0] == w;
    if t.Node? && WORKSPACES in t.children {
      assert [WORKSPACES][1..] == [];
      assert Lookup(t, [WORKSPACES]) == t.children[WORKSPACES];
    }
  }

  /** Before any workspace is visited. */
  lemma OnlyInsideNames(keys: seq<Path>, config: Tree, after: Tree)
    requires [] !in keys && [CONTEXTS] !in keys && OnlyQueuesGone(keys, config, after)
    requires !NoMapping(config, [KUBERNETES] + [CONTEXTS]) && !NoMapping(after, [WORKSPACES])
    ensures OnlyInside(config, Names(Lookup(after, [WORKSPACES])))
  {
    forall p | IsListed(p) && NoMapping(config, p) ensures |p| == 4 && p[1] in Names(Lookup(after, [WORKSPACES])) {
      ListedNotRemovable(keys, p);
      assert p == p[..|p| - 1] + [p[|p| - 1]];
      if |p| == 4 && p[1] !in Names(Lookup(after, [WORKSPACES])) {
        assert p == [WORKSPACES, p[1]] + p[2..];
        AbsentIsNoLeaf(after, p[1], p[2..]);
      }
    }
  }

  lemma ListedStays(keys: seq<Path>, before: Tree, after: Tree, p: Path)
    requires [] !in keys && [CONTEXTS] !in keys && OnlyQueuesGone(keys, before, after)
    requires IsListed(p) && NoMapping(before, p)
    ensures NoMapping(after, p)
  {
    ListedNotRemovable(keys, p);
  }

  /** After a workspace has been visited. */
  lemma OneLessInside(keys: seq<Path>, config: Tree, was: Tree, w: string, left: set<string>)
    requires [] !in keys && [CONTEXTS] !in keys && OnlyQueuesGone(keys, config, was)
    requires !NoMapping(was, [WORKSPACES, w, KUBERNETES] + [CONTEXTS]) && OnlyInside(config, left)
    ensures OnlyInside(config, left - {w})
  {
    forall p | IsListed(p) && NoMapping(config, p) ensures p[1] in left - {w} {
      ListedStays(keys, config, was, p);
      assert p == [WORKSPACES, p[1], KUBERNETES] + [CONTEXTS];
    }
  }

  /**
   * Afterwards no kubernetes block, global or of a workspace, has a queue name, and all else is unchanged.
   * It raises only where something listed is there and is not a mapping, and unless a queue key is empty or
   * the contexts themselves, always there.
   */
  method RemoveQueueNames(config: Tree, keys: seq<Path>) returns (result: Option<Tree>)
    ensures result.None? ==> exists p :: IsListed(p) && NoMapping(config, p)
    ensures [] !in keys && [CONTEXTS] !in keys && (exists p :: IsListed(p) && NoMapping(config, p)) ==> result.None?
    ensures result.Some? ==> OnlyQueuesGone(keys, config, result.value)
    ensures result.Some? ==> BlockClear(keys, result.value, [KUBERNETES])
    ensures result.Some? ==> forall w :: BlockClear(keys, result.value, [WORKSPACES, w, KUBERNETES])
  {
    ghost var exact := [] !in keys && [CONTEXTS] !in keys;
    if exact {
      ListedNotRemovable(keys, [KUBERNETES] + [CONTEXTS]);
    }
    result := RemoveFromBlock(config, [KUBERNETES], keys);
    if result.None? {
      assert IsListed([KUBERNETES] + [CONTEXTS]);
      return None;
    }
    var after := result.value;
    var names := Entries(after, [WORKSPACES]);
    if names.None? {
      return None;
    }
    var left := names.value;
    forall w | w !in left ensures BlockClear(keys, after, [WORKSPACES, w, KUBERNETES]) {
      AbsentWorkspaceClear(keys, after, w);
    }
    if exact {
      OnlyInsideNames(keys, config, after);
    }
    while left != {}
      invariant OnlyQueuesGone(keys, config, after) && BlockClear(keys, after, [KUBERNETES])
      invariant forall w :: w !in left ==> BlockClear(keys, after, [WORKSPACES, w, KUBERNETES])
      invariant exact ==> OnlyInside(config, left)
    {
      var w :| w in left;
      ghost var was := after;
      var block := RemoveFromBlock(after, [WORKSPACES, w, KUBERNETES], keys);
      if block.None? {
        assert IsListed([WORKSPACES, w, KUBERNETES] + [CONTEXTS]);
        return None;
      }
      after := block.value;
      if exact {
        ListedNotRemovable(keys, [WORKSPACES, w, KUBERNETES] + [CONTEXTS]);
        OneLessInside(keys, config, was, w, left);
      }
      ClearStays(keys, was, after, [KUBERNETES]);
      forall v | v !in left ensures BlockClear(keys, after, [WORKSPACES, v, KUBERNETES]) {
        ClearStays(keys, was, after, [WORKSPACES, v, KUBERNETES]);
      }
      left := left - {w};
    }
    result := Some(after);
  }

  lemma {:induction false} ClearScopeResolvesNull(t: Tree, prefix: Path, keys: seq<Path>)
    requires forall k :: k in keys ==> Lookup(t, prefix + k) == Null
    ensures FirstAt(t, prefix, keys) == Null
  {
    if keys == [] {
    } else {
      assert keys[0] in keys;
      ClearScopeResolvesNull(t, prefix, keys[1..]);
    }
  }

  lemma ClearBlockResolvesNull(t: Tree, region: Option<string>, keys: seq<Path>)
    requires BlockClear(keys, t, [KUBERNETES])
    ensures FirstOf(t, Prefixes(KUBERNETES, region, None), keys) == Null
  {
    assert KUBERNETES[0] == 'k' && "slurm"[0] == 's';
    ClearScopeResolvesNull(t, [KUBERNETES], keys);
    assert FirstOf(t, [[KUBERNETES]], keys) == Null;
    if region.Some? {
      var prefixes := Prefixes(KUBERNETES, region, None);
      assert prefixes[0] == [KUBERNETES] + [CONTEXTS, region.value] && prefixes[1..] == [[KUBERNETES]];
      assert NoQueueAt(keys, t, [KUBERNETES] + [CONTEXTS, region.value]);
      ClearScopeResolvesNull(t, prefixes[0], keys);
    } else {
      assert Prefixes(KUBERNETES, region, None) == [[KUBERNETES]];
    }
  }

  lemma WorkspaceView(t: Tree, w: string, keys: seq<Path>)
    requires BlockClear(keys, t, [WORKSPACES, w, KUBERNETES])
    ensures BlockClear(keys, Lookup(t, [WORKSPACES, w]), [KUBERNETES])
  {
    var ws := Lookup(t, [WORKSPACES, w]);
    forall k | k in keys ensures Lookup(ws, [KUBERNETES] + k) == Null {
      LookupAppend(t, [WORKSPACES, w], [KUBERNETES] + k);
      assert [WORKSPACES, w] + ([KUBERNETES] + k) == [WORKSPACES, w, KUBERNETES] + k;
    }
    forall c, k | k in keys ensures Lookup(ws, [KUBERNETES] + [CONTEXTS, c] + k) == Null {
      LookupAppend(t, [WORKSPACES, w], [KUBERNETES] + [CONTEXTS, c] + k);
      assert [WORKSPACES, w] + ([KUBERNETES] + [CONTEXTS, c] + k) == [WORKSPACES, w, KUBERNETES] + [CONTEXTS, c] + k;
      assert NoQueueAt(keys, t, [WORKSPACES, w, KUBERNETES] + [CONTEXTS, c]);
    }
  }

  /** Once every block is clear, the queue resolver without overrides finds nothing for any region and workspace. */
  lemma ClearedQueuesResolveNull(pod: PodMerge, t: Tree, keys: seq<Path>, region: Option<string>, workspace: string)
    requires BlockClear(keys, t, [KUBERNETES]) && BlockClear(keys, t, [WORKSPACES, workspace, KUBERNETES])
    ensures Resolve(pod, t, Prefixes(KUBERNETES, region, None), keys, workspace, None) == Null
  {
    ClearBlockResolvesNull(t, region, keys);
    WorkspaceView(t, workspace, keys);
    ClearBlockResolvesNull(Lookup(t, [WORKSPACES, workspace]), region, keys);
  }
}
