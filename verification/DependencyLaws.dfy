/** The dependency hash told by the objects alone: what an object depends on, which object a
    dependency stands for, what its hash is, and where the hash of the whole is written. */
module DependencyLaws {
  import opened Plans
  import opened Order
  import opened DependencyHash

  // ----- where the hash is written -----

  /** The annotations of pod templates, by the kind of the object that embeds them. */
  ghost predicate TakesHash(gvk: GVK, path: string) {
    || (path == TEMPLATE_PATH && gvk.kind in {"ReplicationController", "ReplicaSet", "DaemonSet"})
    || (path == TEMPLATE_PATH && gvk.group == "apps" && gvk.kind in {"StatefulSet", "Deployment"})
    || (path == TEMPLATE_PATH && gvk.group == "batch" && gvk.kind in {"Job", "CronJob"})
    || (path == JOB_TEMPLATE_PATH && gvk.group == "batch" && gvk.kind == "CronJob")
  }

  ghost predicate SiteIs(o: Object, path: string, site: Site) {
    if path in o.sites then o.sites[path] == site else site == Writable
  }

  lemma {:induction false} TakesHashExactly(gvk: GVK, path: string)
    ensures TakesHash(gvk, path) <==>
            exists k | 0 <= k < |TEMPLATE_ANNOTATION_PATHS| ::
              PathMatches(TEMPLATE_ANNOTATION_PATHS[k], gvk) && TEMPLATE_ANNOTATION_PATHS[k].path == path
  {
    var paths := TEMPLATE_ANNOTATION_PATHS;
    assert |paths| == 8;
    assert PathMatches(paths[0], gvk) <==> gvk.kind == "ReplicationController";
    assert PathMatches(paths[1], gvk) <==> gvk.group == "apps" && gvk.kind == "StatefulSet";
    assert PathMatches(paths[2], gvk) <==> gvk.group == "apps" && gvk.kind == "Deployment";
    assert PathMatches(paths[3], gvk) <==> gvk.kind == "ReplicaSet";
    assert PathMatches(paths[4], gvk) <==> gvk.kind == "DaemonSet";
    assert PathMatches(paths[5], gvk) <==> gvk.group == "batch" && gvk.kind == "Job";
    assert PathMatches(paths[6], gvk) <==> gvk.group == "batch" && gvk.kind == "CronJob";
    assert PathMatches(paths[7], gvk) <==> gvk.group == "batch" && gvk.kind == "CronJob";
  }

  /** What the object holds at `path` afterwards: the hash if it was written there, and what it
      held before if it was not. */
  ghost predicate HoldsAt(before: Object, after: Object, path: string, hash: string, written: bool) {
    if written then path in after.hashes && after.hashes[path] == hash
    else (path in after.hashes <==> path in before.hashes)
         && (path in before.hashes ==> after.hashes[path] == before.hashes[path])
  }

  /** The hash is at every place that takes it and is valid for the object, and nowhere else. */
  ghost predicate Bears(before: Object, after: Object, hash: string) {
    forall path ::
      HoldsAt(before, after, path, hash, TakesHash(before.gvk, path) && SiteIs(before, path, Writable))
  }

  lemma {:induction false} AnnotatedAt(o: Object, paths: seq<ResourcePath>, hash: string, path: string)
    requires NoneFails(o, paths)
    ensures HoldsAt(o, Annotated(o, paths, hash), path, hash,
              (exists k | 0 <= k < |paths| :: PathMatches(paths[k], o.gvk) && paths[k].path == path)
              && SiteIs(o, path, Writable))
    decreases |paths|
  {
    if paths != [] {
      var next := WithHash(o, paths[0], hash);
      assert !Fails(o, paths[0]);
      assert NoneFails(next, paths[1..]) by {
        assert forall k | 0 <= k < |paths[1..]| :: paths[1..][k] == paths[k + 1];
      }
      AnnotatedAt(next, paths[1..], hash, path);
      assert forall k | 1 <= k < |paths| :: paths[k] == paths[1..][k - 1];
    }
  }

  lemma {:induction false} WritableExactly(o: Object)
    ensures CanAnnotate(o) <==> forall path | TakesHash(o.gvk, path) :: !SiteIs(o, path, Unwritable)
  {
    var paths := TEMPLATE_ANNOTATION_PATHS;
    forall path | TakesHash(o.gvk, path) && SiteIs(o, path, Unwritable) ensures !CanAnnotate(o) {
      TakesHashExactly(o.gvk, path);
      var k :| 0 <= k < |paths| && PathMatches(paths[k], o.gvk) && paths[k].path == path;
      assert Fails(o, paths[k]);
    }
    forall k | 0 <= k < |paths| && Fails(o, paths[k])
      ensures TakesHash(o.gvk, paths[k].path) && SiteIs(o, paths[k].path, Unwritable)
    {
      TakesHashExactly(o.gvk, paths[k].path);
    }
  }

  /** The hash can be written exactly when no place that takes it lies beyond a null; it is then
      written to every place that takes it and is valid for the object, and to no other. */
  lemma {:induction false} HashIsWritten(o: Object, hash: string)
    ensures CanAnnotate(o) <==> forall path | TakesHash(o.gvk, path) :: !SiteIs(o, path, Unwritable)
    ensures
      var r := Annotated(o, TEMPLATE_ANNOTATION_PATHS, hash);
      && r == o.(hashes := r.hashes)
      && (CanAnnotate(o) ==> Bears(o, r, hash))
  {
    AnnotatedKeeps(o, TEMPLATE_ANNOTATION_PATHS, hash);
    WritableExactly(o);
    forall path
      ensures CanAnnotate(o) ==>
                HoldsAt(o, Annotated(o, TEMPLATE_ANNOTATION_PATHS, hash), path, hash,
                        TakesHash(o.gvk, path) && SiteIs(o, path, Writable))
    {
      TakesHashExactly(o.gvk, path);
      if CanAnnotate(o) { AnnotatedAt(o, TEMPLATE_ANNOTATION_PATHS, hash, path); }
    }
  }

  // ----- what an object depends on -----

  ghost function CountOf<T(!new)>(s: seq<T>, p: T -> bool): nat {
    |set n | 0 <= n < |s| && p(s[n])|
  }

  lemma {:induction false} CountLast<T(!new)>(s: seq<T>, p: T -> bool)
    requires s != []
    ensures CountOf(s, p) == CountOf(s[..|s| - 1], p) + if p(s[|s| - 1]) then 1 else 0
  {
    var last := |s| - 1;
    var most := set n | 0 <= n < |s[..last]| && p(s[..last][n]);
    assert (set n | 0 <= n < |s| && p(s[n])) == most + if p(s[last]) then {last} else {};
  }

  /** How often a template uses the dependency: each pull secret, and the Secret and the ConfigMap
      of each volume, is looked for in the namespace of the object. */
  ghost function Uses(t: Template, ns: string, d: ResourceDependency): nat {
    if !t.Pod? || d.namespace != ns then 0
    else if d.gvk == GVK("", "v1", "Secret") then
      CountOf(t.pullSecrets, s => s == d.name) + CountOf(t.volumes, (v: Volume) => v.secret == Some(d.name))
    else if d.gvk == GVK("", "v1", "ConfigMap") then CountOf(t.volumes, (v: Volume) => v.configMap == Some(d.name))
    else 0
  }

  lemma {:induction false} SecretsCounted(names: seq<string>, ns: string, d: ResourceDependency)
    ensures multiset(SecretsDeps(names, ns))[d] ==
            if d.gvk == SECRET && d.namespace == ns then CountOf(names, s => s == d.name) else 0
  {
    if names != [] {
      var n := |names| - 1;
      SecretsCounted(names[..n], ns, d);
      CountLast(names, s => s == d.name);
      assert SecretsDeps(names, ns) == SecretsDeps(names[..n], ns) + [ResourceDependency(SECRET, names[n], ns)];
    }
  }

  lemma {:induction false} VolumeCounted(v: Volume, ns: string, d: ResourceDependency)
    ensures multiset(VolumeDeps(v, ns))[d] ==
            if d.namespace != ns then 0
            else if d.gvk == SECRET then if v.secret == Some(d.name) then 1 else 0
            else if d.gvk == CONFIG_MAP then if v.configMap == Some(d.name) then 1 else 0
            else 0
  {
    assert SECRET.kind[0] != CONFIG_MAP.kind[0];
  }

  lemma {:induction false} VolumesCounted(vs: seq<Volume>, ns: string, d: ResourceDependency)
    ensures multiset(VolumesDeps(vs, ns))[d] ==
            if d.namespace != ns then 0
            else if d.gvk == SECRET then CountOf(vs, (v: Volume) => v.secret == Some(d.name))
            else if d.gvk == CONFIG_MAP then CountOf(vs, (v: Volume) => v.configMap == Some(d.name))
            else 0
  {
    if vs != [] {
      var n := |vs| - 1;
      VolumesCounted(vs[..n], ns, d);
      VolumeCounted(vs[n], ns, d);
      CountLast(vs, (v: Volume) => v.secret == Some(d.name));
      CountLast(vs, (v: Volume) => v.configMap == Some(d.name));
    }
  }

  lemma {:induction false} TemplateCounted(t: Template, ns: string, d: ResourceDependency)
    ensures multiset(TemplateDeps(t, ns))[d] == Uses(t, ns, d)
  {
    assert SECRET.kind[0] != CONFIG_MAP.kind[0];
    if t.Pod? {
      SecretsCounted(t.pullSecrets, ns, d);
      VolumesCounted(t.volumes, ns, d);
    }
  }

  /** An object has dependencies unless one of its two templates cannot be read, and each comes
      as often as these use it; nothing else comes. */
  lemma {:induction false} DependenciesExactly(o: Object)
    ensures Dependencies(o).Some? <==> !o.template.Malformed? && !o.jobTemplate.Malformed?
    ensures Dependencies(o).Some? ==>
              forall d :: multiset(Dependencies(o).value)[d] ==
                          Uses(o.template, o.namespace, d) + Uses(o.jobTemplate, o.namespace, d)
  {
    forall d
      ensures multiset(TemplateDeps(o.template, o.namespace))[d] == Uses(o.template, o.namespace, d)
      ensures multiset(TemplateDeps(o.jobTemplate, o.namespace))[d] == Uses(o.jobTemplate, o.namespace, d)
    {
      TemplateCounted(o.template, o.namespace, d);
      TemplateCounted(o.jobTemplate, o.namespace, d);
    }
  }

  // ----- the hash of one dependency, and of all -----

  ghost predicate IsCalled(o: Object, d: ResourceDependency) {
    o.gvk == d.gvk && o.name == d.name && o.namespace == d.namespace
  }

  /** A dependency stands for the first object of the task so called, or else for what the
      cluster has. */
  ghost predicate StandsFor(env: Env, objs: seq<Object>, d: ResourceDependency, found: Fetched) {
    || (exists n | 0 <= n < |objs| ::
          IsCalled(objs[n], d) && found == Found(objs[n]) && forall m | 0 <= m < n :: !IsCalled(objs[m], d))
    || ((forall o | o in objs :: !IsCalled(o, d)) && found == env.fetch(d))
  }

  /** What is not found, or opts out, has the empty hash. */
  ghost predicate HashIs(env: Env, found: Fetched, h: Hash) {
    match found
    case NotFound => h == NO_HASH
    case Failed => false
    case Found(o) => if o.skipsHash then h == NO_HASH else env.yaml(o).Some? && h == env.md5(env.yaml(o).value)
  }

  ghost predicate HashOfIs(env: Env, objs: seq<Object>, d: ResourceDependency, h: Hash) {
    exists found :: StandsFor(env, objs, d, found) && HashIs(env, found, h)
  }

  lemma {:induction false} ResourceExactly(env: Env, objs: seq<Object>, d: ResourceDependency, found: Fetched)
    ensures Resource(env, objs, d) == found <==> StandsFor(env, objs, d, found)
  {
    if objs != [] && !IsCalled(objs[0], d) {
      ResourceExactly(env, objs[1..], d, found);
      StandsForLater(env, objs, d, found);
    }
  }

  lemma {:induction false} StandsForLater(env: Env, objs: seq<Object>, d: ResourceDependency, found: Fetched)
    requires objs != [] && !IsCalled(objs[0], d)
    ensures StandsFor(env, objs[1..], d, found) <==> StandsFor(env, objs, d, found)
  {
    assert forall m | 1 <= m < |objs| :: objs[m] == objs[1..][m - 1];
    assert forall m | 0 <= m < |objs[1..]| :: objs[1..][m] == objs[m + 1];
  }

  lemma {:induction false} HashExactly(env: Env, objs: seq<Object>, d: ResourceDependency, h: Hash)
    ensures HashOf(env, objs, d) == Some(h) <==> HashOfIs(env, objs, d, h)
  {
    forall found ensures Resource(env, objs, d) == found <==> StandsFor(env, objs, d, found) {
      ResourceExactly(env, objs, d, found);
    }
    assert HashOf(env, objs, d) == Some(h) <==> HashIs(env, Resource(env, objs, d), h);
    assert StandsFor(env, objs, d, Resource(env, objs, d));
  }

  /** The hash over all dependencies digests the hashes of what they stand for, in the one order
      by group, kind, version, namespace and name. */
  ghost predicate Digests(env: Env, objs: seq<Object>, deps: seq<ResourceDependency>, hash: string) {
    exists s: seq<ResourceDependency>, hashes: seq<Hash> ::
      multiset(s) == multiset(deps) && Ascending(s) && HashesAre(env, objs, s, hashes) && hash == env.digest(hashes)
  }

  ghost predicate HashesAre(env: Env, objs: seq<Object>, s: seq<ResourceDependency>, hashes: seq<Hash>) {
    |hashes| == |s| && forall n | 0 <= n < |s| :: HashOfIs(env, objs, s[n], hashes[n])
  }

  ghost function Keys(d: ResourceDependency): seq<string> {
    [d.gvk.group, d.gvk.kind, d.gvk.version, d.namespace, d.name]
  }

  ghost predicate FirstBelow(p: seq<string>, q: seq<string>, k: nat)
    requires |p| == |q| && k < |p|
  {
    StringLess(p[k], q[k]) && forall m | 0 <= m < k :: p[m] == q[m]
  }

  /** At the first key that differs, `x` has the smaller one. */
  ghost predicate ComesFirst(x: ResourceDependency, y: ResourceDependency) {
    exists k: nat | k < 5 :: FirstBelow(Keys(x), Keys(y), k)
  }

  ghost predicate Ascending(s: seq<ResourceDependency>) {
    forall a, b | 0 <= a < b < |s| :: s[a] == s[b] || ComesFirst(s[a], s[b])
  }

  lemma {:induction false} LessExactly(x: ResourceDependency, y: ResourceDependency)
    ensures Less(x, y) <==> ComesFirst(x, y)
  {
    var p, q := Keys(x), Keys(y);
    forall k: nat | k < 5 ensures !StringLess(p[k], p[k]) { StringTotal(p[k], p[k]); }
    assert FirstBelow(p, q, 0) <==> StringLess(x.gvk.group, y.gvk.group);
    assert FirstBelow(p, q, 1) <==> p[0] == q[0] && StringLess(x.gvk.kind, y.gvk.kind);
    assert FirstBelow(p, q, 2) <==> p[0] == q[0] && p[1] == q[1] && StringLess(x.gvk.version, y.gvk.version);
    assert FirstBelow(p, q, 3) <==> p[..3] == q[..3] && StringLess(x.namespace, y.namespace);
    assert FirstBelow(p, q, 4) <==> p[..4] == q[..4] && StringLess(x.name, y.name);
    assert ComesFirst(x, y) ==> exists k | k in {0, 1, 2, 3, 4} :: FirstBelow(p, q, k);
  }

  lemma {:induction false} SortedAscends(s: seq<ResourceDependency>)
    requires Sorted(Less, s)
    ensures Ascending(s)
  {
    forall a, b | 0 <= a < b < |s| ensures s[a] == s[b] || ComesFirst(s[a], s[b]) {
      LessTotal(s[a], s[b]);
      LessExactly(s[a], s[b]);
    }
  }

  lemma {:induction false} HashDigests(env: Env, objs: seq<Object>, deps: seq<ResourceDependency>, hash: string)
    requires IsHashFor(env, objs, deps, hash)
    ensures Digests(env, objs, deps, hash)
  {
    var s :| Sorted(Less, s) && multiset(s) == multiset(deps) && AllHash(env, objs, s)
      && hash == env.digest(HashesOf(env, objs, s));
    SortedAscends(s);
    HashesExactly(env, objs, s);
  }

  lemma {:induction false} HashesExactly(env: Env, objs: seq<Object>, s: seq<ResourceDependency>)
    requires AllHash(env, objs, s)
    ensures HashesAre(env, objs, s, HashesOf(env, objs, s))
  {
    forall n | 0 <= n < |s| ensures HashOfIs(env, objs, s[n], HashesOf(env, objs, s)[n]) {
      HashExactly(env, objs, s[n], HashesOf(env, objs, s)[n]);
    }
  }

  /** What `AddDependenciesHashes` makes of an object: one that has dependencies bears the digest of
      their hashes at every place that takes it and is valid, and is otherwise as it was. */
  lemma {:induction false} HashedExactly(env: Env, objs: seq<Object>, i: nat, o: Object)
    requires i < |objs| && Hashable(env, objs, i) && HasItsHash(env, objs, i, o)
    ensures Dependencies(objs[i]).value == [] ==> o == objs[i]
    ensures Dependencies(objs[i]).value != [] ==>
              && o == objs[i].(hashes := o.hashes)
              && exists hash :: Digests(env, objs, Dependencies(objs[i]).value, hash) && Bears(objs[i], o, hash)
  {
    var deps := Dependencies(objs[i]).value;
    if deps != [] {
      var hash :| IsHashFor(env, objs, deps, hash) && o == Annotated(objs[i], TEMPLATE_ANNOTATION_PATHS, hash);
      HashDigests(env, objs, deps, hash);
      HashIsWritten(objs[i], hash);
    }
  }
}
