/** The dependency hash: each object with pod templates is annotated with a hash over the
    Secrets and ConfigMaps its pods use, computed through a cache. */
module DependencyHash {
  import opened Plans
  import opened Order

  datatype GVK = GVK(group: string, version: string, kind: string)

  const SECRET := GVK("", "v1", "Secret")
  const CONFIG_MAP := GVK("", "v1", "ConfigMap")

  datatype ResourceDependency = ResourceDependency(gvk: GVK, name: string, namespace: string)

  datatype Volume = Volume(configMap: Option<string>, secret: Option<string>)

  /** What is found where a pod template may be embedded in an object. */
  datatype Template = Absent | Malformed | Pod(pullSecrets: seq<string>, volumes: seq<Volume>)

  /** What comes of writing an annotation at a path: it is written; it is left out without an
      error, as the path is not valid for the object; or it fails, as the path leads through null. */
  datatype Site = Writable | Invalid | Unwritable

  /** `hashes` holds the dependency hash annotations, by the path they are written to; `sites`
      lists the paths that are not plainly writable. */
  datatype Object = Object(gvk: GVK, namespace: string, name: string, skipsHash: bool, body: string,
                           template: Template, jobTemplate: Template, sites: map<string, Site>,
                           hashes: map<string, string>)

  datatype Fetched = NotFound | Failed | Found(object: Object)

  type Hash = string

  const NO_HASH: Hash := ""

  /** The cluster, as it is read during one task, the serialiser, and the two uses of MD5. */
  datatype Env = Env(fetch: ResourceDependency -> Fetched, yaml: Object -> Option<string>,
                     md5: string -> Hash, digest: seq<Hash> -> string)

  // ----- the canonical order -----

  predicate Less(x: ResourceDependency, y: ResourceDependency) {
    if x.gvk.group != y.gvk.group then StringLess(x.gvk.group, y.gvk.group)
    else if x.gvk.kind != y.gvk.kind then StringLess(x.gvk.kind, y.gvk.kind)
    else if x.gvk.version != y.gvk.version then StringLess(x.gvk.version, y.gvk.version)
    else if x.namespace != y.namespace then StringLess(x.namespace, y.namespace)
    else StringLess(x.name, y.name)
  }

  lemma {:induction false} LessTransitive(x: ResourceDependency, y: ResourceDependency, z: ResourceDependency)
    requires Less(x, y) && Less(y, z)
    ensures Less(x, z)
  {
    Chain(x.gvk.group, y.gvk.group, z.gvk.group);
    Chain(x.gvk.kind, y.gvk.kind, z.gvk.kind);
    Chain(x.gvk.version, y.gvk.version, z.gvk.version);
    Chain(x.namespace, y.namespace, z.namespace);
    Chain(x.name, y.name, z.name);
  }

  lemma {:induction false} Chain(x: string, y: string, z: string)
    ensures StringLess(x, y) && StringLess(y, z) ==> StringLess(x, z) && x != z
  {
    if StringLess(x, y) && StringLess(y, z) {
      StringTransitive(x, y, z);
      StringTotal(x, z);
    }
  }

  lemma {:induction false} LessTotal(x: ResourceDependency, y: ResourceDependency)
    ensures x == y || Less(x, y) || Less(y, x)
    ensures !Less(x, x)
  {
    StringTotal(x.gvk.group, y.gvk.group);
    StringTotal(x.gvk.kind, y.gvk.kind);
    StringTotal(x.gvk.version, y.gvk.version);
    StringTotal(x.namespace, y.namespace);
    StringTotal(x.name, y.name);
    StringTotal(x.name, x.name);
  }

  /** `Less` orders dependencies strictly and totally, by all their fields. */
  lemma {:induction false} LessIsStrictTotalOrder()
    ensures StrictTotalOrder(Less)
  {
    forall x, y, z ensures Less(x, y) && Less(y, z) ==> Less(x, z) {
      if Less(x, y) && Less(y, z) { LessTransitive(x, y, z); }
    }
    forall x, y ensures !Less(x, x) && (x == y || Less(x, y) || Less(y, x)) { LessTotal(x, y); }
    forall x, y, z ensures Less(x, z) ==> Less(x, y) || Less(y, z) {
      LessTotal(x, y);
      if Less(x, z) && Less(y, x) { LessTransitive(y, x, z); }
    }
  }

  // ----- the dependencies of an object -----

  function VolumeDeps(v: Volume, ns: string): seq<ResourceDependency> {
    (if v.configMap.Some? then [ResourceDependency(CONFIG_MAP, v.configMap.value, ns)] else [])
    + (if v.secret.Some? then [ResourceDependency(SECRET, v.secret.value, ns)] else [])
  }

  function VolumesDeps(vs: seq<Volume>, ns: string): seq<ResourceDependency> {
    if vs == [] then [] else VolumesDeps(vs[..|vs| - 1], ns) + VolumeDeps(vs[|vs| - 1], ns)
  }

  function SecretsDeps(names: seq<string>, ns: string): seq<ResourceDependency> {
    seq(|names|, n requires 0 <= n < |names| => ResourceDependency(SECRET, names[n], ns))
  }

  function TemplateDeps(t: Template, ns: string): seq<ResourceDependency> {
    if t.Pod? then SecretsDeps(t.pullSecrets, ns) + VolumesDeps(t.volumes, ns) else []
  }

  /** All dependencies of an object, unless a template cannot be read. */
  function Dependencies(o: Object): Option<seq<ResourceDependency>> {
    if o.template.Malformed? || o.jobTemplate.Malformed? then None
    else Some(TemplateDeps(o.template, o.namespace) + TemplateDeps(o.jobTemplate, o.namespace))
  }

  method AddFromTemplate(t: Template, ns: string, deps: seq<ResourceDependency>)
    returns (ok: bool, r: seq<ResourceDependency>)
    ensures ok <==> !t.Malformed?
    ensures ok ==> r == deps + TemplateDeps(t, ns)
  {
    r := deps;
    match t {
      case Absent => return true, deps;
      case Malformed => return false, deps;
      case Pod(pullSecrets, volumes) =>
        for i := 0 to |pullSecrets|
          invariant r == deps + SecretsDeps(pullSecrets[..i], ns)
        {
          r := r + [ResourceDependency(SECRET, pullSecrets[i], ns)];
        }
        assert pullSecrets[..|pullSecrets|] == pullSecrets;
        for i := 0 to |volumes|
          invariant r == deps + SecretsDeps(pullSecrets, ns) + VolumesDeps(volumes[..i], ns)
        {
          var v := volumes[i];
          assert volumes[..i + 1][..i] == volumes[..i];
          if v.configMap.Some? { r := r + [ResourceDependency(CONFIG_MAP, v.configMap.value, ns)]; }
          if v.secret.Some? { r := r + [ResourceDependency(SECRET, v.secret.value, ns)]; }
        }
        assert volumes[..|volumes|] == volumes;
        return true, r;
    }
  }

  method CalculateResourceDependencies(o: Object) returns (ok: bool, deps: seq<ResourceDependency>)
    ensures ok <==> Dependencies(o).Some?
    ensures ok ==> deps == Dependencies(o).value
  {
    ok, deps := AddFromTemplate(o.template, o.namespace, []);
    if ok { ok, deps := AddFromTemplate(o.jobTemplate, o.namespace, deps); }
  }

  /** Only Secrets and ConfigMaps are ever dependencies. */
  predicate IsDependencyKind(gvk: GVK) {
    gvk == SECRET || gvk == CONFIG_MAP
  }

  lemma {:induction false} VolumesDepsKinds(vs: seq<Volume>, ns: string)
    ensures forall d | d in VolumesDeps(vs, ns) :: IsDependencyKind(d.gvk)
  {
    if vs != [] { VolumesDepsKinds(vs[..|vs| - 1], ns); }
  }

  lemma {:induction false} DependencyKinds(o: Object)
    requires Dependencies(o).Some?
    ensures forall d | d in Dependencies(o).value :: IsDependencyKind(d.gvk)
  {
    if o.template.Pod? { VolumesDepsKinds(o.template.volumes, o.namespace); }
    if o.jobTemplate.Pod? { VolumesDepsKinds(o.jobTemplate.volumes, o.namespace); }
  }

  // ----- where the hash is written -----

  datatype ResourcePath = ResourcePath(group: string, version: string, kind: string, path: string)

  predicate PathMatches(lp: ResourcePath, gvk: GVK) {
    && (lp.group == "" || lp.group == gvk.group)
    && (lp.version == "" || lp.version == gvk.version)
    && (lp.kind == "" || lp.kind == gvk.kind)
  }

  const TEMPLATE_PATH := "spec/template/metadata/annotations"
  const JOB_TEMPLATE_PATH := "spec/jobTemplate/spec/template/metadata/annotations"

  const TEMPLATE_ANNOTATION_PATHS := [
    ResourcePath("", "", "ReplicationController", TEMPLATE_PATH),
    ResourcePath("apps", "", "StatefulSet", TEMPLATE_PATH),
    ResourcePath("apps", "", "Deployment", TEMPLATE_PATH),
    ResourcePath("", "", "ReplicaSet", TEMPLATE_PATH),
    ResourcePath("", "", "DaemonSet", TEMPLATE_PATH),
    ResourcePath("batch", "", "Job", TEMPLATE_PATH),
    ResourcePath("batch", "", "CronJob", TEMPLATE_PATH),
    ResourcePath("batch", "", "CronJob", JOB_TEMPLATE_PATH)
  ]

  function SiteOf(o: Object, path: string): Site {
    if path in o.sites then o.sites[path] else Writable
  }

  /** Writing the annotation at this path fails. */
  predicate Fails(o: Object, lp: ResourcePath) {
    PathMatches(lp, o.gvk) && SiteOf(o, lp.path).Unwritable?
  }

  predicate NoneFails(o: Object, paths: seq<ResourcePath>) {
    forall k | 0 <= k < |paths| :: !Fails(o, paths[k])
  }

  /** Writing the hash does not fail. */
  predicate CanAnnotate(o: Object) {
    NoneFails(o, TEMPLATE_ANNOTATION_PATHS)
  }

  function WithHash(o: Object, lp: ResourcePath, hash: string): Object {
    if PathMatches(lp, o.gvk) && SiteOf(o, lp.path).Writable? then o.(hashes := o.hashes[lp.path := hash]) else o
  }

  /** The object with the annotation at the paths up to the first one that fails. */
  function Annotated(o: Object, paths: seq<ResourcePath>, hash: string): Object
    decreases |paths|
  {
    if paths == [] || Fails(o, paths[0]) then o else Annotated(WithHash(o, paths[0], hash), paths[1..], hash)
  }

  method SetTemplateHash(o: Object, hash: string) returns (ok: bool, r: Object)
    ensures r == Annotated(o, TEMPLATE_ANNOTATION_PATHS, hash)
    ensures ok <==> CanAnnotate(o)
  {
    ok, r := WriteAlong(o, TEMPLATE_ANNOTATION_PATHS, hash);
  }

  /** The loop over the paths, which ends with the first that fails. */
  method WriteAlong(o: Object, paths: seq<ResourcePath>, hash: string) returns (ok: bool, r: Object)
    ensures r == Annotated(o, paths, hash)
    ensures ok <==> NoneFails(o, paths)
  {
    r := o;
    assert paths[0..] == paths;
    for i := 0 to |paths|
      invariant r.gvk == o.gvk && r.sites == o.sites
      invariant NoneFails(o, paths[..i])
      invariant Annotated(r, paths[i..], hash) == Annotated(o, paths, hash)
    {
      assert paths[i..][1..] == paths[i + 1..] && paths[..i + 1] == paths[..i] + [paths[i]];
      if Fails(r, paths[i]) { return false, r; }
      r := WithHash(r, paths[i], hash);
    }
    assert paths[..|paths|] == paths;
    ok := true;
  }

  lemma {:induction false} AnnotatedKeeps(o: Object, paths: seq<ResourcePath>, hash: string)
    ensures Annotated(o, paths, hash) == o.(hashes := Annotated(o, paths, hash).hashes)
    ensures (forall lp | lp in paths :: !PathMatches(lp, o.gvk)) ==> Annotated(o, paths, hash) == o
    decreases |paths|
  {
    if paths != [] && !Fails(o, paths[0]) { AnnotatedKeeps(WithHash(o, paths[0], hash), paths[1..], hash); }
  }

  /** A Secret or ConfigMap never gets the annotation, so its own hash cannot change. */
  lemma {:induction false} AnnotationSparesDependencies(o: Object, hash: string)
    ensures IsDependencyKind(o.gvk) ==> Annotated(o, TEMPLATE_ANNOTATION_PATHS, hash) == o
    ensures Annotated(o, TEMPLATE_ANNOTATION_PATHS, hash)
        == o.(hashes := Annotated(o, TEMPLATE_ANNOTATION_PATHS, hash).hashes)
  {
    AnnotatedKeeps(o, TEMPLATE_ANNOTATION_PATHS, hash);
    NoPathForDependencies();
  }

  lemma {:induction false} NoPathForDependencies()
    ensures forall lp | lp in TEMPLATE_ANNOTATION_PATHS ::
        lp.kind != "" && lp.kind != "Secret" && lp.kind != "ConfigMap"
  {
    forall lp | lp in TEMPLATE_ANNOTATION_PATHS
      ensures |lp.kind| in {21, 11, 10, 9, 3, 7} && (|lp.kind| == 9 ==> lp.kind[0] == 'D') {
    }
  }

  // ----- the hash without a cache -----

  predicate Denotes(d: ResourceDependency, o: Object) {
    o.gvk == d.gvk && o.name == d.name && o.namespace == d.namespace
  }

  /** The dependency as the task deploys it, or else as the cluster has it. */
  function Resource(env: Env, objs: seq<Object>, d: ResourceDependency): Fetched {
    if objs == [] then env.fetch(d)
    else if Denotes(d, objs[0]) then Found(objs[0])
    else Resource(env, objs[1..], d)
  }

  function HashOf(env: Env, objs: seq<Object>, d: ResourceDependency): Option<Hash> {
    match Resource(env, objs, d)
    case NotFound => Some(NO_HASH)
    case Failed => None
    case Found(o) =>
      if o.skipsHash then Some(NO_HASH) else
      match env.yaml(o) case None => None case Some(text) => Some(env.md5(text))
  }

  ghost predicate AllHash(env: Env, objs: seq<Object>, deps: seq<ResourceDependency>) {
    forall d | d in deps :: HashOf(env, objs, d).Some?
  }

  ghost function HashesOf(env: Env, objs: seq<Object>, deps: seq<ResourceDependency>): seq<Hash>
    requires AllHash(env, objs, deps)
  {
    seq(|deps|, n requires 0 <= n < |deps| => assert deps[n] in deps; HashOf(env, objs, deps[n]).value)
  }

  /** `hash` digests the hashes of the dependencies, taken in sorted order, without any cache. */
  ghost predicate IsHashFor(env: Env, objs: seq<Object>, deps: seq<ResourceDependency>, hash: string) {
    exists s :: Sorted(Less, s) && multiset(s) == multiset(deps) && AllHash(env, objs, s)
      && hash == env.digest(HashesOf(env, objs, s))
  }

  /** There is only one such hash, whatever the order in which the dependencies come. */
  lemma {:induction false} HashIgnoresOrder(env: Env, objs: seq<Object>, deps: seq<ResourceDependency>,
                                            deps': seq<ResourceDependency>, h: string, h': string)
    requires multiset(deps) == multiset(deps') && IsHashFor(env, objs, deps, h) && IsHashFor(env, objs, deps', h')
    ensures h == h'
  {
    var s :| Sorted(Less, s) && multiset(s) == multiset(deps) && AllHash(env, objs, s)
      && h == env.digest(HashesOf(env, objs, s));
    var s' :| Sorted(Less, s') && multiset(s') == multiset(deps') && AllHash(env, objs, s')
      && h' == env.digest(HashesOf(env, objs, s'));
    LessIsStrictTotalOrder();
    SortedIsUnique(Less, s, s');
  }

  /** The last element of `a` can be taken out of any permutation of `a`. */
  lemma {:induction false} TakeOut<T>(a: seq<T>, b: seq<T>) returns (j: nat)
    requires a != [] && multiset(a) == multiset(b)
    ensures j < |b| && b[j] == a[|a| - 1] && b == b[..j] + [b[j]] + b[j + 1..]
    ensures multiset(a[..|a| - 1]) == multiset(b[..j] + b[j + 1..])
  {
    var x := a[|a| - 1];
    assert x in multiset(b);
    j :| 0 <= j < |b| && b[j] == x;
    assert a == a[..|a| - 1] + [x] && b == b[..j] + [x] + b[j + 1..];
    assert multiset(a) == multiset(a[..|a| - 1]) + multiset{x};
    assert multiset(b) == multiset(b[..j]) + multiset{x} + multiset(b[j + 1..]);
    assert multiset(b[..j] + b[j + 1..]) == multiset(b) - multiset{x};
  }

  lemma {:induction false} SecretsPermute(a: seq<string>, b: seq<string>, ns: string)
    requires multiset(a) == multiset(b)
    ensures multiset(SecretsDeps(a, ns)) == multiset(SecretsDeps(b, ns))
    decreases |a|
  {
    if a == [] {
      assert |multiset(b)| == 0;
    } else {
      var x := a[|a| - 1];
      var j := TakeOut(a, b);
      var b' := b[..j] + b[j + 1..];
      SecretsPermute(a[..|a| - 1], b', ns);
      var d := ResourceDependency(SECRET, x, ns);
      assert SecretsDeps(a, ns) == SecretsDeps(a[..|a| - 1], ns) + [d];
      assert SecretsDeps(b, ns) == SecretsDeps(b[..j], ns) + [d] + SecretsDeps(b[j + 1..], ns);
      assert SecretsDeps(b', ns) == SecretsDeps(b[..j], ns) + SecretsDeps(b[j + 1..], ns);
    }
  }

  lemma {:induction false} VolumesConcat(a: seq<Volume>, b: seq<Volume>, ns: string)
    ensures VolumesDeps(a + b, ns) == VolumesDeps(a, ns) + VolumesDeps(b, ns)
  {
    if b == [] {
      assert a + b == a;
    } else {
      assert (a + b)[..|a + b| - 1] == a + b[..|b| - 1];
      VolumesConcat(a, b[..|b| - 1], ns);
    }
  }

  lemma {:induction false} VolumesPermute(a: seq<Volume>, b: seq<Volume>, ns: string)
    requires multiset(a) == multiset(b)
    ensures multiset(VolumesDeps(a, ns)) == multiset(VolumesDeps(b, ns))
    decreases |a|
  {
    if a == [] {
      assert |multiset(b)| == 0;
    } else {
      var x := a[|a| - 1];
      var j := TakeOut(a, b);
      var b' := b[..j] + b[j + 1..];
      assert b == b[..j] + ([x] + b[j + 1..]);
      VolumesPermute(a[..|a| - 1], b', ns);
      VolumesConcat(b[..j], b[j + 1..], ns);
      VolumesConcat(b[..j], [x] + b[j + 1..], ns);
      VolumesConcat([x], b[j + 1..], ns);
      assert [x][..0] == [];
    }
  }

  /** The same template but for the order of its pull secrets and volumes. */
  ghost predicate SamePods(t: Template, t': Template) {
    if t.Pod? && t'.Pod?
    then multiset(t.pullSecrets) == multiset(t'.pullSecrets) && multiset(t.volumes) == multiset(t'.volumes)
    else t == t'
  }

  lemma {:induction false} PodOrderIsIrrelevant(o: Object, o': Object)
    requires o.namespace == o'.namespace && SamePods(o.template, o'.template) && SamePods(o.jobTemplate, o'.jobTemplate)
    requires Dependencies(o).Some? && Dependencies(o').Some?
    ensures multiset(Dependencies(o).value) == multiset(Dependencies(o').value)
  {
    TemplatesPermute(o.template, o'.template, o.namespace);
    TemplatesPermute(o.jobTemplate, o'.jobTemplate, o.namespace);
  }

  lemma {:induction false} TemplatesPermute(t: Template, t': Template, ns: string)
    requires SamePods(t, t')
    ensures multiset(TemplateDeps(t, ns)) == multiset(TemplateDeps(t', ns))
  {
    if t.Pod? && t'.Pod? {
      SecretsPermute(t.pullSecrets, t'.pullSecrets, ns);
      VolumesPermute(t.volumes, t'.volumes, ns);
    }
  }

  // ----- the calculator with its cache -----

  /** Objects that may have been annotated since, and are otherwise the same. */
  ghost predicate OnlyAnnotated(before: seq<Object>, after: seq<Object>) {
    && |before| == |after|
    && (forall i | 0 <= i < |before| ::
          && after[i] == before[i].(hashes := after[i].hashes)
          && (IsDependencyKind(before[i].gvk) ==> after[i] == before[i]))
  }

  lemma {:induction false} AnnotationKeepsHashes(env: Env, before: seq<Object>, after: seq<Object>,
                                                 d: ResourceDependency)
    requires OnlyAnnotated(before, after) && IsDependencyKind(d.gvk)
    ensures Resource(env, before, d) == Resource(env, after, d) && HashOf(env, before, d) == HashOf(env, after, d)
  {
    if before != [] {
      assert OnlyAnnotated(before[1..], after[1..]);
      AnnotationKeepsHashes(env, before[1..], after[1..], d);
    }
  }

  class Calculator {
    const env: Env
    var objects: seq<Object>
    var cache: map<ResourceDependency, Hash>

    constructor (env: Env, objects: seq<Object>)
      ensures this.env == env && this.objects == objects && Valid()
    {
      this.env, this.objects, this.cache := env, objects, map[];
    }

    /** The cache holds only dependencies, each with the hash it would get without a cache. */
    ghost predicate Valid()
      reads this
    {
      forall d | d in cache :: IsDependencyKind(d.gvk) && HashOf(env, objects, d) == Some(cache[d])
    }

    method ResourceOf(d: ResourceDependency) returns (r: Fetched)
      ensures r == Resource(env, objects, d)
    {
      assert objects[0..] == objects;
      for i := 0 to |objects|
        invariant Resource(env, objects[i..], d) == Resource(env, objects, d)
      {
        if Denotes(d, objects[i]) { return Found(objects[i]); }
      }
      return env.fetch(d);
    }

    method GetHashForDependency(d: ResourceDependency) returns (r: Option<Hash>)
      requires Valid() && IsDependencyKind(d.gvk)
      modifies this`cache
      ensures Valid() && r == HashOf(env, objects, d)
    {
      if d in cache { return Some(cache[d]); }
      var dep := ResourceOf(d);
      match dep {
        case Failed => return None;
        case NotFound => r := Some(NO_HASH);
        case Found(o) =>
          if o.skipsHash {
            r := Some(NO_HASH);
          } else {
            var text := env.yaml(o);
            if text.None? { return None; }
            r := Some(env.md5(text.value));
          }
      }
      cache := cache[d := r.value];
    }

    /** The hashes of the dependencies in sorted order, none of them if one cannot be computed. */
    method SortedHashes(deps: seq<ResourceDependency>)
      returns (hashes: Option<seq<Hash>>, ghost sorted: seq<ResourceDependency>)
      requires Valid() && forall d | d in deps :: IsDependencyKind(d.gvk)
      modifies this`cache
      ensures Valid() && Sorted(Less, sorted) && multiset(sorted) == multiset(deps)
      ensures hashes.Some? <==> AllHash(env, objects, sorted)
      ensures hashes.Some? ==> hashes.value == HashesOf(env, objects, sorted)
    {
      LessIsStrictTotalOrder();
      var todo := Sort(Less, deps);
      sorted := todo;
      SameElements(sorted, deps);
      var found: seq<Hash> := [];
      for k := 0 to |todo|
        invariant Valid() && |found| == k
        invariant forall n | 0 <= n < k :: HashOf(env, objects, sorted[n]) == Some(found[n])
      {
        var h := GetHashForDependency(todo[k]);
        if h.None? {
          hashes := None;
          return;
        }
        found := found + [h.value];
      }
      assert AllHash(env, objects, sorted);
      assert found == HashesOf(env, objects, sorted);
      hashes := Some(found);
    }

    /** `calculateAndSetHash` for object `i` with the dependencies `deps`. */
    method CalculateAndSetHash(i: nat, deps: seq<ResourceDependency>) returns (ok: bool, ghost hash: string)
      requires Valid() && i < |objects| && forall d | d in deps :: IsDependencyKind(d.gvk)
      modifies this
      ensures Valid() && OnlyAnnotated(old(objects), objects)
      ensures ok <==> AllHash(env, old(objects), deps) && CanAnnotate(old(objects)[i])
      ensures AllHash(env, old(objects), deps) ==> IsHashFor(env, old(objects), deps, hash)
      ensures objects == if AllHash(env, old(objects), deps)
                         then old(objects)[i := Annotated(old(objects)[i], TEMPLATE_ANNOTATION_PATHS, hash)]
                           else old(objects)
    {
      var hashes, sorted := SortedHashes(deps);
      SameElements(sorted, deps);
      ok, hash := hashes.Some?, "";
      if ok {
        var text := env.digest(hashes.value);
        hash := text;
        var o;
        ok, o := SetTemplateHash(objects[i], text);
        AnnotationSparesDependencies(objects[i], text);
        objects := objects[i := o];
        forall d | d in cache ensures HashOf(env, objects, d) == Some(cache[d]) {
          AnnotationKeepsHashes(env, old(objects), objects, d);
        }
      }
    }

    /** The body of the loop over the objects, for object `i`; `start` are the objects at the beginning. */
    method AddHash(i: nat, ghost start: seq<Object>) returns (ok: bool)
      requires Valid() && OnlyAnnotated(start, objects) && i < |objects| && objects[i] == start[i]
      modifies this
      ensures Valid() && OnlyAnnotated(start, objects)
      ensures forall j | 0 <= j < |objects| && j != i :: objects[j] == old(objects)[j]
      ensures ok <==> Hashable(env, start, i)
      ensures ok ==> HasItsHash(env, start, i, objects[i])
    {
      var deps;
      ok, deps := CalculateResourceDependencies(objects[i]);
      if ok && deps != [] {
        DependencyKinds(objects[i]);
        AllHashKept(env, start, objects, deps);
        ghost var before := objects;
        ghost var hash;
        ok, hash := CalculateAndSetHash(i, deps);
        if ok { HashKept(env, start, before, deps, hash); }
        AnnotatedTwice(start, before, objects);
      }
    }

    /** `addDependenciesHashes`, going through the objects in any order. Every object ends up with
        the hash that a calculator without a cache finds on the objects as they were. */
    method AddDependenciesHashes(order: seq<nat>) returns (ok: bool)
      requires Valid() && IsPermutation(order, |objects|)
      modifies this
      ensures Valid() && OnlyAnnotated(old(objects), objects)
      ensures ok <==> forall i: nat | i < |objects| :: Hashable(env, old(objects), i)
      ensures ok ==> forall i: nat | i < |objects| :: HasItsHash(env, old(objects), i, objects[i])
    {
      ghost var start := objects;
      for n := 0 to |order|
        invariant Valid() && OnlyAnnotated(start, objects) && |objects| == |start|
        invariant forall m | 0 <= m < n ::
            Hashable(env, start, order[m]) && HasItsHash(env, start, order[m], objects[order[m]])
        invariant forall m | n <= m < |order| :: objects[order[m]] == start[order[m]]
      {
        ok := AddHash(order[n], start);
        if !ok { return; }
      }
      ok := true;
      forall i: nat | i < |objects| ensures Hashable(env, start, i) && HasItsHash(env, start, i, objects[i]) {
        assert i in order;
        var m: nat :| m < |order| && order[m] == i;
      }
    }
  }

  lemma {:induction false} AnnotatedTwice(a: seq<Object>, b: seq<Object>, c: seq<Object>)
    requires OnlyAnnotated(a, b) && OnlyAnnotated(b, c)
    ensures OnlyAnnotated(a, c)
  {
  }

  ghost predicate IsPermutation(order: seq<nat>, n: nat) {
    && (forall a, b | 0 <= a < b < |order| :: order[a] != order[b])
    && (forall a | 0 <= a < |order| :: order[a] < n)
    && (forall i: nat | i < n :: i in order)
  }

  /** The dependencies of object `i` can be read and hashed, and the hash can be written. */
  ghost predicate Hashable(env: Env, objs: seq<Object>, i: nat)
    requires i < |objs|
  {
    && Dependencies(objs[i]).Some? && AllHash(env, objs, Dependencies(objs[i]).value)
    && (Dependencies(objs[i]).value != [] ==> CanAnnotate(objs[i]))
  }

  /** `o` is object `i` with the hash over its dependencies, if it has any. */
  ghost predicate HasItsHash(env: Env, objs: seq<Object>, i: nat, o: Object)
    requires i < |objs|
  {
    && Dependencies(objs[i]).Some?
    && (var deps := Dependencies(objs[i]).value;
        if deps == [] then o == objs[i]
        else exists hash ::
            IsHashFor(env, objs, deps, hash) && o == Annotated(objs[i], TEMPLATE_ANNOTATION_PATHS, hash))
  }

  lemma {:induction false} AllHashKept(env: Env, before: seq<Object>, after: seq<Object>, deps: seq<ResourceDependency>)
    requires OnlyAnnotated(before, after) && forall d | d in deps :: IsDependencyKind(d.gvk)
    ensures AllHash(env, before, deps) <==> AllHash(env, after, deps)
  {
    forall d | d in deps ensures HashOf(env, before, d) == HashOf(env, after, d) {
      AnnotationKeepsHashes(env, before, after, d);
    }
  }

  lemma {:induction false} HashKept(env: Env, before: seq<Object>, after: seq<Object>, deps: seq<ResourceDependency>,
                                    hash: string)
    requires OnlyAnnotated(before, after) && forall d | d in deps :: IsDependencyKind(d.gvk)
    requires IsHashFor(env, after, deps, hash)
    ensures IsHashFor(env, before, deps, hash)
  {
    var s :| Sorted(Less, s) && multiset(s) == multiset(deps) && AllHash(env, after, s)
      && hash == env.digest(HashesOf(env, after, s));
    SameElements(s, deps);
    AllHashKept(env, before, after, s);
    forall n | 0 <= n < |s| ensures HashOf(env, before, s[n]) == HashOf(env, after, s[n]) {
      AnnotationKeepsHashes(env, before, after, s[n]);
    }
    assert HashesOf(env, before, s) == HashesOf(env, after, s);
  }

  lemma {:induction false} SameElements<T>(a: seq<T>, b: seq<T>)
    requires multiset(a) == multiset(b)
    ensures forall x :: x in a <==> x in b
  {
    assert forall x :: x in a <==> x in multiset(a);
    assert forall x :: x in b <==> x in multiset(b);
  }
}
