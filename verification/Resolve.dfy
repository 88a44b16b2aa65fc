/** Dependency resolution: the recursive walk over KudoOperator tasks that grows a dependency
    list and a graph together, rewrites the tasks it follows and rejects cycles. */
module Resolve {
  import opened Plans
  import opened Graph

  const KUDO_OPERATOR := "KudoOperator"

  function OperatorVersionName(operatorName: string, appVersion: string, opVersion: string): string {
    if appVersion == "" then operatorName + "-" + opVersion else operatorName + "-" + appVersion + "-" + opVersion
  }

  /** A name tells apart whatever differs in one of its parts only. */
  lemma {:induction false} NamesTellApart(n: string, a: string, v: string, n': string, a': string, v': string)
    requires (n == n' && a == a') || (n == n' && v == v') || (a == a' && v == v')
    ensures OperatorVersionName(n, a, v) == OperatorVersionName(n', a', v') <==> n == n' && a == a' && v == v'
  {
    var x, y := OperatorVersionName(n, a, v), OperatorVersionName(n', a', v');
    assert |x| == |n| + 1 + |v| + if a == "" then 0 else |a| + 1;
    assert |y| == |n'| + 1 + |v'| + if a' == "" then 0 else |a'| + 1;
    assert x[..|n|] == n && y[..|n'|] == n';
    assert x[|x| - |v|..] == v && y[|y| - |v'|..] == v';
    assert a != "" ==> x[|n| + 1..|x| - |v| - 1] == a;
    assert a' != "" ==> y[|n'| + 1..|y| - |v'| - 1] == a';
  }

  /** But not whatever differs in more: a dash in a version reads like one between two. */
  lemma {:induction false} NamesCanCoincide()
    ensures OperatorVersionName("kafka", "", "1-2") == OperatorVersionName("kafka", "1", "2")
  {
    assert "kafka" + "-" + "1-2" == "kafka" + "-" + "1" + "-" + "2";
  }

  ghost predicate Namesakes(n: string, a: string, v: string, a': string, v': string) {
    (a' != a || v' != v) && OperatorVersionName(n, a', v') == OperatorVersionName(n, a, v)
  }

  /** Other versions of an operator can have the same name exactly if there is an app version, or
      a dash after the first character of the operator version. */
  lemma {:induction false} NamesakesExactly(n: string, a: string, v: string)
    ensures (exists a', v' :: Namesakes(n, a, v, a', v')) <==> a != "" || exists k | 0 < k < |v| :: v[k] == '-'
  {
    if a != "" {
      assert n + "-" + (a + "-" + v) == n + "-" + a + "-" + v;
      assert |a + "-" + v| > |v|;
      assert Namesakes(n, a, v, "", a + "-" + v);
    } else if k :| 0 < k < |v| && v[k] == '-' {
      assert v == v[..k] + "-" + v[k + 1..];
      assert n + "-" + v[..k] + "-" + v[k + 1..] == n + "-" + v;
      assert Namesakes(n, a, v, v[..k], v[k + 1..]);
    }
    forall a', v' | a == "" && Namesakes(n, a, v, a', v') ensures exists k | 0 < k < |v| :: v[k] == '-' {
      NamesTellApart(n, "", v, n, "", v');
      var x := n + "-" + a' + "-" + v';
      assert x == n + "-" + v && x[|n| + 1..] == v && x[|n| + 1..] == a' + "-" + v';
      assert v[|a'|] == '-';
    }
  }

  function FullyQualifiedName(ov: OperatorVersion): string {
    OperatorVersionName(ov.operatorName, ov.appVersion, ov.version)
  }

  /** The OperatorVersion that a KudoOperator task looks up when it runs. */
  function RunTimeReference(t: Task): string {
    OperatorVersionName(t.package, t.appVersion, t.operatorVersion)
  }

  /** A resolved package: the name of its Operator and its OperatorVersion. */
  datatype Package = Package(operatorName: string, ov: OperatorVersion)

  /** Which resolver to ask: a package brings the resolver for its own dependencies along. */
  type Scope = nat

  type Lookup = (Scope, string, string, string) -> Option<(Package, Scope)>

  datatype ResolveError = Unresolvable | Cyclic

  function Answer(look: Lookup, scope: Scope, t: Task): Option<(Package, Scope)> {
    look(scope, t.package, t.appVersion, t.operatorVersion)
  }

  /** The position of the first entry with the fully qualified name, or the length of the list. */
  function IndexOf(deps: seq<Package>, name: string): (i: nat)
    ensures i <= |deps|
    ensures i < |deps| ==> FullyQualifiedName(deps[i].ov) == name
    ensures forall k | 0 <= k < i :: FullyQualifiedName(deps[k].ov) != name
  {
    if deps == [] || FullyQualifiedName(deps[0].ov) == name then 0 else 1 + IndexOf(deps[1..], name)
  }

  function RewrittenBy(t: Task, p: Package): Task {
    t.(package := p.operatorName, operatorVersion := p.ov.version, appVersion := p.ov.appVersion)
  }

  /** Overwrites the first task with the given name. */
  function Rewrite(tasks: seq<Task>, name: string, p: Package): seq<Task> {
    var q := TaskIndex(tasks, name);
    if q < |tasks| then tasks[q := RewrittenBy(tasks[q], p)] else tasks
  }

  function WithTasks(p: Package, tasks: seq<Task>): Package {
    p.(ov := p.ov.(tasks := tasks))
  }

  // ----- one entry of the list -----

  /** A listed package: as it is now, as it was resolved, the scope of its dependencies, and how
      many of its tasks the walk has dealt with. */
  datatype Entry = Entry(now: Package, was: Package, scope: Scope, done: nat) {
    function Tasks(): seq<Task> { was.ov.tasks }
  }

  ghost predicate IsKudo(e: Entry, k: nat) {
    k < |e.Tasks()| && e.Tasks()[k].kind == KUDO_OPERATOR
  }

  /** Looked up in the given scope, the task leads to the package called `name`. */
  ghost predicate LeadsTo(look: Lookup, scope: Scope, t: Task, name: string) {
    var found := look(scope, t.package, t.appVersion, t.operatorVersion);
    found.Some? && FullyQualifiedName(found.value.0.ov) == name
  }

  /** Task `k` of the entry refers to the package called `name`. */
  ghost predicate Refers(look: Lookup, e: Entry, k: nat, name: string) {
    IsKudo(e, k) && LeadsTo(look, e.scope, e.Tasks()[k], name)
  }

  ghost predicate Followed(look: Lookup, names: seq<string>, e: Entry, out: set<nat>, k: nat) {
    exists u | u in out :: u < |names| && Refers(look, e, k, names[u])
  }

  ghost predicate Justified(look: Lookup, names: seq<string>, e: Entry, u: nat) {
    u < |names| && exists k: nat :: k < e.done && Refers(look, e, k, names[u])
  }

  /** The edges of an entry are exactly the references of the tasks dealt with. */
  ghost predicate EdgesOk(look: Lookup, names: seq<string>, e: Entry, out: set<nat>) {
    && (forall k: nat | k < e.done && IsKudo(e, k) :: Followed(look, names, e, out, k))
    && (forall u | u in out :: Justified(look, names, e, u))
  }

  predicate IsFirst(tasks: seq<Task>, q: nat)
    requires q < |tasks|
  {
    TaskIndex(tasks, tasks[q].name) == q
  }

  /** Task `k`, dealt with, has the name of task `q`. */
  ghost predicate Namesake(e: Entry, q: nat, k: nat)
    requires q < |e.Tasks()|
  {
    k < e.done && IsKudo(e, k) && e.Tasks()[k].name == e.Tasks()[q].name
  }

  /** Task `q` now reads as task `k` of the same name was resolved. */
  ghost predicate RewrittenFrom(look: Lookup, e: Entry, q: nat, k: nat)
    requires q < |e.Tasks()| && q < |e.now.ov.tasks|
  {
    && Namesake(e, q, k) && Answer(look, e.scope, e.Tasks()[k]).Some?
    && e.now.ov.tasks[q] == RewrittenBy(e.Tasks()[q], Answer(look, e.scope, e.Tasks()[k]).value.0)
  }

  ghost predicate TaskOk(look: Lookup, e: Entry, q: nat)
    requires q < |e.Tasks()| && q < |e.now.ov.tasks|
  {
    || (IsFirst(e.Tasks(), q) && exists k: nat :: RewrittenFrom(look, e, q, k))
    || (e.now.ov.tasks[q] == e.Tasks()[q] && (IsFirst(e.Tasks(), q) ==> forall k: nat :: !Namesake(e, q, k)))
  }

  /** Nothing but tasks of an entry is rewritten, and those as the walk has resolved them. */
  ghost predicate EntryOk(look: Lookup, e: Entry) {
    && e.done <= |e.Tasks()| && e.now == WithTasks(e.was, e.now.ov.tasks) && |e.now.ov.tasks| == |e.Tasks()|
    && (forall q: nat | q < |e.Tasks()| :: TaskOk(look, e, q))
  }

  // ----- dealing with one task of an entry -----

  function Skipped(e: Entry): Entry { e.(done := e.done + 1) }

  function Linked(e: Entry, p: Package): Entry
    requires e.done < |e.Tasks()|
  {
    e.(done := e.done + 1, now := WithTasks(e.now, Rewrite(e.now.ov.tasks, e.Tasks()[e.done].name, p)))
  }

  lemma {:induction false} SkippedEntry(look: Lookup, e: Entry)
    requires EntryOk(look, e) && e.done < |e.Tasks()| && !IsKudo(e, e.done)
    ensures EntryOk(look, Skipped(e))
  {
    var e' := Skipped(e);
    forall q: nat | q < |e.Tasks()| ensures TaskOk(look, e', q) {
      assert TaskOk(look, e, q);
      if k: nat :| RewrittenFrom(look, e, q, k) {
        assert RewrittenFrom(look, e', q, k);
      } else {
        assert forall k: nat :: Namesake(e', q, k) ==> Namesake(e, q, k);
      }
    }
  }

  lemma {:induction false} SameNamesSameIndex(a: seq<Task>, b: seq<Task>, name: string)
    requires |a| == |b| && forall q: nat | q < |a| :: a[q].name == b[q].name
    ensures TaskIndex(a, name) == TaskIndex(b, name)
  {
    var i, j := TaskIndex(a, name), TaskIndex(b, name);
    assert i <= j && j <= i;
  }

  lemma {:induction false} LinkedEntry(look: Lookup, e: Entry, p: Package, scope: Scope)
    requires EntryOk(look, e) && IsKudo(e, e.done) && Answer(look, e.scope, e.Tasks()[e.done]) == Some((p, scope))
    ensures EntryOk(look, Linked(e, p))
  {
    var e', n := Linked(e, p), e.done;
    forall q: nat | q < |e.Tasks()| ensures e.now.ov.tasks[q].name == e.Tasks()[q].name { assert TaskOk(look, e, q); }
    SameNamesSameIndex(e.Tasks(), e.now.ov.tasks, e.Tasks()[n].name);
    forall q: nat | q < |e.Tasks()| ensures TaskOk(look, e', q) {
      LinkedTask(look, e, p, scope, q);
    }
  }

  lemma {:induction false} LinkedTask(look: Lookup, e: Entry, p: Package, scope: Scope, q: nat)
    requires EntryOk(look, e) && IsKudo(e, e.done) && Answer(look, e.scope, e.Tasks()[e.done]) == Some((p, scope))
        && q < |e.Tasks()|
    requires TaskIndex(e.Tasks(), e.Tasks()[e.done].name) == TaskIndex(e.now.ov.tasks, e.Tasks()[e.done].name)
    ensures TaskOk(look, Linked(e, p), q)
  {
    var e', n := Linked(e, p), e.done;
    assert TaskOk(look, e, q);
    if e.Tasks()[q].name == e.Tasks()[n].name && IsFirst(e.Tasks(), q) {
      assert RewrittenFrom(look, e', q, n);
    } else if k: nat :| RewrittenFrom(look, e, q, k) {
      assert RewrittenFrom(look, e', q, k);
    } else {
      assert forall k: nat :: Namesake(e', q, k) ==> Namesake(e, q, k) || k == n;
    }
  }

  lemma {:induction false} EdgesGrow(look: Lookup, names: seq<string>, more: seq<string>, e: Entry, out: set<nat>)
    requires EdgesOk(look, names, e, out) && names <= more
    ensures EdgesOk(look, more, e, out)
  {
    forall k: nat | k < e.done && IsKudo(e, k) ensures Followed(look, more, e, out, k) {
      assert Followed(look, names, e, out, k);
    }
    forall u | u in out ensures Justified(look, more, e, u) {
      assert Justified(look, names, e, u);
    }
  }

  lemma {:induction false} SkippedEdges(look: Lookup, names: seq<string>, e: Entry, out: set<nat>)
    requires EdgesOk(look, names, e, out) && !IsKudo(e, e.done)
    ensures EdgesOk(look, names, Skipped(e), out)
  {
    var e' := Skipped(e);
    SameReferences(look, e, e');
    forall k: nat | k < e'.done && IsKudo(e', k) ensures Followed(look, names, e', out, k) {
      assert Followed(look, names, e, out, k);
    }
    forall u | u in out ensures Justified(look, names, e', u) {
      assert Justified(look, names, e, u);
    }
  }

  lemma {:induction false} LinkedEdges(look: Lookup, names: seq<string>, e: Entry, out: set<nat>, p: Package, u: nat)
    requires EdgesOk(look, names, e, out) && u < |names| && Refers(look, e, e.done, names[u])
    ensures EdgesOk(look, names, Linked(e, p), out + {u})
  {
    var e', out' := Linked(e, p), out + {u};
    SameReferences(look, e, e');
    assert u in out' && Refers(look, e', e.done, names[u]);
    forall k: nat | k < e.done && IsKudo(e', k) ensures Followed(look, names, e', out', k) {
      assert Followed(look, names, e, out, k);
      var x :| x in out && x < |names| && Refers(look, e, k, names[x]);
      assert x in out' && Refers(look, e', k, names[x]);
    }
    forall x | x in out ensures Justified(look, names, e', x) {
      assert Justified(look, names, e, x);
      var k: nat :| k < e.done && Refers(look, e, k, names[x]);
      assert Refers(look, e', k, names[x]);
    }
  }

  lemma {:induction false} SameReferences(look: Lookup, e: Entry, e': Entry)
    requires e'.was == e.was && e'.scope == e.scope
    ensures forall k: nat, name :: Refers(look, e', k, name) == Refers(look, e, k, name)
  {
  }

  // ----- the list and the graph together -----

  /** `names[v]` is the fully qualified name of entry `v`. */
  datatype Web = Web(entries: seq<Entry>, edges: seq<set<nat>>, names: seq<string>)

  ghost predicate Distinct(names: seq<string>) {
    forall a, b | 0 <= a < b < |names| :: names[a] != names[b]
  }

  ghost predicate Sound(look: Lookup, w: Web) {
    && |w.entries| == |w.edges| == |w.names| && |w.entries| > 0 && WellFormed(w.edges) && Distinct(w.names)
    && (forall v: nat | v < |w.entries| :: VertexOk(look, w, v))
  }

  ghost predicate VertexOk(look: Lookup, w: Web, v: nat)
    requires v < |w.entries| == |w.edges| == |w.names|
  {
    && FullyQualifiedName(w.entries[v].was.ov) == w.names[v]
    && EntryOk(look, w.entries[v]) && EdgesOk(look, w.names, w.entries[v], w.edges[v]) && Reachable(w.edges, 0, v)
    && (v > 0 ==> HandedOut(look, w.entries[v]))
  }

  /** A resolver has handed the package out, and with it the scope of its dependencies. */
  ghost predicate HandedOut(look: Lookup, e: Entry) {
    exists s, a, b, c :: look(s, a, b, c) == Some((e.was, e.scope))
  }

  /** `w'` goes on from `w`: only entry `v` is changed, and entries may be added. */
  ghost predicate GoesOn(w: Web, w': Web, v: nat) {
    && |w.entries| == |w.edges| == |w.names| && |w'.entries| == |w'.edges| == |w'.names|
    && w.names <= w'.names && Extends(w.edges, w'.edges)
    && (forall u | 0 <= u < |w.entries| && u != v :: w'.entries[u] == w.entries[u] && w'.edges[u] == w.edges[u])
    && (v < |w.entries| ==> w'.entries[v].was == w.entries[v].was && w'.entries[v].scope == w.entries[v].scope)
  }

  lemma {:induction false} OtherVertices(look: Lookup, w: Web, w': Web, v: nat, u: nat)
    requires Sound(look, w) && GoesOn(w, w', v) && u < |w.entries| && u != v
    ensures VertexOk(look, w', u)
  {
    assert VertexOk(look, w, u);
    EdgesGrow(look, w.names, w'.names, w.entries[u], w.edges[u]);
    ReachableExtends(w.edges, w'.edges, 0, u);
  }

  function SkipTask(w: Web, v: nat): Web
    requires v < |w.entries|
  {
    w.(entries := w.entries[v := Skipped(w.entries[v])])
  }

  /** An edge to an entry that is already listed. */
  function LinkKnown(w: Web, v: nat, p: Package, u: nat): Web
    requires v < |w.entries| && v < |w.edges| && w.entries[v].done < |w.entries[v].Tasks()|
  {
    w.(entries := w.entries[v := Linked(w.entries[v], p)], edges := w.edges[v := w.edges[v] + {u}])
  }

  /** A new entry, without edges and with all its tasks still to do. */
  function AddEntry(w: Web, p: Package, scope: Scope): Web {
    Web(w.entries + [Entry(p, p, scope, 0)], w.edges + [{}], w.names + [FullyQualifiedName(p.ov)])
  }

  lemma {:induction false} SkipSound(look: Lookup, w: Web, v: nat)
    requires Sound(look, w) && v < |w.entries| && w.entries[v].done < |w.entries[v].Tasks()|
        && !IsKudo(w.entries[v], w.entries[v].done)
    ensures Sound(look, SkipTask(w, v)) && GoesOn(w, SkipTask(w, v), v)
  {
    var w' := SkipTask(w, v);
    forall u: nat | u < |w.entries| ensures VertexOk(look, w', u) {
      assert VertexOk(look, w, u);
      if u != v {
        OtherVertices(look, w, w', v, u);
      } else {
        SkippedEntry(look, w.entries[v]);
        SkippedEdges(look, w.names, w.entries[v], w.edges[v]);
      }
    }
  }

  /** Linking `v` to the entry `u` its next task refers to. The new graph may have a cycle. */
  lemma {:induction false} LinkSound(look: Lookup, w: Web, v: nat, p: Package, scope: Scope, u: nat)
    requires Sound(look, w) && v < |w.entries| && u < |w.entries| && w.names[u] == FullyQualifiedName(p.ov)
    requires IsKudo(w.entries[v], w.entries[v].done)
    requires Answer(look, w.entries[v].scope, w.entries[v].Tasks()[w.entries[v].done]) == Some((p, scope))
    ensures Sound(look, LinkKnown(w, v, p, u)) && GoesOn(w, LinkKnown(w, v, p, u), v)
  {
    var w' := LinkKnown(w, v, p, u);
    assert GoesOn(w, w', v);
    forall x: nat | x < |w.entries| ensures VertexOk(look, w', x) {
      assert VertexOk(look, w, x);
      if x != v {
        OtherVertices(look, w, w', v, x);
      } else {
        LinkedEntry(look, w.entries[v], p, scope);
        LinkedEdges(look, w.names, w.entries[v], w.edges[v], p, u);
        ReachableExtends(w.edges, w'.edges, 0, v);
      }
    }
  }

  /** A new entry is linked in the same turn, so that it is reachable. */
  lemma {:induction false} AddSound(look: Lookup, w: Web, v: nat, p: Package, scope: Scope)
    requires Sound(look, w) && v < |w.entries| && FullyQualifiedName(p.ov) !in w.names
    requires IsKudo(w.entries[v], w.entries[v].done)
    requires Answer(look, w.entries[v].scope, w.entries[v].Tasks()[w.entries[v].done]) == Some((p, scope))
    ensures
      var w' := LinkKnown(AddEntry(w, p, scope), v, p, |w.entries|);
      Sound(look, w') && GoesOn(w, w', v)
  {
    var added, u := AddEntry(w, p, scope), |w.entries|;
    var w' := LinkKnown(added, v, p, u);
    assert GoesOn(w, w', v);
    assert VertexOk(look, w, v);
    forall x: nat | x <= u ensures VertexOk(look, w', x) {
      if x == u {
        NewEntry(look, w'.names, p, scope);
        ReachableExtends(w.edges, w'.edges, 0, v);
        ReachableStep(w'.edges, 0, v, u);
      } else if x != v {
        OtherVertices(look, w, w', v, x);
      } else {
        LinkedEntry(look, w.entries[v], p, scope);
        EdgesGrow(look, w.names, w'.names, w.entries[v], w.edges[v]);
        LinkedEdges(look, w'.names, w.entries[v], w.edges[v], p, u);
        ReachableExtends(w.edges, w'.edges, 0, v);
      }
    }
  }

  lemma {:induction false} NewEntry(look: Lookup, names: seq<string>, p: Package, scope: Scope)
    ensures EntryOk(look, Entry(p, p, scope, 0)) && EdgesOk(look, names, Entry(p, p, scope, 0), {})
  {
    var e := Entry(p, p, scope, 0);
    forall q: nat | q < |e.Tasks()| ensures TaskOk(look, e, q) {
      assert forall k: nat :: !Namesake(e, q, k);
    }
  }

  // ----- the walk -----

  /** Only packages with names from a finite set can be resolved. */
  ghost predicate Finite(look: Lookup, universe: set<string>) {
    forall s, a, b, c :: look(s, a, b, c).Some? ==> FullyQualifiedName(look(s, a, b, c).value.0.ov) in universe
  }

  ghost function NameSet(names: seq<string>): set<string> {
    set n | n in names
  }

  lemma {:induction false} GoesOnTransitive(w0: Web, w1: Web, w2: Web, v: nat, u: nat)
    requires GoesOn(w0, w1, v) && GoesOn(w1, w2, u) && v < |w0.entries| && (u == v || u >= |w0.entries|)
    ensures GoesOn(w0, w2, v)
  {
  }

  /** All tasks of the entries from `n` on have been dealt with. */
  ghost predicate DoneFrom(w: Web, n: nat) {
    forall v: nat | n <= v < |w.entries| :: w.entries[v].done == |w.entries[v].Tasks()|
  }

  /** Some listed package has a KudoOperator task that cannot be resolved. */
  ghost predicate HasUnresolvable(look: Lookup, w: Web) {
    exists v: nat, k: nat | v < |w.entries| :: IsKudo(w.entries[v], k)
      && Answer(look, w.entries[v].scope, w.entries[v].Tasks()[k]).None?
  }

  /** The list and the graph of the walk are those of the web. */
  ghost predicate Matches(look: Lookup, w: Web, deps: seq<Package>, edges: seq<set<nat>>) {
    && Sound(look, w) && edges == w.edges && |deps| == |w.entries|
    && (forall v: nat | v < |deps| :: deps[v] == w.entries[v].now)
  }

  lemma {:induction false} ListedName(look: Lookup, w: Web, deps: seq<Package>, edges: seq<set<nat>>, u: nat)
    requires Matches(look, w, deps, edges) && u < |deps|
    ensures FullyQualifiedName(deps[u].ov) == w.names[u]
  {
    assert VertexOk(look, w, u);
  }

  /** The next task of `v` resolves to `p`. */
  ghost predicate Resolves(look: Lookup, w: Web, v: nat, p: Package, scope: Scope) {
    && v < |w.entries| && IsKudo(w.entries[v], w.entries[v].done)
    && Answer(look, w.entries[v].scope, w.entries[v].Tasks()[w.entries[v].done]) == Some((p, scope))
  }

  function Rewritten(deps: seq<Package>, v: nat, name: string, p: Package): seq<Package>
    requires v < |deps|
  {
    deps[v := WithTasks(deps[v], Rewrite(deps[v].ov.tasks, name, p))]
  }

  lemma {:induction false} RewrittenNames(look: Lookup, w: Web, deps: seq<Package>, edges: seq<set<nat>>, v: nat,
                                          name: string, p: Package)
    requires Matches(look, w, deps, edges) && v < |deps|
    ensures forall u: nat | u < |deps| :: FullyQualifiedName(Rewritten(deps, v, name, p)[u].ov) == w.names[u]
  {
    forall u: nat | u < |deps| ensures FullyQualifiedName(Rewritten(deps, v, name, p)[u].ov) == w.names[u] {
      ListedName(look, w, deps, edges, u);
    }
  }

  lemma {:induction false} KnownMatches(look: Lookup, w: Web, deps: seq<Package>, edges: seq<set<nat>>, v: nat,
                                        p: Package, scope: Scope, u: nat)
    requires Matches(look, w, deps, edges) && Resolves(look, w, v, p, scope) && u < |deps|
        && w.names[u] == FullyQualifiedName(p.ov)
    ensures
      var w' := LinkKnown(w, v, p, u);
      && Matches(look, w', Rewritten(deps, v, w.entries[v].Tasks()[w.entries[v].done].name, p),
        edges[v := edges[v] + {u}])
      && GoesOn(w, w', v) && w'.entries[v].done == w.entries[v].done + 1
  {
    LinkSound(look, w, v, p, scope, u);
  }

  lemma {:induction false} NewMatches(look: Lookup, w: Web, deps: seq<Package>, edges: seq<set<nat>>, v: nat,
                                      p: Package, scope: Scope)
    requires Matches(look, w, deps, edges) && Resolves(look, w, v, p, scope) && FullyQualifiedName(p.ov) !in w.names
    ensures
      var w', u := LinkKnown(AddEntry(w, p, scope), v, p, |deps|), |deps|;
      && Matches(look, w', Rewritten(deps, v, w.entries[v].Tasks()[w.entries[v].done].name, p) + [p],
        (edges + [{}])[v := edges[v] + {u}])
      && GoesOn(w, w', v) && w'.entries[v].done == w.entries[v].done + 1
      && w'.entries[u] == Entry(p, p, scope, 0) && |w'.entries| == u + 1
        && w'.names == w.names + [FullyQualifiedName(p.ov)]
  {
    AddSound(look, w, v, p, scope);
  }

  class Walk {
    var deps: seq<Package>
    var edges: seq<set<nat>>
    ghost var web: Web

    ghost predicate Valid(look: Lookup)
      reads this
    {
      Matches(look, web, deps, edges)
    }

    constructor (look: Lookup, root: OperatorVersion, scope: Scope)
      ensures Valid(look) && Acyclic(edges) && fresh(this)
      ensures |deps| == 1
          && web == Web([Entry(Package("", root), Package("", root), scope, 0)], [{}], [FullyQualifiedName(root)])
    {
      deps, edges := [Package("", root)], [{}];
      web := Web([Entry(Package("", root), Package("", root), scope, 0)], [{}], [FullyQualifiedName(root)]);
      new;
      NewEntry(look, web.names, Package("", root), scope);
      assert IsPath(edges, [0]);
      assert VertexOk(look, web, 0);
      assert Ranked(edges, {}, map[0 := 0], 1);
      RankedIsAcyclic(edges, map[0 := 0], 1);
    }

    /** `updateResolvedKudoOperatorTask`. */
    method UpdateTask(parent: nat, name: string, p: Package) returns (ok: bool)
      requires parent < |deps|
      modifies this`deps
      ensures ok <==> exists q: nat :: q < |old(deps)[parent].ov.tasks| && old(deps)[parent].ov.tasks[q].name == name
      ensures deps == old(deps)[parent := WithTasks(old(deps)[parent], Rewrite(old(deps)[parent].ov.tasks, name, p))]
    {
      var tasks := deps[parent].ov.tasks;
      for i := 0 to |tasks|
        invariant deps == old(deps) && forall q | 0 <= q < i :: tasks[q].name != name
      {
        if tasks[i].name == name {
          assert TaskIndex(tasks, name) == i;
          deps := deps[parent := WithTasks(deps[parent], tasks[i := RewrittenBy(tasks[i], p)])];
          return true;
        }
      }
      return false;
    }

    /** Links the package that the next task of `parent` resolves to; `isNew` says it was not listed. */
    method Link(look: Lookup, parent: nat, name: string, p: Package, ghost scope: Scope) returns (isNew: bool)
      requires Valid(look) && Resolves(look, web, parent, p, scope)
      requires name == web.entries[parent].Tasks()[web.entries[parent].done].name
      modifies this
      ensures Valid(look) && GoesOn(old(web), web, parent)
          && web.entries[parent].done == old(web).entries[parent].done + 1
      ensures isNew <==> FullyQualifiedName(p.ov) !in old(web).names
      ensures !isNew ==> |deps| == |old(deps)| && web.names == old(web).names
      ensures isNew ==> |deps| == |old(deps)| + 1 && web.entries[|old(deps)|] == Entry(p, p, scope, 0)
                        && web.names == old(web).names + [FullyQualifiedName(p.ov)]
    {
      ghost var w0, deps0, edges0 := web, deps, edges;
      RewrittenNames(look, w0, deps0, edges0, parent, name, p);
      TaskIsThere(look, w0, deps0, edges0, parent);
      var updated := UpdateTask(parent, name, p);
      assert updated;
      var u := IndexOf(deps, FullyQualifiedName(p.ov));
      isNew := u == |deps|;
      if isNew {
        NewMatches(look, w0, deps0, edges0, parent, p, scope);
        deps, edges := deps + [p], edges + [{}];
        web := LinkKnown(AddEntry(w0, p, scope), parent, p, u);
      } else {
        KnownMatches(look, w0, deps0, edges0, parent, p, scope, u);
        web := LinkKnown(w0, parent, p, u);
      }
      edges := edges[parent := edges[parent] + {u}];
    }

    /** `dependencyWalk`, for an entry none of whose tasks has been dealt with yet. */
    method DependencyWalk(look: Lookup, parent: nat, scope: Scope, ghost universe: set<string>)
      returns (err: Option<ResolveError>)
      requires Finite(look, universe) && Valid(look) && Acyclic(edges) && parent < |deps|
      requires web.entries[parent].done == 0 && web.entries[parent].scope == scope
      modifies this
      ensures Valid(look) && GoesOn(old(web), web, parent)
      ensures err.None? ==> Acyclic(edges) && DoneFrom(web, |old(deps)|)
                            && web.entries[parent].done == |web.entries[parent].Tasks()|
      ensures err.Some? ==> err.value.Cyclic? || err.value.Unresolvable?
      ensures err == Some(Cyclic) ==> !Acyclic(edges)
      ensures err == Some(Unresolvable) ==> HasUnresolvable(look, web)
      decreases universe - NameSet(web.names)
    {
      ghost var w0 := web;
      FreshTasks(look, web, deps, edges, parent);
      var tasks := deps[parent].ov.tasks;
      for k := 0 to |tasks|
        invariant Valid(look) && Acyclic(edges) && GoesOn(w0, web, parent) && |w0.entries| <= |deps|
        invariant web.entries[parent].done == k && web.entries[parent].Tasks() == tasks
        invariant DoneFrom(web, |w0.entries|)
      {
        if tasks[k].kind != KUDO_OPERATOR {
          SkipMatches(look, w0, web, deps, edges, parent);
          web := SkipTask(web, parent);
        } else {
          var found := Answer(look, scope, tasks[k]);
          if found.None? {
            UnresolvedTask(look, web, parent);
            return Some(Unresolvable);
          }
          ghost var w1 := web;
          var isNew := Link(look, parent, tasks[k].name, found.value.0, found.value.1);
          ghost var w2 := web;
          GoesOnTransitive(w0, w1, w2, parent, parent);
          var acyclic := IsAcyclic(edges);
          if !acyclic { return Some(Cyclic); }
          if isNew {
            MeasureFalls(universe, w0.names, web.names, FullyQualifiedName(found.value.0.ov));
            err := DependencyWalk(look, |deps| - 1, found.value.1, universe);
            GoesOnTransitive(w0, w2, web, parent, |w2.entries| - 1);
            if err.Some? { return; }
            DoneTogether(w1, w2, web, parent, |w0.entries|);
          }
        }
      }
      err := None;
    }
  }

  lemma {:induction false} FreshTasks(look: Lookup, w: Web, deps: seq<Package>, edges: seq<set<nat>>, v: nat)
    requires Matches(look, w, deps, edges) && v < |deps| && w.entries[v].done == 0
    ensures deps[v].ov.tasks == w.entries[v].Tasks()
  {
    var e := w.entries[v];
    assert VertexOk(look, w, v);
    forall q: nat | q < |e.Tasks()| ensures e.now.ov.tasks[q] == e.Tasks()[q] {
      assert TaskOk(look, e, q);
    }
  }

  lemma {:induction false} SkipMatches(look: Lookup, w0: Web, w: Web, deps: seq<Package>, edges: seq<set<nat>>, v: nat)
    requires Matches(look, w, deps, edges) && GoesOn(w0, w, v) && v < |w0.entries| && DoneFrom(w, |w0.entries|)
    requires w.entries[v].done < |w.entries[v].Tasks()| && !IsKudo(w.entries[v], w.entries[v].done)
    ensures
      var w' := SkipTask(w, v);
      Matches(look, w', deps, edges) && GoesOn(w0, w', v) && DoneFrom(w', |w0.entries|)
  {
    SkipSound(look, w, v);
  }

  lemma {:induction false} UnresolvedTask(look: Lookup, w: Web, v: nat)
    requires v < |w.entries| && IsKudo(w.entries[v], w.entries[v].done)
    requires Answer(look, w.entries[v].scope, w.entries[v].Tasks()[w.entries[v].done]).None?
    ensures HasUnresolvable(look, w)
  {
    assert IsKudo(w.entries[v], w.entries[v].done);
  }

  /** A new entry is linked from `w1` to `w2` and walked from `w2` to `w3`. */
  lemma {:induction false} DoneTogether(w1: Web, w2: Web, w3: Web, v: nat, n: nat)
    requires DoneFrom(w1, n) && v < n <= |w1.entries| && |w2.entries| == |w1.entries| + 1
    requires GoesOn(w1, w2, v) && GoesOn(w2, w3, |w1.entries|) && DoneFrom(w3, |w2.entries|)
    requires |w1.entries| < |w3.entries| && w3.entries[|w1.entries|].done == |w3.entries[|w1.entries|].Tasks()|
    ensures DoneFrom(w3, n) && w3.entries[v].done == w2.entries[v].done
  {
    forall u: nat | n <= u < |w3.entries| ensures w3.entries[u].done == |w3.entries[u].Tasks()| {
      if u < |w1.entries| { assert w3.entries[u] == w1.entries[u]; }
    }
  }

  lemma {:induction false} MeasureFalls(universe: set<string>, before: seq<string>, after: seq<string>, name: string)
    requires before <= after && name in universe && name in after && name !in before
    ensures universe - NameSet(after) < universe - NameSet(before)
  {
    assert name in universe - NameSet(before) && name !in universe - NameSet(after);
  }

  /** The task being followed can always be found for its update. */
  lemma {:induction false} TaskIsThere(look: Lookup, w: Web, deps: seq<Package>, edges: seq<set<nat>>, v: nat)
    requires Matches(look, w, deps, edges) && v < |deps| && IsKudo(w.entries[v], w.entries[v].done)
    ensures
      var e := w.entries[v];
      e.done < |deps[v].ov.tasks| && deps[v].ov.tasks[e.done].name == e.Tasks()[e.done].name
  {
    assert VertexOk(look, w, v) && TaskOk(look, w.entries[v], w.entries[v].done);
  }

  // ----- the result -----

  ghost predicate AllDone(w: Web) {
    forall v: nat | v < |w.entries| :: w.entries[v].done == |w.entries[v].Tasks()|
  }

  /** The whole resolution; on success `walk.deps[1..]` is the list of dependencies. */
  method ResolveAll(look: Lookup, root: OperatorVersion, scope: Scope, ghost universe: set<string>)
    returns (walk: Walk, dependencies: seq<Package>, err: Option<ResolveError>)
    requires Finite(look, universe)
    ensures walk.Valid(look) && walk.web.entries[0].was == Package("", root) && walk.web.entries[0].scope == scope
    ensures err.None? <==> Acyclic(walk.edges) && AllDone(walk.web)
    ensures err.None? ==> dependencies == walk.deps[1..]
    ensures err == Some(Cyclic) ==> !Acyclic(walk.edges)
    ensures err == Some(Unresolvable) ==> HasUnresolvable(look, walk.web)
  {
    walk := new Walk(look, root, scope);
    err := walk.DependencyWalk(look, 0, scope, universe);
    dependencies := walk.deps[1..];
    if err == Some(Unresolvable) { UnresolvableIsIncomplete(look, walk.web); }
  }

  lemma {:induction false} UnresolvableIsIncomplete(look: Lookup, w: Web)
    requires Sound(look, w) && HasUnresolvable(look, w)
    ensures !AllDone(w)
  {
    var v: nat, k: nat :| v < |w.entries| && IsKudo(w.entries[v], k)
      && Answer(look, w.entries[v].scope, w.entries[v].Tasks()[k]).None?;
    assert VertexOk(look, w, v);
    assert !Followed(look, w.names, w.entries[v], w.edges[v], k);
  }

  /** Some task of the entry refers to the package called `name`. */
  ghost predicate HasReference(look: Lookup, e: Entry, name: string) {
    exists k: nat :: Refers(look, e, k, name)
  }

  lemma {:induction false} ReferenceIsEdge(look: Lookup, names: seq<string>, e: Entry, out: set<nat>, k: nat, u: nat)
    requires Followed(look, names, e, out, k) && Distinct(names) && u < |names| && Refers(look, e, k, names[u])
    ensures u in out
  {
    var x :| x in out && x < |names| && Refers(look, e, k, names[x]);
    assert names[x] == names[u];
  }

  lemma {:induction false} VertexEdges(look: Lookup, w: Web, v: nat)
    requires Sound(look, w) && v < |w.entries|
    ensures EdgesOk(look, w.names, w.entries[v], w.edges[v]) && Reachable(w.edges, 0, v)
  {
    assert VertexOk(look, w, v);
  }

  /** After a successful resolution the edges are exactly the references between listed packages,
      every reference leads to a listed package, and everything listed is needed. */
  lemma {:induction false} EdgesAreReferences(look: Lookup, w: Web)
    requires Sound(look, w) && AllDone(w)
    ensures forall v: nat, u: nat | v < |w.entries| && u < |w.entries| ::
              u in w.edges[v] <==> HasReference(look, w.entries[v], w.names[u])
    ensures forall v: nat, k: nat | v < |w.entries| && IsKudo(w.entries[v], k) ::
              exists u: nat :: u < |w.names| && Refers(look, w.entries[v], k, w.names[u])
    ensures forall v: nat | v < |w.entries| :: Reachable(w.edges, 0, v)
  {
    forall v: nat, u: nat | v < |w.entries| && u < |w.entries|
      ensures u in w.edges[v] <==> HasReference(look, w.entries[v], w.names[u])
    {
      VertexEdges(look, w, v);
      if u in w.edges[v] {
        assert Justified(look, w.names, w.entries[v], u);
      }
      if k: nat :| Refers(look, w.entries[v], k, w.names[u]) {
        assert Followed(look, w.names, w.entries[v], w.edges[v], k);
        ReferenceIsEdge(look, w.names, w.entries[v], w.edges[v], k, u);
      }
    }
    forall v: nat, k: nat | v < |w.entries| && IsKudo(w.entries[v], k)
      ensures exists u: nat :: u < |w.names| && Refers(look, w.entries[v], k, w.names[u])
    {
      VertexEdges(look, w, v);
      assert Followed(look, w.names, w.entries[v], w.edges[v], k);
    }
    forall v: nat | v < |w.entries| ensures Reachable(w.edges, 0, v) { VertexEdges(look, w, v); }
  }

  /** A cycle of the graph is a cycle of real references between packages. */
  lemma {:induction false} CyclesAreReal(look: Lookup, w: Web, p: seq<nat>, n: nat)
    requires Sound(look, w) && IsCycle(w.edges, p) && n < |p| - 1
    ensures HasReference(look, w.entries[p[n]], w.names[p[n + 1]])
  {
    assert VertexOk(look, w, p[n]) && p[n + 1] in w.edges[p[n]];
    assert Justified(look, w.names, w.entries[p[n]], p[n + 1]);
  }

  /** Each resolved package's Operator bears the name its OperatorVersion refers to. */
  ghost predicate OperatorsMatch(look: Lookup) {
    forall s, a, b, c :: look(s, a, b, c).Some? ==>
      look(s, a, b, c).value.0.operatorName == look(s, a, b, c).value.0.ov.operatorName
  }

  /** What the first task of its name looks up at run time is a listed dependency, never the root. */
  lemma {:induction false} ReferenceIsListed(look: Lookup, w: Web, v: nat, q: nat) returns (u: nat)
    requires Sound(look, w) && AllDone(w) && Acyclic(w.edges) && OperatorsMatch(look)
    requires v < |w.entries| && IsKudo(w.entries[v], q) && IsFirst(w.entries[v].Tasks(), q)
    ensures q < |w.entries[v].now.ov.tasks|
    ensures 0 < u < |w.names| && w.names[u] == RunTimeReference(w.entries[v].now.ov.tasks[q])
  {
    var e := w.entries[v];
    assert VertexOk(look, w, v) && VertexOk(look, w, 0);
    assert TaskOk(look, e, q) && Namesake(e, q, q);
    var k: nat :| RewrittenFrom(look, e, q, k);
    assert Followed(look, w.names, e, w.edges[v], k);
    u :| u in w.edges[v] && u < |w.names| && Refers(look, e, k, w.names[u]);
    if u == 0 { BackEdge(w.edges, 0, v); }
  }

  /** Every KudoOperator task of every listed package, the root included, looks up a listed
      dependency at run time. */
  ghost predicate Closed(w: Web)
    requires |w.names| > 0
  {
    forall v: nat, q: nat | v < |w.entries| && q < |w.entries[v].now.ov.tasks|
      && w.entries[v].now.ov.tasks[q].kind == KUDO_OPERATOR ::
      RunTimeReference(w.entries[v].now.ov.tasks[q]) in w.names[1..]
  }

  /** What KudoOperator tasks that are not the first of their name look up, as written in their
      package, is listed as it stands. */
  ghost predicate NamesakesListed(w: Web)
    requires |w.names| > 0
  {
    forall v: nat, q: nat | v < |w.entries| && IsKudo(w.entries[v], q) && !IsFirst(w.entries[v].Tasks(), q) ::
      RunTimeReference(w.entries[v].Tasks()[q]) in w.names[1..]
  }

  /** Of two tasks of one name only the first is ever rewritten, so the result is closed under
      references exactly if what the others look up is listed as it stands. */
  lemma {:induction false} ClosedExactly(look: Lookup, w: Web)
    requires Sound(look, w) && AllDone(w) && Acyclic(w.edges) && OperatorsMatch(look)
    ensures Closed(w) <==> NamesakesListed(w)
  {
    forall v: nat, q: nat | v < |w.entries| && IsKudo(w.entries[v], q) && IsFirst(w.entries[v].Tasks(), q)
      ensures q < |w.entries[v].now.ov.tasks| && RunTimeReference(w.entries[v].now.ov.tasks[q]) in w.names[1..]
    {
      var u := ReferenceIsListed(look, w, v, q);
      assert w.names[1..][u - 1] == w.names[u];
    }
    forall v: nat, q: nat | v < |w.entries| && q < |w.entries[v].Tasks()|
      ensures q < |w.entries[v].now.ov.tasks| && w.entries[v].now.ov.tasks[q].kind == w.entries[v].Tasks()[q].kind
      ensures !IsFirst(w.entries[v].Tasks(), q) ==> w.entries[v].now.ov.tasks[q] == w.entries[v].Tasks()[q]
    {
      TaskNow(look, w, v, q);
    }
    forall v: nat | v < |w.entries| ensures |w.entries[v].now.ov.tasks| == |w.entries[v].Tasks()| {
      assert VertexOk(look, w, v);
    }
  }

  lemma {:induction false} TaskNow(look: Lookup, w: Web, v: nat, q: nat)
    requires Sound(look, w) && v < |w.entries| && q < |w.entries[v].Tasks()|
    ensures q < |w.entries[v].now.ov.tasks| && w.entries[v].now.ov.tasks[q].kind == w.entries[v].Tasks()[q].kind
    ensures !IsFirst(w.entries[v].Tasks(), q) ==> w.entries[v].now.ov.tasks[q] == w.entries[v].Tasks()[q]
  {
    assert VertexOk(look, w, v) && TaskOk(look, w.entries[v], q);
  }

  /** Hence the result is closed if task names are unique in every package. */
  lemma {:induction false} ClosedUnderReferences(look: Lookup, w: Web)
    requires Sound(look, w) && AllDone(w) && Acyclic(w.edges) && OperatorsMatch(look)
    requires forall v: nat, a: nat, b: nat | v < |w.entries| && a < b < |w.entries[v].Tasks()| ::
               w.entries[v].Tasks()[a].name != w.entries[v].Tasks()[b].name
    ensures Closed(w)
  {
    ClosedExactly(look, w);
    forall v: nat, q: nat | v < |w.entries| && IsKudo(w.entries[v], q) ensures IsFirst(w.entries[v].Tasks(), q) {
      assert TaskIndex(w.entries[v].Tasks(), w.entries[v].Tasks()[q].name) == q;
    }
  }

  /** A task that is not the first of its name is never rewritten, so that it keeps looking up
      whatever its package file says. */
  lemma {:induction false} LaterNamesakesAreNotRewritten(look: Lookup, w: Web, v: nat, q: nat)
    requires Sound(look, w) && v < |w.entries| && q < |w.entries[v].Tasks()| && !IsFirst(w.entries[v].Tasks(), q)
    ensures q < |w.entries[v].now.ov.tasks| && w.entries[v].now.ov.tasks[q] == w.entries[v].was.ov.tasks[q]
  {
    assert VertexOk(look, w, v) && TaskOk(look, w.entries[v], q);
  }
}
