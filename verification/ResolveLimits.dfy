/** Why the closure of a resolution asks for unique task names. */
module ResolveLimits {
  import opened Plans
  import opened Graph
  import opened Resolve

  /** A package without dependencies. */
  function Leaf(name: string): Package {
    Package(name, OperatorVersion(name, "1.0.0", "", [], [], map[]))
  }

  /** There are two packages; a request without a version gets the only one there is. */
  const REPOSITORY: Lookup := (_, name, _, _) => if name == "a" || name == "b" then Some((Leaf(name), 0)) else None

  function Install(package: string): Task { Task("install", KUDO_OPERATOR, true, package, "", "") }

  /** Both tasks have the same name and leave the version open. */
  const ROOT := OperatorVersion("root", "1.0.0", "", [Install("a"), Install("b")], [], map[])

  const UNIVERSE := {"a-1.0.0", "b-1.0.0"}

  lemma {:induction false} LeafNames()
    ensures FullyQualifiedName(Leaf("a").ov) == "a-1.0.0" && FullyQualifiedName(Leaf("b").ov) == "b-1.0.0"
  {
  }

  /** Nothing but the two leaves is listed behind the root. */
  lemma {:induction false} ListedIsLeaf(w: Web, v: nat)
    requires Sound(REPOSITORY, w) && 0 < v < |w.entries|
    ensures w.entries[v].Tasks() == [] && w.names[v] in UNIVERSE
  {
    assert VertexOk(REPOSITORY, w, v);
    LeafNames();
  }

  lemma {:induction false} EdgesLeaveTheRoot(w: Web, v: nat, u: nat)
    requires Sound(REPOSITORY, w) && w.entries[0].was == Package("", ROOT)
    requires v < |w.entries| && u in w.edges[v]
    ensures v == 0 && u != 0
  {
    assert VertexOk(REPOSITORY, w, v) && VertexOk(REPOSITORY, w, 0);
    assert Justified(REPOSITORY, w.names, w.entries[v], u);
    if v > 0 { ListedIsLeaf(w, v); }
    LeafNames();
    assert FullyQualifiedName(ROOT) == "root-1.0.0";
  }

  lemma {:induction false} NoCycle(w: Web)
    requires Sound(REPOSITORY, w) && w.entries[0].was == Package("", ROOT)
    ensures Acyclic(w.edges)
  {
    forall p ensures !IsCycle(w.edges, p) {
      if IsCycle(w.edges, p) {
        EdgesLeaveTheRoot(w, p[0], p[1]);
        EdgesLeaveTheRoot(w, p[|p| - 2], p[|p| - 2 + 1]);
      }
    }
  }

  lemma {:induction false} EverythingResolves(w: Web)
    requires Sound(REPOSITORY, w) && w.entries[0].was == Package("", ROOT)
    ensures !HasUnresolvable(REPOSITORY, w)
  {
    forall v: nat, k: nat | v < |w.entries| && IsKudo(w.entries[v], k)
      ensures Answer(REPOSITORY, w.entries[v].scope, w.entries[v].Tasks()[k]).Some?
    {
      if v > 0 { ListedIsLeaf(w, v); }
    }
  }

  lemma {:induction false} SecondTaskIsNotListed(w: Web)
    requires Sound(REPOSITORY, w) && w.entries[0].was == Package("", ROOT)
    ensures !NamesakesListed(w)
  {
    var e := w.entries[0];
    assert IsKudo(e, 1) && !IsFirst(e.Tasks(), 1);
    assert RunTimeReference(e.Tasks()[1]) == "b-";
    forall u | 0 <= u < |w.names[1..]| ensures w.names[1..][u] != "b-" { ListedIsLeaf(w, u + 1); }
  }

  /** The resolution succeeds, and yet the second task will look up an operator version that is
      not among the dependencies. */
  method SecondTaskStaysAsWritten() returns (walk: Walk, dependencies: seq<Package>, err: Option<ResolveError>)
    ensures err.None? && walk.Valid(REPOSITORY) && walk.web.entries[0].was == Package("", ROOT)
    ensures OperatorsMatch(REPOSITORY) && !Closed(walk.web)
  {
    LeafNames();
    walk, dependencies, err := ResolveAll(REPOSITORY, ROOT, 0, UNIVERSE);
    assert err.Some? ==> err.value.Cyclic? || err.value.Unresolvable?;
    NoCycle(walk.web);
    EverythingResolves(walk.web);
    SecondTaskIsNotListed(walk.web);
    ClosedExactly(REPOSITORY, walk.web);
  }
}
