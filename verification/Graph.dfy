/** Directed graphs over 0, 1, ..., as adjacency sets; paths, cycles and an acyclicity check. */
module Graph {

  predicate WellFormed(edges: seq<set<nat>>) {
    forall v, u | 0 <= v < |edges| && u in edges[v] :: u < |edges|
  }

  predicate IsPath(edges: seq<set<nat>>, p: seq<nat>) {
    && |p| > 0 && (forall k | 0 <= k < |p| :: p[k] < |edges|)
    && (forall k | 0 <= k < |p| - 1 :: p[k + 1] in edges[p[k]])
  }

  predicate IsCycle(edges: seq<set<nat>>, p: seq<nat>) {
    IsPath(edges, p) && |p| > 1 && p[0] == p[|p| - 1]
  }

  ghost predicate Acyclic(edges: seq<set<nat>>) {
    forall p :: !IsCycle(edges, p)
  }

  ghost predicate Reachable(edges: seq<set<nat>>, a: nat, b: nat) {
    exists p :: IsPath(edges, p) && p[0] == a && p[|p| - 1] == b
  }

  /** `more` has at least the vertices and edges of `edges`. */
  predicate Extends(edges: seq<set<nat>>, more: seq<set<nat>>) {
    |edges| <= |more| && forall v | 0 <= v < |edges| :: edges[v] <= more[v]
  }

  lemma {:induction false} ReachableExtends(edges: seq<set<nat>>, more: seq<set<nat>>, a: nat, b: nat)
    requires Extends(edges, more) && Reachable(edges, a, b)
    ensures Reachable(more, a, b)
  {
    var p :| IsPath(edges, p) && p[0] == a && p[|p| - 1] == b;
    assert IsPath(more, p);
  }

  lemma {:induction false} ReachableStep(edges: seq<set<nat>>, a: nat, b: nat, c: nat)
    requires Reachable(edges, a, b) && b < |edges| && c < |edges| && c in edges[b]
    ensures Reachable(edges, a, c)
  {
    var p :| IsPath(edges, p) && p[0] == a && p[|p| - 1] == b;
    var q := p + [c];
    assert IsPath(edges, q) && q[0] == a && q[|q| - 1] == c;
  }

  /** An edge back to where a path started closes a cycle. */
  lemma {:induction false} BackEdge(edges: seq<set<nat>>, a: nat, b: nat)
    requires Reachable(edges, a, b) && a < |edges| && b < |edges| && a in edges[b]
    ensures !Acyclic(edges)
  {
    var p :| IsPath(edges, p) && p[0] == a && p[|p| - 1] == b;
    assert IsCycle(edges, p + [a]);
  }

  lemma {:induction false} RankFalls(edges: seq<set<nat>>, rank: map<nat, nat>, p: seq<nat>, k: nat)
    requires IsPath(edges, p) && 0 < k < |p|
    requires forall v | 0 <= v < |edges| :: v in rank
    requires forall v, u | 0 <= v < |edges| && u in edges[v] && u in rank :: rank[u] < rank[v]
    ensures rank[p[k]] < rank[p[0]]
  {
    if k > 1 { RankFalls(edges, rank, p, k - 1); }
    assert p[(k - 1) + 1] in edges[p[k - 1]];
  }

  /** If every vertex of a nonempty set has a successor in it, there is a cycle: a path of
      distinct vertices can be extended until it has to come back. */
  lemma {:induction false} StuckHasCycle(edges: seq<set<nat>>, rest: set<nat>, p: seq<nat>)
    requires forall v | v in rest :: v < |edges| && edges[v] * rest != {}
    requires IsPath(edges, p) && (forall k | 0 <= k < |p| :: p[k] in rest)
    requires forall a, b | 0 <= a < b < |p| :: p[a] != p[b]
    ensures !Acyclic(edges)
    decreases |rest| - |p|
  {
    var last := p[|p| - 1];
    var u :| u in edges[last] * rest;
    var q := p + [u];
    assert IsPath(edges, q);
    if k :| 0 <= k < |p| && p[k] == u {
      var cycle := q[k..];
      assert forall m | 0 <= m < |cycle| :: cycle[m] == q[k + m];
      assert IsCycle(edges, cycle);
    } else {
      DistinctFits(q, rest);
      StuckHasCycle(edges, rest, q);
    }
  }

  lemma {:induction false} DistinctFits(q: seq<nat>, rest: set<nat>)
    requires forall k | 0 <= k < |q| :: q[k] in rest
    requires forall a, b | 0 <= a < b < |q| :: q[a] != q[b]
    ensures |q| <= |rest|
  {
    if q != [] {
      var last := q[|q| - 1];
      DistinctFits(q[..|q| - 1], rest - {last});
    }
  }

  function Below(n: nat): (s: set<nat>)
    ensures forall v :: v in s <==> 0 <= v < n
  {
    if n == 0 then {} else Below(n - 1) + {n - 1}
  }

  /** The vertices outside `rest` carry ranks below `bound` that fall along every edge. */
  ghost predicate Ranked(edges: seq<set<nat>>, rest: set<nat>, rank: map<nat, nat>, bound: nat) {
    && (forall v: nat :: v in rank <==> v < |edges| && v !in rest)
    && (forall v | v in rank :: rank[v] < bound && edges[v] <= rank.Keys)
    && (forall v, u | v in rank && u in edges[v] :: rank[u] < rank[v])
  }

  lemma {:induction false} RankNext(edges: seq<set<nat>>, rest: set<nat>, rank: map<nat, nat>, bound: nat, v: nat)
    requires WellFormed(edges) && Ranked(edges, rest, rank, bound) && v in rest && v < |edges| && edges[v] * rest == {}
    ensures Ranked(edges, rest - {v}, rank[v := bound], bound + 1)
  {
    forall u | u in edges[v] ensures u in rank {
      assert u !in edges[v] * rest;
    }
  }

  lemma {:induction false} RankedIsAcyclic(edges: seq<set<nat>>, rank: map<nat, nat>, bound: nat)
    requires Ranked(edges, {}, rank, bound)
    ensures Acyclic(edges)
  {
    forall p ensures !IsCycle(edges, p) {
      if IsCycle(edges, p) { RankFalls(edges, rank, p, |p| - 1); }
    }
  }

  /** Takes vertices without remaining successors away until none is left, or none can go. */
  method IsAcyclic(edges: seq<set<nat>>) returns (ok: bool)
    requires WellFormed(edges)
    ensures ok <==> Acyclic(edges)
  {
    var rest := Below(|edges|);
    ghost var rank: map<nat, nat>, bound: nat := map[], 0;
    while rest != {}
      invariant Ranked(edges, rest, rank, bound) && forall v | v in rest :: v < |edges|
      decreases rest
    {
      if v :| v in rest && edges[v] * rest == {} {
        RankNext(edges, rest, rank, bound, v);
        rank, bound, rest := rank[v := bound], bound + 1, rest - {v};
      } else {
        var v :| v in rest;
        assert IsPath(edges, [v]);
        StuckHasCycle(edges, rest, [v]);
        return false;
      }
    }
    RankedIsAcyclic(edges, rank, bound);
    return true;
  }
}
