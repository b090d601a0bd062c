/** Paths and cycles in a finite directed graph given by its set of edges. */
module Reach {

  type Graph<V(==)> = set<(V, V)>

  ghost predicate IsPath<V>(g: Graph<V>, p: seq<V>) {
    |p| >= 1 && forall i :: 0 <= i < |p| - 1 ==> (p[i], p[i + 1]) in g
  }

  ghost predicate PathBetween<V>(g: Graph<V>, p: seq<V>, u: V, v: V) {
    IsPath(g, p) && p[0] == u && p[|p| - 1] == v
  }

  /** There is a path, possibly of no edge at all, from u to v. */
  ghost predicate Reaches<V(!new)>(g: Graph<V>, u: V, v: V) {
    exists p :: PathBetween(g, p, u, v)
  }

  /** There is a path of at least one edge from v back to v. */
  ghost predicate OnCycle<V(!new)>(g: Graph<V>, v: V) {
    exists p :: |p| >= 2 && PathBetween(g, p, v, v)
  }

  /** Some cycle can be reached from u. */
  ghost predicate CycleReachable<V(!new)>(g: Graph<V>, u: V) {
    exists v :: Reaches(g, u, v) && OnCycle(g, v)
  }

  lemma PathJoin<V(!new)>(g: Graph<V>, p: seq<V>, q: seq<V>, u: V, v: V, w: V)
    requires PathBetween(g, p, u, v) && PathBetween(g, q, v, w)
    ensures PathBetween(g, p + q[1..], u, w)
  {
    var r := p + q[1..];
    forall i | 0 <= i < |r| - 1 ensures (r[i], r[i + 1]) in g {
      if i >= |p| - 1 {
        assert (q[i - |p| + 1], q[i - |p| + 2]) in g;
      }
    }
  }

  lemma ReachesTransitive<V(!new)>(g: Graph<V>, u: V, v: V, w: V)
    requires Reaches(g, u, v) && Reaches(g, v, w)
    ensures Reaches(g, u, w)
  {
    var p :| PathBetween(g, p, u, v);
    var q :| PathBetween(g, q, v, w);
    PathJoin(g, p, q, u, v, w);
  }

  lemma ReachesSelf<V(!new)>(g: Graph<V>, u: V)
    ensures Reaches(g, u, u)
  {
    assert PathBetween(g, [u], u, u);
  }

  lemma ReachesEdge<V(!new)>(g: Graph<V>, u: V, v: V)
    requires (u, v) in g
    ensures Reaches(g, u, v)
  {
    assert PathBetween(g, [u, v], u, v);
  }

  /** An edge u -> v closes a cycle through u exactly when v leads back to u. */
  lemma EdgeClosesCycle<V(!new)>(g: Graph<V>, u: V, v: V)
    requires (u, v) in g && Reaches(g, v, u)
    ensures OnCycle(g, u) && OnCycle(g, v)
  {
    var p :| PathBetween(g, p, v, u);
    PathJoin(g, [u, v], p, u, v, u);
    assert |[u, v] + p[1..]| >= 2;
    PathJoin(g, p, [u, v], v, u, v);
    assert |p + [u, v][1..]| >= 2;
  }

  /** A vertex on a cycle has a successor on the same cycle, and a predecessor. */
  lemma CycleNeighbours<V(!new)>(g: Graph<V>, v: V) returns (next: V, prev: V)
    requires OnCycle(g, v)
    ensures (v, next) in g && OnCycle(g, next) && Reaches(g, v, next)
    ensures (prev, v) in g
  {
    var p :| |p| >= 2 && PathBetween(g, p, v, v);
    next, prev := p[1], p[|p| - 2];
    assert (p[0], p[1]) in g && (p[|p| - 2], p[|p| - 2 + 1]) in g;
    assert PathBetween(g, p[1..], next, v) by {
      forall i | 0 <= i < |p[1..]| - 1 ensures (p[1..][i], p[1..][i + 1]) in g {
        assert (p[i + 1], p[i + 1 + 1]) in g;
      }
    }
    EdgeClosesCycle(g, v, next);
    ReachesEdge(g, v, next);
  }

  ghost predicate SuccessorIn<V(!new)>(g: Graph<V>, w: set<V>, v: V) {
    exists x :: x in w && (v, x) in g
  }

  /** Every vertex of w has a successor inside w. */
  ghost predicate Closed<V(!new)>(g: Graph<V>, w: set<V>) {
    forall v {:trigger SuccessorIn(g, w, v)} :: v in w ==> SuccessorIn(g, w, v)
  }

  ghost function ReachableIn<V(!new)>(g: Graph<V>, w: set<V>, u: V): set<V> {
    set v | v in w && Reaches(g, u, v)
  }

  lemma ReachableInClosed<V(!new)>(g: Graph<V>, w: set<V>, u: V)
    requires Closed(g, w)
    ensures Closed(g, ReachableIn(g, w, u))
  {
    var r := ReachableIn(g, w, u);
    forall v | v in r
      ensures SuccessorIn(g, r, v)
    {
      assert SuccessorIn(g, w, v);
      var x :| x in w && (v, x) in g;
      ReachesEdge(g, v, x);
      ReachesTransitive(g, u, v, x);
    }
  }

  /** A non-empty set in which every vertex has a successor contains a vertex on a cycle. */
  lemma {:induction false} ClosedSetHasCycle<V(!new)>(g: Graph<V>, w: set<V>) returns (c: V)
    requires w != {} && Closed(g, w)
    ensures c in w && OnCycle(g, c)
    decreases w
  {
    var v :| v in w;
    assert SuccessorIn(g, w, v);
    var x :| x in w && (v, x) in g;
    if Reaches(g, x, v) {
      EdgeClosesCycle(g, v, x);
      c := v;
    } else {
      var r := ReachableIn(g, w, x);
      ReachableInClosed(g, w, x);
      ReachesSelf(g, x);
      assert v !in r && x in r;
      c := ClosedSetHasCycle(g, r);
    }
  }

  /** Every edge leaving a listed vertex ends at a vertex listed strictly before it. */
  ghost predicate FinishOrder<V(!new)>(g: Graph<V>, f: seq<V>) {
    forall i, y :: 0 <= i < |f| && (f[i], y) in g ==> y in f[..i]
  }

  lemma {:induction false} FinishOrderPath<V(!new)>(g: Graph<V>, f: seq<V>, p: seq<V>, i: nat) returns (j: nat)
    requires FinishOrder(g, f) && IsPath(g, p)
    requires i < |f| && f[i] == p[0]
    ensures j <= i && f[j] == p[|p| - 1] && (|p| >= 2 ==> j < i)
    decreases |p|
  {
    if |p| == 1 {
      j := i;
    } else {
      assert (p[0], p[0 + 1]) in g;
      assert p[1] in f[..i];
      var k :| 0 <= k < i && f[k] == p[1];
      forall m | 0 <= m < |p[1..]| - 1 ensures (p[1..][m], p[1..][m + 1]) in g {
        assert (p[m + 1], p[m + 1 + 1]) in g;
      }
      j := FinishOrderPath(g, f, p[1..], k);
    }
  }

  /** No cycle can be reached from a vertex of a duplicate-free finishing order. */
  lemma FinishOrderAcyclic<V(!new)>(g: Graph<V>, f: seq<V>, u: V)
    requires FinishOrder(g, f) && u in f
    requires forall i, j :: 0 <= i < j < |f| ==> f[i] != f[j]
    ensures !CycleReachable(g, u)
  {
    if v :| Reaches(g, u, v) && OnCycle(g, v) {
      var i :| 0 <= i < |f| && f[i] == u;
      var p :| PathBetween(g, p, u, v);
      var j := FinishOrderPath(g, f, p, i);
      var q :| |q| >= 2 && PathBetween(g, q, v, v);
      var k := FinishOrderPath(g, f, q, j);
    }
  }

  /** The map m carries every edge of g to an edge of h. */
  ghost predicate Carries<U(!new), V(!new)>(g: Graph<U>, h: Graph<V>, m: map<U, V>) {
    forall x, y :: (x, y) in g ==> x in m && y in m && (m[x], m[y]) in h
  }

  lemma PathImage<U(!new), V(!new)>(g: Graph<U>, h: Graph<V>, m: map<U, V>, p: seq<U>) returns (q: seq<V>)
    requires Carries(g, h, m) && IsPath(g, p) && p[0] in m
    ensures IsPath(h, q) && |q| == |p|
    ensures p[|p| - 1] in m && q[0] == m[p[0]] && q[|q| - 1] == m[p[|p| - 1]]
  {
    forall i | 0 <= i < |p| ensures p[i] in m {
      if i > 0 { assert (p[i - 1], p[i - 1 + 1]) in g; }
    }
    q := seq(|p|, i requires 0 <= i < |p| => m[p[i]]);
    forall i | 0 <= i < |q| - 1 ensures (q[i], q[i + 1]) in h {
      assert (p[i], p[i + 1]) in g;
    }
  }

  /** Renaming vertices keeps reachable cycles. */
  lemma CycleReachableImage<U(!new), V(!new)>(g: Graph<U>, h: Graph<V>, m: map<U, V>, u: U)
    requires Carries(g, h, m) && u in m && CycleReachable(g, u)
    ensures CycleReachable(h, m[u])
  {
    var v :| Reaches(g, u, v) && OnCycle(g, v);
    var p :| PathBetween(g, p, u, v);
    var q :| |q| >= 2 && PathBetween(g, q, v, v);
    var p' := PathImage(g, h, m, p);
    var q' := PathImage(g, h, m, q);
    assert PathBetween(h, p', m[u], m[v]) && PathBetween(h, q', m[v], m[v]);
    assert Reaches(h, m[u], m[v]) && OnCycle(h, m[v]);
  }
}
