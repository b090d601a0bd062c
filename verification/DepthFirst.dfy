/** The coloured depth-first visit behind deadlock detection, on a graph given as a list of labelled edges. */
module DepthFirst {
  import opened Types
  import opened Reach

  type VertexID = int

  /** A stored edge; parallel edges differ in their label, the frame number. */
  datatype GraphEdge = GraphEdge(source: VertexID, target: VertexID, frame: FrameSeq)

  datatype Color = Gray | Black  // a vertex without a colour is white

  ghost function Links(edges: seq<GraphEdge>): Graph<VertexID> {
    set e | e in edges :: (e.source, e.target)
  }

  /** The targets of the edges leaving u, in the order in which the edges are stored. */
  function OutTargets(edges: seq<GraphEdge>, u: VertexID): (r: seq<VertexID>)
    ensures forall v: VertexID :: v in r <==> (u, v) in Links(edges)
  {
    if edges == [] then []
    else
      var rest := OutTargets(edges[1..], u);
      assert edges == [edges[0]] + edges[1..];
      assert forall v: VertexID :: (u, v) in Links(edges) <==> edges[0] == GraphEdge(u, v, edges[0].frame) || (u, v) in Links(edges[1..]);
      if edges[0].source == u then [edges[0].target] + rest else rest
  }

  ghost function Vertices(edges: seq<GraphEdge>): set<VertexID> {
    (set e | e in edges :: e.source) + (set e | e in edges :: e.target)
  }

  ghost function Weight(pending: seq<seq<VertexID>>): nat {
    if pending == [] then 0 else Weight(pending[..|pending| - 1]) + |pending[|pending| - 1]| + 1
  }

  ghost predicate Distinct(s: seq<VertexID>) {
    forall i, j :: 0 <= i < j < |s| ==> s[i] != s[j]
  }

  /** The grey vertices are the path from the root to the vertex being examined; the black ones are finished. */
  ghost predicate Colored(colors: map<VertexID, Color>, path: seq<VertexID>, finished: seq<VertexID>) {
    && Distinct(path) && Distinct(finished)
    && (forall v :: v in path <==> v in colors && colors[v].Gray?)
    && (forall v :: v in finished <==> v in colors && colors[v].Black?)
  }

  /** Every edge out of a grey vertex leads to a pending target, a finished vertex, or along the path. */
  ghost predicate Explored(g: Graph<VertexID>, path: seq<VertexID>, pending: seq<seq<VertexID>>, finished: seq<VertexID>)
    requires |path| == |pending|
  {
    forall i :: 0 <= i < |path| ==> ExploredAt(g, path, pending, finished, i)
  }

  ghost predicate ExploredAt(
      g: Graph<VertexID>, path: seq<VertexID>, pending: seq<seq<VertexID>>, finished: seq<VertexID>, i: nat)
    requires |path| == |pending| && i < |path|
  {
    forall v :: (path[i], v) in g ==> v in pending[i] || v in finished || (i + 1 < |path| && path[i + 1] == v)
  }

  /** An edge from the end of a path back into the path closes a cycle reachable from the start of the path. */
  lemma BackEdgeIsCycle(g: Graph<VertexID>, path: seq<VertexID>, v: VertexID)
    requires IsPath(g, path) && v in path && (path[|path| - 1], v) in g
    ensures CycleReachable(g, path[0])
  {
    var i :| 0 <= i < |path| && path[i] == v;
    var u := path[|path| - 1];
    SubPath(g, path, i, |path|);
    assert PathBetween(g, path[i..|path|], v, u);
    EdgeClosesCycle(g, u, v);
    SubPath(g, path, 0, i + 1);
    assert PathBetween(g, path[0..i + 1], path[0], v);
  }

  lemma SubPath(g: Graph<VertexID>, p: seq<VertexID>, i: nat, j: nat)
    requires IsPath(g, p) && i < j <= |p|
    ensures IsPath(g, p[i..j])
  {
    var q := p[i..j];
    forall k | 0 <= k < |q| - 1 ensures (q[k], q[k + 1]) in g {
      assert (p[i + k], p[i + k + 1]) in g;
    }
  }

  /** Finishing the end of the path keeps the finishing order. */
  lemma FinishKeepsOrder(g: Graph<VertexID>, path: seq<VertexID>, pending: seq<seq<VertexID>>, finished: seq<VertexID>)
    requires |path| == |pending| > 0 && pending[|path| - 1] == []
    requires Explored(g, path, pending, finished) && FinishOrder(g, finished)
    ensures FinishOrder(g, finished + [path[|path| - 1]])
  {
    var n := |path| - 1;
    var f := finished + [path[n]];
    forall i, y | 0 <= i < |f| && (f[i], y) in g ensures y in f[..i] {
      if i < |finished| {
        assert f[i] == finished[i] && f[..i] == finished[..i];
      } else {
        assert f[i] == path[n] && f[..i] == finished;
        assert ExploredAt(g, path, pending, finished, n);
      }
    }
  }

  /** The state of the visit. */
  datatype Visit = Visit(
    colors: map<VertexID, Color>,    // vertices met so far
    path: seq<VertexID>,             // the grey stack
    pending: seq<seq<VertexID>>,     // targets still to be examined, per vertex of the stack
    finished: seq<VertexID>,         // black vertices, in finishing order
    backEdge: bool)

  ghost predicate Invariant(edges: seq<GraphEdge>, root: VertexID, s: Visit) {
    var g := Links(edges);
    && |s.path| == |s.pending|
    && s.colors.Keys <= Vertices(edges) + {root} && root in s.colors
    && Colored(s.colors, s.path, s.finished)
    && (s.path != [] ==> IsPath(g, s.path) && s.path[0] == root)
    && (forall i, v :: 0 <= i < |s.path| && v in s.pending[i] ==> (s.path[i], v) in g)
    && (!s.backEdge ==> Explored(g, s.path, s.pending, s.finished) && FinishOrder(g, s.finished))
    && (s.backEdge ==> CycleReachable(g, root))
  }

  ghost function Finish(s: Visit): Visit
    requires |s.path| == |s.pending| > 0
  {
    var n := |s.path| - 1;
    Visit(s.colors[s.path[n] := Black], s.path[..n], s.pending[..n], s.finished + [s.path[n]], s.backEdge)
  }

  lemma FinishKeepsExplored(g: Graph<VertexID>, s: Visit)
    requires |s.path| == |s.pending| > 0 && s.pending[|s.path| - 1] == []
    requires Explored(g, s.path, s.pending, s.finished) && FinishOrder(g, s.finished)
    ensures Explored(g, Finish(s).path, Finish(s).pending, Finish(s).finished) && FinishOrder(g, Finish(s).finished)
  {
    var t := Finish(s);
    FinishKeepsOrder(g, s.path, s.pending, s.finished);
    forall i | 0 <= i < |t.path| ensures ExploredAt(g, t.path, t.pending, t.finished, i) {
      assert ExploredAt(g, s.path, s.pending, s.finished, i);
    }
  }

  lemma FinishKeepsColored(s: Visit)
    requires |s.path| == |s.pending| > 0 && Colored(s.colors, s.path, s.finished)
    ensures Colored(Finish(s).colors, Finish(s).path, Finish(s).finished)
  {
    var n, t := |s.path| - 1, Finish(s);
    assert s.path == t.path + [s.path[n]] && s.path[n] in s.path;
    forall v ensures v in t.path <==> v in t.colors && t.colors[v].Gray? {
      assert v in s.path <==> v in t.path || v == s.path[n];
    }
  }

  lemma FinishKeepsInvariant(edges: seq<GraphEdge>, root: VertexID, s: Visit)
    requires Invariant(edges, root, s) && s.path != [] && s.pending[|s.path| - 1] == []
    ensures Invariant(edges, root, Finish(s))
  {
    var g, n, t := Links(edges), |s.path| - 1, Finish(s);
    if !s.backEdge { FinishKeepsExplored(g, s); }
    FinishKeepsColored(s);
    assert s.path[n] in s.path;
    if n > 0 { SubPath(g, s.path, 0, n); assert s.path[0..n] == t.path; }
  }

  /** Takes the next target v of the vertex being examined. */
  ghost function Examine(edges: seq<GraphEdge>, s: Visit): Visit
    requires |s.path| == |s.pending| > 0 && s.pending[|s.path| - 1] != []
  {
    var n := |s.path| - 1;
    var v := s.pending[n][0];
    var pending := s.pending[n := s.pending[n][1..]];
    if v !in s.colors then
      Visit(s.colors[v := Gray], s.path + [v], pending + [if s.backEdge then [] else OutTargets(edges, v)],
            s.finished, s.backEdge)
    else
      s.(pending := pending, backEdge := s.backEdge || s.colors[v].Gray?)
  }

  lemma TargetIsVertex(edges: seq<GraphEdge>, u: VertexID, v: VertexID)
    requires (u, v) in Links(edges)
    ensures v in Vertices(edges)
  {
    var e :| e in edges && (e.source, e.target) == (u, v);
    assert e.target in Vertices(edges);
  }

  lemma ExamineKeepsExplored(edges: seq<GraphEdge>, s: Visit)
    requires |s.path| == |s.pending| > 0 && s.pending[|s.path| - 1] != []
    requires Colored(s.colors, s.path, s.finished) && Explored(Links(edges), s.path, s.pending, s.finished)
    requires !Examine(edges, s).backEdge
    ensures Explored(Links(edges), Examine(edges, s).path, Examine(edges, s).pending, s.finished)
  {
    var g, n, t := Links(edges), |s.path| - 1, Examine(edges, s);
    var v := s.pending[n][0];
    forall i | 0 <= i < |t.path| ensures ExploredAt(g, t.path, t.pending, s.finished, i) {
      if i <= n {
        assert ExploredAt(g, s.path, s.pending, s.finished, i);
        assert s.pending[n] == [v] + s.pending[n][1..];
      }
    }
  }

  lemma ExamineKeepsInvariant(edges: seq<GraphEdge>, root: VertexID, s: Visit)
    requires Invariant(edges, root, s) && s.path != [] && s.pending[|s.path| - 1] != []
    ensures Invariant(edges, root, Examine(edges, s))
  {
    var g, n, t := Links(edges), |s.path| - 1, Examine(edges, s);
    var v := s.pending[n][0];
    assert v in s.pending[n] && (s.path[n], v) in g;
    assert s.pending[n] == [v] + s.pending[n][1..];
    TargetIsVertex(edges, s.path[n], v);
    forall i, x | 0 <= i < |t.path| && x in t.pending[i] ensures (t.path[i], x) in g {
      if i <= n { assert x in s.pending[i]; }
    }
    if v !in s.colors {
      ExtendPath(g, s.path, v);
    } else if s.colors[v].Gray? {
      BackEdgeIsCycle(g, s.path, v);
    }
    if !t.backEdge { ExamineKeepsExplored(edges, s); }
  }

  lemma ExtendPath(g: Graph<VertexID>, p: seq<VertexID>, v: VertexID)
    requires IsPath(g, p) && (p[|p| - 1], v) in g
    ensures IsPath(g, p + [v])
  {
    var q := p + [v];
    forall i | 0 <= i < |q| - 1 ensures (q[i], q[i + 1]) in g {
      if i < |p| - 1 { assert (p[i], p[i + 1]) in g; }
    }
  }

  lemma DiscoverShrinksWhite(edges: seq<GraphEdge>, root: VertexID, s: Visit, v: VertexID)
    requires v in Vertices(edges) && v !in s.colors
    ensures |Vertices(edges) + {root} - s.colors[v := Gray].Keys| < |Vertices(edges) + {root} - s.colors.Keys|
  {
    assert Vertices(edges) + {root} - s.colors[v := Gray].Keys == (Vertices(edges) + {root} - s.colors.Keys) - {v};
  }

  lemma NextIsVertex(edges: seq<GraphEdge>, root: VertexID, s: Visit)
    requires Invariant(edges, root, s) && s.path != [] && s.pending[|s.path| - 1] != []
    ensures s.pending[|s.path| - 1][0] in Vertices(edges)
  {
    var n := |s.path| - 1;
    assert s.pending[n][0] in s.pending[n];
    TargetIsVertex(edges, s.path[n], s.pending[n][0]);
  }

  /** How many vertices are still white. */
  ghost function White(edges: seq<GraphEdge>, root: VertexID, s: Visit): nat {
    |Vertices(edges) + {root} - s.colors.Keys|
  }

  lemma FinishShrinks(edges: seq<GraphEdge>, root: VertexID, s: Visit)
    requires |s.path| == |s.pending| > 0 && s.path[|s.path| - 1] in s.colors
    ensures White(edges, root, Finish(s)) == White(edges, root, s)
    ensures Weight(Finish(s).pending) < Weight(s.pending)
  {
    assert Finish(s).colors.Keys == s.colors.Keys;
  }

  lemma ExamineShrinks(edges: seq<GraphEdge>, root: VertexID, s: Visit)
    requires |s.path| == |s.pending| > 0 && s.pending[|s.path| - 1] != []
    requires s.pending[|s.path| - 1][0] in Vertices(edges)
    ensures White(edges, root, Examine(edges, s)) < White(edges, root, s)
         || (White(edges, root, Examine(edges, s)) == White(edges, root, s) && Weight(Examine(edges, s).pending) < Weight(s.pending))
  {
    var n := |s.pending| - 1;
    var v := s.pending[n][0];
    if v !in s.colors {
      DiscoverShrinksWhite(edges, root, s, v);
    } else {
      assert s.pending[n := s.pending[n][1..]][..n] == s.pending[..n];
    }
  }

  /** What the loop of the visit needs of one step. */
  ghost predicate Advances(edges: seq<GraphEdge>, root: VertexID, s: Visit, t: Visit) {
    && Invariant(edges, root, t)
    && (White(edges, root, t) < White(edges, root, s)
        || (White(edges, root, t) == White(edges, root, s) && Weight(t.pending) < Weight(s.pending)))
  }

  lemma FinishAdvances(edges: seq<GraphEdge>, root: VertexID, s: Visit)
    requires Invariant(edges, root, s) && s.path != [] && s.pending[|s.path| - 1] == []
    ensures Advances(edges, root, s, Finish(s))
  {
    FinishKeepsInvariant(edges, root, s);
    assert s.path[|s.path| - 1] in s.path;
    FinishShrinks(edges, root, s);
  }

  lemma ExamineAdvances(edges: seq<GraphEdge>, root: VertexID, s: Visit)
    requires Invariant(edges, root, s) && s.path != [] && s.pending[|s.path| - 1] != []
    ensures Advances(edges, root, s, Examine(edges, s))
  {
    ExamineKeepsInvariant(edges, root, s);
    NextIsVertex(edges, root, s);
    ExamineShrinks(edges, root, s);
  }

  /**
   Visits everything reachable from the root, keeping a flag for back edges. Once the flag is set
   newly discovered vertices are not expanded any more. The flag ends up set exactly when some
   cycle can be reached from the root.
   */
  method DepthFirstVisit(edges: seq<GraphEdge>, root: VertexID) returns (backEdge: bool)
    ensures backEdge <==> CycleReachable(Links(edges), root)
  {
    var colors: map<VertexID, Color> := map[root := Gray];
    var path, pending := [root], [OutTargets(edges, root)];
    backEdge := false;
    ghost var finished: seq<VertexID> := [];
    while path != []
      invariant Invariant(edges, root, Visit(colors, path, pending, finished, backEdge))
      decreases White(edges, root, Visit(colors, path, pending, finished, backEdge)), Weight(pending)
    {
      ghost var s := Visit(colors, path, pending, finished, backEdge);
      var n := |path| - 1;
      if pending[n] == [] {
        FinishAdvances(edges, root, s);
        colors := colors[path[n] := Black];
        finished := finished + [path[n]];
        path, pending := path[..n], pending[..n];
        assert Visit(colors, path, pending, finished, backEdge) == Finish(s);
      } else {
        ExamineAdvances(edges, root, s);
        var v := pending[n][0];
        pending := pending[n := pending[n][1..]];
        if v !in colors {
          colors := colors[v := Gray];
          path := path + [v];
          pending := pending + [if backEdge then [] else OutTargets(edges, v)];
        } else if colors[v].Gray? {
          backEdge := true;
        }
        assert Visit(colors, path, pending, finished, backEdge) == Examine(edges, s);
      }
    }
    if !backEdge {
      FinishOrderAcyclic(Links(edges), finished, root);
    }
  }
}
