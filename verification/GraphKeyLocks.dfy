/**
 The key-lock graph: vertices are handles indexed by `vertexes`, edges are a list of labelled
 (source, target) pairs. Every operation is specified by its effect on the abstract lock table.
 */
module KeyLocks {
  import opened Types
  import opened Orders
  import opened Reach
  import opened LockTable
  import opened DepthFirst

  /** The lock edge that a stored edge stands for. */
  function EdgeMeaning(property: map<VertexID, Vertex>, e: GraphEdge): LockEdge
    requires WellTyped(property, e)
  {
    if property[e.source].Key? then Own(property[e.source].lock, property[e.target].id, e.frame)
    else Request(property[e.target].lock, property[e.source].id, e.frame)
  }

  /** Edges join a key and a context, in either direction. */
  predicate WellTyped(property: map<VertexID, Vertex>, e: GraphEdge) {
    && e.source in property && e.target in property
    && (property[e.source].Key? <==> property[e.target].Context?)
  }

  ghost predicate Bijection(index: map<Vertex, VertexID>, property: map<VertexID, Vertex>) {
    && (forall v :: v in index ==> index[v] in property && property[index[v]] == v)
    && (forall i :: i in property ==> property[i] in index && index[property[i]] == i)
  }

  ghost function Meaning(property: map<VertexID, Vertex>, edges: seq<GraphEdge>): Table
    requires forall e :: e in edges ==> WellTyped(property, e)
  {
    set e | e in edges :: EdgeMeaning(property, e)
  }

  /** The stored edge for a lock edge. */
  ghost function Stored(index: map<Vertex, VertexID>, e: LockEdge): GraphEdge
    requires Key(e.lock) in index && Context(e.context) in index
  {
    if e.Own? then GraphEdge(index[Key(e.lock)], index[Context(e.context)], e.frame)
    else GraphEdge(index[Context(e.context)], index[Key(e.lock)], e.frame)
  }

  /** A lock edge is in the table exactly when its stored form is in the list. */
  lemma MeaningMember(index: map<Vertex, VertexID>, property: map<VertexID, Vertex>, edges: seq<GraphEdge>, e: LockEdge)
    requires Bijection(index, property) && forall x :: x in edges ==> WellTyped(property, x)
    ensures e in Meaning(property, edges) <==>
              Key(e.lock) in index && Context(e.context) in index && Stored(index, e) in edges
  {
    if e in Meaning(property, edges) {
      var x :| x in edges && EdgeMeaning(property, x) == e;
      assert WellTyped(property, x);
      assert property[x.source] in index && property[x.target] in index;
      assert Stored(index, e) == x;
    }
    if Key(e.lock) in index && Context(e.context) in index && Stored(index, e) in edges {
      assert WellTyped(property, Stored(index, e));
      assert EdgeMeaning(property, Stored(index, e)) == e;
    }
  }

  predicate AtSide(e: GraphEdge, id: VertexID, incoming: bool, other: Option<VertexID>) {
    && (if incoming then e.target else e.source) == id
    && (other.Some? ==> (if incoming then e.source else e.target) == other.value)
  }

  predicate HasLabel(e: GraphEdge, frame: Option<FrameSeq>) {
    frame.Some? ==> e.frame == frame.value
  }

  ghost predicate NoRepeats(edges: seq<GraphEdge>) {
    forall i, j :: 0 <= i < j < |edges| ==> edges[i] != edges[j]
  }

  /** What is left of an edge list after a removal. */
  ghost function Kept(
      edges: seq<GraphEdge>, id: VertexID, incoming: bool, other: Option<VertexID>, frame: Option<FrameSeq>): seq<GraphEdge>
  {
    if edges == [] then []
    else
      var n := |edges| - 1;
      var r := Kept(edges[..n], id, incoming, other, frame);
      if AtSide(edges[n], id, incoming, other) && HasLabel(edges[n], frame) then r else r + [edges[n]]
  }

  lemma {:induction false} KeptMember(
      edges: seq<GraphEdge>, id: VertexID, incoming: bool, other: Option<VertexID>, frame: Option<FrameSeq>)
    ensures forall e :: e in Kept(edges, id, incoming, other, frame) <==>
                          e in edges && !(AtSide(e, id, incoming, other) && HasLabel(e, frame))
    ensures NoRepeats(edges) ==> NoRepeats(Kept(edges, id, incoming, other, frame))
  {
    if edges != [] {
      var n := |edges| - 1;
      KeptMember(edges[..n], id, incoming, other, frame);
      assert edges == edges[..n] + [edges[n]];
    }
  }

  function RemoveAt(s: seq<GraphEdge>, i: nat): seq<GraphEdge>
    requires i < |s|
  {
    s[..i] + s[i + 1..]
  }

  lemma Splice(s: seq<GraphEdge>, left: seq<GraphEdge>, before: seq<GraphEdge>, j: nat)
    requires j < |before| && s == left + before[j..]
    ensures s[|left|] == before[j]
    ensures RemoveAt(s, |left|) == left + before[j + 1..]
    ensures s == left + [before[j]] + before[j + 1..]
  {
  }

  ghost predicate AllLabelled(
      edges: seq<GraphEdge>, id: VertexID, incoming: bool, other: Option<VertexID>, frame: Option<FrameSeq>)
  {
    forall e :: e in edges && AtSide(e, id, incoming, other) ==> HasLabel(e, frame)
  }

  lemma AllLabelledStep(
      edges: seq<GraphEdge>, j: nat, id: VertexID, incoming: bool, other: Option<VertexID>, frame: Option<FrameSeq>)
    requires j < |edges|
    ensures AllLabelled(edges[..j + 1], id, incoming, other, frame) <==>
              AllLabelled(edges[..j], id, incoming, other, frame) && (AtSide(edges[j], id, incoming, other) ==> HasLabel(edges[j], frame))
    ensures Kept(edges[..j + 1], id, incoming, other, frame) ==
            if AtSide(edges[j], id, incoming, other) && HasLabel(edges[j], frame)
            then Kept(edges[..j], id, incoming, other, frame)
            else Kept(edges[..j], id, incoming, other, frame) + [edges[j]]
  {
    assert edges[..j + 1] == edges[..j] + [edges[j]] && edges[..j + 1][..j] == edges[..j];
  }

  /** After looking at j edges: the edges before the iterator are the kept ones, those after it the unseen ones. */
  ghost predicate Removing(before: seq<GraphEdge>, j: nat, edges: seq<GraphEdge>, i: nat,
      id: VertexID, incoming: bool, other: Option<VertexID>, frame: Option<FrameSeq>)
  {
    && j <= |before| && i == |Kept(before[..j], id, incoming, other, frame)|
    && edges == Kept(before[..j], id, incoming, other, frame) + before[j..]
  }

  lemma RemovingStep(before: seq<GraphEdge>, j: nat, edges: seq<GraphEdge>, i: nat,
      id: VertexID, incoming: bool, other: Option<VertexID>, frame: Option<FrameSeq>)
    requires Removing(before, j, edges, i, id, incoming, other, frame) && i < |edges|
    ensures j < |before| && edges[i] == before[j]
    ensures if AtSide(edges[i], id, incoming, other) && HasLabel(edges[i], frame)
            then Removing(before, j + 1, RemoveAt(edges, i), i, id, incoming, other, frame)
            else Removing(before, j + 1, edges, i + 1, id, incoming, other, frame)
    ensures AllLabelled(before[..j + 1], id, incoming, other, frame) <==>
              AllLabelled(before[..j], id, incoming, other, frame) && (AtSide(edges[i], id, incoming, other) ==> HasLabel(edges[i], frame))
  {
    AllLabelledStep(before, j, id, incoming, other, frame);
    Splice(edges, Kept(before[..j], id, incoming, other, frame), before, j);
  }

  lemma RemovingDone(before: seq<GraphEdge>, j: nat, edges: seq<GraphEdge>, i: nat,
      id: VertexID, incoming: bool, other: Option<VertexID>, frame: Option<FrameSeq>)
    requires Removing(before, j, edges, i, id, incoming, other, frame) && i == |edges|
    ensures before[..j] == before && edges == Kept(before, id, incoming, other, frame)
  {
    assert before[..j] == before;
  }

  class GraphKeyLocks {
    var vertexes: map<Vertex, VertexID>   // index of the vertices
    var property: map<VertexID, Vertex>   // vertices of the graph and what they stand for
    var edges: seq<GraphEdge>             // edges of the graph
    var nextID: VertexID                  // next unused handle

    /** Shape of the graph, which also holds in the middle of an operation. */
    ghost predicate Shape()
      reads this
    {
      && Bijection(vertexes, property)
      && (forall i :: i in property ==> i < nextID)
      && (forall e :: e in edges ==> WellTyped(property, e))
      && NoRepeats(edges)
    }

    /** The lock table the graph stands for. */
    ghost function Table(): Table
      reads this
      requires Shape()
    {
      Meaning(property, edges)
    }

    /** Between operations a context is a vertex exactly when it has an edge. */
    ghost predicate Valid()
      reads this
    {
      && Shape()
      && Consistent(Table())
      && (forall c :: Context(c) in vertexes <==> HasEdge(Table(), c))
    }

    constructor ()
      ensures Valid() && Table() == {}
    {
      vertexes, property, edges, nextID := map[], map[], [], 0;
    }

    method Touch(v: Vertex) returns (id: VertexID)
      requires Shape()
      modifies this
      ensures Shape() && Table() == old(Table())
      ensures vertexes.Keys == old(vertexes.Keys) + {v} && vertexes[v] == id
      ensures edges == old(edges) && (forall i :: i in old(property) ==> i in property && property[i] == old(property[i]))
    {
      if v in vertexes {
        id := vertexes[v];
      } else {
        id := nextID;
        vertexes := vertexes[v := id];
        property := property[id := v];
        nextID := nextID + 1;
        SameMeaning(old(property), property, edges);
      }
    }

    static lemma SameMeaning(p: map<VertexID, Vertex>, q: map<VertexID, Vertex>, edges: seq<GraphEdge>)
      requires forall e :: e in edges ==> WellTyped(p, e)
      requires forall i :: i in p ==> i in q && q[i] == p[i]
      ensures forall e :: e in edges ==> WellTyped(q, e)
      ensures Meaning(q, edges) == Meaning(p, edges)
    {
      assert forall e :: e in edges ==> WellTyped(p, e) && EdgeMeaning(p, e) == EdgeMeaning(q, e);
    }

    /** Adds a labelled edge unless the same edge with the same label is already there. */
    method AddEdge(source: VertexID, target: VertexID, frame: FrameSeq)
      requires Shape() && WellTyped(property, GraphEdge(source, target, frame))
      modifies this`edges
      ensures Shape()
      ensures Table() == old(Table()) + {EdgeMeaning(property, GraphEdge(source, target, frame))}
    {
      var e := GraphEdge(source, target, frame);
      var exists_ := false;
      for i := 0 to |edges|
        invariant exists_ <==> e in edges[..i]
      {
        if edges[i].source == source && edges[i].target == target && edges[i].frame == frame {
          exists_ := true;
        }
      }
      assert edges[..|edges|] == edges;
      if !exists_ {
        edges := edges + [e];
      }
      forall x ensures x in Table() <==> x in old(Table()) || x == EdgeMeaning(property, e) {
        if x in old(Table()) {
          var y :| y in old(edges) && EdgeMeaning(property, y) == x;
          assert y in edges;
        }
        assert e in edges;
      }
    }

    /**
     Removes, in place, the edges on one side of a vertex: all of them if `frame` is None, otherwise those
     with that label. `other` restricts the removal to the edges shared with another vertex. The answer is
     whether every edge looked at was removed.
     */
    method RemoveEdges(id: VertexID, incoming: bool, other: Option<VertexID>, frame: Option<FrameSeq>) returns (cleared: bool)
      requires Shape()
      modifies this`edges
      ensures Shape()
      ensures forall e :: e in edges <==> e in old(edges) && !(AtSide(e, id, incoming, other) && HasLabel(e, frame))
      ensures cleared <==> forall e :: e in edges ==> !AtSide(e, id, incoming, other)
    {
      cleared := RemoveInPlace(id, incoming, other, frame);
      KeptMember(old(edges), id, incoming, other, frame);
    }

    /** The removal loop: walks the list, unlinks what matches and counts. */
    method RemoveInPlace(id: VertexID, incoming: bool, other: Option<VertexID>, frame: Option<FrameSeq>) returns (cleared: bool)
      modifies this`edges
      ensures edges == Kept(old(edges), id, incoming, other, frame)
      ensures cleared <==> AllLabelled(old(edges), id, incoming, other, frame)
    {
      var i: nat, total, removed := 0, 0, 0;
      ghost var before, j: nat := edges, 0;
      while i < |edges|
        invariant i <= |edges| && j >= 0 && Removing(before, j, edges, i, id, incoming, other, frame)
        invariant removed <= total
        invariant removed == total <==> AllLabelled(before[..j], id, incoming, other, frame)
        decreases |edges| - i
      {
        var e := edges[i];
        RemovingStep(before, j, edges, i, id, incoming, other, frame);
        if AtSide(e, id, incoming, other) { total := total + 1; }
        if AtSide(e, id, incoming, other) && HasLabel(e, frame) {
          removed := removed + 1;
          edges := RemoveAt(edges, i);
        } else {
          i := i + 1;
        }
        j := j + 1;
      }
      RemovingDone(before, j, edges, i, id, incoming, other, frame);
      cleared := total == removed;
    }

    /** Re-reads the table after an edit of the edge list that is described edge by edge. */
    twostate lemma TableMembers(keep: LockEdge -> bool)
      requires old(Shape()) && Shape()
      requires vertexes == old(vertexes) && property == old(property)
      requires forall e :: e in edges <==> e in old(edges) && keep(EdgeMeaning(property, e))
      ensures forall x :: x in Table() <==> x in old(Table()) && keep(x)
    {
      forall x ensures x in Table() <==> x in old(Table()) && keep(x) {
        MeaningMember(vertexes, property, edges, x);
        MeaningMember(vertexes, property, old(edges), x);
        if Key(x.lock) in vertexes && Context(x.context) in vertexes && Stored(vertexes, x) in old(edges) {
          assert EdgeMeaning(property, Stored(vertexes, x)) == x;
        }
      }
    }

    /** Walks the edges that leave a key and looks for a context other than c. */
    method HeldByOther(l: KeyLock, c: ContextID) returns (held: bool)
      requires Shape() && Key(l) in vertexes
      ensures held <==> OwnedByOther(Table(), l, c)
    {
      var keyID := vertexes[Key(l)];
      for i := 0 to |edges|
        invariant forall e :: e in edges[..i] && e.source == keyID ==> e.target in property && property[e.target] == Context(c)
      {
        var e := edges[i];
        assert e in edges && WellTyped(property, e);
        if e.source == keyID && property[e.target].id != c {
          assert EdgeMeaning(property, e) in Table();
          return true;
        }
      }
      assert edges[..|edges|] == edges;
      NoOtherOwner(l, c);
      return false;
    }

    method Grant(keyID: VertexID, contextID: VertexID, s: FrameSeq)
      requires Shape()
      requires keyID in property && property[keyID].Key? && contextID in property && property[contextID].Context?
      requires !OwnedByOther(Table(), property[keyID].lock, property[contextID].id)
      modifies this`edges
      ensures Shape()
      ensures Table() == Acquire(old(Table()), property[keyID].lock, property[contextID].id, s)
    {
      ghost var l, c := property[keyID].lock, property[contextID].id;
      var _ := RemoveEdges(contextID, false, Some(keyID), None);
      assert vertexes[Key(l)] == keyID && vertexes[Context(c)] == contextID;
      TableMembers((e: LockEdge) => !(e.Request? && e.lock == l && e.context == c));
      AddEdge(keyID, contextID, s);
    }

    /** Takes a key lock for a frame of a context, or records that the frame waits for it. */
    method AcquireKeyLock(contract: string, key: string, c: ContextID, s: FrameSeq) returns (ok: bool)
      requires Valid()
      modifies this
      ensures Valid()
      ensures ok <==> !OwnedByOther(old(Table()), KeyLock(contract, key), c)
      ensures Table() == Acquire(old(Table()), KeyLock(contract, key), c, s)
    {
      var l := KeyLock(contract, key);
      var keyID := Touch(Key(l));
      var contextID := Touch(Context(c));
      var held := HeldByOther(l, c);
      if held {
        AddEdge(contextID, keyID, s);
      } else {
        Grant(keyID, contextID, s);
      }
      ok := !held;
      AcquireKeepsConsistent(old(Table()), l, c, s);
      ContextsHaveEdges(old(vertexes.Keys), old(Table()), l, c, s);
    }

    lemma NoOtherOwner(l: KeyLock, c: ContextID)
      requires Shape() && Key(l) in vertexes
      requires forall e :: e in edges && e.source == vertexes[Key(l)] ==> e.target in property && property[e.target] == Context(c)
      ensures !OwnedByOther(Table(), l, c)
    {
      if OwnedByOther(Table(), l, c) {
        var e :| e in Table() && e.Own? && e.lock == l && e.context != c;
        MeaningMember(vertexes, property, edges, e);
        assert false;
      }
    }

    lemma ContextsHaveEdges(before: set<Vertex>, t: Table, l: KeyLock, c: ContextID, s: FrameSeq)
      requires Shape() && Table() == Acquire(t, l, c, s)
      requires vertexes.Keys == before + {Key(l)} + {Context(c)}
      requires forall x :: Context(x) in before <==> HasEdge(t, x)
      ensures forall x :: Context(x) in vertexes <==> HasEdge(Table(), x)
    {
      assert (if OwnedByOther(t, l, c) then Request(l, c, s) else Own(l, c, s)) in Table();
      forall x | x != c ensures HasEdge(t, x) <==> HasEdge(Table(), x) {
        if e :| e in t && e.context == x { AcquireMember(t, l, c, s, e); }
        if e :| e in Table() && e.context == x { AcquireMember(t, l, c, s, e); }
      }
    }

    /** Acquires the keys a reply says it holds; a refusal is the scheduler's UnexpectedKeyLockError. */
    method BatchAcquireKeyLock(contract: string, keys: seq<string>, c: ContextID, s: FrameSeq) returns (unexpected: bool)
      requires Valid()
      modifies this
      ensures Valid()
      ensures (Table(), !unexpected) == BatchAcquire(old(Table()), contract, keys, c, s)
    {
      for i := 0 to |keys|
        invariant Valid()
        invariant BatchAcquire(Table(), contract, keys[i..], c, s) == BatchAcquire(old(Table()), contract, keys, c, s)
      {
        assert keys[i..][0] == keys[i] && keys[i..][1..] == keys[i + 1..];
        var ok := AcquireKeyLock(contract, keys[i], c, s);
        if !ok { return true; }
      }
      return false;
    }

    /** Collects, in order and without repetition, the keys of a contract that other contexts own. */
    method GetKeyLocksNotHoldingByContext(contract: string, exclude: ContextID) returns (keys: seq<string>)
      requires Valid()
      ensures keys == SortedSeq(NotHolding(Table(), contract, exclude))
    {
      keys := [];
      for i := 0 to |edges|
        invariant StrictlySorted(keys)
        invariant forall k :: k in keys <==> k in NotHolding(Meaning(property, edges[..i]), contract, exclude)
      {
        var e := edges[i];
        assert e in edges && edges[..i + 1] == edges[..i] + [e];
        ghost var t, u := Meaning(property, edges[..i]), Meaning(property, edges[..i + 1]);
        assert u == t + {EdgeMeaning(property, e)};
        if property[e.target].Context? && property[e.target].id != exclude
           && property[e.source].Key? && property[e.source].lock.contract == contract
        {
          keys := InsertUnique(keys, property[e.source].lock.key);
          NotHoldingGrows(t, EdgeMeaning(property, e), contract, exclude);
        } else {
          NotHoldingGrows(t, EdgeMeaning(property, e), contract, exclude);
        }
      }
      assert edges[..|edges|] == edges;
      SortedUnique(keys, SortedSeq(NotHolding(Table(), contract, exclude)));
    }

    static lemma NotHoldingGrows(t: Table, e: LockEdge, contract: string, c: ContextID)
      ensures NotHolding(t + {e}, contract, c) ==
              NotHolding(t, contract, c) + (if e.Own? && e.context != c && e.lock.contract == contract then {e.lock.key} else {})
    {
      var u := t + {e};
      forall k ensures k in NotHolding(u, contract, c) <==>
                         k in NotHolding(t, contract, c) || (e.Own? && e.context != c && e.lock.contract == contract && k == e.lock.key)
      {
        if k in NotHolding(t, contract, c) {
          var x :| x in t && x.Own? && x.context != c && x.lock.contract == contract && x.lock.key == k;
          assert x in u;
        }
        if k in NotHolding(u, contract, c) {
          var x :| x in u && x.Own? && x.context != c && x.lock.contract == contract && x.lock.key == k;
        }
        assert e in u;
      }
    }

    /** Removes the edges of one frame, on both sides of its context. */
    method RemoveFrame(c: ContextID, s: FrameSeq) returns (cleared: bool)
      requires Shape() && Context(c) in vertexes
      modifies this`edges
      ensures Shape() && Table() == Release(old(Table()), c, s)
      ensures cleared <==> !HasEdge(Table(), c)
    {
      var id := vertexes[Context(c)];
      var clearedIn := RemoveEdges(id, true, None, Some(s));
      var clearedOut := RemoveEdges(id, false, None, Some(s));
      forall e | e in old(edges)
        ensures EdgeMeaning(property, e).context == c <==> e.source == id || e.target == id
      {
        EndpointIsContext(e, c);
      }
      TableMembers((e: LockEdge) => !(e.context == c && e.frame == s));
      HasEdgeAt(c);
      cleared := clearedIn && clearedOut;
    }

    /** Removes a context that has no edges from the graph and from the index. */
    method RemoveContext(c: ContextID)
      requires Shape() && Context(c) in vertexes && !HasEdge(Table(), c)
      modifies this`vertexes, this`property
      ensures Shape() && Table() == old(Table())
      ensures vertexes.Keys == old(vertexes.Keys) - {Context(c)}
    {
      var id := vertexes[Context(c)];
      HasEdgeAt(c);
      property := map i | i in property && i != id :: property[i];
      vertexes := map v | v in vertexes && v != Context(c) :: vertexes[v];
      assert forall e :: e in edges ==> !AtSide(e, id, true, None) && !AtSide(e, id, false, None);
      SameMeaning(property, old(property), edges);
    }

    /** Drops every lock and every request of one frame; a context left without edges leaves the graph. */
    method ReleaseKeyLocks(c: ContextID, s: FrameSeq)
      requires Valid()
      modifies this
      ensures Valid()
      ensures Table() == Release(old(Table()), c, s)
    {
      var _ := Touch(Context(c));
      var cleared := RemoveFrame(c, s);
      if cleared {
        RemoveContext(c);
      }
      ReleaseKeepsConsistent(old(Table()), c, s);
      forall x ensures Context(x) in vertexes <==> HasEdge(Table(), x) {
        ReleaseEdges(old(Table()), c, s, x);
      }
    }

    lemma EndpointIsContext(e: GraphEdge, c: ContextID)
      requires Bijection(vertexes, property) && Context(c) in vertexes && WellTyped(property, e)
      ensures EdgeMeaning(property, e).context == c <==> e.source == vertexes[Context(c)] || e.target == vertexes[Context(c)]
    {
    }

    lemma HasEdgeAt(c: ContextID)
      requires Shape() && Context(c) in vertexes
      ensures HasEdge(Table(), c) <==>
                exists e :: e in edges && (AtSide(e, vertexes[Context(c)], true, None) || AtSide(e, vertexes[Context(c)], false, None))
    {
      if HasEdge(Table(), c) {
        var x :| x in Table() && x.context == c;
        var e :| e in edges && EdgeMeaning(property, e) == x;
        EndpointIsContext(e, c);
      }
      if e :| e in edges && (AtSide(e, vertexes[Context(c)], true, None) || AtSide(e, vertexes[Context(c)], false, None)) {
        EndpointIsContext(e, c);
        assert EdgeMeaning(property, e) in Table();
      }
    }

    static lemma ReleaseEdges(t: Table, c: ContextID, s: FrameSeq, x: ContextID)
      ensures x != c ==> (HasEdge(Release(t, c, s), x) <==> HasEdge(t, x))
    {
      if x != c && HasEdge(t, x) {
        var e :| e in t && e.context == x;
        assert e in Release(t, c, s);
      }
    }

    /** The stored graph and the lock graph are the same graph up to the names of the vertices. */
    lemma SameGraph()
      requires Shape()
      ensures Carries(Links(edges), GraphOf(Table()), property)
      ensures Carries(GraphOf(Table()), Links(edges), vertexes)
    {
      var g, h := Links(edges), GraphOf(Table());
      forall x, y | (x, y) in g ensures x in property && y in property && (property[x], property[y]) in h {
        var e :| e in edges && (e.source, e.target) == (x, y);
        EdgeInGraph(Table(), EdgeMeaning(property, e));
      }
      forall u, v | (u, v) in h ensures u in vertexes && v in vertexes && (vertexes[u], vertexes[v]) in g {
        var e := EdgeAt(Table(), u, v);
        MeaningMember(vertexes, property, edges, e);
      }
    }

    /** Whether c owns a key and a cycle of waiting can be reached from c. */
    method DetectDeadLock(c: ContextID) returns (deadLock: bool)
      requires Valid()
      ensures deadLock <==> DeadLocked(Table(), c)
    {
      if Context(c) !in vertexes {
        assert !HasEdge(Table(), c);
        return false;
      }
      var id := vertexes[Context(c)];
      var inDegree := 0;
      for i := 0 to |edges|
        invariant inDegree >= 0
        invariant inDegree > 0 <==> exists e :: e in edges[..i] && e.target == id
      {
        assert edges[..i + 1] == edges[..i] + [edges[i]];
        if edges[i].target == id { inDegree := inDegree + 1; }
      }
      assert edges[..|edges|] == edges;
      InEdgeIsOwn(c);
      if inDegree == 0 {
        return false;
      }
      deadLock := DepthFirstVisit(edges, id);
      SameGraph();
      if deadLock { CycleReachableImage(Links(edges), GraphOf(Table()), property, id); }
      if CycleReachable(GraphOf(Table()), Context(c)) {
        CycleReachableImage(GraphOf(Table()), Links(edges), vertexes, Context(c));
      }
    }

    lemma InEdgeIsOwn(c: ContextID)
      requires Shape() && Context(c) in vertexes
      ensures (exists e :: e in edges && e.target == vertexes[Context(c)]) <==>
                exists e :: e in Table() && e.Own? && e.context == c
    {
      if e :| e in edges && e.target == vertexes[Context(c)] {
        assert WellTyped(property, e) && EdgeMeaning(property, e) in Table();
      }
      if x :| x in Table() && x.Own? && x.context == c {
        MeaningMember(vertexes, property, edges, x);
      }
    }
  }
}
