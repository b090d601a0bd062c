/**
 The abstract lock table: the labelled edges of the key-lock graph as a set of values.
 An Own edge runs from a key to a context, a Request edge from a context to a key.
 */
module LockTable {
  import opened Types
  import opened Reach

  datatype KeyLock = KeyLock(contract: string, key: string)

  datatype LockEdge =
    | Own(lock: KeyLock, context: ContextID, frame: FrameSeq)
    | Request(lock: KeyLock, context: ContextID, frame: FrameSeq)

  type Table = set<LockEdge>

  ghost predicate OwnedByOther(t: Table, l: KeyLock, c: ContextID) {
    exists e :: e in t && e.Own? && e.lock == l && e.context != c
  }

  ghost predicate HasEdge(t: Table, c: ContextID) {
    exists e :: e in t && e.context == c
  }

  /** Each key has at most one owning context, and nobody waits for a key it owns. */
  ghost predicate Consistent(t: Table) {
    && (forall e, f :: e in t && f in t && e.Own? && f.Own? && e.lock == f.lock ==> e.context == f.context)
    && (forall e, f :: e in t && f in t && e.Own? && f.Request? && e.lock == f.lock ==> e.context != f.context)
  }

  ghost function Acquire(t: Table, l: KeyLock, c: ContextID, s: FrameSeq): Table {
    if OwnedByOther(t, l, c) then t + {Request(l, c, s)}
    else (set e | e in t && !(e.Request? && e.lock == l && e.context == c)) + {Own(l, c, s)}
  }

  ghost function Release(t: Table, c: ContextID, s: FrameSeq): Table {
    set e | e in t && !(e.context == c && e.frame == s)
  }

  /** Acquires the keys of one contract in turn and stops at the first refusal. */
  ghost function BatchAcquire(t: Table, contract: string, keys: seq<string>, c: ContextID, s: FrameSeq): (Table, bool)
    decreases |keys|
  {
    if keys == [] then (t, true)
    else
      var l := KeyLock(contract, keys[0]);
      if OwnedByOther(t, l, c) then (Acquire(t, l, c, s), false)
      else BatchAcquire(Acquire(t, l, c, s), contract, keys[1..], c, s)
  }

  /** The keys of a contract that somebody other than c owns. */
  ghost function NotHolding(t: Table, contract: string, c: ContextID): set<string> {
    set e | e in t && e.Own? && e.context != c && e.lock.contract == contract :: e.lock.key
  }

  lemma NotHoldingIsRefusal(t: Table, contract: string, key: string, c: ContextID)
    ensures key in NotHolding(t, contract, c) <==> OwnedByOther(t, KeyLock(contract, key), c)
  {
    if e :| e in t && e.Own? && e.lock == KeyLock(contract, key) && e.context != c {
      assert e.lock.key in NotHolding(t, contract, c);
    }
  }

  // ---------------------------------------------------------------- effects of one operation

  lemma AcquireKeepsConsistent(t: Table, l: KeyLock, c: ContextID, s: FrameSeq)
    requires Consistent(t)
    ensures Consistent(Acquire(t, l, c, s))
  {
    var u := Acquire(t, l, c, s);
    if OwnedByOther(t, l, c) {
      var o :| o in t && o.Own? && o.lock == l && o.context != c;
      forall e, f | e in u && f in u && e.Own? && f.Request? && e.lock == f.lock
        ensures e.context != f.context
      {
        assert e in t;
        if f !in t { assert o.context == e.context; }
      }
    } else {
      forall e | e in u && e.Own? && e.lock == l ensures e.context == c {
        if e != Own(l, c, s) { assert e in t; }
      }
    }
  }

  lemma ReleaseKeepsConsistent(t: Table, c: ContextID, s: FrameSeq)
    requires Consistent(t)
    ensures Consistent(Release(t, c, s))
  {
  }

  /** What acquiring does to membership, edge by edge. */
  lemma AcquireMember(t: Table, l: KeyLock, c: ContextID, s: FrameSeq, e: LockEdge)
    ensures OwnedByOther(t, l, c) ==> (e in Acquire(t, l, c, s) <==> e in t || e == Request(l, c, s))
    ensures !OwnedByOther(t, l, c) ==>
              (e in Acquire(t, l, c, s) <==>
               e == Own(l, c, s) || (e in t && !(e.Request? && e.lock == l && e.context == c)))
    ensures e.context != c ==> (e in Acquire(t, l, c, s) <==> e in t)
  {
  }

  /** A batch acquire only ever touches edges of its own context and labels what it adds with its frame. */
  lemma {:induction false} BatchAcquireEdges(t: Table, contract: string, keys: seq<string>, c: ContextID, s: FrameSeq)
    ensures forall e :: e in BatchAcquire(t, contract, keys, c, s).0 && e !in t ==>
                          e.context == c && e.frame == s && e.lock.contract == contract && e.lock.key in keys
    ensures forall e :: e in t && e.context != c ==> e in BatchAcquire(t, contract, keys, c, s).0
    ensures forall e :: e in t && e.Own? ==> e in BatchAcquire(t, contract, keys, c, s).0
    ensures Consistent(t) ==> Consistent(BatchAcquire(t, contract, keys, c, s).0)
    decreases |keys|
  {
    if keys != [] {
      var l := KeyLock(contract, keys[0]);
      var u := Acquire(t, l, c, s);
      if Consistent(t) { AcquireKeepsConsistent(t, l, c, s); }
      if !OwnedByOther(t, l, c) {
        BatchAcquireEdges(u, contract, keys[1..], c, s);
        forall e | e in BatchAcquire(t, contract, keys, c, s).0 && e !in t
          ensures e.context == c && e.frame == s && e.lock.contract == contract && e.lock.key in keys
        {
          if e in u { assert e == Own(l, c, s); } else { assert e.lock.key in keys[1..]; }
        }
      }
    }
  }

  /** A batch acquire succeeds exactly when its keys avoid the list of keys held by others. */
  lemma {:induction false} BatchAcquireSucceeds(t: Table, contract: string, keys: seq<string>, c: ContextID, s: FrameSeq)
    ensures BatchAcquire(t, contract, keys, c, s).1 <==>
              forall k :: k in keys ==> k !in NotHolding(t, contract, c)
    ensures BatchAcquire(t, contract, keys, c, s).1 ==>
              forall k :: k in keys ==> Own(KeyLock(contract, k), c, s) in BatchAcquire(t, contract, keys, c, s).0
    decreases |keys|
  {
    if keys != [] {
      var l := KeyLock(contract, keys[0]);
      var u := Acquire(t, l, c, s);
      NotHoldingIsRefusal(t, contract, keys[0], c);
      assert keys == [keys[0]] + keys[1..];
      if !OwnedByOther(t, l, c) {
        BatchAcquireSucceeds(u, contract, keys[1..], c, s);
        BatchAcquireEdges(u, contract, keys[1..], c, s);
        assert Own(l, c, s) in u;
        forall k ensures k in NotHolding(u, contract, c) <==> k in NotHolding(t, contract, c) {
          NotHoldingIsRefusal(t, contract, k, c);
          NotHoldingIsRefusal(u, contract, k, c);
          OwnersOfOthersUnchanged(t, l, c, s, KeyLock(contract, k));
        }
      }
    }
  }

  /** The locks that keys of one contract stand for. */
  ghost predicate Named(l: KeyLock, contract: string, keys: seq<string>) {
    l.contract == contract && l.key in keys
  }

  /** What a successful batch acquire leaves: the keys are owned, the context's requests for them are gone. */
  lemma {:induction false} BatchAcquireExact(t: Table, contract: string, keys: seq<string>, c: ContextID, s: FrameSeq, d: LockEdge)
    requires BatchAcquire(t, contract, keys, c, s).1
    ensures d in BatchAcquire(t, contract, keys, c, s).0 <==>
              (d.Own? && d.context == c && d.frame == s && Named(d.lock, contract, keys))
              || (d in t && !(d.Request? && d.context == c && Named(d.lock, contract, keys)))
    decreases |keys|
  {
    if keys != [] {
      var l := KeyLock(contract, keys[0]);
      AcquireMember(t, l, c, s, d);
      BatchAcquireExact(Acquire(t, l, c, s), contract, keys[1..], c, s, d);
      assert keys == [keys[0]] + keys[1..];
    }
  }

  /** Acquiring never changes which keys are owned by somebody other than the acquirer. */
  lemma OwnersOfOthersUnchanged(t: Table, l: KeyLock, c: ContextID, s: FrameSeq, k: KeyLock)
    ensures OwnedByOther(Acquire(t, l, c, s), k, c) <==> OwnedByOther(t, k, c)
  {
    var u := Acquire(t, l, c, s);
    if OwnedByOther(t, k, c) {
      var e :| e in t && e.Own? && e.lock == k && e.context != c;
      assert e in u;
    }
    if OwnedByOther(u, k, c) {
      var e :| e in u && e.Own? && e.lock == k && e.context != c;
      assert e in t;
    }
  }

  // ---------------------------------------------------------------- refinement of a re-entrant lock table

  /** A held lock of the reference model: its owner and the non-empty set of frames that took it. */
  datatype Holder = Holder(owner: ContextID, frames: set<FrameSeq>)

  datatype Waiter = Waiter(lock: KeyLock, context: ContextID, frame: FrameSeq)

  /** The reference model of a re-entrant lock table: a key that is absent from `held` is free. */
  datatype Locks = Locks(held: map<KeyLock, Holder>, waiting: set<Waiter>) {
    ghost predicate Grants(l: KeyLock, c: ContextID) {
      l in held ==> held[l].owner == c
    }

    ghost function Take(l: KeyLock, c: ContextID, s: FrameSeq): Locks {
      if Grants(l, c) then
        Locks(held[l := Holder(c, (if l in held then held[l].frames else {}) + {s})],
              set w | w in waiting && !(w.lock == l && w.context == c))
      else
        Locks(held, waiting + {Waiter(l, c, s)})
    }

    /** A key becomes free exactly when the last frame that took it is released. */
    ghost function Drop(c: ContextID, s: FrameSeq): Locks {
      Locks(map l | l in held && held[l] != Holder(c, {s}) ::
              if held[l].owner == c then Holder(c, held[l].frames - {s}) else held[l],
            set w | w in waiting && !(w.context == c && w.frame == s))
    }
  }

  ghost predicate Represents(t: Table, locks: Locks) {
    && (forall l, c, s :: Own(l, c, s) in t <==>
                            l in locks.held && locks.held[l].owner == c && s in locks.held[l].frames)
    && (forall l :: l in locks.held ==> locks.held[l].frames != {})
    && (forall l, c, s :: Request(l, c, s) in t <==> Waiter(l, c, s) in locks.waiting)
  }

  lemma EmptyOrHasFrame(frames: set<FrameSeq>)
    ensures frames == {} || exists s :: s in frames
  {
    if forall s :: s !in frames { assert frames == {}; }
  }

  lemma RefusalIsOwnership(t: Table, locks: Locks, l: KeyLock, c: ContextID)
    requires Represents(t, locks)
    ensures OwnedByOther(t, l, c) <==> !locks.Grants(l, c)
  {
    if OwnedByOther(t, l, c) {
      var e :| e in t && e.Own? && e.lock == l && e.context != c;
      assert Own(l, e.context, e.frame) in t;
    }
    if !locks.Grants(l, c) {
      EmptyOrHasFrame(locks.held[l].frames);
      var s :| s in locks.held[l].frames;
      assert Own(l, locks.held[l].owner, s) in t;
    }
  }

  lemma AcquireRefines(t: Table, locks: Locks, l: KeyLock, c: ContextID, s: FrameSeq)
    requires Represents(t, locks)
    ensures Represents(Acquire(t, l, c, s), locks.Take(l, c, s))
  {
    RefusalIsOwnership(t, locks, l, c);
    var u, next := Acquire(t, l, c, s), locks.Take(l, c, s);
    forall l', c', s' ensures Own(l', c', s') in u <==>
                                l' in next.held && next.held[l'].owner == c' && s' in next.held[l'].frames
    {
      AcquireMember(t, l, c, s, Own(l', c', s'));
    }
    forall l', c', s' ensures Request(l', c', s') in u <==> Waiter(l', c', s') in next.waiting {
      AcquireMember(t, l, c, s, Request(l', c', s'));
    }
  }

  lemma RemoveKeepsMember(frames: set<FrameSeq>, s: FrameSeq)
    ensures frames - {s} == {} && frames != {} ==> frames == {s}
  {
    if frames - {s} == {} {
      assert forall x :: x in frames ==> x == s || x in frames - {s};
    }
  }

  lemma ReleaseRefines(t: Table, locks: Locks, c: ContextID, s: FrameSeq)
    requires Represents(t, locks)
    ensures Represents(Release(t, c, s), locks.Drop(c, s))
  {
    var u, next := Release(t, c, s), locks.Drop(c, s);
    forall l, c', s' ensures Own(l, c', s') in u <==>
                               l in next.held && next.held[l].owner == c' && s' in next.held[l].frames
    {
      assert Own(l, c', s') in u <==> Own(l, c', s') in t && !(c' == c && s' == s);
    }
    forall l | l in next.held ensures next.held[l].frames != {} {
      if locks.held[l].owner == c {
        RemoveKeepsMember(locks.held[l].frames, s);
      }
    }
  }

  datatype Op = AcquireOp(lock: KeyLock, context: ContextID, frame: FrameSeq) | ReleaseOp(context: ContextID, frame: FrameSeq)

  ghost function After(ops: seq<Op>): Table {
    if ops == [] then {} else
      var t, op := After(ops[..|ops| - 1]), ops[|ops| - 1];
      match op
      case AcquireOp(l, c, s) => Acquire(t, l, c, s)
      case ReleaseOp(c, s) => Release(t, c, s)
  }

  ghost function LocksAfter(ops: seq<Op>): Locks {
    if ops == [] then Locks(map[], {}) else
      var locks, op := LocksAfter(ops[..|ops| - 1]), ops[|ops| - 1];
      match op
      case AcquireOp(l, c, s) => locks.Take(l, c, s)
      case ReleaseOp(c, s) => locks.Drop(c, s)
  }

  /**
   After any sequence of acquire and release calls the edges are exactly the contents of the
   re-entrant lock table that received the same calls, the next acquire is granted by the one
   exactly when it is granted by the other, and the table is consistent.
   */
  lemma {:induction false} EveryRunRefinesReentrantLocks(ops: seq<Op>, l: KeyLock, c: ContextID)
    ensures Represents(After(ops), LocksAfter(ops))
    ensures OwnedByOther(After(ops), l, c) <==> !LocksAfter(ops).Grants(l, c)
    ensures Consistent(After(ops))
    decreases |ops|
  {
    if ops != [] {
      var n := |ops| - 1;
      EveryRunRefinesReentrantLocks(ops[..n], l, c);
      var t, locks := After(ops[..n]), LocksAfter(ops[..n]);
      match ops[n] {
        case AcquireOp(l', c', s') =>
          AcquireRefines(t, locks, l', c', s');
          AcquireKeepsConsistent(t, l', c', s');
        case ReleaseOp(c', s') =>
          ReleaseRefines(t, locks, c', s');
          ReleaseKeepsConsistent(t, c', s');
      }
    }
    RefusalIsOwnership(After(ops), LocksAfter(ops), l, c);
  }

  // ---------------------------------------------------------------- deadlock

  datatype Vertex = Context(id: ContextID) | Key(lock: KeyLock)

  /** The lock graph without its labels. */
  ghost function GraphOf(t: Table): Graph<Vertex> {
    set e | e in t :: if e.Own? then (Key(e.lock), Context(e.context)) else (Context(e.context), Key(e.lock))
  }

  lemma EdgeInGraph(t: Table, e: LockEdge)
    requires e in t
    ensures e.Own? ==> (Key(e.lock), Context(e.context)) in GraphOf(t)
    ensures e.Request? ==> (Context(e.context), Key(e.lock)) in GraphOf(t)
  {
  }

  lemma EdgeAt(t: Table, u: Vertex, v: Vertex) returns (e: LockEdge)
    requires (u, v) in GraphOf(t)
    ensures e in t
    ensures e.Own? ==> u == Key(e.lock) && v == Context(e.context)
    ensures e.Request? ==> u == Context(e.context) && v == Key(e.lock)
  {
    e :| e in t && (u, v) == if e.Own? then (Key(e.lock), Context(e.context)) else (Context(e.context), Key(e.lock));
  }

  /** What `detectDeadLock` answers: c owns some key, and a cycle can be reached from c. */
  ghost predicate DeadLocked(t: Table, c: ContextID) {
    OwnsSome(t, c) && CycleReachable(GraphOf(t), Context(c))
  }

  ghost predicate OwnsSome(t: Table, c: ContextID) {
    exists e :: e in t && e.Own? && e.context == c
  }

  ghost predicate WaitsForMember(t: Table, w: set<ContextID>, c: ContextID) {
    exists e, f :: e in t && e.Request? && e.context == c && f in t && f.Own? && f.lock == e.lock && f.context in w
  }

  /** A non-empty set of contexts, each of which waits for a key that a member of the set owns. */
  ghost predicate WaitingSet(t: Table, w: set<ContextID>) {
    w != {} && forall x {:trigger WaitsForMember(t, w, x)} :: x in w ==> WaitsForMember(t, w, x)
  }

  /** The members of w together with the keys they own. */
  ghost function Holdings(t: Table, w: set<ContextID>): set<Vertex> {
    (set x | x in w :: Context(x)) + (set f | f in t && f.Own? && f.context in w :: Key(f.lock))
  }

  lemma HoldingsClosed(t: Table, w: set<ContextID>)
    requires WaitingSet(t, w)
    ensures Closed(GraphOf(t), Holdings(t, w))
  {
    var g, vs := GraphOf(t), Holdings(t, w);
    forall v | v in vs ensures SuccessorIn(g, vs, v) {
      if v.Context? {
        assert WaitsForMember(t, w, v.id);
        var e, f :| e in t && e.Request? && e.context == v.id && f in t && f.Own? && f.lock == e.lock && f.context in w;
        EdgeInGraph(t, e);
        assert Key(f.lock) in vs && (v, Key(f.lock)) in g;
      } else {
        var f :| f in t && f.Own? && f.context in w && v == Key(f.lock);
        EdgeInGraph(t, f);
        assert Context(f.context) in vs && (v, Context(f.context)) in g;
      }
    }
  }

  /** If every member of a non-empty set waits for a key owned inside the set, some member is deadlocked. */
  lemma WaitingSetHasVictim(t: Table, w: set<ContextID>) returns (c: ContextID)
    requires Consistent(t) && WaitingSet(t, w)
    ensures c in w && DeadLocked(t, c)
  {
    var g, vs := GraphOf(t), Holdings(t, w);
    HoldingsClosed(t, w);
    var some :| some in w;
    assert Context(some) in vs;
    var v := ClosedSetHasCycle(g, vs);
    var next, prev := CycleNeighbours(g, v);
    if v.Key? {
      var f :| f in t && f.Own? && f.context in w && v == Key(f.lock);
      var e := EdgeAt(t, v, next);
      assert e.Own? && e.lock == f.lock;
      c := e.context;
    } else {
      c := v.id;
      var e := EdgeAt(t, prev, v);
      assert e.Own? && e.context == c;
    }
    ReachesSelf(g, Context(c));
  }

  /** The contexts on cycles. */
  ghost function Entangled(t: Table): set<ContextID> {
    set e | e in t && OnCycle(GraphOf(t), Context(e.context)) :: e.context
  }

  /** Going round a cycle, a context asks for a key that the next context on the cycle owns. */
  lemma NextOnCycle(t: Table, c: ContextID) returns (e: LockEdge, f: LockEdge)
    requires OnCycle(GraphOf(t), Context(c))
    ensures e in t && e.Request? && e.context == c
    ensures f in t && f.Own? && f.lock == e.lock && OnCycle(GraphOf(t), Context(f.context))
  {
    var lock, _ := CycleNeighbours(GraphOf(t), Context(c));
    e := EdgeAt(t, Context(c), lock);
    var owner, _ := CycleNeighbours(GraphOf(t), lock);
    f := EdgeAt(t, lock, owner);
  }

  lemma EntangledWait(t: Table, x: ContextID)
    requires x in Entangled(t)
    ensures WaitsForMember(t, Entangled(t), x)
  {
    var e, f := NextOnCycle(t, x);
    assert f.context in Entangled(t);
  }

  /** Some context is on any cycle. */
  lemma CycleHasContext(t: Table, v: Vertex)
    requires OnCycle(GraphOf(t), v)
    ensures Entangled(t) != {}
  {
    var next, _ := CycleNeighbours(GraphOf(t), v);
    var e := EdgeAt(t, v, next);
    assert e.context in Entangled(t);
  }

  /** Detection answers true for somebody exactly when some contexts wait for each other. */
  lemma DeadLockIsWaitingSet(t: Table)
    requires Consistent(t)
    ensures (exists d :: DeadLocked(t, d)) <==> exists w :: WaitingSet(t, w)
  {
    if d :| DeadLocked(t, d) {
      var v :| Reaches(GraphOf(t), Context(d), v) && OnCycle(GraphOf(t), v);
      CycleHasContext(t, v);
      forall x | x in Entangled(t) ensures WaitsForMember(t, Entangled(t), x) { EntangledWait(t, x); }
      assert WaitingSet(t, Entangled(t));
    }
    if w :| WaitingSet(t, w) {
      var d := WaitingSetHasVictim(t, w);
    }
  }

  /** The table when a context has given up everything it holds and asks for. */
  ghost function Without(t: Table, c: ContextID): Table {
    set e | e in t && e.context != c
  }

  lemma WithoutWaits(t: Table, c: ContextID, w: set<ContextID>)
    ensures WaitingSet(Without(t, c), w) <==> c !in w && WaitingSet(t, w)
  {
    var u := Without(t, c);
    if WaitingSet(u, w) {
      assert c in w ==> WaitsForMember(u, w, c);
      forall x | x in w ensures WaitsForMember(t, w, x) { assert WaitsForMember(u, w, x); }
    }
    if c !in w && WaitingSet(t, w) {
      forall x | x in w ensures WaitsForMember(u, w, x) {
        assert WaitsForMember(t, w, x);
        var e, f :| e in t && e.Request? && e.context == x && f in t && f.Own? && f.lock == e.lock && f.context in w;
        assert e in u && f in u;
      }
    }
  }

  /**
   When a context has given up all its locks the others are still deadlocked if and only if some of them wait for each
   other without it.
   */
  lemma RevertLeavesDeadLock(t: Table, c: ContextID)
    requires Consistent(t)
    ensures (exists d :: DeadLocked(Without(t, c), d)) <==> exists w :: c !in w && WaitingSet(t, w)
  {
    DeadLockIsWaitingSet(Without(t, c));
    if w :| WaitingSet(Without(t, c), w) { WithoutWaits(t, c, w); }
    if w :| c !in w && WaitingSet(t, w) { WithoutWaits(t, c, w); }
  }

  /** In a set of contexts that wait for each other, detection answers true exactly for those that own a key. */
  lemma WaitersAreDeadLocked(t: Table, w: set<ContextID>, c: ContextID)
    requires WaitingSet(t, w) && c in w
    ensures DeadLocked(t, c) <==> OwnsSome(t, c)
  {
    var g, vs := GraphOf(t), Holdings(t, w);
    HoldingsClosed(t, w);
    ReachableInClosed(g, vs, Context(c));
    ReachesSelf(g, Context(c));
    assert Context(c) in ReachableIn(g, vs, Context(c));
    var v := ClosedSetHasCycle(g, ReachableIn(g, vs, Context(c)));
  }

  /** Somebody who waits for c, directly or through others that c itself waits for. */
  ghost predicate WaitedForByBlocker(t: Table, c: ContextID) {
    exists e, f :: e in t && e.Own? && e.context == c && f in t && f.Request? && f.lock == e.lock
                   && Reaches(GraphOf(t), Context(c), Context(f.context))
  }

  /**
   A deadlocked context need not be part of the deadlock. It is exactly when it owns a key for which a context waits
   that it is itself, directly or not, waiting for.
   */
  lemma OnCycleIsWaitedFor(t: Table, c: ContextID)
    ensures OnCycle(GraphOf(t), Context(c)) <==> WaitedForByBlocker(t, c)
  {
    var g := GraphOf(t);
    if OnCycle(g, Context(c)) {
      var lock, waiter := CyclePredecessors(t, c);
      var e := EdgeAt(t, lock, Context(c));
      var f := EdgeAt(t, waiter, lock);
      assert Reaches(g, Context(c), Context(f.context));
    }
    if WaitedForByBlocker(t, c) {
      var e, f :| e in t && e.Own? && e.context == c && f in t && f.Request? && f.lock == e.lock
                  && Reaches(g, Context(c), Context(f.context));
      EdgeInGraph(t, e);
      EdgeInGraph(t, f);
      ReachesEdge(g, Context(f.context), Key(e.lock));
      ReachesTransitive(g, Context(c), Context(f.context), Key(e.lock));
      EdgeClosesCycle(g, Key(e.lock), Context(c));
    }
  }

  /** The last two vertices on the way round a cycle back to a context. */
  lemma CyclePredecessors(t: Table, c: ContextID) returns (lock: Vertex, waiter: Vertex)
    requires OnCycle(GraphOf(t), Context(c))
    ensures (lock, Context(c)) in GraphOf(t) && (waiter, lock) in GraphOf(t)
    ensures lock.Key? && waiter.Context? && Reaches(GraphOf(t), Context(c), waiter)
  {
    var g := GraphOf(t);
    var p :| |p| >= 2 && PathBetween(g, p, Context(c), Context(c));
    var n := |p|;
    lock := p[n - 2];
    assert (p[n - 2], p[n - 2 + 1]) in g;
    var e := EdgeAt(t, lock, Context(c));
    assert n > 2;
    waiter := p[n - 3];
    assert (p[n - 3], p[n - 3 + 1]) in g;
    var f := EdgeAt(t, waiter, lock);
    assert PathBetween(g, p[..n - 2], Context(c), waiter);
  }
}
