/** Deadlock recovery: a batch that can send nothing finds a transaction to revert. */
module Recovery {
  import opened Types
  import opened Orders
  import opened LockTable
  import opened Reach
  import opened Executive
  import opened Traversal
  import opened Batch
  import opened Discipline
  import opened Sending
  import opened Settling

  /** When nothing was sent, every state that is left waits for a key that somebody else owns. */
  lemma NothingSentAllWaiting(es: seq<Entry>, e: BatchState)
    requires SendingDone(es, e) && e.sent == map[]
    ensures forall y :: y in es ==> Waiting(y.state, e)
  {
    NothingSentNothingCalled(e);
    forall y | y in es ensures Waiting(y.state, e) {
      var i :| 0 <= i < |es| && es[i] == y;
      assert forall j :: 0 <= j <= i ==> !es[j].state.skip by {
        NoMarkBelow(es, e, i);
      }
      assert Visible(es, i) && ScreenedAt(es, e, i);
    }
  }

  lemma {:induction false} NoMarkBelow(es: seq<Entry>, e: BatchState, i: nat)
    requires SendingDone(es, e) && e.sent == map[] && e.called == {} && i < |es|
    ensures forall j :: 0 <= j <= i ==> !es[j].state.skip
  {
    if i > 0 { NoMarkBelow(es, e, i - 1); }
    assert Visible(es, i) && ScreenedAt(es, e, i);
  }

  /** In that case some context is deadlocked. */
  lemma NothingSentSomeDeadLock(es: seq<Entry>, e: BatchState) returns (c: ContextID)
    requires SendingDone(es, e) && e.sent == map[] && es != []
    ensures c in Ids(es) && DeadLocked(e.locks, c)
  {
    NothingSentAllWaiting(es, e);
    AllWaitInside(es, e);
    c := WaitingSetHasVictim(e.locks, Ids(es));
  }

  lemma AllWaitInside(es: seq<Entry>, e: BatchState)
    requires LocksLive(e.locks, es) && es != [] && forall y :: y in es ==> Waiting(y.state, e)
    ensures WaitingSet(e.locks, Ids(es))
  {
    assert es[0].state.contextID in Ids(es);
    forall x | x in Ids(es) ensures WaitsForMember(e.locks, Ids(es), x) {
      var y :| y in es && y.state.contextID == x;
      WaitingWaitsInside(es, e, y.state);
    }
  }

  lemma WaitingWaitsInside(es: seq<Entry>, e: BatchState, s: ExecutiveState)
    requires LocksLive(e.locks, es) && Waiting(s, e)
    ensures WaitsForMember(e.locks, Ids(es), s.contextID)
  {
    var l := KeyLock(s.message.value.sender, s.message.value.keyLockAcquired);
    var d :| d in e.locks && d.Own? && d.lock == l && d.context != s.contextID;
    var r := Request(l, s.contextID, s.message.value.frame);
    assert r in e.locks && d.context in Ids(es);
  }

  /** All states wait for a key. */
  ghost predicate AllBlocked(es: seq<Entry>, t: Table) {
    forall y :: y in es ==> Settled(y.state, t) && y.state.message.value.mtype == KEY_LOCK
  }

  lemma NothingSentAllBlocked(es: seq<Entry>, e: BatchState)
    requires SendingDone(es, e) && e.sent == map[]
    ensures AllBlocked(es, e.locks)
  {
    NothingSentAllWaiting(es, e);
    forall y | y in es ensures Settled(y.state, e.locks) && y.state.message.value.mtype == KEY_LOCK {
      assert Waiting(y.state, e);
    }
  }

  ghost predicate NoneDeadLocked(es: seq<Entry>, t: Table) {
    forall y :: y in es ==> !DeadLocked(t, y.state.contextID)
  }

  ghost predicate DeadlockInv(es: seq<Entry>, e: BatchState, c: Cursor<BatchState>) {
    && Conserved(es, c) && c.taken == [] && Deleted(c.trace) == {} && c.env == e
    && AllSettled(c.behind, e.locks) && AllBlocked(c.ahead, e.locks)
    && (HasVictim(c.behind) || NoneDeadLocked(c.behind, e.locks))
  }

  lemma VictimSettled(s: ExecutiveState, t: Table)
    requires Settled(s, t) && s.message.value.mtype == KEY_LOCK
    ensures Settled(s.(message := Some(s.message.value.(mtype := REVERT_KEY_LOCK))), t)
  {
  }

  lemma {:induction false} RunDeadlock(es: seq<Entry>, e: BatchState, c: Cursor<BatchState>)
    requires DeadlockInv(es, e, c)
    ensures DeadlockInv(es, e, Run(VisitDeadlock, c)) && Run(VisitDeadlock, c).ahead == []
    decreases |c.ahead|
  {
    if c.ahead != [] {
      DeadlockStep(e, c);
      AdvanceConserves(es, c, VisitDeadlock(e, c.ahead[0].state));
      DeletedGrows(c.trace, Visited(c.ahead[0].key, VisitDeadlock(e, c.ahead[0].state).hint));
      RunDeadlock(es, e, Step(VisitDeadlock, c));
    }
  }

  lemma DeadlockStep(e: BatchState, c: Cursor<BatchState>)
    requires c.ahead != [] && AllSettled(c.behind, e.locks) && AllBlocked(c.ahead, e.locks)
    requires HasVictim(c.behind) || NoneDeadLocked(c.behind, e.locks)
    ensures var v := VisitDeadlock(e, c.ahead[0].state);
            var d := Advance(c, v);
            && v.env == e && v.state.contextID == c.ahead[0].state.contextID && v.hint in {PASS, END}
            && d.taken == c.taken
            && AllSettled(d.behind, e.locks) && AllBlocked(d.ahead, e.locks)
            && (HasVictim(d.behind) || NoneDeadLocked(d.behind, e.locks))
  {
    var h := c.ahead[0];
    assert h in c.ahead;
    var v := VisitDeadlock(e, h.state);
    var y, d := Entry(h.key, v.state), Advance(c, v);
    if v.hint.END? {
      VictimSettled(h.state, e.locks);
      assert y in d.behind;
      assert forall b :: b in d.behind ==> b in c.behind || b == y || b in c.ahead;
    } else {
      assert y == h && d.behind == c.behind + [h];
      VictimKept(c.behind, h);
    }
  }

  lemma VictimKept(es: seq<Entry>, y: Entry)
    ensures HasVictim(es) ==> HasVictim(es + [y])
  {
    if HasVictim(es) {
      var z :| z in es && z.state.message.Some? && z.state.message.value.mtype == REVERT_KEY_LOCK;
      assert z in es + [y];
    }
  }

  /** The deadlock pass changes nothing but to mark a deadlocked state, which it does if there is one. */
  lemma DeadlockPassOk(es: seq<Entry>, e: BatchState)
    requires WellFormed(es) && AllBlocked(es, e.locks)
    ensures var p := DeadlockPass(es, e);
            && p.env == e && WellFormed(p.entries) && Ids(p.entries) == Ids(es) && AllSettled(p.entries, e.locks)
            && ((exists c :: c in Ids(es) && DeadLocked(e.locks, c)) ==> HasVictim(p.entries))
  {
    var c0 := Cursor([], es, [], [], e);
    assert c0.behind + c0.ahead == es;
    assert DeadlockInv(es, e, c0);
    RunDeadlock(es, e, c0);
    DeadlockEnds(es, e, Run(VisitDeadlock, c0));
  }

  lemma DeadlockEnds(es: seq<Entry>, e: BatchState, c: Cursor<BatchState>)
    requires DeadlockInv(es, e, c) && c.ahead == []
    ensures WellFormed(c.behind) && Ids(c.behind) == Ids(es) && InsertAll(c.behind, RekeyAll(c.taken)) == c.behind
    ensures (exists x :: x in Ids(es) && DeadLocked(e.locks, x)) ==> HasVictim(c.behind)
  {
    assert c.behind + c.ahead == c.behind && RekeyAll(c.taken) == [];
    assert Ids(c.taken) == {};
    if x :| x in Ids(es) && DeadLocked(e.locks, x) {
      SomeDeadLocked(c.behind, e.locks, x);
    }
  }

  lemma SomeDeadLocked(es: seq<Entry>, t: Table, x: ContextID)
    requires x in Ids(es) && DeadLocked(t, x)
    ensures !NoneDeadLocked(es, t)
  {
    var y :| y in es && y.state.contextID == x;
  }

  // ---------------------------------------------------------------- who is chosen

  function Revert(y: Entry): Entry
    requires y.state.message.Some?
  {
    Entry(y.key, y.state.(message := Some(y.state.message.value.(mtype := REVERT_KEY_LOCK))))
  }

  /** The state at position i is the first deadlocked one. */
  ghost predicate FirstDeadLocked(es: seq<Entry>, t: Table, i: nat) {
    i < |es| && DeadLocked(t, es[i].state.contextID) && NoneDeadLocked(es[..i], t)
  }

  lemma {:induction false} RunDeadlockChooses(es: seq<Entry>, e: BatchState, c: Cursor<BatchState>)
    requires c.env == e && c.taken == [] && AllBlocked(es, e.locks)
    requires |c.ahead| <= |es| && c.behind == es[..|es| - |c.ahead|] && c.ahead == es[|es| - |c.ahead|..]
    requires NoneDeadLocked(c.behind, e.locks)
    ensures var d := Run(VisitDeadlock, c);
            && d.taken == []
            && ((d.behind == es && NoneDeadLocked(es, e.locks)) ||
                exists i: nat :: FirstDeadLocked(es, e.locks, i) && d.behind == es[i := Revert(es[i])])
    decreases |c.ahead|
  {
    if c.ahead == [] {
      assert c.behind == es;
    } else {
      var k := |es| - |c.ahead|;
      var h := c.ahead[0];
      assert h == es[k] && h in es;
      var d := Step(VisitDeadlock, c);
      if DeadLocked(e.locks, h.state.contextID) {
        assert d.behind == es[k := Revert(es[k])] && d.ahead == [];
        assert FirstDeadLocked(es, e.locks, k);
        assert Run(VisitDeadlock, c) == Run(VisitDeadlock, d) == d;
      } else {
        assert d.behind == es[..k] + [h] == es[..k + 1] && d.ahead == es[k + 1..];
        RunDeadlockChooses(es, e, d);
      }
    }
  }

  /** The pass marks the first deadlocked state in key order, and touches nothing else. */
  lemma FirstDeadLockedIsChosen(es: seq<Entry>, e: BatchState)
    requires AllBlocked(es, e.locks)
    ensures var r := DeadlockPass(es, e).entries;
            || (r == es && NoneDeadLocked(es, e.locks))
            || exists i: nat :: FirstDeadLocked(es, e.locks, i) && r == es[i := Revert(es[i])]
  {
    var c0 := Cursor([], es, [], [], e);
    RunDeadlockChooses(es, e, c0);
    assert RekeyAll(Run(VisitDeadlock, c0).taken) == [];
  }

  /** The state at position i is the first one whose context owns a key. */
  ghost predicate FirstOwner(es: seq<Entry>, t: Table, i: nat) {
    && i < |es| && OwnsSome(t, es[i].state.contextID)
    && forall j :: 0 <= j < i ==> !OwnsSome(t, es[j].state.contextID)
  }

  /** When nothing was sent, detection answers true exactly for the contexts that own a key. */
  lemma DeadLockedOwnKeys(es: seq<Entry>, e: BatchState, c: ContextID)
    requires SendingDone(es, e) && e.sent == map[] && c in Ids(es)
    ensures DeadLocked(e.locks, c) <==> OwnsSome(e.locks, c)
  {
    assert es != [];
    NothingSentAllWaiting(es, e);
    AllWaitInside(es, e);
    WaitersAreDeadLocked(e.locks, Ids(es), c);
  }

  lemma FirstDeadLockedOwns(es: seq<Entry>, e: BatchState, i: nat)
    requires SendingDone(es, e) && e.sent == map[] && FirstDeadLocked(es, e.locks, i)
    ensures FirstOwner(es, e.locks, i)
  {
    forall j | 0 <= j < i ensures !OwnsSome(e.locks, es[j].state.contextID) {
      assert es[..i][j] == es[j] && es[j] in es[..i] && es[j] in es;
      DeadLockedOwnKeys(es, e, es[j].state.contextID);
    }
  }

  /**
   When nothing was sent and states are left, the pass marks the first lock owner in key order, and nothing else. Its
   revert breaks the deadlock, in that nobody is deadlocked any more once it has given up its locks, if and only if no
   contexts wait for each other without it.
   */
  lemma FirstOwnerIsReverted(es: seq<Entry>, e: BatchState) returns (i: nat)
    requires SendingDone(es, e) && e.sent == map[] && es != []
    ensures FirstOwner(es, e.locks, i) && es[i].state.message.Some?
    ensures DeadlockPass(es, e).entries == es[i := Revert(es[i])]
    ensures var c := es[i].state.contextID;
            (forall d :: !DeadLocked(Without(e.locks, c), d)) <==> (forall w :: WaitingSet(e.locks, w) ==> c in w)
  {
    NothingSentAllBlocked(es, e);
    FirstDeadLockedIsChosen(es, e);
    var x := NothingSentSomeDeadLock(es, e);
    SomeDeadLocked(es, e.locks, x);
    i :| FirstDeadLocked(es, e.locks, i) && DeadlockPass(es, e).entries == es[i := Revert(es[i])];
    FirstDeadLockedOwns(es, e, i);
    RevertLeavesDeadLock(e.locks, es[i].state.contextID);
  }

  // ---------------------------------------------------------------- a batch in which everybody waits

  /** A state that has already asked for a key and still does not get it. */
  ghost predicate StillWaits(s: ExecutiveState, t: Table) {
    && !s.failed && s.message.Some? && s.message.value.mtype == KEY_LOCK
    && var m := s.message.value;
       var l := KeyLock(m.sender, m.keyLockAcquired);
       OwnedByOther(t, l, s.contextID) && Request(l, s.contextID, m.frame) in t
  }

  lemma VisitFindsWaiter(x: Executors, e: BatchState, s: ExecutiveState)
    requires StillWaits(s, e.locks) && e.called == {}
    ensures VisitStart(x, e, s) == Visit(e, s, PASS)
  {
    var m := s.message.value;
    assert Acquire(e.locks, KeyLock(m.sender, m.keyLockAcquired), s.contextID, m.frame) == e.locks;
  }

  lemma {:induction false} RunFindsWaiters(x: Executors, c: Cursor<BatchState>)
    requires c.env.called == {} && c.taken == [] && forall y :: y in c.ahead ==> StillWaits(y.state, c.env.locks)
    ensures var d := Run(StartCallback(x), c); d.env == c.env && d.behind == c.behind + c.ahead && d.taken == []
    decreases |c.ahead|
  {
    if c.ahead != [] {
      var h, d := c.ahead[0], Step(StartCallback(x), c);
      VisitFindsWaiter(x, c.env, h.state);
      assert d.behind == c.behind + [h] && d.ahead == c.ahead[1..];
      RunFindsWaiters(x, d);
      assert c.ahead == [h] + c.ahead[1..];
    }
  }

  lemma SendingFindsWaiters(x: Executors, sys: System)
    requires forall y :: y in sys.entries ==> StillWaits(y.state, sys.locks)
    ensures SendingPass(x, sys).env == Begin(sys) && SendingPass(x, sys).entries == sys.entries
  {
    var c0 := Cursor([], sys.entries, [], [], Begin(sys));
    RunFindsWaiters(x, c0);
    assert RekeyAll(Run(StartCallback(x), c0).taken) == [] && [] + sys.entries == sys.entries;
  }

  lemma NothingToDeliver(x: Executors, es: seq<Entry>)
    ensures Deliver(x, es, map[]) == es
  {
  }

  lemma NoErrorReplies(x: Executors)
    ensures ErrorReplies(x, map[]) == {}
  {
  }

  /** A batch in which everybody waits does nothing but run the deadlock pass. */
  lemma IdleBatch(x: Executors, sys: System)
    requires WellFormed(sys.entries) && sys.entries != [] && AllBlocked(sys.entries, sys.locks)
    requires forall y :: y in sys.entries ==> StillWaits(y.state, sys.locks)
    ensures RunBatch(x, sys) == Continues(sys.(entries := DeadlockPass(sys.entries, Begin(sys)).entries), map[])
  {
    var e := Begin(sys);
    SendingFindsWaiters(x, sys);
    NothingToDeliver(x, sys.entries);
    NoErrorReplies(x);
    assert e.(errors := 0) == e;
    DeadlockPassOk(sys.entries, e);
  }

  /** If the context of the first state is deadlocked, it is the one that is marked. */
  lemma HeadIsChosen(es: seq<Entry>, e: BatchState)
    requires es != [] && Settled(es[0].state, e.locks) && DeadLocked(e.locks, es[0].state.contextID)
    ensures DeadlockPass(es, e).entries == es[0 := Revert(es[0])]
  {
    var c0 := Cursor([], es, [], [], e);
    var d := Step(VisitDeadlock, c0);
    assert d.ahead == [] && d.taken == [] && RekeyAll([]) == [];
    assert Run(VisitDeadlock, c0) == Run(VisitDeadlock, d) == d;
    assert d.behind == es[0 := Revert(es[0])];
  }

  /** Everybody waits, and the first context is deadlocked. */
  ghost predicate Stuck(sys: System) {
    && AtRest(sys) && sys.entries != [] && AllBlocked(sys.entries, sys.locks)
    && (forall y :: y in sys.entries ==> StillWaits(y.state, sys.locks))
    && DeadLocked(sys.locks, sys.entries[0].state.contextID)
  }

  lemma IdleBatchReverts(x: Executors, sys: System)
    requires Stuck(sys)
    ensures sys.entries[0] in sys.entries
    ensures RunBatch(x, sys) == Continues(sys.(entries := sys.entries[0 := Revert(sys.entries[0])]), map[])
  {
    assert sys.entries[0] in sys.entries;
    IdleBatch(x, sys);
    HeadIsChosen(sys.entries, Begin(sys));
  }

  /** A transaction that called contract "a", holds one of its keys and waits for another one. */
  function Blocked(c: ContextID, held: string, wanted: string): Entry {
    var m := Message(KEY_LOCK, c, 0, "a", "a", false, None, "", [held], wanted, 0, TRANSACTION_GAS, "", 0);
    Entry(StateKey("a", c), ExecutiveState(c, [0], Some(m), false, 1, false))
  }

  function Holds(c: ContextID, key: string): LockEdge { Own(KeyLock("a", key), c, 0) }

  function Wants(c: ContextID, key: string): LockEdge { Request(KeyLock("a", key), c, 0) }

  /** Contexts 1 and 2 hold x and y and wait for each other; context 0 holds z and waits for x. */
  ghost function Bystander(): System {
    System([Blocked(0, "z", "x"), Blocked(1, "x", "y"), Blocked(2, "y", "x")],
           {Holds(0, "z"), Wants(0, "x"), Holds(1, "x"), Wants(1, "y"), Holds(2, "y"), Wants(2, "x")},
           [None, None, None], 0)
  }

  lemma BlockedSettles(c: ContextID, held: string, wanted: string, t: Table)
    requires Holds(c, held) in t && forall e :: e in t && e.context == c ==> e.frame == 0
    ensures Settled(Blocked(c, held, wanted).state, t)
  {
    assert 0 in [0];
  }

  lemma BystanderEntries()
    ensures WellFormed(Bystander().entries) && Ids(Bystander().entries) == {0, 1, 2}
  {
    var es := Bystander().entries;
    StringLessIrreflexive("a");
    assert es[0] in es && es[1] in es && es[2] in es;
  }

  lemma BystanderConsistent()
    ensures Consistent(Bystander().locks)
  {
  }

  lemma BystanderTable()
    ensures forall e :: e in Bystander().locks ==> e.frame == 0 && e.context in {0, 1, 2}
    ensures forall e :: e in Bystander().locks && e.Own? && e.context == 0 ==> e.lock.key == "z"
    ensures forall e :: e in Bystander().locks && e.Request? ==> e.lock.key != "z"
  {
  }

  lemma BystanderSettled(y: Entry)
    requires y in Bystander().entries
    ensures Settled(y.state, Bystander().locks) && y.state.message.value.mtype == KEY_LOCK
  {
    var t := Bystander().locks;
    BystanderTable();
    if y == Blocked(0, "z", "x") {
      BlockedSettles(0, "z", "x", t);
    } else if y == Blocked(1, "x", "y") {
      BlockedSettles(1, "x", "y", t);
    } else {
      BlockedSettles(2, "y", "x", t);
    }
  }

  lemma BystanderLive()
    ensures LocksLive(Bystander().locks, Bystander().entries)
  {
    BystanderEntries();
    BystanderTable();
  }

  lemma BlockedIsAtRest(sys: System)
    requires WellFormed(sys.entries) && Consistent(sys.locks) && LocksLive(sys.locks, sys.entries)
    requires forall y :: y in sys.entries ==> Settled(y.state, sys.locks) && y.state.message.value.mtype == KEY_LOCK
    ensures AtRest(sys) && AllBlocked(sys.entries, sys.locks)
  {
  }

  lemma BystanderBlocked()
    ensures AtRest(Bystander()) && AllBlocked(Bystander().entries, Bystander().locks)
  {
    BystanderEntries();
    BystanderConsistent();
    BystanderLive();
    forall y | y in Bystander().entries
      ensures Settled(y.state, Bystander().locks) && y.state.message.value.mtype == KEY_LOCK
    {
      BystanderSettled(y);
    }
    BlockedIsAtRest(Bystander());
  }

  /** In every table with its edges the two contexts are deadlocked. */
  lemma TwoWait(t: Table)
    requires Holds(1, "x") in t && Wants(1, "y") in t && Holds(2, "y") in t && Wants(2, "x") in t
    ensures OnCycle(GraphOf(t), Key(KeyLock("a", "x"))) && DeadLocked(t, 1)
  {
    var g, x, y := GraphOf(t), Key(KeyLock("a", "x")), Key(KeyLock("a", "y"));
    EdgeInGraph(t, Holds(1, "x"));
    EdgeInGraph(t, Wants(1, "y"));
    EdgeInGraph(t, Holds(2, "y"));
    EdgeInGraph(t, Wants(2, "x"));
    ReachesEdge(g, Context(1), y);
    ReachesEdge(g, y, Context(2));
    ReachesEdge(g, Context(2), x);
    ReachesTransitive(g, Context(1), y, Context(2));
    ReachesTransitive(g, Context(1), Context(2), x);
    EdgeClosesCycle(g, x, Context(1));
  }

  lemma BystanderIsDeadLocked(t: Table)
    requires t == Bystander().locks
    ensures DeadLocked(t, 0)
  {
    TwoWait(t);
    EdgeInGraph(t, Wants(0, "x"));
    ReachesEdge(GraphOf(t), Context(0), Key(KeyLock("a", "x")));
    assert Holds(0, "z") in t && Holds(0, "z").context == 0;
  }

  lemma BystanderIsOffTheCycle()
    ensures !OnCycle(GraphOf(Bystander().locks), Context(0))
  {
    BystanderTable();
    OnCycleIsWaitedFor(Bystander().locks, 0);
  }

  lemma BystanderStillWaits(y: Entry)
    requires y in Bystander().entries
    ensures StillWaits(y.state, Bystander().locks)
  {
    var t := Bystander().locks;
    if y == Blocked(0, "z", "x") {
      assert Holds(1, "x") in t && Wants(0, "x") in t;
    } else if y == Blocked(1, "x", "y") {
      assert Holds(2, "y") in t && Wants(1, "y") in t;
    } else {
      assert Holds(1, "x") in t && Wants(2, "x") in t;
    }
  }

  lemma BystandersWait()
    ensures forall y :: y in Bystander().entries ==> StillWaits(y.state, Bystander().locks)
  {
    forall y | y in Bystander().entries ensures StillWaits(y.state, Bystander().locks) { BystanderStillWaits(y); }
  }

  lemma BystanderHead()
    ensures Bystander().entries != [] && Bystander().entries[0].state.contextID == 0
    ensures DeadLocked(Bystander().locks, Bystander().entries[0].state.contextID)
  {
    BystanderIsDeadLocked(Bystander().locks);
  }

  lemma BystanderIsStuck()
    ensures Stuck(Bystander())
  {
    BystanderBlocked();
    BystandersWait();
    BystanderHead();
  }

  lemma OthersStayDeadLocked()
    ensures DeadLocked(Release(Bystander().locks, 0, 0), 1)
  {
    TwoWait(Release(Bystander().locks, 0, 0));
  }

  /**
   The revert does not always help: with whatever executors, a batch on this system sends nothing and marks context 0,
   which is on no cycle, and the others are deadlocked still when it has given up everything it holds.
   */
  lemma VictimMayBeABystander(x: Executors)
    ensures Stuck(Bystander()) && !OnCycle(GraphOf(Bystander().locks), Context(0))
    ensures var sys := Bystander();
            RunBatch(x, sys) == Continues(sys.(entries := sys.entries[0 := Revert(sys.entries[0])]), map[])
    ensures DeadLocked(Release(Bystander().locks, 0, 0), 1)
  {
    BystanderIsStuck();
    BystanderIsOffTheCycle();
    IdleBatchReverts(x, Bystander());
    OthersStayDeadLocked();
  }
}
