/** The settling pass: every key lock a reply claims is granted, and the states come to rest again. */
module Settling {
  import opened Types
  import opened LockTable
  import opened Executive
  import opened Traversal
  import opened Batch
  import opened Discipline
  import opened Sending

  /** The key locks that settling a state takes. */
  ghost function Claims(s: ExecutiveState): set<KeyLock> {
    if s.message.Some? && s.message.value.mtype in {MESSAGE, KEY_LOCK} then
      set k | k in s.message.value.keyLocks :: KeyLock(s.message.value.sender, k)
    else {}
  }

  /** A state with a reply, or still waiting for a key: nobody else owns what it claims. */
  ghost predicate Checkable(s: ExecutiveState, t: Table) {
    && !s.failed && !s.skip && StackOk(s) && s.callStack != [] && MessageOk(s) && EdgesOnStack(s, t)
    && forall l :: l in Claims(s) ==> !OwnedByOther(t, l, s.contextID)
  }

  ghost predicate Pending(s: ExecutiveState, t: Table) {
    if s.skip then Settled(s.(skip := false), t) else Checkable(s, t)
  }

  ghost predicate PendingAt(es: seq<Entry>, t: Table, i: nat)
    requires i < |es|
  {
    if Visible(es, i) then Pending(es[i].state, t) else Settled(es[i].state, t)
  }

  ghost predicate AllPending(es: seq<Entry>, t: Table) {
    forall i :: 0 <= i < |es| ==> PendingAt(es, t, i)
  }

  /** What the settling pass will claim for the i-th state. */
  ghost function ClaimsAt(es: seq<Entry>, i: nat): set<KeyLock>
    requires i < |es|
  {
    if Visible(es, i) && !es[i].state.skip then Claims(es[i].state) else {}
  }

  ghost predicate ClaimsDisjoint(es: seq<Entry>) {
    forall i, j :: 0 <= i < j < |es| ==> ClaimsAt(es, i) !! ClaimsAt(es, j)
  }

  ghost predicate AllSettled(es: seq<Entry>, t: Table) {
    forall y :: y in es ==> Settled(y.state, t)
  }

  // ---------------------------------------------------------------- from the sending pass to the settling pass

  lemma AnswerPending(x: Executors, s: ExecutiveState, e: BatchState)
    requires InFlight(s, e) && RepliesAllowed(x) && x.reply(e.sent[s.contextID]).Response?
    ensures Checkable(Receive(s, x.reply(e.sent[s.contextID])), e.locks)
  {
    var m := e.sent[s.contextID];
    var r := x.reply(m).message;
    assert ReplyAllowed(m, r);
    var s' := Receive(s, x.reply(m));
    forall l | l in Claims(s') ensures !OwnedByOther(e.locks, l, s.contextID) {
      assert l.contract == m.to && l.key !in m.keyLocks;
      assert l == KeyLock(m.to, l.key);
    }
  }

  lemma WaitingPending(s: ExecutiveState, e: BatchState)
    requires Waiting(s, e) && Consistent(e.locks)
    ensures Checkable(s, e.locks)
    ensures forall l :: l in Claims(s) ==> Own(l, s.contextID, s.message.value.frame) in e.locks
  {
    forall l | l in Claims(s) ensures !OwnedByOther(e.locks, l, s.contextID) && Own(l, s.contextID, s.message.value.frame) in e.locks {
      assert l == KeyLock(s.message.value.sender, l.key);
      assert Own(l, s.contextID, s.message.value.frame) in e.locks;
    }
  }

  lemma DeliverShape(x: Executors, es: seq<Entry>, sent: map<ContextID, Message>)
    requires WellFormed(es)
    ensures WellFormed(Deliver(x, es, sent)) && Ids(Deliver(x, es, sent)) == Ids(es)
    ensures |Deliver(x, es, sent)| == |es|
    ensures forall i :: 0 <= i < |es| ==> Deliver(x, es, sent)[i].key == es[i].key
    ensures forall i :: 0 <= i < |es| ==> Deliver(x, es, sent)[i].state.skip == es[i].state.skip
    ensures forall i :: 0 <= i < |es| ==> Deliver(x, es, sent)[i].state.contextID == es[i].state.contextID
  {
    SameKeysWellFormed(es, Deliver(x, es, sent));
  }

  ghost predicate AllResponded(x: Executors, sent: map<ContextID, Message>) {
    forall c :: c in sent ==> x.reply(sent[c]).Response?
  }

  /** Why the context of a visible entry may claim what it claims: it was sent there, or it owns the key already. */
  ghost predicate ClaimJustified(e: BatchState, c: ContextID, l: KeyLock) {
    && !OwnedByOther(e.locks, l, c)
    && if c in e.sent then l.contract == e.sent[c].to else exists f :: Own(l, c, f) in e.locks
  }

  lemma InFlightDelivered(x: Executors, s: ExecutiveState, e: BatchState)
    requires InFlight(s, e) && RepliesAllowed(x) && x.reply(e.sent[s.contextID]).Response?
    ensures var r := Receive(s, x.reply(e.sent[s.contextID]));
            !r.skip && Checkable(r, e.locks) && forall l :: l in Claims(r) ==> ClaimJustified(e, s.contextID, l)
  {
    AnswerPending(x, s, e);
    assert ReplyAllowed(e.sent[s.contextID], x.reply(e.sent[s.contextID]).message);
  }

  lemma WaitingDelivered(s: ExecutiveState, e: BatchState)
    requires Waiting(s, e) && Consistent(e.locks)
    ensures !s.skip && Checkable(s, e.locks) && forall l :: l in Claims(s) ==> ClaimJustified(e, s.contextID, l)
  {
    WaitingPending(s, e);
  }

  lemma DeliveredVisible(x: Executors, es: seq<Entry>, e: BatchState, i: nat)
    requires WellFormed(es) && i < |es|
    ensures Visible(Deliver(x, es, e.sent), i) <==> Visible(es, i)
  {
    var r := Deliver(x, es, e.sent);
    DeliverShape(x, es, e.sent);
    assert forall j :: 0 <= j <= i ==> r[j].key == es[j].key && r[j].state.skip == es[j].state.skip;
  }

  /** One delivered entry: what it is, and why it may claim what it claims. */
  lemma DeliveredAt(x: Executors, es: seq<Entry>, e: BatchState, i: nat)
    requires SendingDone(es, e) && RepliesAllowed(x) && AllResponded(x, e.sent) && i < |es|
    ensures var r := Deliver(x, es, e.sent);
            PendingAt(r, e.locks, i) && forall l :: l in ClaimsAt(r, i) ==> ClaimJustified(e, es[i].state.contextID, l)
  {
    var r, s := Deliver(x, es, e.sent), es[i].state;
    DeliveredVisible(x, es, e, i);
    assert ScreenedAt(es, e, i) && r[i] == Answer(x, es[i], e.sent);
    if Visible(es, i) {
      if InFlight(s, e) {
        InFlightDelivered(x, s, e);
      } else if Waiting(s, e) {
        WaitingDelivered(s, e);
      }
    }
  }

  lemma DeliveredPending(x: Executors, es: seq<Entry>, e: BatchState)
    requires SendingDone(es, e) && RepliesAllowed(x) && AllResponded(x, e.sent)
    ensures AllPending(Deliver(x, es, e.sent), e.locks) && ClaimsDisjoint(Deliver(x, es, e.sent))
  {
    var r := Deliver(x, es, e.sent);
    forall i | 0 <= i < |r| ensures PendingAt(r, e.locks, i) { DeliveredAt(x, es, e, i); }
    forall i, j | 0 <= i < j < |r| ensures ClaimsAt(r, i) !! ClaimsAt(r, j) {
      DeliveredAt(x, es, e, i);
      DeliveredAt(x, es, e, j);
      var ci, cj := es[i].state.contextID, es[j].state.contextID;
      assert ci in e.sent && cj in e.sent ==> e.sent[ci].to != e.sent[cj].to;
    }
  }

  // ---------------------------------------------------------------- one step

  /** A table change made on behalf of context c, adding owners only for the locks in `claimed`. */
  ghost predicate ChangesOnly(t: Table, t': Table, c: ContextID, claimed: set<KeyLock>) {
    && (forall d: LockEdge :: d.context != c ==> (d in t <==> d in t'))
    && (forall d :: d in t' && d !in t && d.Own? ==> d.lock in claimed)
    && Consistent(t')
  }

  lemma PendingKept(s: ExecutiveState, t: Table, t': Table, c: ContextID, claimed: set<KeyLock>)
    requires ChangesOnly(t, t', c, claimed) && s.contextID != c && Pending(s, t)
    requires !s.skip ==> Claims(s) !! claimed
    ensures Pending(s, t')
  {
    if s.skip {
      SettledByOwnEdges(s.(skip := false), t, t');
    } else {
      forall l | l in Claims(s) ensures !OwnedByOther(t', l, s.contextID) {
        NoNewOwner(t, t', c, claimed, l, s.contextID);
      }
    }
  }

  lemma NoNewOwner(t: Table, t': Table, c: ContextID, claimed: set<KeyLock>, l: KeyLock, x: ContextID)
    requires ChangesOnly(t, t', c, claimed) && l !in claimed
    ensures OwnedByOther(t', l, x) ==> OwnedByOther(t, l, x)
  {
    if OwnedByOther(t', l, x) {
      var d :| d in t' && d.Own? && d.lock == l && d.context != x;
      assert d in t;
    }
  }

  lemma VisibleTail(es: seq<Entry>, i: nat)
    requires i + 1 < |es| && !es[0].state.skip
    ensures Visible(es[1..], i) <==> Visible(es, i + 1)
  {
    var r := es[1..];
    assert forall j :: 0 <= j < |r| ==> r[j] == es[j + 1];
    if Visible(r, i) {
      forall j | 0 <= j < i + 1 && es[j].state.skip ensures es[j].key.contract != es[i + 1].key.contract {
        assert r[j - 1].state.skip;
      }
    }
  }

  /** What is ahead stays pending when the head has been visited and did not skip. */
  lemma TailPending(es: seq<Entry>, t: Table, t': Table)
    requires es != [] && DistinctIds(es) && !es[0].state.skip
    requires AllPending(es, t) && ClaimsDisjoint(es)
    requires ChangesOnly(t, t', es[0].state.contextID, Claims(es[0].state))
    ensures AllPending(es[1..], t') && ClaimsDisjoint(es[1..])
  {
    var r := es[1..];
    assert Visible(es, 0);
    forall i | 0 <= i < |r| ensures PendingAt(r, t', i) && ClaimsAt(r, i) == ClaimsAt(es, i + 1) {
      assert r[i] == es[i + 1] && PendingAt(es, t, i + 1);
      VisibleTail(es, i);
      assert ClaimsAt(es, 0) !! ClaimsAt(es, i + 1);
      if Visible(es, i + 1) {
        PendingKept(r[i].state, t, t', es[0].state.contextID, Claims(es[0].state));
      } else {
        SettledByOwnEdges(r[i].state, t, t');
      }
    }
  }

  /** After a mark the rest of the contract's states are settled already, and the states behind them are pending. */
  lemma GroupSettled(es: seq<Entry>, t: Table)
    requires es != [] && Sorted(es) && es[0].state.skip
    requires AllPending(es, t) && ClaimsDisjoint(es)
    ensures var n := UpperBound(es, GroupEnd(es[0].key));
            AllSettled(es[1..n], t) && AllPending(es[n..], t) && ClaimsDisjoint(es[n..])
  {
    var n := UpperBound(es, GroupEnd(es[0].key));
    UpperBoundIsGroup(es, es[0].key);
    forall y | y in es[1..n] ensures Settled(y.state, t) {
      var i :| 0 <= i < |es[1..n]| && es[1..n][i] == y;
      assert es[i + 1] == y && PendingAt(es, t, i + 1);
      assert !Visible(es, i + 1);
    }
    var r := es[n..];
    forall i | 0 <= i < |r| ensures PendingAt(r, t, i) && ClaimsAt(r, i) == ClaimsAt(es, n + i) {
      assert r[i] == es[n + i] && PendingAt(es, t, n + i);
      VisibleAfterGroup(es, n, i);
    }
  }

  lemma VisibleAfterGroup(es: seq<Entry>, n: nat, i: nat)
    requires n + i < |es|
    requires forall j :: 0 <= j < n ==> es[j].key.contract != es[n + i].key.contract
    ensures Visible(es[n..], i) <==> Visible(es, n + i)
  {
    var r := es[n..];
    assert forall j :: 0 <= j < |r| ==> r[j] == es[j + n];
    if Visible(r, i) {
      forall j | 0 <= j < n + i && es[j].state.skip ensures es[j].key.contract != es[n + i].key.contract {
        if j >= n { assert r[j - n].state.skip; }
      }
    }
  }

  /** A request or a return moves the state to the contract it is addressed to; everything else stays where it is. */
  ghost predicate Moves(s: ExecutiveState) {
    s.message.Some? && s.message.value.mtype in {MESSAGE, FINISHED, REVERT}
  }

  /**
   What settling a state does to its context's edges, all of them: a request or a wait takes the keys it claims for its
   frame, a return gives up what its frame holds, and the other frames keep what they have.
   */
  ghost predicate LocksFollow(m: Message, c: ContextID, t: Table, t': Table) {
    forall d: LockEdge :: d.context == c ==>
      (d in t' <==>
       if m.mtype in {MESSAGE, KEY_LOCK} then
         || (d.Own? && d.frame == m.frame && Named(d.lock, m.sender, m.keyLocks))
         || (d in t && !(d.Request? && Named(d.lock, m.sender, m.keyLocks)))
       else if m.mtype in {FINISHED, REVERT} then d in t && d.frame != m.frame
       else d in t)
  }

  /** What a visit of the settling pass must achieve: the state is at rest, and nobody else is disturbed. */
  ghost predicate SettleOk(e: BatchState, s: ExecutiveState, v: Visit<BatchState>) {
    && v.hint in {PASS, SKIP, UPDATE} && (v.hint.SKIP? <==> s.skip) && (v.hint.UPDATE? <==> !s.skip && Moves(s))
    && v.env == e.(locks := v.env.locks)
    && v.state == s.(skip := false) && Settled(v.state, v.env.locks)
    && ChangesOnly(e.locks, v.env.locks, s.contextID, if s.skip then {} else Claims(s))
    && (if s.skip then v.env == e else LocksFollow(s.message.value, s.contextID, e.locks, v.env.locks))
    && (forall d :: d in v.env.locks && d !in e.locks ==> d.context == s.contextID)
  }

  /** Every claim is granted: no visit of the settling pass meets a key owned by somebody else. */
  lemma VisitSettleOk(e: BatchState, s: ExecutiveState)
    requires Consistent(e.locks) && Pending(s, e.locks)
    ensures SettleOk(e, s, VisitSettle(e, s))
  {
    var t, c := e.locks, s.contextID;
    if !s.skip {
      var m := s.message.value;
      assert Top(s) in s.callStack;
      if m.mtype in {MESSAGE, KEY_LOCK} {
        var r := BatchAcquire(t, m.sender, m.keyLocks, c, m.frame);
        forall k | k in m.keyLocks ensures k !in NotHolding(t, m.sender, c) {
          assert KeyLock(m.sender, k) in Claims(s);
          NotHoldingIsRefusal(t, m.sender, k, c);
        }
        BatchAcquireSucceeds(t, m.sender, m.keyLocks, c, m.frame);
        BatchAcquireEdges(t, m.sender, m.keyLocks, c, m.frame);
        forall d: LockEdge { BatchAcquireExact(t, m.sender, m.keyLocks, c, m.frame, d); }
        forall d | d in r.0 && d !in t ensures d.lock in Claims(s) {
          assert d.lock == KeyLock(m.sender, d.lock.key);
        }
      } else if m.mtype in {FINISHED, REVERT} {
        ReleaseKeepsConsistent(t, c, m.frame);
      }
    }
  }

  /** Somebody else owns a key that the message claims. */
  ghost predicate ClaimRefused(t: Table, m: Message) {
    m.mtype in {MESSAGE, KEY_LOCK} && exists k :: k in m.keyLocks && OwnedByOther(t, KeyLock(m.sender, k), m.contextID)
  }

  /** The error cases, for any state at all: a missing message and a refused claim are faults, and nothing else is. */
  lemma SettleFaults(e: BatchState, s: ExecutiveState)
    requires e.fault.None?
    ensures var v := VisitSettle(e, s);
            && (v.env.fault == Some(NullMessage) <==> !s.skip && s.message.None?)
            && (v.env.fault == Some(UnexpectedKeyLock) <==>
                !s.skip && s.message.Some? && ClaimRefused(e.locks, s.message.value))
            && (v.env.fault.Some? ==> v.hint.END? && v.env.fault.value in {NullMessage, UnexpectedKeyLock})
  {
    if !s.skip && s.message.Some? {
      var m := s.message.value;
      BatchAcquireSucceeds(e.locks, m.sender, m.keyLocks, m.contextID, m.frame);
      forall k { NotHoldingIsRefusal(e.locks, m.sender, k, m.contextID); }
    }
  }

  // ---------------------------------------------------------------- the whole pass

  ghost predicate SettlingInv(es: seq<Entry>, e0: BatchState, c: Cursor<BatchState>) {
    && Conserved(es, c)
    && c.env == e0.(locks := c.env.locks) && Consistent(c.env.locks)
    && (forall d :: d in c.env.locks ==> d.context in Ids(es))
    && Deleted(c.trace) == {}
    && AllSettled(c.behind, c.env.locks) && AllSettled(c.taken, c.env.locks)
    && AllPending(c.ahead, c.env.locks) && ClaimsDisjoint(c.ahead)
  }

  lemma AllSettledKept(es: seq<Entry>, t: Table, t': Table, c: ContextID, claimed: set<KeyLock>)
    requires AllSettled(es, t) && ChangesOnly(t, t', c, claimed)
    requires forall y :: y in es ==> y.state.contextID != c
    ensures AllSettled(es, t')
  {
    forall y | y in es ensures Settled(y.state, t') { SettledByOwnEdges(y.state, t, t'); }
  }

  /** What is behind, ahead and taken after a visit. */
  lemma SettlingParts(c: Cursor<BatchState>, v: Visit<BatchState>)
    requires c.ahead != [] && Sorted(c.ahead) && DistinctIds(c.ahead)
    requires SettleOk(c.env, c.ahead[0].state, v)
    requires AllSettled(c.behind, c.env.locks) && AllSettled(c.taken, c.env.locks)
    requires AllPending(c.ahead, c.env.locks) && ClaimsDisjoint(c.ahead)
    requires forall y :: y in c.behind || y in c.taken ==> y.state.contextID != c.ahead[0].state.contextID
    ensures var d := Advance(c, v);
            && AllSettled(d.behind, d.env.locks) && AllSettled(d.taken, d.env.locks)
            && AllPending(d.ahead, d.env.locks) && ClaimsDisjoint(d.ahead)
  {
    var h := c.ahead[0];
    if h.state.skip {
      GroupSettled(c.ahead, c.env.locks);
    } else {
      AllSettledKept(c.behind, c.env.locks, v.env.locks, h.state.contextID, Claims(h.state));
      AllSettledKept(c.taken, c.env.locks, v.env.locks, h.state.contextID, Claims(h.state));
      TailPending(c.ahead, c.env.locks, v.env.locks);
    }
  }

  lemma HeadPending(es: seq<Entry>, e0: BatchState, c: Cursor<BatchState>)
    requires SettlingInv(es, e0, c) && c.ahead != []
    ensures Pending(c.ahead[0].state, c.env.locks)
    ensures Sorted(c.ahead) && DistinctIds(c.ahead) && c.ahead[0].state.contextID in Ids(es)
    ensures forall y :: y in c.behind || y in c.taken ==> y.state.contextID != c.ahead[0].state.contextID
  {
    HeadApart(c.behind, c.ahead);
    assert PendingAt(c.ahead, c.env.locks, 0) && Visible(c.ahead, 0);
    forall y | y in c.behind || y in c.taken ensures y.state.contextID != c.ahead[0].state.contextID {
      if y in c.taken { assert y.state.contextID in Ids(c.taken); }
    }
  }

  lemma SettlingStep(es: seq<Entry>, e0: BatchState, c: Cursor<BatchState>, v: Visit<BatchState>)
    requires SettlingInv(es, e0, c) && c.ahead != [] && SettleOk(c.env, c.ahead[0].state, v)
    ensures SettlingInv(es, e0, Advance(c, v))
  {
    HeadPending(es, e0, c);
    AdvanceConserves(es, c, v);
    SettlingParts(c, v);
    DeletedGrows(c.trace, Visited(c.ahead[0].key, v.hint));
  }

  lemma {:induction false} RunSettling(es: seq<Entry>, e0: BatchState, c: Cursor<BatchState>)
    requires SettlingInv(es, e0, c)
    ensures SettlingInv(es, e0, Run(VisitSettle, c)) && Run(VisitSettle, c).ahead == []
    decreases |c.ahead|
  {
    if c.ahead != [] {
      HeadPending(es, e0, c);
      VisitSettleOk(c.env, c.ahead[0].state);
      SettlingStep(es, e0, c, VisitSettle(c.env, c.ahead[0].state));
      RunSettling(es, e0, Step(VisitSettle, c));
    }
  }

  /** Putting settled states back under new keys. */
  lemma ReinsertSettled(behind: seq<Entry>, taken: seq<Entry>, t: Table)
    requires WellFormed(behind) && DistinctIds(taken) && Ids(behind) !! Ids(taken)
    requires AllSettled(behind, t) && AllSettled(taken, t)
    ensures var r := InsertAll(behind, RekeyAll(taken));
            WellFormed(r) && Ids(r) == Ids(behind) + Ids(taken) && AllSettled(r, t)
  {
    RekeyAllIds(taken);
    InsertAllKeepsWellFormed(behind, RekeyAll(taken));
    forall y | y in RekeyAll(taken) ensures Settled(y.state, t) {
      var x :| x in taken && y == Rekey(x);
    }
  }

  lemma SettlingStarts(es: seq<Entry>, e: BatchState) returns (c0: Cursor<BatchState>)
    requires WellFormed(es) && Consistent(e.locks) && LocksLive(e.locks, es)
    requires AllPending(es, e.locks) && ClaimsDisjoint(es)
    ensures c0 == Cursor([], es, [], [], e) && SettlingInv(es, e, c0)
  {
    c0 := Cursor([], es, [], [], e);
    assert c0.behind + c0.ahead == es;
    assert Conserved(es, c0);
  }

  /**
   UnexpectedKeyLockError never happens: the settling pass runs to its end without a fault, and leaves every
   state at rest and every context in the map.
   */
  lemma SettlingPassOk(es: seq<Entry>, e: BatchState)
    requires WellFormed(es) && Consistent(e.locks) && LocksLive(e.locks, es)
    requires AllPending(es, e.locks) && ClaimsDisjoint(es)
    ensures var p := SettlingPass(es, e);
            && p.env == e.(locks := p.env.locks)
            && WellFormed(p.entries) && Ids(p.entries) == Ids(es)
            && Consistent(p.env.locks) && LocksLive(p.env.locks, p.entries) && AllSettled(p.entries, p.env.locks)
  {
    var c0 := SettlingStarts(es, e);
    RunSettling(es, e, c0);
    var c := Run(VisitSettle, c0);
    assert c.behind + c.ahead == c.behind;
    ReinsertSettled(c.behind, c.taken, c.env.locks);
  }
}
