/** The sending pass keeps the locking discipline, contract exclusivity and the validity of its snapshots. */
module Sending {
  import opened Types
  import opened Orders
  import opened LockTable
  import opened Executive
  import opened Traversal
  import opened Batch
  import opened Discipline

  // ---------------------------------------------------------------- what a visited state looks like

  /** The list that was sent along names exactly the keys of the contract that others own. */
  ghost predicate SnapshotValid(t: Table, c: ContextID, m: Message) {
    && StrictlySorted(m.keyLocks)
    && forall k :: OwnedByOther(t, KeyLock(m.to, k), c) <==> k in m.keyLocks
  }

  /** A state whose message is with an executor. */
  ghost predicate InFlight(s: ExecutiveState, e: BatchState) {
    && s.contextID in e.sent && s.message.None? && !s.failed && !s.skip
    && StackOk(s) && s.callStack != [] && EdgesOnStack(s, e.locks)
    && var m := e.sent[s.contextID];
       && m.contextID == s.contextID && m.frame == Top(s) && m.to != "" && m.to in e.called
       && SnapshotValid(e.locks, s.contextID, m)
       && (|s.callStack| > 1 ==> m.frame != 0)
  }

  /** A state that asked for a key and did not get it. */
  ghost predicate Waiting(s: ExecutiveState, e: BatchState) {
    && s.contextID !in e.sent && Settled(s, e.locks) && s.message.value.mtype == KEY_LOCK
    && var m := s.message.value;
       var l := KeyLock(m.sender, m.keyLockAcquired);
       Request(l, s.contextID, m.frame) in e.locks && OwnedByOther(e.locks, l, s.contextID)
  }

  /** A state found with its contract already called; its skip mark is set. */
  ghost predicate Marked(s: ExecutiveState, e: BatchState) {
    && s.contextID !in e.sent && s.skip && Settled(s.(skip := false), e.locks)
    && s.message.value.to in e.called
  }

  ghost predicate Unsent(s: ExecutiveState, e: BatchState) {
    s.contextID !in e.sent && Settled(s, e.locks)
  }

  ghost predicate Handled(s: ExecutiveState, e: BatchState) {
    InFlight(s, e) || Waiting(s, e) || Marked(s, e)
  }

  // ---------------------------------------------------------------- what one visit may do to the batch state

  /** The effect of a visit to context c, as far as the other contexts are concerned. */
  ghost predicate Grows(e: BatchState, e': BatchState, c: ContextID) {
    && (forall d: LockEdge :: d.context != c ==> (d in e.locks <==> d in e'.locks))
    && (forall d :: d in e.locks && d.Own? ==> d in e'.locks)
    && (forall d :: d in e'.locks && d !in e.locks && d.Own? ==> d.lock.contract !in e.called)
    && Consistent(e'.locks)
    && e.called <= e'.called
    && (forall x :: x in e.sent ==> x in e'.sent && e'.sent[x] == e.sent[x])
    && (forall x :: x in e'.sent ==> x in e.sent || x == c)
  }

  lemma GrowsOwnership(e: BatchState, e': BatchState, c: ContextID, l: KeyLock, x: ContextID)
    requires Grows(e, e', c)
    ensures OwnedByOther(e.locks, l, x) ==> OwnedByOther(e'.locks, l, x)
    ensures l.contract in e.called && OwnedByOther(e'.locks, l, x) ==> OwnedByOther(e.locks, l, x)
  {
    if OwnedByOther(e.locks, l, x) {
      var d :| d in e.locks && d.Own? && d.lock == l && d.context != x;
      assert d in e'.locks;
    }
    if l.contract in e.called && OwnedByOther(e'.locks, l, x) {
      var d :| d in e'.locks && d.Own? && d.lock == l && d.context != x;
      assert d in e.locks;
    }
  }

  lemma UnsentKept(s: ExecutiveState, e: BatchState, e': BatchState, c: ContextID)
    requires Grows(e, e', c) && s.contextID != c && Unsent(s, e)
    ensures Unsent(s, e')
  {
    SettledByOwnEdges(s, e.locks, e'.locks);
  }

  lemma HandledKept(s: ExecutiveState, e: BatchState, e': BatchState, c: ContextID)
    requires Grows(e, e', c) && s.contextID != c && Handled(s, e)
    ensures Handled(s, e')
  {
    if InFlight(s, e) {
      var m := e.sent[s.contextID];
      forall k ensures OwnedByOther(e'.locks, KeyLock(m.to, k), s.contextID) <==> k in m.keyLocks {
        GrowsOwnership(e, e', c, KeyLock(m.to, k), s.contextID);
      }
      assert InFlight(s, e');
    } else if Waiting(s, e) {
      SettledByOwnEdges(s, e.locks, e'.locks);
      GrowsOwnership(e, e', c, KeyLock(s.message.value.sender, s.message.value.keyLockAcquired), s.contextID);
      assert Waiting(s, e');
    } else {
      SettledByOwnEdges(s.(skip := false), e.locks, e'.locks);
      assert Marked(s, e');
    }
  }

  // ---------------------------------------------------------------- one visit

  /** What every visit to a settled, unsent state achieves. */
  ghost predicate VisitOk(e: BatchState, s: ExecutiveState, v: Visit<BatchState>) {
    && v.env.fault == e.fault && v.env.errors == e.errors && |v.env.receipts| == |e.receipts|
    && v.state.contextID == s.contextID
    && Grows(e, v.env, s.contextID)
    && (forall d :: d in v.env.locks && d !in e.locks ==> d.context == s.contextID)
    && match v.hint
       case PASS => !v.state.skip && (InFlight(v.state, v.env) || Waiting(v.state, v.env))
       case SKIP => v.env == e && v.state == s.(skip := true) && Marked(v.state, v.env)
       case DELETE => v.env.locks == e.locks && v.env.sent == e.sent && v.env.called == e.called && !HasEdge(e.locks, s.contextID)
       case _ => false
  }

  /** The record of what was sent: one message per context, to pairwise different contracts. */
  ghost predicate Exclusive(e: BatchState) {
    && (forall c, d :: c in e.sent && d in e.sent && c != d ==> e.sent[c].to != e.sent[d].to)
    && e.called == (set c | c in e.sent :: e.sent[c].to)
    && (forall c :: c in e.sent ==> e.sent[c].to != "" && e.sent[c].contextID == c)
    && e.total == |e.sent|
  }

  /** Sending puts a state in flight: it needs a fresh contract and a stack that fits the message. */
  lemma SendOk(e: BatchState, s: ExecutiveState, m: Message)
    requires Consistent(e.locks) && s.contextID !in e.sent && !s.failed && !s.skip
    requires StackOk(s) && s.callStack != [] && EdgesOnStack(s, e.locks)
    requires m.contextID == s.contextID && m.frame == Top(s) && m.to != ""
    ensures var v := Send(e, s, m);
            v.hint == PASS && InFlight(v.state, v.env) && Grows(e, v.env, s.contextID) && v.env.locks == e.locks
  {
    var v := Send(e, s, m);
    forall k ensures OwnedByOther(v.env.locks, KeyLock(m.to, k), s.contextID) <==> k in v.env.sent[s.contextID].keyLocks {
      NotHoldingIsRefusal(e.locks, m.to, k, s.contextID);
    }
    if |s.callStack| > 1 { assert s.callStack[0] < Top(s); }
  }

  lemma SendKeepsExclusive(e: BatchState, s: ExecutiveState, m: Message)
    requires Exclusive(e) && s.contextID !in e.sent && m.to !in e.called && m.to != "" && m.contextID == s.contextID
    ensures Exclusive(Send(e, s, m).env)
  {
    CalledGrows(e, s, m);
    forall c | c in e.sent ensures e.sent[c].to != m.to {
      assert e.sent[c].to in e.called;
    }
  }

  lemma CalledGrows(e: BatchState, s: ExecutiveState, m: Message)
    requires e.called == (set c | c in e.sent :: e.sent[c].to) && s.contextID !in e.sent
    ensures var e' := Send(e, s, m).env; e'.called == set c | c in e'.sent :: e'.sent[c].to
  {
    var e' := Send(e, s, m).env;
    forall k ensures k in e'.called <==> k in (set c | c in e'.sent :: e'.sent[c].to) {
      if k in e.called {
        var c :| c in e.sent && e.sent[c].to == k;
        assert c in e'.sent && e'.sent[c].to == k;
      }
      assert s.contextID in e'.sent && e'.sent[s.contextID].to == m.to;
    }
  }

  /** When may a state be visited: it is settled, has not been sent, and new contracts get unused addresses. */
  ghost predicate Visitable(x: Executors, e: BatchState, s: ExecutiveState) {
    && Consistent(e.locks) && Exclusive(e)
    && Unsent(s, e)
    && 0 <= s.contextID < |e.receipts|
    && (Creates(s) ==> CreationAddress(x, s) != "" && CreationAddress(x, s) !in e.called)
  }

  /** Sending a message, possibly after the call stack has changed, is a visit that does what it should. */
  lemma SendVisitOk(e: BatchState, s: ExecutiveState, s': ExecutiveState, m: Message)
    requires Consistent(e.locks) && Exclusive(e) && Unsent(s, e) && s'.contextID == s.contextID && !s'.failed && !s'.skip
    requires StackOk(s') && s'.callStack != [] && EdgesOnStack(s', e.locks)
    requires m.contextID == s.contextID && m.frame == Top(s') && m.to != "" && m.to !in e.called
    ensures VisitOk(e, s, Send(e, s', m)) && Exclusive(Send(e, s', m).env)
  {
    SendOk(e, s', m);
    SendKeepsExclusive(e, s', m);
  }

  /** A new frame goes on top of the stack, which stays in order and keeps the frames that hold locks. */
  lemma FrameOpens(s: ExecutiveState, t: Table)
    requires StackOk(s) && EdgesOnStack(s, t)
    ensures var s' := s.(currentSeq := s.currentSeq + 1, callStack := s.callStack + [s.currentSeq]);
            StackOk(s') && s'.callStack != [] && EdgesOnStack(s', t) && Top(s') == s.currentSeq
  {
  }

  lemma RequestOk(x: Executors, e: BatchState, s: ExecutiveState)
    requires Visitable(x, e, s) && s.message.value.mtype in {MESSAGE, TXHASH}
    requires s.message.value.to !in e.called
    ensures VisitOk(e, s, SendRequest(x, e, s, s.message.value)) && Exclusive(SendRequest(x, e, s, s.message.value).env)
  {
    var frame := s.currentSeq;
    var m := Addressed(x, s.message.value, s.contextID, frame).(frame := frame);
    FrameOpens(s, e.locks);
    assert m.to != "" && m.to !in e.called by { assert Creates(s) <==> s.message.value.to == ""; }
    var t := s.(currentSeq := frame + 1, callStack := s.callStack + [frame]);
    SendVisitOk(e, s, t, m);
    assert SendRequest(x, e, s, s.message.value) == Send(e, t, m);
  }

  /** A frame that has returned holds nothing, so the locks that are left belong to the frames below it. */
  lemma ReturnedFrameIsFree(s: ExecutiveState, t: Table)
    requires Settled(s, t) && s.message.value.mtype in {FINISHED, REVERT}
    ensures s.callStack != []
    ensures forall d :: d in t && d.context == s.contextID ==> d.frame in s.callStack[..|s.callStack| - 1]
  {
    var n := |s.callStack| - 1;
    forall d | d in t && d.context == s.contextID ensures d.frame in s.callStack[..n] {
      assert d.frame in s.callStack && d.frame != s.callStack[n];
      assert s.callStack == s.callStack[..n] + [s.callStack[n]];
    }
  }

  /** The return of the last frame finishes the transaction. */
  lemma FinishOk(e: BatchState, s: ExecutiveState)
    requires Consistent(e.locks) && s.message.Some? && |s.callStack| == 1 && 0 <= s.contextID < |e.receipts|
    requires forall d :: d in e.locks ==> d.context != s.contextID
    requires Exclusive(e)
    ensures VisitOk(e, s, SendReturn(e, s, s.message.value)) && Exclusive(SendReturn(e, s, s.message.value).env)
  {
  }

  lemma ReturnOk(x: Executors, e: BatchState, s: ExecutiveState)
    requires Visitable(x, e, s) && s.message.value.mtype in {FINISHED, REVERT}
    requires s.message.value.to == "" || s.message.value.to !in e.called
    ensures VisitOk(e, s, SendReturn(e, s, s.message.value)) && Exclusive(SendReturn(e, s, s.message.value).env)
  {
    var m, rest := s.message.value, s.callStack[..|s.callStack| - 1];
    ReturnedFrameIsFree(s, e.locks);
    if rest != [] {
      var s' := s.(callStack := rest);
      var m' := m.(frame := rest[|rest| - 1], create := false);
      SendVisitOk(e, s, s', m');
    } else {
      FinishOk(e, s);
    }
  }

  lemma KeyLockOk(x: Executors, e: BatchState, s: ExecutiveState)
    requires Visitable(x, e, s) && s.message.value.mtype == KEY_LOCK
    requires s.message.value.to !in e.called
    ensures VisitOk(e, s, SendKeyLock(e, s, s.message.value)) && Exclusive(SendKeyLock(e, s, s.message.value).env)
  {
    var m := s.message.value;
    var l, c := KeyLock(m.sender, m.keyLockAcquired), s.contextID;
    var t := Acquire(e.locks, l, c, m.frame);
    var e' := e.(locks := t);
    AcquireKeepsConsistent(e.locks, l, c, m.frame);
    OwnersOfOthersUnchanged(e.locks, l, c, m.frame, l);
    assert Top(s) in s.callStack;
    assert Grows(e, e', c);
    if OwnedByOther(e.locks, l, c) {
      assert Settled(s, t);
      assert Waiting(s, e');
    } else {
      SendOk(e', s, m);
      SendKeepsExclusive(e', s, m);
    }
  }

  lemma ResendOk(x: Executors, e: BatchState, s: ExecutiveState, m: Message)
    requires Visitable(x, e, s) && s.callStack != []
    requires m.contextID == s.contextID && m.frame == Top(s) && m.to != "" && m.to !in e.called
    ensures VisitOk(e, s, Send(e, s, m)) && Exclusive(Send(e, s, m).env)
  {
    SendVisitOk(e, s, s, m);
  }

  /** Every visit of the sending pass does what it should; none of them fails. */
  lemma VisitStartOk(x: Executors, e: BatchState, s: ExecutiveState)
    requires Visitable(x, e, s)
    ensures VisitOk(e, s, VisitStart(x, e, s)) && Exclusive(VisitStart(x, e, s).env)
  {
    var m := s.message.value;
    if m.to != "" && m.to in e.called {
      assert s.(skip := true).(skip := false) == s;
    } else {
      assert m.to !in e.called;
      match m.mtype {
        case MESSAGE => RequestOk(x, e, s);
        case TXHASH => RequestOk(x, e, s);
        case FINISHED => ReturnOk(x, e, s);
        case REVERT => ReturnOk(x, e, s);
        case REVERT_KEY_LOCK => ResendOk(x, e, s, m.(mtype := REVERT, create := false, keyLocks := []));
        case KEY_LOCK => KeyLockOk(x, e, s);
        case SEND_BACK =>
          assert Creates(s) <==> m.to == "";
          ResendOk(x, e, s, Addressed(x, m, s.contextID, m.frame).(mtype := if m.transactionHash != 0 then TXHASH else MESSAGE));
      }
    }
  }

  // ---------------------------------------------------------------- the whole pass

  /** No earlier entry of the same contract carries a skip mark. */
  ghost predicate Visible(es: seq<Entry>, i: nat)
    requires i < |es|
  {
    forall j :: 0 <= j < i && es[j].state.skip ==> es[j].key.contract != es[i].key.contract
  }

  /** Entries behind the iterator are handled, except those passed over after a mark, which are as they were. */
  ghost predicate ScreenedAt(es: seq<Entry>, e: BatchState, i: nat)
    requires i < |es|
  {
    if Visible(es, i) then Handled(es[i].state, e) else Unsent(es[i].state, e)
  }

  ghost predicate Screened(es: seq<Entry>, e: BatchState) {
    forall i :: 0 <= i < |es| ==> ScreenedAt(es, e, i)
  }

  ghost predicate MarksClear(behind: seq<Entry>, ahead: seq<Entry>) {
    forall b, a :: b in behind && a in ahead && b.state.skip ==> b.key.contract != a.key.contract
  }

  /** The states ahead are as they were, and may be visited. */
  ghost predicate AheadOk(x: Executors, ahead: seq<Entry>, e: BatchState) {
    && FreshAddresses(x, ahead)
    && forall a :: a in ahead ==>
         && Unsent(a.state, e) && 0 <= a.state.contextID < |e.receipts|
         && (Creates(a.state) ==> CreationAddress(x, a.state) !in e.called)
  }

  ghost predicate SendingInv(x: Executors, es: seq<Entry>, c: Cursor<BatchState>) {
    && Conserved(es, c) && c.taken == []
    && Consistent(c.env.locks) && Exclusive(c.env) && c.env.fault.None? && c.env.errors == 0
    && LocksLive(c.env.locks, c.behind + c.ahead)
    && c.env.sent.Keys <= Ids(c.behind)
    && AheadOk(x, c.ahead, c.env)
    && Screened(c.behind, c.env)
    && MarksClear(c.behind, c.ahead)
  }

  /** The state at the head of the ahead part is visitable. */
  lemma HeadVisitable(x: Executors, es: seq<Entry>, c: Cursor<BatchState>)
    requires SendingInv(x, es, c) && c.ahead != []
    ensures Visitable(x, c.env, c.ahead[0].state)
    ensures forall i :: 0 <= i < |c.behind| ==> c.behind[i].state.contextID != c.ahead[0].state.contextID
    ensures forall i :: 0 < i < |c.ahead| ==> c.ahead[i].state.contextID != c.ahead[0].state.contextID
  {
    HeadApart(c.behind, c.ahead);
  }

  lemma ScreenedKept(es: seq<Entry>, e: BatchState, e': BatchState, c: ContextID)
    requires Screened(es, e) && Grows(e, e', c)
    requires forall i :: 0 <= i < |es| ==> es[i].state.contextID != c
    ensures Screened(es, e')
  {
    forall i | 0 <= i < |es| ensures ScreenedAt(es, e', i) {
      assert ScreenedAt(es, e, i);
      if Visible(es, i) { HandledKept(es[i].state, e, e', c); } else { UnsentKept(es[i].state, e, e', c); }
    }
  }

  lemma VisiblePrefix(es: seq<Entry>, more: seq<Entry>, i: nat)
    requires i < |es|
    ensures Visible(es + more, i) <==> Visible(es, i)
  {
    var r := es + more;
    assert forall j :: 0 <= j < |es| ==> r[j] == es[j];
    if Visible(r, i) {
      forall j | 0 <= j < i && es[j].state.skip ensures es[j].key.contract != es[i].key.contract {
        assert r[j].state.skip;
      }
    }
  }

  /** A handled state joins the screened ones, if no mark behind concerns it. */
  lemma ScreenedExtend(es: seq<Entry>, y: Entry, e: BatchState)
    requires Screened(es, e) && Handled(y.state, e)
    requires forall b :: b in es && b.state.skip ==> b.key.contract != y.key.contract
    ensures Screened(es + [y], e)
  {
    var r := es + [y];
    forall i | 0 <= i < |r| ensures ScreenedAt(r, e, i) {
      if i < |es| {
        assert ScreenedAt(es, e, i);
        VisiblePrefix(es, [y], i);
      } else {
        assert Visible(r, i);
      }
    }
  }

  /** Unsent states of a marked contract join the screened ones. */
  lemma {:induction false} ScreenedExtendGroup(es: seq<Entry>, group: seq<Entry>, e: BatchState)
    requires Screened(es, e) && es != [] && es[|es| - 1].state.skip
    requires forall g :: g in group ==> g.key.contract == es[|es| - 1].key.contract && Unsent(g.state, e)
    ensures Screened(es + group, e)
  {
    var r := es + group;
    forall i | 0 <= i < |r| ensures ScreenedAt(r, e, i) {
      if i < |es| {
        assert ScreenedAt(es, e, i);
        VisiblePrefix(es, group, i);
      } else {
        assert r[i] in group && r[|es| - 1].state.skip;
        assert !Visible(r, i);
      }
    }
  }

  /** Nothing a visit does spoils the states further ahead. */
  lemma AheadKept(x: Executors, c: Cursor<BatchState>, e': BatchState, rest: seq<Entry>)
    requires c.ahead != [] && AheadOk(x, c.ahead, c.env) && Visitable(x, c.env, c.ahead[0].state)
    requires Grows(c.env, e', c.ahead[0].state.contextID) && |e'.receipts| == |c.env.receipts|
    requires e'.called <= c.env.called + {SentTo(x, c.ahead[0].state)}
    requires forall a :: a in rest ==> a in c.ahead && a.state.contextID != c.ahead[0].state.contextID
    ensures AheadOk(x, rest, e')
  {
    var h := c.ahead[0];
    forall a | a in rest
      ensures Unsent(a.state, e') && 0 <= a.state.contextID < |e'.receipts|
      ensures Creates(a.state) ==> CreationAddress(x, a.state) !in e'.called
    {
      UnsentKept(a.state, c.env, e', h.state.contextID);
      assert h in c.ahead && a in c.ahead;
    }
  }

  /** The contract that a visit may add to the called ones. */
  ghost function SentTo(x: Executors, s: ExecutiveState): string
    requires s.message.Some?
  {
    if Creates(s) then CreationAddress(x, s) else s.message.value.to
  }

  lemma VisitStartCalls(x: Executors, e: BatchState, s: ExecutiveState)
    requires Visitable(x, e, s)
    ensures VisitStart(x, e, s).env.called <= e.called + {SentTo(x, s)}
  {
  }

  lemma LiveKept(e: BatchState, v: Visit<BatchState>, s: ExecutiveState, before: seq<Entry>, after: seq<Entry>)
    requires VisitOk(e, s, v) && LocksLive(e.locks, before)
    requires s.contextID in Ids(before)
    requires Ids(after) == if v.hint.DELETE? then Ids(before) - {s.contextID} else Ids(before)
    ensures LocksLive(v.env.locks, after)
  {
    forall d | d in v.env.locks ensures d.context in Ids(after) {
      if v.hint.DELETE? {
        assert d in e.locks;
        assert d.context == s.contextID ==> HasEdge(e.locks, s.contextID);
      }
    }
  }

  /** A visit that passes on. */
  lemma PassScreened(behind: seq<Entry>, ahead: seq<Entry>, y: Entry, e: BatchState)
    requires ahead != [] && y.key == ahead[0].key && Handled(y.state, e) && !y.state.skip
    requires Screened(behind, e) && MarksClear(behind, ahead)
    ensures Screened(behind + [y], e) && MarksClear(behind + [y], ahead[1..])
  {
    assert ahead[0] in ahead;
    ScreenedExtend(behind, y, e);
  }

  /** A visit that skips the contract. */
  lemma SkipScreened(behind: seq<Entry>, ahead: seq<Entry>, y: Entry, e: BatchState)
    requires ahead != [] && Sorted(ahead) && y.key == ahead[0].key && Handled(y.state, e) && y.state.skip
    requires Screened(behind, e) && MarksClear(behind, ahead)
    requires forall a :: a in ahead[1..] ==> Unsent(a.state, e)
    ensures var n := UpperBound(ahead, GroupEnd(y.key));
            Screened(behind + [y] + ahead[1..n], e) && MarksClear(behind + [y] + ahead[1..n], ahead[n..])
  {
    var n := UpperBound(ahead, GroupEnd(y.key));
    assert ahead[0] in ahead;
    ContractParts(ahead);
    ScreenedExtend(behind, y, e);
    assert forall g :: g in ahead[1..n] ==> g in ahead[1..];
    ScreenedExtendGroup(behind + [y], ahead[1..n], e);
    MarksClearAfterGroup(behind, ahead[n..], y, ahead[1..n]);
  }

  /** The upper bound splits what is ahead into the states of the first contract and the others. */
  lemma ContractParts(ahead: seq<Entry>)
    requires ahead != [] && Sorted(ahead)
    ensures var n := UpperBound(ahead, GroupEnd(ahead[0].key));
            && n >= 1
            && (forall g :: g in ahead[1..n] ==> g.key.contract == ahead[0].key.contract)
            && (forall a :: a in ahead[n..] ==> a in ahead && a.key.contract != ahead[0].key.contract)
  {
    var n := UpperBound(ahead, GroupEnd(ahead[0].key));
    UpperBoundIsGroup(ahead, ahead[0].key);
    forall g | g in ahead[1..n] ensures g.key.contract == ahead[0].key.contract {
      var i :| 0 <= i < |ahead[1..n]| && ahead[1..n][i] == g;
      assert g == ahead[1 + i];
    }
    forall a | a in ahead[n..] ensures a in ahead && a.key.contract != ahead[0].key.contract {
      var i :| 0 <= i < |ahead[n..]| && ahead[n..][i] == a;
      assert a == ahead[n + i];
    }
  }

  lemma MarksClearAfterGroup(behind: seq<Entry>, rest: seq<Entry>, y: Entry, group: seq<Entry>)
    requires MarksClear(behind, rest)
    requires forall a :: a in rest ==> a.key.contract != y.key.contract
    requires forall g :: g in group ==> g.key.contract == y.key.contract
    ensures MarksClear(behind + [y] + group, rest)
  {
  }

  lemma StepAhead(x: Executors, c: Cursor<BatchState>, v: Visit<BatchState>)
    requires c.ahead != [] && AheadOk(x, c.ahead, c.env)
    requires Visitable(x, c.env, c.ahead[0].state) && VisitOk(c.env, c.ahead[0].state, v)
    requires v.env.called <= c.env.called + {SentTo(x, c.ahead[0].state)}
    requires forall i :: 0 < i < |c.ahead| ==> c.ahead[i].state.contextID != c.ahead[0].state.contextID
    ensures AheadOk(x, c.ahead[1..], v.env) && AheadOk(x, Advance(c, v).ahead, v.env)
  {
    TailApart(c.ahead);
    AheadKept(x, c, v.env, c.ahead[1..]);
    AdvanceAhead(c, v);
    AheadShrinks(x, c.ahead[1..], Advance(c, v).ahead, v.env);
  }

  lemma TailApart(es: seq<Entry>)
    requires es != [] && forall i :: 0 < i < |es| ==> es[i].state.contextID != es[0].state.contextID
    ensures forall a :: a in es[1..] ==> a in es && a.state.contextID != es[0].state.contextID
  {
    forall a | a in es[1..] ensures a in es && a.state.contextID != es[0].state.contextID {
      var i :| 0 <= i < |es[1..]| && es[1..][i] == a;
      assert es[i + 1] == a;
    }
  }

  lemma AdvanceAhead(c: Cursor<BatchState>, v: Visit<BatchState>)
    requires c.ahead != []
    ensures forall a :: a in Advance(c, v).ahead ==> a in c.ahead[1..]
  {
  }

  lemma AheadShrinks(x: Executors, ahead: seq<Entry>, less: seq<Entry>, e: BatchState)
    requires AheadOk(x, ahead, e) && forall a :: a in less ==> a in ahead
    ensures AheadOk(x, less, e)
  {
  }

  lemma StepScreens(x: Executors, c: Cursor<BatchState>, v: Visit<BatchState>)
    requires c.ahead != [] && Sorted(c.ahead)
    requires Screened(c.behind, c.env) && MarksClear(c.behind, c.ahead)
    requires VisitOk(c.env, c.ahead[0].state, v)
    requires forall a :: a in c.ahead[1..] ==> Unsent(a.state, v.env)
    requires forall i :: 0 <= i < |c.behind| ==> c.behind[i].state.contextID != c.ahead[0].state.contextID
    ensures Screened(Advance(c, v).behind, v.env) && MarksClear(Advance(c, v).behind, Advance(c, v).ahead)
  {
    var h := c.ahead[0];
    var y := Entry(h.key, v.state);
    ScreenedKept(c.behind, c.env, v.env, h.state.contextID);
    if v.hint.PASS? {
      PassScreened(c.behind, c.ahead, y, v.env);
    } else if v.hint.SKIP? {
      SkipScreened(c.behind, c.ahead, y, v.env);
    }
  }

  lemma StepRecordsIds(c: Cursor<BatchState>, v: Visit<BatchState>)
    requires c.ahead != [] && VisitOk(c.env, c.ahead[0].state, v) && c.env.sent.Keys <= Ids(c.behind)
    ensures v.env.sent.Keys <= Ids(Advance(c, v).behind)
  {
    var h, d := c.ahead[0], Advance(c, v);
    var y := Entry(h.key, v.state);
    assert forall b :: b in c.behind ==> b in d.behind;
    if v.hint.PASS? { assert y in d.behind; }
  }

  /** One step of the sending pass. */
  lemma SendingStep(x: Executors, es: seq<Entry>, c: Cursor<BatchState>, v: Visit<BatchState>)
    requires SendingInv(x, es, c) && c.ahead != []
    requires VisitOk(c.env, c.ahead[0].state, v) && Exclusive(v.env)
    requires v.env.called <= c.env.called + {SentTo(x, c.ahead[0].state)}
    ensures SendingInv(x, es, Advance(c, v))
  {
    var h, d := c.ahead[0], Advance(c, v);
    var all := c.behind + c.ahead;
    HeadVisitable(x, es, c);
    HeadApart(c.behind, c.ahead);
    AdvanceConserves(es, c, v);
    StepAhead(x, c, v);
    StepScreens(x, c, v);
    StepRecordsIds(c, v);
    LiveKept(c.env, v, h.state, all, d.behind + d.ahead);
  }

  lemma {:induction false} RunSending(x: Executors, es: seq<Entry>, c: Cursor<BatchState>)
    requires SendingInv(x, es, c)
    ensures SendingInv(x, es, Run(StartCallback(x), c)) && Run(StartCallback(x), c).ahead == []
    decreases |c.ahead|
  {
    if c.ahead != [] {
      var h, v := c.ahead[0], VisitStart(x, c.env, c.ahead[0].state);
      HeadVisitable(x, es, c);
      VisitStartOk(x, c.env, h.state);
      VisitStartCalls(x, c.env, h.state);
      SendingStep(x, es, c, v);
      RunSending(x, es, Step(StartCallback(x), c));
    }
  }

  /** Every transaction has a slot for its result. */
  ghost predicate SlotsExist(sys: System) {
    forall y :: y in sys.entries ==> 0 <= y.state.contextID < |sys.receipts|
  }

  /** What the sending pass leaves behind. */
  ghost predicate SendingDone(es: seq<Entry>, e: BatchState) {
    && WellFormed(es) && Screened(es, e) && LocksLive(e.locks, es)
    && Consistent(e.locks) && Exclusive(e) && e.fault.None? && e.errors == 0
    && e.sent.Keys <= Ids(es)
  }

  lemma SendingStarts(x: Executors, sys: System) returns (c0: Cursor<BatchState>)
    requires AtRest(sys) && SlotsExist(sys) && Obeys(x, sys.entries)
    ensures c0 == Cursor([], sys.entries, [], [], Begin(sys)) && SendingInv(x, sys.entries, c0)
  {
    c0 := Cursor([], sys.entries, [], [], Begin(sys));
    assert c0.behind + c0.ahead == sys.entries;
    assert Conserved(sys.entries, c0);
  }

  lemma SendingEnds(x: Executors, es: seq<Entry>, c: Cursor<BatchState>)
    requires SendingInv(x, es, c) && c.ahead == []
    ensures InsertAll(c.behind, RekeyAll(c.taken)) == c.behind
    ensures SendingDone(c.behind, c.env) && Ids(c.behind) == Ids(es) - Deleted(c.trace)
  {
    assert c.behind + c.ahead == c.behind && RekeyAll(c.taken) == [];
    assert Ids(c.taken) == {};
  }

  lemma SendingPassOk(x: Executors, sys: System)
    requires AtRest(sys) && SlotsExist(sys) && Obeys(x, sys.entries)
    ensures SendingDone(SendingPass(x, sys).entries, SendingPass(x, sys).env)
    ensures Ids(SendingPass(x, sys).entries) == Ids(sys.entries) - Deleted(SendingPass(x, sys).trace)
  {
    var c0 := SendingStarts(x, sys);
    RunSending(x, sys.entries, c0);
    SendingEnds(x, sys.entries, Run(StartCallback(x), c0));
  }

  /**
   Contract exclusivity: the messages of one batch go to pairwise different contracts, each of them to a
   non-empty address, including contracts that are being created.
   */
  lemma ContractExclusivity(x: Executors, sys: System)
    requires AtRest(sys) && SlotsExist(sys) && Obeys(x, sys.entries)
    ensures var sent := SendingPass(x, sys).env.sent;
            && (forall c, d :: c in sent && d in sent && c != d ==> sent[c].to != sent[d].to)
            && (forall c :: c in sent ==> sent[c].to != "" && sent[c].contextID == c)
            && SendingPass(x, sys).env.total == |sent|
  {
    SendingPassOk(x, sys);
  }

  ghost predicate DistinctTargets(sent: map<ContextID, Message>) {
    forall c, d :: c in sent && d in sent && c != d ==> sent[c].to != sent[d].to
  }

  /** The called contracts are those of the messages sent, which are pairwise different. */
  ghost predicate Tracked(e: BatchState) {
    e.called == (set c | c in e.sent :: e.sent[c].to) && DistinctTargets(e.sent)
  }

  /**
   What the freshness of new addresses is needed for, exactly: a visit keeps the messages of a batch apart if and
   only if it does not create a contract at an address that was already called in the batch. The check for called
   contracts comes before the address is known, so the program does not notice such a collision.
   */
  lemma OnlyCollisionsBreakExclusivity(x: Executors, e: BatchState, s: ExecutiveState)
    requires Consistent(e.locks) && Exclusive(e) && Unsent(s, e) && 0 <= s.contextID < |e.receipts|
    ensures DistinctTargets(VisitStart(x, e, s).env.sent) <==> !(Creates(s) && CreationAddress(x, s) in e.called)
  {
    if Creates(s) {
      CreationIsSent(x, e, s);
      OneMoreTarget(e, s.contextID, VisitStart(x, e, s).env.sent);
    } else {
      VisitStartOk(x, e, s);
    }
  }

  lemma OneMoreTarget(e: BatchState, c: ContextID, r: map<ContextID, Message>)
    requires Tracked(e) && c !in e.sent && r.Keys == e.sent.Keys + {c}
    requires forall d :: d in e.sent ==> r[d] == e.sent[d]
    ensures DistinctTargets(r) <==> r[c].to !in e.called
  {
    if r[c].to in e.called {
      var d :| d in e.sent && e.sent[d].to == r[c].to;
      assert d in r && c in r;
    } else {
      forall d | d in e.sent ensures r[d].to != r[c].to { assert e.sent[d].to in e.called; }
      forall d, f | d in r && f in r && d != f ensures r[d].to != r[f].to {}
    }
  }

  lemma CreationIsSent(x: Executors, e: BatchState, s: ExecutiveState)
    requires Creates(s) && !s.failed
    ensures VisitStart(x, e, s).hint.PASS?
    ensures var r := VisitStart(x, e, s).env.sent;
            && r.Keys == e.sent.Keys + {s.contextID} && r[s.contextID].to == CreationAddress(x, s)
            && forall c :: c in e.sent && c != s.contextID ==> r[c] == e.sent[c]
  {
  }

  /** A visit to the state creates a contract at an address that was already called. */
  ghost predicate CollidesNow(x: Executors, e: BatchState, s: ExecutiveState) {
    Creates(s) && CreationAddress(x, s) in e.called
  }

  /** Some visit of the pass does. */
  ghost predicate Collides(x: Executors, c: Cursor<BatchState>)
    decreases |c.ahead|
  {
    c.ahead != [] && (CollidesNow(x, c.env, c.ahead[0].state) || Collides(x, Step(StartCallback(x), c)))
  }

  /** The messages sent earlier are untouched, and at most one is added, for context c. */
  ghost predicate SentGrows(e: BatchState, e': BatchState, c: ContextID) {
    && (forall k :: k in e.sent ==> k in e'.sent && e'.sent[k] == e.sent[k])
    && (forall k :: k in e'.sent ==> k in e.sent || k == c)
  }

  lemma SendTracks(e: BatchState, s: ExecutiveState, m: Message)
    requires Tracked(e) && s.contextID !in e.sent && m.to !in e.called
    ensures Tracked(Send(e, s, m).env)
  {
    CalledGrows(e, s, m);
    OneMoreTarget(e, s.contextID, Send(e, s, m).env.sent);
  }

  lemma VisitKeepsContext(x: Executors, e: BatchState, s: ExecutiveState)
    ensures VisitStart(x, e, s).state.contextID == s.contextID && !VisitStart(x, e, s).hint.UPDATE?
  {
  }

  lemma ReturnGrowsSent(e: BatchState, s: ExecutiveState, m: Message)
    requires s.contextID !in e.sent
    ensures SentGrows(e, SendReturn(e, s, m).env, s.contextID)
  {
  }

  lemma RequestGrowsSent(x: Executors, e: BatchState, s: ExecutiveState, m: Message)
    requires s.contextID !in e.sent
    ensures SentGrows(e, SendRequest(x, e, s, m).env, s.contextID)
  {
  }

  lemma KeyLockGrowsSent(e: BatchState, s: ExecutiveState, m: Message)
    requires s.contextID !in e.sent
    ensures SentGrows(e, SendKeyLock(e, s, m).env, s.contextID)
  {
  }

  lemma VisitGrowsSent(x: Executors, e: BatchState, s: ExecutiveState)
    requires s.contextID !in e.sent
    ensures SentGrows(e, VisitStart(x, e, s).env, s.contextID)
  {
    if !s.failed && s.message.Some? {
      var m := s.message.value;
      RequestGrowsSent(x, e, s, m);
      ReturnGrowsSent(e, s, m);
      KeyLockGrowsSent(e, s, m);
    }
  }

  lemma VisitTracks(x: Executors, e: BatchState, s: ExecutiveState)
    requires Tracked(e) && s.contextID !in e.sent && MessageOk(s) && !CollidesNow(x, e, s)
    ensures Tracked(VisitStart(x, e, s).env)
  {
    var m := s.message.value;
    if !s.failed && (m.to == "" || m.to !in e.called) {
      match m.mtype {
        case MESSAGE => SendTracks(e, s, Addressed(x, m, s.contextID, s.currentSeq).(frame := s.currentSeq));
        case TXHASH => SendTracks(e, s, Addressed(x, m, s.contextID, s.currentSeq).(frame := s.currentSeq));
        case FINISHED => ReturnTracks(e, s);
        case REVERT => ReturnTracks(e, s);
        case REVERT_KEY_LOCK => SendTracks(e, s, m.(mtype := REVERT, create := false, keyLocks := []));
        case KEY_LOCK => KeyLockTracks(e, s);
        case SEND_BACK =>
          SendTracks(e, s, Addressed(x, m, s.contextID, m.frame).(mtype := if m.transactionHash != 0 then TXHASH else MESSAGE));
      }
    }
  }

  lemma ReturnTracks(e: BatchState, s: ExecutiveState)
    requires Tracked(e) && s.contextID !in e.sent && MessageOk(s)
    requires s.message.value.mtype in {FINISHED, REVERT} && (s.message.value.to == "" || s.message.value.to !in e.called)
    ensures Tracked(SendReturn(e, s, s.message.value).env)
  {
    var rest := s.callStack[..|s.callStack| - 1];
    if rest != [] {
      SendTracks(e, s.(callStack := rest), s.message.value.(frame := rest[|rest| - 1], create := false));
    }
  }

  lemma KeyLockTracks(e: BatchState, s: ExecutiveState)
    requires Tracked(e) && s.contextID !in e.sent && s.message.Some? && s.message.value.to !in e.called
    ensures Tracked(SendKeyLock(e, s, s.message.value).env)
  {
    var m := s.message.value;
    var e' := e.(locks := Acquire(e.locks, KeyLock(m.sender, m.keyLockAcquired), s.contextID, m.frame));
    assert Tracked(e');
    SendTracks(e', s, m);
  }

  lemma CollisionIsSent(x: Executors, e: BatchState, s: ExecutiveState)
    requires Tracked(e) && s.contextID !in e.sent && !s.failed && CollidesNow(x, e, s)
    ensures !DistinctTargets(VisitStart(x, e, s).env.sent)
  {
    CreationIsSent(x, e, s);
    OneMoreTarget(e, s.contextID, VisitStart(x, e, s).env.sent);
  }

  /** Nothing ahead has been sent yet, and what is ahead can be. */
  ghost predicate AheadUnsent(c: Cursor<BatchState>) {
    && DistinctIds(c.ahead)
    && forall y :: y in c.ahead ==> y.state.contextID !in c.env.sent && MessageOk(y.state) && !y.state.failed
  }

  lemma AdvanceLeavesUnsent(c: Cursor<BatchState>, v: Visit<BatchState>)
    requires AheadUnsent(c) && c.ahead != [] && SentGrows(c.env, v.env, c.ahead[0].state.contextID)
    ensures AheadUnsent(Advance(c, v))
  {
    TailApart(c.ahead);
    AdvanceAhead(c, v);
    var shift := AdvanceSuffix(c, v);
  }

  lemma StepLeavesUnsent(x: Executors, c: Cursor<BatchState>)
    requires AheadUnsent(c) && c.ahead != []
    ensures AheadUnsent(Step(StartCallback(x), c)) && c.ahead[0].state.contextID !in c.env.sent
    ensures SentGrows(c.env, Step(StartCallback(x), c).env, c.ahead[0].state.contextID)
  {
    assert c.ahead[0] in c.ahead;
    VisitGrowsSent(x, c.env, c.ahead[0].state);
    AdvanceLeavesUnsent(c, VisitStart(x, c.env, c.ahead[0].state));
  }

  lemma {:induction false} RunKeepsSent(x: Executors, c: Cursor<BatchState>)
    requires AheadUnsent(c)
    ensures forall k :: k in c.env.sent ==>
              k in Run(StartCallback(x), c).env.sent && Run(StartCallback(x), c).env.sent[k] == c.env.sent[k]
    decreases |c.ahead|
  {
    if c.ahead != [] {
      StepLeavesUnsent(x, c);
      RunKeepsSent(x, Step(StartCallback(x), c));
    }
  }

  lemma {:induction false} RunCollides(x: Executors, c: Cursor<BatchState>)
    requires AheadUnsent(c) && Tracked(c.env)
    ensures DistinctTargets(Run(StartCallback(x), c).env.sent) <==> !Collides(x, c)
    decreases |c.ahead|
  {
    if c.ahead != [] {
      var h, d := c.ahead[0], Step(StartCallback(x), c);
      assert h in c.ahead;
      StepLeavesUnsent(x, c);
      if CollidesNow(x, c.env, h.state) {
        CollisionIsSent(x, c.env, h.state);
        RunKeepsSent(x, d);
      } else {
        VisitTracks(x, c.env, h.state);
        RunCollides(x, d);
      }
    }
  }

  /**
   The same for a whole pass, with executors of any kind: the messages of a batch go to pairwise different contracts
   if and only if no visit of the pass creates a contract at an address that was already called.
   */
  lemma ExclusiveUnlessCollision(x: Executors, sys: System)
    requires AtRest(sys)
    ensures DistinctTargets(SendingPass(x, sys).env.sent) <==> !Collides(x, Cursor([], sys.entries, [], [], Begin(sys)))
  {
    RunCollides(x, Cursor([], sys.entries, [], [], Begin(sys)));
  }

  /** A transaction whose contract asks for a new contract at an address computed from sender, data and salt. */
  function Creator(c: ContextID, sender: string, data: string, salt: int): Entry {
    var m := Message(MESSAGE, c, 0, sender, "", true, Some(salt), data, [], "", 0, TRANSACTION_GAS, "", 0);
    Entry(StateKey("", c), ExecutiveState(c, [0], Some(m), false, 1, false))
  }

  lemma TwoPasses<E>(f: Callback<E>, a: Entry, b: Entry, env: E)
    requires f(env, a.state).hint.PASS? && f(f(env, a.state).env, b.state).hint.PASS?
    ensures Traverse(f, [a, b], env).env == f(f(env, a.state).env, b.state).env
  {
    var c0 := Cursor([], [a, b], [], [], env);
    var c1 := Step(f, c0);
    assert c1.ahead == [b];
    assert Run(f, c0) == Run(f, c1) == Run(f, Step(f, c1)) == Step(f, c1);
  }

  lemma CreatorsAreInitial(sender: string, data: string, salt: int) returns (sys: System)
    ensures Initial(sys) && SlotsExist(sys)
    ensures sys.entries == [Creator(0, sender, data, salt), Creator(1, sender, data, salt)]
  {
    sys := System([Creator(0, sender, data, salt), Creator(1, sender, data, salt)], {}, [None, None], 0);
    StringLessIrreflexive("");
  }

  /**
   The failing input: whatever the executors do, two transactions that create a contract with the same sender, data
   and salt are sent to the same address in one batch. The system is one that a block may start with.
   */
  lemma CreationsCollide(x: Executors, sender: string, data: string, salt: int) returns (sys: System)
    ensures Initial(sys) && SlotsExist(sys)
    ensures var sent := SendingPass(x, sys).env.sent;
            0 in sent && 1 in sent && sent[0].to == sent[1].to == x.saltedAddress(sender, data, salt)
  {
    var a, b := Creator(0, sender, data, salt), Creator(1, sender, data, salt);
    sys := CreatorsAreInitial(sender, data, salt);
    var e := Begin(sys);
    CreationIsSent(x, e, a.state);
    CreationIsSent(x, VisitStart(x, e, a.state).env, b.state);
    TwoPasses(StartCallback(x), a, b, e);
  }

  /**
   The snapshot of foreign keys that goes out with a message is still exact when the pass is over: whatever the other
   contexts of the batch did, they did not touch the ownership of that contract's keys.
   */
  lemma SnapshotsStayValid(x: Executors, sys: System, c: ContextID)
    requires AtRest(sys) && SlotsExist(sys) && Obeys(x, sys.entries)
    requires c in SendingPass(x, sys).env.sent
    ensures var e := SendingPass(x, sys).env;
            forall k :: k in e.sent[c].keyLocks <==> OwnedByOther(e.locks, KeyLock(e.sent[c].to, k), c)
  {
    SendingPassOk(x, sys);
    SnapshotAtEnd(SendingPass(x, sys).entries, SendingPass(x, sys).env, c);
  }

  lemma SnapshotAtEnd(es: seq<Entry>, e: BatchState, c: ContextID)
    requires SendingDone(es, e) && c in e.sent
    ensures SnapshotValid(e.locks, c, e.sent[c])
  {
    assert c in Ids(es);
    var y :| y in es && y.state.contextID == c;
    var i :| 0 <= i < |es| && es[i] == y;
    assert ScreenedAt(es, e, i);
  }

  // ---------------------------------------------------------------- progress

  /** A state that was picked to be reverted. */
  ghost predicate HasVictim(es: seq<Entry>) {
    exists y :: y in es && y.state.message.Some? && y.state.message.value.mtype == REVERT_KEY_LOCK
  }

  lemma NothingSentNothingCalled(e: BatchState)
    requires Exclusive(e)
    ensures e.sent == map[] <==> e.called == {}
    ensures e.sent == map[] <==> e.total == 0
  {
    if e.sent != map[] {
      var c :| c in e.sent;
      assert e.sent[c].to in e.called;
      assert c in e.sent.Keys;
      assert |e.sent.Keys| > 0;
    }
  }

  /** While nothing has been sent, the victim stays ahead. */
  lemma VictimStaysAhead(c: Cursor<BatchState>, v: Visit<BatchState>)
    requires c.ahead != [] && HasVictim(c.ahead) && Exclusive(c.env)
    requires VisitOk(c.env, c.ahead[0].state, v) && v.env.sent == map[]
    requires c.ahead[0].state.message.Some?
    requires c.ahead[0].state.message.value.mtype == REVERT_KEY_LOCK ==> v.hint.SKIP? || v.env.sent != map[]
    ensures HasVictim(Advance(c, v).ahead)
  {
    NothingSentNothingCalled(c.env);
    assert c.env.sent == map[] by {
      if x :| x in c.env.sent { assert x in v.env.sent; }
    }
    assert !v.hint.SKIP?;
    var i :| 0 <= i < |c.ahead| && c.ahead[i].state.message.Some? && c.ahead[i].state.message.value.mtype == REVERT_KEY_LOCK;
    assert c.ahead[i] == c.ahead[1..][i - 1];
  }

  lemma {:induction false} RunVictim(x: Executors, es: seq<Entry>, c: Cursor<BatchState>)
    requires SendingInv(x, es, c) && (HasVictim(c.ahead) || c.env.sent != map[])
    ensures Run(StartCallback(x), c).env.sent != map[]
    decreases |c.ahead|
  {
    if c.ahead != [] {
      VisitVictim(x, es, c);
      RunVictim(x, es, Step(StartCallback(x), c));
    }
  }

  lemma VisitVictim(x: Executors, es: seq<Entry>, c: Cursor<BatchState>)
    requires SendingInv(x, es, c) && (HasVictim(c.ahead) || c.env.sent != map[]) && c.ahead != []
    ensures var d := Step(StartCallback(x), c);
            SendingInv(x, es, d) && (HasVictim(d.ahead) || d.env.sent != map[]) && |d.ahead| < |c.ahead|
  {
    var h, v := c.ahead[0], VisitStart(x, c.env, c.ahead[0].state);
    HeadVisitable(x, es, c);
    VisitStartOk(x, c.env, h.state);
    VisitStartCalls(x, c.env, h.state);
    SendingStep(x, es, c, v);
    if h.state.message.value.mtype == REVERT_KEY_LOCK { VictimIsSent(x, c.env, h.state); }
    if v.env.sent == map[] {
      assert c.env.sent == map[] by {
        if y :| y in c.env.sent { assert y in v.env.sent; }
      }
      VictimStaysAhead(c, v);
    }
  }

  lemma VictimIsSent(x: Executors, e: BatchState, s: ExecutiveState)
    requires s.message.Some? && !s.failed && s.message.value.mtype == REVERT_KEY_LOCK
    ensures VisitStart(x, e, s).hint.SKIP? || s.contextID in VisitStart(x, e, s).env.sent
  {
  }

  /** A batch that starts with a victim sends at least one message. */
  lemma VictimMakesBatchSend(x: Executors, sys: System)
    requires AtRest(sys) && SlotsExist(sys) && Obeys(x, sys.entries) && HasVictim(sys.entries)
    ensures SendingPass(x, sys).env.sent != map[]
  {
    var c0 := SendingStarts(x, sys);
    RunVictim(x, sys.entries, c0);
  }
}
