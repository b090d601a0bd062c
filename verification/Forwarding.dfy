/**
 What the sending pass does with each state: which messages reach the executors, what they say, and what becomes of the
 states, the receipts and the locks.
 */
module Forwarding {
  import opened Types
  import opened LockTable
  import opened Executive
  import opened Traversal
  import opened Batch
  import opened Discipline
  import opened Sending

  // ---------------------------------------------------------------- what reaches an executor

  /** The kind of message an executor gets for a state's message: waits and send-backs are turned into real calls. */
  ghost predicate KindForwarded(m: Message, out: Message) {
    && out.mtype in {MESSAGE, TXHASH, FINISHED, REVERT, KEY_LOCK}
    && (m.mtype in {MESSAGE, TXHASH, FINISHED, REVERT, KEY_LOCK} ==> out.mtype == m.mtype)
    && (m.mtype == REVERT_KEY_LOCK ==> out.mtype == REVERT)
    && (m.mtype == SEND_BACK ==> out.mtype in {MESSAGE, TXHASH} && (out.mtype == TXHASH <==> m.transactionHash != 0))
  }

  /** A request opens a frame on top of the stack, a return drops the top frame, everything else leaves the stack. */
  ghost predicate StackForwarded(m: Message, s: ExecutiveState, z: ExecutiveState) {
    if m.mtype in {MESSAGE, TXHASH} then z.callStack == s.callStack + [s.currentSeq] && z.currentSeq == s.currentSeq + 1
    else
      && z.currentSeq == s.currentSeq
      && if m.mtype in {FINISHED, REVERT} then s.callStack != [] && z.callStack == s.callStack[..|s.callStack| - 1]
         else z.callStack == s.callStack
  }

  /** What is not the scheduler's business reaches the executor unchanged. */
  ghost predicate ContentForwarded(m: Message, out: Message) {
    && out.contextID == m.contextID && out.sender == m.sender && out.salt == m.salt && out.data == m.data
    && out.keyLockAcquired == m.keyLockAcquired && out.transactionHash == m.transactionHash
    && out.gasAvailable == m.gasAvailable && out.newContract == m.newContract && out.status == m.status
    && (m.to != "" ==> out.to == m.to)
    && (out.create <==> m.create && m.mtype !in {FINISHED, REVERT, REVERT_KEY_LOCK})
  }

  /** A message without an address gets one, from its salt if it has one and from its context and frame otherwise. */
  ghost predicate AddressGiven(x: Executors, m: Message, out: Message) {
    m.to == "" ==>
      out.to == if m.salt.Some? then x.saltedAddress(m.sender, m.data, m.salt.value) else x.plainAddress(m.contextID, out.frame)
  }

  /** The state's message has been handed over, and the state waits for the reply. */
  ghost predicate Forwarded(x: Executors, s: ExecutiveState, z: ExecutiveState, out: Message) {
    && s.message.Some? && z.message.None?
    && z.contextID == s.contextID && z.failed == s.failed && z.skip == s.skip
    && z.callStack != [] && out.frame == Top(z) && StackForwarded(s.message.value, s, z)
    && KindForwarded(s.message.value, out) && ContentForwarded(s.message.value, out) && AddressGiven(x, s.message.value, out)
  }

  // ---------------------------------------------------------------- the outcome of one visit

  /** The state's message is addressed to a contract that has had a message in this batch. */
  ghost predicate Late(e: BatchState, s: ExecutiveState) {
    s.message.Some? && s.message.value.to in e.called
  }

  /** The return of a transaction's only frame. */
  ghost predicate LastReturn(s: ExecutiveState) {
    s.message.Some? && s.message.value.mtype in {FINISHED, REVERT} && |s.callStack| == 1
  }

  /** The key the state waits for is somebody else's. */
  ghost predicate Refused(e: BatchState, s: ExecutiveState) {
    && s.message.Some? && s.message.value.mtype == KEY_LOCK
    && OwnedByOther(e.locks, KeyLock(s.message.value.sender, s.message.value.keyLockAcquired), s.contextID)
  }

  /** The receipt says what the message says. */
  ghost predicate ReceiptSays(r: Option<Receipt>, m: Message) {
    && r.Some? && r.value.gasAvailable == m.gasAvailable
    && r.value.newContract == m.newContract && r.value.status == m.status
  }

  /** The transaction is finished: its receipt is written, its gas is added, nothing else changes. */
  ghost predicate Finishes(e: BatchState, s: ExecutiveState, e': BatchState)
    requires s.message.Some? && 0 <= s.contextID < |e.receipts|
  {
    && |e'.receipts| == |e.receipts| && ReceiptSays(e'.receipts[s.contextID], s.message.value)
    && (forall i :: 0 <= i < |e.receipts| && i != s.contextID ==> e'.receipts[i] == e.receipts[i])
    && e'.gasUsed == (e.gasUsed + 30000000000 - s.message.value.gasAvailable) % 0x1_0000_0000_0000_0000
    && e' == e.(receipts := e'.receipts, gasUsed := e'.gasUsed)
  }

  /** What a waiting state does to the lock table: it records its request, or takes the key and drops its requests for it. */
  ghost predicate KeyAsked(e: BatchState, s: ExecutiveState, t': Table)
    requires s.message.Some?
  {
    var l, c, f := KeyLock(s.message.value.sender, s.message.value.keyLockAcquired), s.contextID, s.message.value.frame;
    if s.message.value.mtype != KEY_LOCK then t' == e.locks
    else if Refused(e, s) then forall d :: d in t' <==> d in e.locks || d == Request(l, c, f)
    else forall d :: d in t' <==> d == Own(l, c, f) || (d in e.locks && !(d.Request? && d.lock == l && d.context == c))
  }

  /** The message is handed over: recorded with the keys that others own, its contract called, one more message counted. */
  ghost predicate HandsOver(x: Executors, e: BatchState, s: ExecutiveState, z: ExecutiveState, e': BatchState) {
    && s.contextID in e'.sent && SentGrows(e, e', s.contextID)
    && Forwarded(x, s, z, e'.sent[s.contextID])
    && SnapshotValid(e'.locks, s.contextID, e'.sent[s.contextID])
    && e'.called == e.called + {e'.sent[s.contextID].to} && e'.total == e.total + 1
    && KeyAsked(e, s, e'.locks)
    && e' == e.(sent := e'.sent, called := e'.called, total := e'.total, locks := e'.locks)
  }

  /** The four things a visit may do. */
  ghost predicate Outcome(x: Executors, e: BatchState, s: ExecutiveState, v: Visit<BatchState>)
    requires s.message.Some? && 0 <= s.contextID < |e.receipts|
  {
    if Late(e, s) then v.hint.SKIP? && v.state == s.(skip := true) && v.env == e
    else if LastReturn(s) then v.hint.DELETE? && Finishes(e, s, v.env)
    else
      && v.hint.PASS?
      && if Refused(e, s) then v.state == s && KeyAsked(e, s, v.env.locks) && v.env == e.(locks := v.env.locks)
         else HandsOver(x, e, s, v.state, v.env)
  }

  lemma SendHandsOver(x: Executors, e: BatchState, s: ExecutiveState, z: ExecutiveState, m: Message, t: Table)
    requires s.message.Some? && s.contextID !in e.sent && KeyAsked(e, s, t)
    requires Forwarded(x, s, z.(message := None), m) && z.contextID == s.contextID
    ensures var v := Send(e.(locks := t), z, m); v.hint.PASS? && HandsOver(x, e, s, v.state, v.env)
  {
    var v := Send(e.(locks := t), z, m);
    var out := v.env.sent[s.contextID];
    forall k ensures k in out.keyLocks <==> OwnedByOther(t, KeyLock(m.to, k), s.contextID) {
      NotHoldingIsRefusal(t, m.to, k, s.contextID);
    }
    assert Forwarded(x, s, v.state, out);
  }

  lemma RequestOutcome(x: Executors, e: BatchState, s: ExecutiveState)
    requires Visitable(x, e, s) && s.message.value.mtype in {MESSAGE, TXHASH} && !Late(e, s)
    ensures Outcome(x, e, s, SendRequest(x, e, s, s.message.value))
  {
    var frame := s.currentSeq;
    var z := s.(currentSeq := frame + 1, callStack := s.callStack + [frame]);
    SendHandsOver(x, e, s, z, Addressed(x, s.message.value, s.contextID, frame).(frame := frame), e.locks);
    assert e.(locks := e.locks) == e;
  }

  lemma ReturnOutcome(x: Executors, e: BatchState, s: ExecutiveState)
    requires Visitable(x, e, s) && s.message.value.mtype in {FINISHED, REVERT} && !Late(e, s)
    ensures Outcome(x, e, s, SendReturn(e, s, s.message.value))
  {
    var m, rest := s.message.value, s.callStack[..|s.callStack| - 1];
    if rest != [] {
      SendHandsOver(x, e, s, s.(callStack := rest), m.(frame := rest[|rest| - 1], create := false), e.locks);
      assert e.(locks := e.locks) == e;
    }
  }

  lemma KeyLockOutcome(x: Executors, e: BatchState, s: ExecutiveState)
    requires Visitable(x, e, s) && s.message.value.mtype == KEY_LOCK && !Late(e, s)
    ensures Outcome(x, e, s, SendKeyLock(e, s, s.message.value))
  {
    var m := s.message.value;
    var l := KeyLock(m.sender, m.keyLockAcquired);
    var t := Acquire(e.locks, l, s.contextID, m.frame);
    forall d: LockEdge { AcquireMember(e.locks, l, s.contextID, m.frame, d); }
    if !Refused(e, s) { SendHandsOver(x, e, s, s, m, t); }
  }

  lemma ResendOutcome(x: Executors, e: BatchState, s: ExecutiveState, m: Message)
    requires Visitable(x, e, s) && s.message.value.mtype in {REVERT_KEY_LOCK, SEND_BACK} && !Late(e, s)
    requires Forwarded(x, s, s.(message := None), m)
    ensures Outcome(x, e, s, Send(e, s, m))
  {
    SendHandsOver(x, e, s, s, m, e.locks);
    assert e.(locks := e.locks) == e;
  }

  lemma NotLate(e: BatchState, s: ExecutiveState)
    requires Exclusive(e) && s.message.Some?
    ensures Late(e, s) <==> s.message.value.to != "" && s.message.value.to in e.called
  {
    assert "" !in e.called;
  }

  /**
   What a visit does, told by what can be seen of it. The state is passed over exactly when its contract has been called,
   the transaction is finished exactly at the return of its only frame, the state stays exactly when it waits for
   somebody else's key, and in all other cases its message is handed over.
   */
  lemma VisitOutcome(x: Executors, e: BatchState, s: ExecutiveState)
    requires Visitable(x, e, s)
    ensures Outcome(x, e, s, VisitStart(x, e, s))
    ensures VisitStart(x, e, s).hint.DELETE? <==> LastReturn(s) && !Late(e, s)
    ensures s.contextID in VisitStart(x, e, s).env.sent <==> !Late(e, s) && !LastReturn(s) && !Refused(e, s)
  {
    var m := s.message.value;
    NotLate(e, s);
    if !Late(e, s) {
      match m.mtype {
        case MESSAGE | TXHASH => RequestOutcome(x, e, s);
        case FINISHED | REVERT => ReturnOutcome(x, e, s);
        case REVERT_KEY_LOCK => ResendOutcome(x, e, s, m.(mtype := REVERT, create := false, keyLocks := []));
        case KEY_LOCK => KeyLockOutcome(x, e, s);
        case SEND_BACK =>
          ResendOutcome(x, e, s, Addressed(x, m, s.contextID, m.frame).(mtype := if m.transactionHash != 0 then TXHASH else MESSAGE));
      }
    }
  }

  /**
   The error cases, for any state at all: a state that failed before counts as an error and ends the pass; a missing
   message, a return on an empty stack and a last return without a slot for its receipt are faults, and nothing else is.
   */
  lemma VisitFaults(x: Executors, e: BatchState, s: ExecutiveState)
    requires e.fault.None?
    ensures var v := VisitStart(x, e, s);
            && (s.failed ==> v == Visit(e.(errors := e.errors + 1), s, END))
            && (!s.failed ==> v.env.errors == e.errors)
            && (v.env.fault == Some(NullMessage) <==> !s.failed && s.message.None?)
            && (v.env.fault == Some(EmptyCallStack) <==> Returns(e, s) && s.callStack == [])
            && (v.env.fault == Some(NoResultSlot) <==> Returns(e, s) && |s.callStack| == 1 && !(0 <= s.contextID < |e.receipts|))
            && v.env.fault != Some(UnexpectedKeyLock)
            && (v.env.fault.Some? ==> v == Visit(e.(fault := v.env.fault), s, END))
  {
  }

  /** A return that is not passed over. */
  ghost predicate Returns(e: BatchState, s: ExecutiveState) {
    && !s.failed && s.message.Some? && s.message.value.mtype in {FINISHED, REVERT}
    && (s.message.value.to == "" || s.message.value.to !in e.called)
  }
}
