/**
 What happens to one transaction: in one batch, and from batch to batch. The messages its executors get carry what the
 transaction was set up with and what the executors answered before, and its receipt is the last of these answers.
 */
module Histories {
  import opened Types
  import opened LockTable
  import opened Executive
  import opened Traversal
  import opened Batch
  import opened Discipline
  import opened Sending
  import opened Forwarding
  import opened Settling
  import opened Recovery
  import opened Passes
  import opened Runs

  // ---------------------------------------------------------------- the sending pass

  /** What the two states of a batch record about a context is the same. */
  ghost predicate SameFor(e: BatchState, f: BatchState, k: ContextID) {
    && (k in e.sent <==> k in f.sent) && (k in e.sent ==> f.sent[k] == e.sent[k])
    && |f.receipts| == |e.receipts| && (0 <= k < |e.receipts| ==> f.receipts[k] == e.receipts[k])
    && SameEdges(e.locks, f.locks, k)
  }

  /**
   What the sending pass does to a context's edges, all of them: a wait that is sent on has got its key and dropped its
   requests for it, a wait that is not sent on may have asked for its key, and nothing else changes.
   */
  ghost predicate EdgesAsked(s: ExecutiveState, t: Table, t': Table, isSent: bool) {
    if s.message.Some? && s.message.value.mtype == KEY_LOCK then
      var l, c, f := KeyLock(s.message.value.sender, s.message.value.keyLockAcquired), s.contextID, s.message.value.frame;
      forall d: LockEdge :: d.context == c ==>
        if isSent then d in t' <==> d == Own(l, c, f) || (d in t && !(d.Request? && d.lock == l))
        else (d in t ==> d in t') && (d in t' ==> d in t || d == Request(l, c, f))
    else SameEdges(t, t', s.contextID)
  }

  /** A state that is still in the map: its message was handed over, or it is as it was but for its mark. */
  ghost predicate Stays(x: Executors, s: ExecutiveState, z: ExecutiveState, e: BatchState, f: BatchState) {
    var c := s.contextID;
    && (if c in f.sent then Forwarded(x, s, z, f.sent[c]) else z == s || z == s.(skip := true))
    && EdgesAsked(s, e.locks, f.locks, c in f.sent)
    && 0 <= c < |e.receipts| && |f.receipts| == |e.receipts| && f.receipts[c] == e.receipts[c]
  }

  /** A state that has left the map: its transaction is finished and has its receipt. */
  ghost predicate Leaves(s: ExecutiveState, f: BatchState) {
    && LastReturn(s) && s.contextID !in f.sent
    && 0 <= s.contextID < |f.receipts| && ReceiptSays(f.receipts[s.contextID], s.message.value)
  }

  /** What has become of an entry. */
  ghost predicate Treated(x: Executors, y: Entry, e: BatchState, after: seq<Entry>, f: BatchState) {
    if y.state.contextID in Ids(after) then exists z :: z in after && z.key == y.key && Stays(x, y.state, z.state, e, f)
    else Leaves(y.state, f)
  }

  lemma VisitLeavesOthers(x: Executors, e: BatchState, s: ExecutiveState, k: ContextID)
    requires Visitable(x, e, s) && k != s.contextID
    ensures SameFor(e, VisitStart(x, e, s).env, k)
  {
    VisitOutcome(x, e, s);
  }

  /** One step of the pass, with what is known of the visit. */
  lemma SendingVisit(x: Executors, es: seq<Entry>, c: Cursor<BatchState>)
    requires SendingInv(x, es, c) && c.ahead != []
    ensures Visitable(x, c.env, c.ahead[0].state) && DistinctIds(c.ahead) && Sorted(c.ahead)
    ensures SendingInv(x, es, Step(StartCallback(x), c)) && |Step(StartCallback(x), c).ahead| < |c.ahead|
  {
    var s := c.ahead[0].state;
    HeadVisitable(x, es, c);
    HeadApart(c.behind, c.ahead);
    VisitStartOk(x, c.env, s);
    VisitStartCalls(x, c.env, s);
    SendingStep(x, es, c, VisitStart(x, c.env, s));
  }

  lemma {:induction false} RunKeepsBehind(x: Executors, c: Cursor<BatchState>, z: Entry)
    requires z in c.behind
    ensures z in Run(StartCallback(x), c).behind
    decreases |c.ahead|
  {
    if c.ahead != [] { RunKeepsBehind(x, Step(StartCallback(x), c), z); }
  }

  lemma StepKeepsOut(es: seq<Entry>, c: Cursor<BatchState>, v: Visit<BatchState>, k: ContextID)
    requires Conserved(es, c) && c.ahead != [] && v.state.contextID == c.ahead[0].state.contextID
    requires k !in Ids(c.behind) && k !in Ids(c.ahead)
    ensures k !in Ids(Advance(c, v).behind) && k !in Ids(Advance(c, v).ahead)
  {
    var d := Advance(c, v);
    AdvanceConserves(es, c, v);
    IdsConcat(c.behind, c.ahead);
    IdsConcat(d.behind, d.ahead);
  }

  lemma IdsConcat(a: seq<Entry>, b: seq<Entry>)
    ensures Ids(a + b) == Ids(a) + Ids(b)
  {
    assert forall y :: y in a + b <==> y in a || y in b;
  }

  lemma SameForTransitive(e: BatchState, f: BatchState, g: BatchState, k: ContextID)
    requires SameFor(e, f, k) && SameFor(f, g, k)
    ensures SameFor(e, g, k)
  {
  }

  lemma AdvanceKeepsOut(es: seq<Entry>, c: Cursor<BatchState>, v: Visit<BatchState>, k: ContextID)
    requires Conserved(es, c) && c.ahead != [] && v.state.contextID == c.ahead[0].state.contextID && k !in Ids(c.ahead)
    ensures k !in Ids(Advance(c, v).ahead) && (k !in Ids(c.behind) ==> k !in Ids(Advance(c, v).behind))
  {
    AdvanceShrinksIds(c, v);
    if k !in Ids(c.behind) { StepKeepsOut(es, c, v, k); }
  }

  lemma HeadInIds(es: seq<Entry>)
    requires es != []
    ensures es[0].state.contextID in Ids(es)
  {
    assert es[0] in es;
  }

  lemma StepLeavesOthers(x: Executors, es: seq<Entry>, c: Cursor<BatchState>, k: ContextID)
    requires SendingInv(x, es, c) && c.ahead != [] && k !in Ids(c.ahead)
    ensures var d := Step(StartCallback(x), c);
            && SameFor(c.env, d.env, k) && k !in Ids(d.ahead) && (k !in Ids(c.behind) ==> k !in Ids(d.behind))
  {
    var s := c.ahead[0].state;
    HeadInIds(c.ahead);
    HeadVisitable(x, es, c);
    VisitLeavesOthers(x, c.env, s, k);
    VisitKeepsContext(x, c.env, s);
    AdvanceKeepsOut(es, c, VisitStart(x, c.env, s), k);
  }

  /** Contexts that are not ahead any more are not concerned by the rest of the pass. */
  lemma {:induction false} RunLeavesOthers(x: Executors, es: seq<Entry>, c: Cursor<BatchState>, k: ContextID, end: Cursor<BatchState>)
    requires SendingInv(x, es, c) && k !in Ids(c.ahead) && end == Run(StartCallback(x), c)
    ensures SameFor(c.env, end.env, k) && (k !in Ids(c.behind) ==> k !in Ids(end.behind))
    decreases |c.ahead|
  {
    if c.ahead != [] {
      var d := Step(StartCallback(x), c);
      SendingVisit(x, es, c);
      StepLeavesOthers(x, es, c, k);
      RunLeavesOthers(x, es, d, k, end);
      SameForTransitive(c.env, d.env, end.env, k);
    }
  }

  lemma StaysTo(x: Executors, s: ExecutiveState, z: ExecutiveState, e: BatchState, d: BatchState, f: BatchState)
    requires Stays(x, s, z, e, d) && SameFor(d, f, s.contextID)
    ensures Stays(x, s, z, e, f)
  {
  }

  lemma LeavesTo(s: ExecutiveState, d: BatchState, f: BatchState)
    requires Leaves(s, d) && SameFor(d, f, s.contextID)
    ensures Leaves(s, f)
  {
  }

  lemma TreatedFrom(x: Executors, y: Entry, e: BatchState, d: BatchState, after: seq<Entry>, f: BatchState)
    requires Treated(x, y, d, after, f) && SameFor(e, d, y.state.contextID)
    ensures Treated(x, y, e, after, f)
  {
    if y.state.contextID in Ids(after) {
      var z :| z in after && z.key == y.key && Stays(x, y.state, z.state, d, f);
      assert Stays(x, y.state, z.state, e, f);
    }
  }

  lemma MemberTreated(x: Executors, y: Entry, z: Entry, e: BatchState, after: seq<Entry>, f: BatchState)
    requires z in after && z.key == y.key && z.state.contextID == y.state.contextID && Stays(x, y.state, z.state, e, f)
    ensures Treated(x, y, e, after, f)
  {
  }

  /** What one visit does with its state, seen right after it. */
  lemma VisitTreats(x: Executors, e: BatchState, s: ExecutiveState)
    requires Visitable(x, e, s)
    ensures var v := VisitStart(x, e, s);
            if v.hint.DELETE? then Leaves(s, v.env)
            else v.state.contextID == s.contextID && v.hint in {PASS, SKIP} && Stays(x, s, v.state, e, v.env)
  {
    VisitOutcome(x, e, s);
  }

  lemma HeadTreated(x: Executors, es: seq<Entry>, c: Cursor<BatchState>, end: Cursor<BatchState>)
    requires SendingInv(x, es, c) && c.ahead != [] && end == Run(StartCallback(x), Step(StartCallback(x), c))
    ensures Treated(x, c.ahead[0], c.env, end.behind, end.env)
  {
    var y, d, v := c.ahead[0], Step(StartCallback(x), c), VisitStart(x, c.env, c.ahead[0].state);
    SendingVisit(x, es, c);
    VisitTreats(x, c.env, y.state);
    PassedNotAhead(c, v, 0);
    RunLeavesOthers(x, es, d, y.state.contextID, end);
    if v.hint.DELETE? {
      HeadNotBehind(x, es, c);
      LeavesTo(y.state, v.env, end.env);
    } else {
      var z := Entry(y.key, v.state);
      assert z in d.behind;
      RunKeepsBehind(x, d, z);
      StaysTo(x, y.state, z.state, c.env, v.env, end.env);
      MemberTreated(x, y, z, c.env, end.behind, end.env);
    }
  }

  lemma HeadNotBehind(x: Executors, es: seq<Entry>, c: Cursor<BatchState>)
    requires SendingInv(x, es, c) && c.ahead != []
    ensures c.ahead[0].state.contextID !in Ids(c.behind)
  {
    HeadVisitable(x, es, c);
    forall y | y in c.behind ensures y.state.contextID != c.ahead[0].state.contextID {
      var i :| 0 <= i < |c.behind| && c.behind[i] == y;
    }
  }

  /** States that are passed over with their contract are as they were. */
  lemma JumpedTreated(x: Executors, es: seq<Entry>, c: Cursor<BatchState>, i: nat, end: Cursor<BatchState>)
    requires SendingInv(x, es, c) && c.ahead != [] && end == Run(StartCallback(x), Step(StartCallback(x), c))
    requires 0 < i < |c.ahead| - |Step(StartCallback(x), c).ahead|
    ensures Treated(x, c.ahead[i], c.env, end.behind, end.env)
  {
    var y, d, v := c.ahead[i], Step(StartCallback(x), c), VisitStart(x, c.env, c.ahead[0].state);
    SendingVisit(x, es, c);
    VisitTreats(x, c.env, c.ahead[0].state);
    PassedNotAhead(c, v, i);
    RunLeavesOthers(x, es, d, y.state.contextID, end);
    JumpedBehind(c, v, i);
    RunKeepsBehind(x, d, y);
    assert y in c.ahead && y.state.contextID != c.ahead[0].state.contextID;
    VisitLeavesOthers(x, c.env, c.ahead[0].state, y.state.contextID);
    StaysTo(x, y.state, y.state, c.env, v.env, end.env);
    MemberTreated(x, y, y, c.env, end.behind, end.env);
  }

  lemma JumpedBehind(c: Cursor<BatchState>, v: Visit<BatchState>, i: nat)
    requires c.ahead != [] && v.hint in {PASS, SKIP, DELETE} && 0 < i < |c.ahead| - |Advance(c, v).ahead|
    ensures c.ahead[i] in Advance(c, v).behind
  {
    var shift := AdvanceSuffix(c, v);
    assert c.ahead[1..shift][i - 1] == c.ahead[i];
  }

  lemma PassedAt(c: Cursor<BatchState>, v: Visit<BatchState>, y: Entry) returns (i: nat)
    requires c.ahead != [] && y in c.ahead && y !in Advance(c, v).ahead
    ensures i < |c.ahead| - |Advance(c, v).ahead| && c.ahead[i] == y
  {
    var shift := AdvanceSuffix(c, v);
    forall j | shift <= j < |c.ahead| ensures c.ahead[j] in Advance(c, v).ahead {
      assert c.ahead[shift..][j - shift] == c.ahead[j];
    }
    i :| 0 <= i < |c.ahead| && c.ahead[i] == y;
  }

  lemma AheadIsNotHead(c: Cursor<BatchState>, v: Visit<BatchState>, y: Entry)
    requires c.ahead != [] && DistinctIds(c.ahead) && y in Advance(c, v).ahead
    ensures y.state.contextID != c.ahead[0].state.contextID
  {
    var shift := AdvanceSuffix(c, v);
    var j :| 0 <= j < |c.ahead[shift..]| && c.ahead[shift..][j] == y;
    assert c.ahead[shift + j] == y;
  }

  lemma PassedTreated(x: Executors, es: seq<Entry>, c: Cursor<BatchState>, y: Entry, end: Cursor<BatchState>)
    requires SendingInv(x, es, c) && y in c.ahead && end == Run(StartCallback(x), Step(StartCallback(x), c))
    requires y !in Step(StartCallback(x), c).ahead
    ensures Treated(x, y, c.env, end.behind, end.env)
  {
    var i := PassedAt(c, VisitStart(x, c.env, c.ahead[0].state), y);
    if i == 0 { HeadTreated(x, es, c, end); } else { JumpedTreated(x, es, c, i, end); }
  }

  lemma {:induction false} RunTreats(x: Executors, es: seq<Entry>, c: Cursor<BatchState>, y: Entry, end: Cursor<BatchState>)
    requires SendingInv(x, es, c) && y in c.ahead && end == Run(StartCallback(x), c)
    ensures Treated(x, y, c.env, end.behind, end.env)
    decreases |c.ahead|
  {
    var d := Step(StartCallback(x), c);
    SendingVisit(x, es, c);
    if y in d.ahead {
      RunTreats(x, es, d, y, end);
      AheadIsNotHead(c, VisitStart(x, c.env, c.ahead[0].state), y);
      AheadTreated(x, es, c, y, end);
    } else {
      PassedTreated(x, es, c, y, end);
    }
  }

  lemma AheadTreated(x: Executors, es: seq<Entry>, c: Cursor<BatchState>, y: Entry, end: Cursor<BatchState>)
    requires SendingInv(x, es, c) && c.ahead != [] && y.state.contextID != c.ahead[0].state.contextID
    requires Treated(x, y, Step(StartCallback(x), c).env, end.behind, end.env)
    ensures Treated(x, y, c.env, end.behind, end.env)
  {
    HeadVisitable(x, es, c);
    VisitLeavesOthers(x, c.env, c.ahead[0].state, y.state.contextID);
    TreatedFrom(x, y, c.env, Step(StartCallback(x), c).env, end.behind, end.env);
  }

  /** What the sending pass does with every single state. */
  lemma SendingPassTreats(x: Executors, sys: System, y: Entry)
    requires AtRest(sys) && SlotsExist(sys) && Obeys(x, sys.entries) && y in sys.entries
    ensures Treated(x, y, Begin(sys), SendingPass(x, sys).entries, SendingPass(x, sys).env)
  {
    var c0 := SendingStarts(x, sys);
    RunSending(x, sys.entries, c0);
    SendingEnds(x, sys.entries, Run(StartCallback(x), c0));
    RunTreats(x, sys.entries, c0, y, Run(StartCallback(x), c0));
  }

  // ---------------------------------------------------------------- a whole batch

  /** The state's message was handed over, and the state now has the executor's answer, as it was given. */
  ghost predicate Answered(x: Executors, s: ExecutiveState, z: ExecutiveState, call: Message) {
    && x.reply(call).Response? && z.message == Some(x.reply(call).message)
    && Forwarded(x, s, z.(message := None), call)
  }

  /** The state is as it was, or was chosen to be reverted. */
  ghost predicate Rests(s: ExecutiveState, z: ExecutiveState) {
    || z == s
    || (s.message.Some? && s.message.value.mtype == KEY_LOCK && z == s.(message := Some(s.message.value.(mtype := REVERT_KEY_LOCK))))
  }

  ghost predicate Follows(x: Executors, s: ExecutiveState, z: ExecutiveState, sent: map<ContextID, Message>) {
    z.contextID == s.contextID && if s.contextID in sent then Answered(x, s, z, sent[s.contextID]) else Rests(s, z)
  }

  /** What a batch has made of a state: the state that follows it, or a receipt. */
  ghost predicate BatchTreated(x: Executors, s: ExecutiveState, sys: System, sys': System, sent: map<ContextID, Message>) {
    var c := s.contextID;
    && 0 <= c < |sys.receipts| && |sys'.receipts| == |sys.receipts|
    && if c in Ids(sys'.entries) then
         sys'.receipts[c] == sys.receipts[c] && exists z :: z in sys'.entries && Follows(x, s, z.state, sent)
       else LastReturn(s) && c !in sent && ReceiptSays(sys'.receipts[c], s.message.value)
  }

  /** After the replies and the settling pass a state has its answer, or is as it was before the batch. */
  lemma SettlingFollows(x: Executors, es: seq<Entry>, e: BatchState, y: Entry, s: ExecutiveState, e0: BatchState)
    requires SendingDone(es, e) && RepliesAllowed(x) && AllResponded(x, e.sent)
    requires y in es && !s.skip && Stays(x, s, y.state, e0, e)
    ensures exists z :: z in SettlingPass(Deliver(x, es, e.sent), e).entries && Follows(x, s, z.state, e.sent)
  {
    var i :| 0 <= i < |es| && es[i] == y;
    var r := Deliver(x, es, e.sent);
    DeliverShape(x, es, e.sent);
    DeliveredPending(x, es, e);
    SettlingPlaces(r, e);
    AnswerFollows(x, y, s, e0, e);
    assert r[i] == Answer(x, y, e.sent) && Placed(r, i).state == r[i].state.(skip := false);
  }

  lemma AnswerFollows(x: Executors, y: Entry, s: ExecutiveState, e0: BatchState, e: BatchState)
    requires !s.skip && Stays(x, s, y.state, e0, e) && AllResponded(x, e.sent)
    ensures Follows(x, s, Answer(x, y, e.sent).state.(skip := false), e.sent)
  {
  }

  /** After the deadlock pass it is as it was, or was chosen. */
  lemma DeadlockFollows(x: Executors, es: seq<Entry>, e: BatchState, y: Entry, s: ExecutiveState, e0: BatchState)
    requires SendingDone(es, e) && e.sent == map[]
    requires y in es && !s.skip && Stays(x, s, y.state, e0, e)
    ensures exists z :: z in DeadlockPass(es, e).entries && Follows(x, s, z.state, e.sent)
  {
    NothingSentAllBlocked(es, e);
    FirstDeadLockedIsChosen(es, e);
    assert y.state == s && s.message.value.mtype == KEY_LOCK;
    var i :| 0 <= i < |es| && es[i] == y;
    var z := DeadlockPass(es, e).entries[i];
    assert Follows(x, s, z.state, e.sent);
  }

  lemma CheckFollows(x: Executors, es: seq<Entry>, e: BatchState, y: Entry, s: ExecutiveState, e0: BatchState)
    requires SendingDone(es, e) && RepliesAllowed(x) && AllResponded(x, e.sent)
    requires y in es && !s.skip && Stays(x, s, y.state, e0, e)
    requires CheckBatch(Deliver(x, es, e.sent), e).Continues?
    ensures var sys' := CheckBatch(Deliver(x, es, e.sent), e).sys;
            exists z :: z in sys'.entries && Follows(x, s, z.state, e.sent)
  {
    NothingSentNothingCalled(e);
    if e.total == 0 {
      NothingToDeliver(x, es);
      DeadlockFollows(x, es, e, y, s, e0);
    } else {
      SettlingFollows(x, es, e, y, s, e0);
    }
  }

  /**
   One batch, one transaction. If its state is still there, the answer its executor gave to the message handed over is
   its message now, or, if none was handed over, the state is as it was (but for being chosen for revert). If the state
   is gone, its message was the return of its only frame, and that message is its receipt.
   */
  lemma BatchTreats(x: Executors, sys: System, y: Entry)
    requires Invariant(sys) && Obeys(x, sys.entries) && y in sys.entries && RunBatch(x, sys).Continues?
    ensures BatchTreated(x, y.state, sys, RunBatch(x, sys).sys, RunBatch(x, sys).sent)
  {
    var p, r := SendingPass(x, sys), RunBatch(x, sys);
    InvariantGivesSlots(sys);
    SentAccounted(x, sys);
    BatchKeepsInvariant(x, sys);
    EndBatchSplits(x, p);
    SendingPassTreats(x, sys, y);
    CheckContinues(x, p.entries, p.env);
    if y.state.contextID in Ids(p.entries) {
      var z :| z in p.entries && z.key == y.key && Stays(x, y.state, z.state, Begin(sys), p.env);
      CheckFollows(x, p.entries, p.env, z, y.state, Begin(sys));
    }
  }

  // ---------------------------------------------------------------- the locks of a batch

  /** The state of a context whose message was sent is one that the settling pass visits, with the answer. */
  lemma SentIsVisited(x: Executors, es: seq<Entry>, e: BatchState, c: ContextID) returns (i: nat)
    requires SendingDone(es, e) && RepliesAllowed(x) && AllResponded(x, e.sent) && c in e.sent
    ensures var r := Deliver(x, es, e.sent);
            && i < |es| && |r| == |es| && r[i].state.contextID == c
            && Visible(r, i) && !r[i].state.skip && r[i].state.message == Some(x.reply(e.sent[c]).message)
  {
    assert c in Ids(es);
    var y :| y in es && y.state.contextID == c;
    i :| 0 <= i < |es| && es[i] == y;
    assert ScreenedAt(es, e, i);
    DeliveredVisible(x, es, e, i);
  }

  lemma SettlingLocksOf(x: Executors, es: seq<Entry>, e: BatchState, c: ContextID)
    requires SendingDone(es, e) && RepliesAllowed(x) && AllResponded(x, e.sent) && c in e.sent
    ensures LocksFollow(x.reply(e.sent[c]).message, c, e.locks, SettlingPass(Deliver(x, es, e.sent), e).env.locks)
  {
    var r := Deliver(x, es, e.sent);
    var i := SentIsVisited(x, es, e, c);
    DeliverShape(x, es, e.sent);
    DeliveredPending(x, es, e);
    SettlingPassLocks(r, e, i);
  }

  /** A batch that goes on after sending something is a sending pass, its replies and a settling pass. */
  lemma BatchSettles(x: Executors, sys: System)
    requires Invariant(sys) && Obeys(x, sys.entries) && RunBatch(x, sys).Continues? && RunBatch(x, sys).sent != map[]
    ensures var p, r := SendingPass(x, sys), RunBatch(x, sys);
            && SendingDone(p.entries, p.env) && AllResponded(x, p.env.sent) && r.sent == p.env.sent
            && r.sys.locks == SettlingPass(Deliver(x, p.entries, p.env.sent), p.env).env.locks
  {
    var p := SendingPass(x, sys);
    SentAccounted(x, sys);
    BatchKeepsInvariant(x, sys);
    EndBatchSplits(x, p);
    NothingSentNothingCalled(p.env);
  }

  /**
   The locks of a context after a batch in which it got an answer, all of them: the answer has taken what it claims for
   its frame, or given up what its frame held, and the context's other frames have what they had.
   */
  lemma BatchLocks(x: Executors, sys: System, c: ContextID)
    requires Invariant(sys) && Obeys(x, sys.entries) && RunBatch(x, sys).Continues? && c in RunBatch(x, sys).sent
    ensures var r := RunBatch(x, sys);
            var a := x.reply(r.sent[c]);
            && a.Response? && a.message.contextID == c && a.message.frame == r.sent[c].frame
            && LocksFollow(a.message, c, SendingPass(x, sys).env.locks, r.sys.locks)
  {
    var p := SendingPass(x, sys);
    BatchSettles(x, sys);
    SettlingLocksOf(x, p.entries, p.env, c);
    AnswerAllowed(x, p.env, c);
  }

  lemma AnswerAllowed(x: Executors, e: BatchState, c: ContextID)
    requires RepliesAllowed(x) && AllResponded(x, e.sent) && Exclusive(e) && c in e.sent
    ensures x.reply(e.sent[c]).message.contextID == c && x.reply(e.sent[c]).message.frame == e.sent[c].frame
  {
    assert ReplyAllowed(e.sent[c], x.reply(e.sent[c]).message);
  }

  /** In particular, every key that an answer claims is owned by the answer's frame afterwards. */
  lemma ClaimsAreOwned(x: Executors, sys: System, c: ContextID, k: string)
    requires Invariant(sys) && Obeys(x, sys.entries) && RunBatch(x, sys).Continues? && c in RunBatch(x, sys).sent
    ensures var r := RunBatch(x, sys);
            var a := x.reply(r.sent[c]);
            && a.Response?
            && (a.message.mtype in {MESSAGE, KEY_LOCK} && k in a.message.keyLocks ==>
                  Own(KeyLock(a.message.sender, k), c, a.message.frame) in r.sys.locks)
  {
    BatchLocks(x, sys, c);
  }

  // ---------------------------------------------------------------- a whole run

  /** A message handed to an executor, and what the executor answered. */
  datatype Exchange = Exchange(call: Message, answer: Message)

  ghost function Exchanged(x: Executors, sent: map<ContextID, Message>, c: ContextID): seq<Exchange> {
    if c in sent && x.reply(sent[c]).Response? then [Exchange(sent[c], x.reply(sent[c]).message)] else []
  }

  /** What was said about a transaction during a run. */
  ghost function Dialogue(xs: seq<Executors>, sys: System, c: ContextID): seq<Exchange>
    decreases |xs|
  {
    if xs == [] then []
    else
      var r := RunBatch(xs[0], sys);
      if !r.Continues? then []
      else Exchanged(xs[0], r.sent, c) + if r.sys.entries == [] then [] else Dialogue(xs[1..], r.sys, c)
  }

  ghost predicate PassedOn(m: Message, call: Message) {
    KindForwarded(m, call) && ContentForwarded(m, call)
  }

  /** The call passes the message on; a wait may have been turned into a revert to break a deadlock. */
  ghost predicate Carries(m: Message, call: Message) {
    PassedOn(m, call) || (m.mtype == KEY_LOCK && PassedOn(m.(mtype := REVERT_KEY_LOCK), call))
  }

  /** The first call carries the message the transaction has, each further call the answer before it. */
  ghost predicate Coherent(m: Message, d: seq<Exchange>)
    decreases |d|
  {
    d != [] ==> Carries(m, d[0].call) && Coherent(d[0].answer, d[1..])
  }

  /** What was said last: the last answer, or the message the transaction had before any. */
  ghost function LastWord(m: Message, d: seq<Exchange>): Message {
    if d == [] then m else d[|d| - 1].answer
  }

  /** The first frame of a transaction has number 0. */
  ghost predicate StartsAtZero(s: ExecutiveState) {
    if s.callStack == [] then s.currentSeq == 0 else s.callStack[0] == 0
  }

  /** A receipt is the last word, which returned from the first frame. */
  ghost predicate ReceiptIsLastWord(r: Option<Receipt>, m: Message, d: seq<Exchange>) {
    r.Some? ==>
      var w := LastWord(m, d);
      w.mtype in {FINISHED, REVERT} && w.frame == 0 && ReceiptSays(r, w)
  }

  lemma GoneIsNotSent(x: Executors, sys: System, c: ContextID)
    requires Invariant(sys) && Obeys(x, sys.entries) && c !in Ids(sys.entries) && RunBatch(x, sys).Continues?
    ensures c !in RunBatch(x, sys).sent && c !in Ids(RunBatch(x, sys).sys.entries)
  {
    SentAccounted(x, sys);
    BatchKeepsInvariant(x, sys);
  }

  /** Nothing is said about a transaction that is finished. */
  lemma {:induction false} GoneIsSilent(xs: seq<Executors>, sys: System, c: ContextID)
    requires Invariant(sys) && ObeyAlong(xs, sys) && c !in Ids(sys.entries)
    ensures Dialogue(xs, sys, c) == []
    decreases |xs|
  {
    if xs != [] {
      var r := RunBatch(xs[0], sys);
      if r.Continues? {
        GoneIsNotSent(xs[0], sys, c);
        if r.sys.entries != [] {
          BatchKeepsInvariant(xs[0], sys);
          GoneIsSilent(xs[1..], r.sys, c);
        }
      }
    }
  }

  lemma OneExchangeMore(m: Message, first: seq<Exchange>, m': Message, rest: seq<Exchange>)
    requires Coherent(m', rest)
    requires first == [] ==> m' == m || (m.mtype == KEY_LOCK && m' == m.(mtype := REVERT_KEY_LOCK))
    requires first != [] ==> |first| == 1 && Carries(m, first[0].call) && m' == first[0].answer
    ensures Coherent(m, first + rest)
    ensures forall r :: ReceiptIsLastWord(r, m', rest) ==> ReceiptIsLastWord(r, m, first + rest)
  {
    if first == [] {
      assert first + rest == rest;
    } else {
      assert (first + rest)[1..] == rest;
    }
  }

  /** A state that follows another one in a batch: what was said in between, and the frame it started with. */
  lemma FollowsTalks(x: Executors, s: ExecutiveState, z: ExecutiveState, sent: map<ContextID, Message>)
    requires s.message.Some? && Follows(x, s, z, sent)
    ensures z.message.Some? && (StartsAtZero(s) ==> StartsAtZero(z))
    ensures var m, m', first := s.message.value, z.message.value, Exchanged(x, sent, s.contextID);
            && (first == [] ==> m' == m || (m.mtype == KEY_LOCK && m' == m.(mtype := REVERT_KEY_LOCK)))
            && (first != [] ==> |first| == 1 && Carries(m, first[0].call) && m' == first[0].answer)
  {
  }

  /** The system a run ends with, if it does not end with an error. */
  ghost predicate EndsWith(xs: seq<Executors>, sys: System, end: System) {
    Execute(xs, sys) == Unfinished(end) || Execute(xs, sys) == Finished(end)
  }

  /** What is to be shown of a transaction whose state is s. */
  ghost predicate ToldTruly(xs: seq<Executors>, sys: System, s: ExecutiveState, end: System) {
    && s.message.Some? && 0 <= s.contextID < |end.receipts|
    && Coherent(s.message.value, Dialogue(xs, sys, s.contextID))
    && ReceiptIsLastWord(end.receipts[s.contextID], s.message.value, Dialogue(xs, sys, s.contextID))
  }

  lemma EndsLater(xs: seq<Executors>, sys: System, end: System)
    requires xs != [] && EndsWith(xs, sys, end)
    ensures var r := RunBatch(xs[0], sys);
            r.Continues? && if r.sys.entries == [] then end == r.sys else EndsWith(xs[1..], r.sys, end)
  {
  }

  /** The transaction goes on after the first batch. */
  lemma GoesOn(xs: seq<Executors>, sys: System, s: ExecutiveState, z: ExecutiveState, end: System)
    requires xs != [] && RunBatch(xs[0], sys).Continues? && RunBatch(xs[0], sys).sys.entries != []
    requires s.message.Some? && Follows(xs[0], s, z, RunBatch(xs[0], sys).sent)
    requires ToldTruly(xs[1..], RunBatch(xs[0], sys).sys, z, end)
    ensures ToldTruly(xs, sys, s, end)
  {
    var r := RunBatch(xs[0], sys);
    FollowsTalks(xs[0], s, z, r.sent);
    OneExchangeMore(s.message.value, Exchanged(xs[0], r.sent, s.contextID), z.message.value, Dialogue(xs[1..], r.sys, s.contextID));
  }

  /** Once a transaction is finished nothing is said about it any more, and its receipt stays as it is. */
  lemma NothingAfter(xs: seq<Executors>, sys: System, c: ContextID, end: System)
    requires Invariant(sys) && ObeyAlong(xs, sys) && xs != [] && EndsWith(xs, sys, end)
    requires var r := RunBatch(xs[0], sys);
             && r.Continues? && c !in Ids(r.sys.entries) && c !in r.sent
             && 0 <= c < |r.sys.receipts| && r.sys.receipts[c].Some?
    ensures Dialogue(xs, sys, c) == []
    ensures |end.receipts| == |RunBatch(xs[0], sys).sys.receipts| && end.receipts[c] == RunBatch(xs[0], sys).sys.receipts[c]
  {
    var r := RunBatch(xs[0], sys);
    EndsLater(xs, sys, end);
    BatchKeepsInvariant(xs[0], sys);
    if r.sys.entries != [] {
      GoneIsSilent(xs[1..], r.sys, c);
      RunsAreSafe(xs[1..], r.sys);
    }
  }

  /** The transaction is finished in the first batch. */
  lemma IsOver(xs: seq<Executors>, sys: System, s: ExecutiveState, end: System)
    requires Invariant(sys) && ObeyAlong(xs, sys) && xs != [] && EndsWith(xs, sys, end) && StartsAtZero(s)
    requires MessageOk(s) && RunBatch(xs[0], sys).Continues? && s.contextID !in Ids(RunBatch(xs[0], sys).sys.entries)
    requires BatchTreated(xs[0], s, sys, RunBatch(xs[0], sys).sys, RunBatch(xs[0], sys).sent)
    ensures ToldTruly(xs, sys, s, end)
  {
    NothingAfter(xs, sys, s.contextID, end);
  }

  lemma ReadyState(sys: System, y: Entry)
    requires Invariant(sys) && y in sys.entries
    ensures MessageOk(y.state) && y.state.contextID in Ids(sys.entries)
    ensures 0 <= y.state.contextID < |sys.receipts| && sys.receipts[y.state.contextID].None?
  {
    assert y.state.contextID in Ids(sys.entries);
  }

  /**
   One transaction, over a whole run of any length: its first call to an executor carries the message it was set up with,
   and each further call carries the answer to the call before it. When it has a receipt, the receipt is the last of the
   answers, and that answer returned from the transaction's first frame.
   */
  lemma {:induction false} DialogueIsCoherent(xs: seq<Executors>, sys: System, y: Entry, end: System)
    requires Invariant(sys) && ObeyAlong(xs, sys) && y in sys.entries && StartsAtZero(y.state) && EndsWith(xs, sys, end)
    ensures ToldTruly(xs, sys, y.state, end)
    decreases |xs|
  {
    ReadyState(sys, y);
    if xs != [] {
      var r := RunBatch(xs[0], sys);
      EndsLater(xs, sys, end);
      BatchTreats(xs[0], sys, y);
      BatchKeepsInvariant(xs[0], sys);
      if y.state.contextID in Ids(r.sys.entries) {
        var z :| z in r.sys.entries && Follows(xs[0], y.state, z.state, r.sent);
        FollowsTalks(xs[0], y.state, z.state, r.sent);
        DialogueIsCoherent(xs[1..], r.sys, z, end);
        GoesOn(xs, sys, y.state, z.state, end);
      } else {
        IsOver(xs, sys, y.state, end);
      }
    }
  }
}
