/**
 Replies that come in while messages are still being sent: they change only states that the sending pass will not look
 at again, so in the end they might as well have come when the pass was over.
 */
module Replies {
  import opened Types
  import opened Executive
  import opened Traversal
  import opened Batch
  import opened Discipline
  import opened Sending

  /** The replies received so far, in whatever order they came. */
  ghost function Received(sent: map<ContextID, Message>, pending: set<ContextID>): map<ContextID, Message> {
    map c | c in sent && c !in pending :: sent[c]
  }

  function WithReply(es: seq<Entry>, c: ContextID, r: Reply): seq<Entry> {
    seq(|es|, i requires 0 <= i < |es| =>
      if es[i].state.contextID == c then Entry(es[i].key, Receive(es[i].state, r)) else es[i])
  }

  /** One more reply: delivering it last or among the others makes no difference. */
  lemma DeliverOneMore(x: Executors, es: seq<Entry>, sent: map<ContextID, Message>, pending: set<ContextID>, c: ContextID)
    requires c in pending && pending <= sent.Keys
    ensures WithReply(Deliver(x, es, Received(sent, pending)), c, x.reply(sent[c])) ==
            Deliver(x, es, Received(sent, pending - {c}))
    ensures |ErrorReplies(x, Received(sent, pending - {c}))| ==
            |ErrorReplies(x, Received(sent, pending))| + if x.reply(sent[c]).Response? then 0 else 1
  {
    var before, after := Received(sent, pending), Received(sent, pending - {c});
    var failed, failed' := ErrorReplies(x, before), ErrorReplies(x, after);
    if x.reply(sent[c]).Response? {
      assert failed' == failed;
    } else {
      assert failed' == failed + {c};
    }
  }

  // ---------------------------------------------------------------- while the pass is going on

  /** The pass visits another state, or an executor answers the message of a context. */
  datatype Event = NextVisit | Arrival(context: ContextID)

  /** How far the pass has come, and whose replies have not come in yet. */
  datatype Progress = Progress(cursor: Cursor<BatchState>, pending: set<ContextID>)

  ghost predicate Possible(p: Progress, ev: Event) {
    match ev
    case NextVisit => p.cursor.ahead != []
    case Arrival(k) => k in p.pending && k in p.cursor.env.sent
  }

  /** A reply reaches its state wherever that is by now, and is counted if it is an error or missing. */
  ghost function Arrive(c: Cursor<BatchState>, k: ContextID, r: Reply): Cursor<BatchState> {
    Cursor(WithReply(c.behind, k, r), WithReply(c.ahead, k, r), WithReply(c.taken, k, r), c.trace,
           c.env.(errors := c.env.errors + if r.Response? then 0 else 1))
  }

  ghost function After(x: Executors, p: Progress, ev: Event): Progress
    requires Possible(p, ev)
  {
    match ev
    case NextVisit =>
      var c := Step(StartCallback(x), p.cursor);
      Progress(c, p.pending + (c.env.sent.Keys - p.cursor.env.sent.Keys))
    case Arrival(k) => Progress(Arrive(p.cursor, k, x.reply(p.cursor.env.sent[k])), p.pending - {k})
  }

  ghost predicate IsRun(x: Executors, p: Progress, evs: seq<Event>)
    decreases |evs|
  {
    evs == [] || (Possible(p, evs[0]) && IsRun(x, After(x, p, evs[0]), evs[1..]))
  }

  ghost function AfterAll(x: Executors, p: Progress, evs: seq<Event>): Progress
    requires IsRun(x, p, evs)
    decreases |evs|
  {
    if evs == [] then p else AfterAll(x, After(x, p, evs[0]), evs[1..])
  }

  ghost function Start(sys: System): Cursor<BatchState> {
    Cursor([], sys.entries, [], [], Begin(sys))
  }

  /** The same pass without any reply stands at c; p is ahead of it by the replies that are not pending any more. */
  ghost predicate Leads(x: Executors, c: Cursor<BatchState>, p: Progress) {
    && AheadUnsent(c) && c.taken == [] && p.pending <= c.env.sent.Keys
    && var in_ := Received(c.env.sent, p.pending);
       p.cursor == Cursor(Deliver(x, c.behind, in_), c.ahead, [], c.trace, MoreErrors(c.env, |ErrorReplies(x, in_)|))
  }

  ghost function MoreErrors(e: BatchState, k: nat): BatchState {
    e.(errors := e.errors + k)
  }

  ghost function WithErrors(v: Visit<BatchState>, k: nat): Visit<BatchState> {
    Visit(MoreErrors(v.env, k), v.state, v.hint)
  }

  lemma SendErrorsApart(e: BatchState, s: ExecutiveState, m: Message, k: nat)
    ensures Send(MoreErrors(e, k), s, m) == WithErrors(Send(e, s, m), k)
  {
  }

  lemma RequestErrorsApart(x: Executors, e: BatchState, s: ExecutiveState, m: Message, k: nat)
    ensures SendRequest(x, MoreErrors(e, k), s, m) == WithErrors(SendRequest(x, e, s, m), k)
  {
  }

  lemma ReturnErrorsApart(e: BatchState, s: ExecutiveState, m: Message, k: nat)
    ensures SendReturn(MoreErrors(e, k), s, m) == WithErrors(SendReturn(e, s, m), k)
  {
  }

  lemma KeyLockErrorsApart(e: BatchState, s: ExecutiveState, m: Message, k: nat)
    ensures SendKeyLock(MoreErrors(e, k), s, m) == WithErrors(SendKeyLock(e, s, m), k)
  {
  }

  /** No visit looks at the number of errors. */
  lemma ErrorsApart(x: Executors, e: BatchState, s: ExecutiveState, k: nat)
    ensures VisitStart(x, MoreErrors(e, k), s) == WithErrors(VisitStart(x, e, s), k)
  {
    if !s.failed && s.message.Some? {
      var m := s.message.value;
      match m.mtype {
        case MESSAGE | TXHASH => RequestErrorsApart(x, e, s, m, k);
        case FINISHED | REVERT => ReturnErrorsApart(e, s, m, k);
        case REVERT_KEY_LOCK => SendErrorsApart(e, s, m.(mtype := REVERT, create := false, keyLocks := []), k);
        case KEY_LOCK => KeyLockErrorsApart(e, s, m, k);
        case SEND_BACK =>
          SendErrorsApart(e, s, Addressed(x, m, s.contextID, m.frame).(mtype := if m.transactionHash != 0 then TXHASH else MESSAGE), k);
      }
    }
  }

  lemma DeliverConcat(x: Executors, a: seq<Entry>, b: seq<Entry>, sent: map<ContextID, Message>)
    requires forall y :: y in b ==> y.state.contextID !in sent
    ensures Deliver(x, a + b, sent) == Deliver(x, a, sent) + b
  {
  }

  /** Replies to states behind the iterator commute with the iterator's next move. */
  lemma AdvanceCommutesWithReplies(x: Executors, c: Cursor<BatchState>, v: Visit<BatchState>, sent: map<ContextID, Message>)
    requires c.ahead != [] && !v.hint.UPDATE? && v.state.contextID == c.ahead[0].state.contextID
    requires forall y :: y in c.ahead ==> y.state.contextID !in sent
    ensures Advance(c.(behind := Deliver(x, c.behind, sent)), v) ==
            Advance(c, v).(behind := Deliver(x, Advance(c, v).behind, sent))
  {
    var y, n := Entry(c.ahead[0].key, v.state), UpperBound(c.ahead, GroupEnd(c.ahead[0].key));
    assert c.ahead[0] in c.ahead;
    DeliverConcat(x, c.behind, [y], sent);
    DeliverConcat(x, c.behind + [y], c.ahead[1..n], sent);
    DeliverConcat(x, c.behind + [y], c.ahead[1..], sent);
  }

  lemma ReceivedKept(e: BatchState, e': BatchState, c: ContextID, pending: set<ContextID>)
    requires SentGrows(e, e', c) && pending <= e.sent.Keys
    ensures Received(e'.sent, pending + (e'.sent.Keys - e.sent.Keys)) == Received(e.sent, pending)
  {
  }

  /** The next move of the interrupted pass, told by the next move of the uninterrupted one. */
  lemma VisitCommutesWithReplies(x: Executors, c: Cursor<BatchState>, sent: map<ContextID, Message>, k: nat)
    requires c.ahead != [] && forall y :: y in c.ahead ==> y.state.contextID !in sent
    ensures var d := Step(StartCallback(x), c);
            Step(StartCallback(x), Cursor(Deliver(x, c.behind, sent), c.ahead, c.taken, c.trace, MoreErrors(c.env, k))) ==
            Cursor(Deliver(x, d.behind, sent), d.ahead, d.taken, d.trace, MoreErrors(d.env, k))
  {
    var s := c.ahead[0].state;
    ErrorsApart(x, c.env, s, k);
    VisitKeepsContext(x, c.env, s);
    AdvanceCommutesWithReplies(x, c, VisitStart(x, c.env, s), sent);
    AdvanceCarriesEnv(c.(behind := Deliver(x, c.behind, sent)), VisitStart(x, c.env, s), MoreErrors(c.env, k), k);
  }

  lemma AdvanceCarriesEnv(c: Cursor<BatchState>, v: Visit<BatchState>, e: BatchState, k: nat)
    requires c.ahead != []
    ensures Advance(c.(env := e), WithErrors(v, k)) == Advance(c, v).(env := MoreErrors(v.env, k))
  {
  }

  lemma NotReceived(c: Cursor<BatchState>, pending: set<ContextID>)
    requires AheadUnsent(c)
    ensures forall y :: y in c.ahead ==> y.state.contextID !in Received(c.env.sent, pending)
  {
  }

  lemma VisitKeepsLead(x: Executors, c: Cursor<BatchState>, p: Progress)
    requires Leads(x, c, p) && c.ahead != []
    ensures Leads(x, Step(StartCallback(x), c), After(x, p, NextVisit))
  {
    var in_, d := Received(c.env.sent, p.pending), Step(StartCallback(x), c);
    NotReceived(c, p.pending);
    StepLeavesUnsent(x, c);
    VisitKeepsContext(x, c.env, c.ahead[0].state);
    VisitCommutesWithReplies(x, c, in_, |ErrorReplies(x, in_)|);
    ReceivedKept(c.env, d.env, c.ahead[0].state.contextID, p.pending);
  }

  lemma ReplyElsewhere(es: seq<Entry>, k: ContextID, r: Reply)
    requires forall y :: y in es ==> y.state.contextID != k
    ensures WithReply(es, k, r) == es
  {
  }

  lemma ArrivalKeepsLead(x: Executors, c: Cursor<BatchState>, p: Progress, k: ContextID)
    requires Leads(x, c, p) && k in p.pending
    ensures Leads(x, c, After(x, p, Arrival(k)))
  {
    DeliverOneMore(x, c.behind, c.env.sent, p.pending, k);
    ReplyElsewhere(c.ahead, k, x.reply(c.env.sent[k]));
  }

  lemma {:induction false} RunKeepsLead(x: Executors, c: Cursor<BatchState>, p: Progress, evs: seq<Event>) returns (d: Cursor<BatchState>)
    requires Leads(x, c, p) && IsRun(x, p, evs)
    ensures Leads(x, d, AfterAll(x, p, evs)) && Run(StartCallback(x), d) == Run(StartCallback(x), c)
    decreases |evs|
  {
    if evs == [] {
      d := c;
    } else if evs[0].NextVisit? {
      VisitKeepsLead(x, c, p);
      d := RunKeepsLead(x, Step(StartCallback(x), c), After(x, p, evs[0]), evs[1..]);
    } else {
      ArrivalKeepsLead(x, c, p, evs[0].context);
      d := RunKeepsLead(x, c, After(x, p, evs[0]), evs[1..]);
    }
  }

  lemma StartLeads(x: Executors, sys: System)
    requires AtRest(sys)
    ensures Leads(x, Start(sys), Progress(Start(sys), {}))
  {
    assert Deliver(x, [], map[]) == [] && ErrorReplies(x, map[]) == {};
    assert Received(map[], {}) == map[];
  }

  lemma PassIs(x: Executors, sys: System, d: Cursor<BatchState>)
    requires d.ahead == [] && d.taken == [] && Run(StartCallback(x), Start(sys)) == Run(StartCallback(x), d)
    ensures SendingPass(x, sys).entries == d.behind && SendingPass(x, sys).env == d.env
  {
    assert RekeyAll(d.taken) == [];
  }

  lemma AllRepliesIn(x: Executors, q: Traversed<BatchState>, p: Progress)
    requires p.cursor.behind == Deliver(x, q.entries, Received(q.env.sent, p.pending))
    requires p.cursor.env == MoreErrors(q.env, |ErrorReplies(x, Received(q.env.sent, p.pending))|)
    ensures p.pending == {} && q.env.fault.None? ==> CheckBatch(p.cursor.behind, p.cursor.env) == EndBatch(x, q)
  {
    if p.pending == {} { assert Received(q.env.sent, p.pending) == q.env.sent; }
  }

  /**
   Whenever the replies come in, during the pass or after it: once the pass is over, the states and the batch status are
   those of a pass without interruption to which the same replies are delivered afterwards. With all replies in, the
   check at the end therefore makes of the batch what it makes of one whose replies come after the pass.
   */
  lemma RepliesMayComeEarly(x: Executors, sys: System, evs: seq<Event>)
    requires AtRest(sys) && IsRun(x, Progress(Start(sys), {}), evs)
    requires AfterAll(x, Progress(Start(sys), {}), evs).cursor.ahead == []
    ensures var p := AfterAll(x, Progress(Start(sys), {}), evs);
            var q := SendingPass(x, sys);
            var in_ := Received(q.env.sent, p.pending);
            && p.cursor.behind == Deliver(x, q.entries, in_) && p.cursor.taken == []
            && p.cursor.env == MoreErrors(q.env, |ErrorReplies(x, in_)|)
            && (p.pending == {} && q.env.fault.None? ==> CheckBatch(p.cursor.behind, p.cursor.env) == RunBatch(x, sys))
  {
    StartLeads(x, sys);
    var d := RunKeepsLead(x, Start(sys), Progress(Start(sys), {}), evs);
    PassIs(x, sys, d);
    AllRepliesIn(x, SendingPass(x, sys), AfterAll(x, Progress(Start(sys), {}), evs));
  }
}
