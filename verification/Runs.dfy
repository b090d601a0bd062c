/** Whole executions of a block: batch after batch, under arbitrary executors that obey the contract. */
module Runs {
  import opened Types
  import opened LockTable
  import opened Executive
  import opened Traversal
  import opened Batch
  import opened Discipline
  import opened Sending
  import opened Settling
  import opened Recovery
  import opened Accounting

  /** The invariant between batches, with the account of receipts and gas. */
  ghost predicate Invariant(sys: System) {
    AtRest(sys) && Accounted(sys.receipts, sys.gasUsed, Ids(sys.entries))
  }

  lemma InvariantGivesSlots(sys: System)
    requires Invariant(sys)
    ensures SlotsExist(sys)
  {
    forall y | y in sys.entries ensures 0 <= y.state.contextID < |sys.receipts| {
      assert y.state.contextID in Ids(sys.entries);
    }
  }

  /** What the check at the end of an error-free batch must deliver. */
  ghost predicate CheckOk(es: seq<Entry>, e: BatchState, r: BatchResult) {
    && r.Continues?
    && Invariant(r.sys) && r.sent == e.sent && Ids(r.sys.entries) == Ids(es) && r.sys.receipts == e.receipts
    && (e.sent == map[] && es != [] ==> HasVictim(r.sys.entries))
  }

  /** A batch that sent nothing. */
  lemma CheckFindsVictim(es: seq<Entry>, e: BatchState)
    requires SendingDone(es, e) && e.sent == map[] && es != []
    requires Accounted(e.receipts, e.gasUsed, Ids(es))
    ensures CheckOk(es, e, Conclude(DeadlockPass(es, e)))
  {
    NothingSentAllBlocked(es, e);
    DeadlockPassOk(es, e);
    var c := NothingSentSomeDeadLock(es, e);
    VictimConcludes(es, e, DeadlockPass(es, e));
  }

  lemma VictimConcludes(es: seq<Entry>, e: BatchState, p: Traversed<BatchState>)
    requires e.fault.None? && Consistent(e.locks) && LocksLive(e.locks, es)
    requires Accounted(e.receipts, e.gasUsed, Ids(es))
    requires p.env == e && WellFormed(p.entries) && Ids(p.entries) == Ids(es) && AllSettled(p.entries, e.locks)
    requires HasVictim(p.entries)
    ensures CheckOk(es, e, Conclude(p))
  {
  }

  /** A batch whose replies have all arrived. */
  lemma CheckSettles(x: Executors, es: seq<Entry>, e: BatchState)
    requires SendingDone(es, e) && RepliesAllowed(x) && AllResponded(x, e.sent)
    requires Accounted(e.receipts, e.gasUsed, Ids(es)) && (e.sent != map[] || es == [])
    ensures CheckOk(es, e, Conclude(SettlingPass(Deliver(x, es, e.sent), e)))
  {
    var r := Deliver(x, es, e.sent);
    DeliverShape(x, es, e.sent);
    DeliveredPending(x, es, e);
    SettlingPassOk(r, e);
    SettledConcludes(es, e, SettlingPass(r, e));
  }

  lemma SettledConcludes(es: seq<Entry>, e: BatchState, p: Traversed<BatchState>)
    requires e.fault.None? && Accounted(e.receipts, e.gasUsed, Ids(es)) && (e.sent != map[] || es == [])
    requires p.env == e.(locks := p.env.locks) && WellFormed(p.entries) && Ids(p.entries) == Ids(es)
    requires Consistent(p.env.locks) && LocksLive(p.env.locks, p.entries) && AllSettled(p.entries, p.env.locks)
    ensures CheckOk(es, e, Conclude(p))
  {
  }

  /** The end of a batch in which every reply was a message. */
  lemma CheckContinues(x: Executors, es: seq<Entry>, e: BatchState)
    requires SendingDone(es, e) && RepliesAllowed(x) && AllResponded(x, e.sent)
    requires Accounted(e.receipts, e.gasUsed, Ids(es))
    ensures CheckOk(es, e, CheckBatch(Deliver(x, es, e.sent), e))
  {
    NothingSentNothingCalled(e);
    if es != [] && e.total == 0 {
      NothingToDeliver(x, es);
      CheckFindsVictim(es, e);
    } else {
      CheckSettles(x, es, e);
    }
  }

  lemma ErrorCount(x: Executors, sent: map<ContextID, Message>)
    ensures |ErrorReplies(x, sent)| == 0 <==> AllResponded(x, sent)
  {
    if |ErrorReplies(x, sent)| == 0 {
      forall c | c in sent ensures x.reply(sent[c]).Response? {
        assert c !in ErrorReplies(x, sent);
      }
    } else {
      var c :| c in ErrorReplies(x, sent);
    }
  }

  /** What one batch does to a system that satisfies the invariant. */
  ghost predicate BatchOk(x: Executors, sys: System, out: map<ContextID, Message>, r: BatchResult) {
    match r
    case Crashed(_) => false
    case Aborted(n) => n == |ErrorReplies(x, out)| && !AllResponded(x, out)
    case Continues(sys', sent) =>
      && Invariant(sys') && AllResponded(x, sent) && sent == out
      && Ids(sys'.entries) <= Ids(sys.entries) && Extends(sys.receipts, sys'.receipts)
      && (sent == map[] && sys'.entries != [] ==> HasVictim(sys'.entries))
      && (HasVictim(sys.entries) ==> sent != map[])
  }

  /**
   One batch: no assertion fails, no key lock is refused to a reply, no stack is popped empty. The batch
   reports an error exactly when some reply was an error or missing; otherwise it keeps the invariant. If it
   sent nothing and states remain, it has chosen a victim; and a batch that starts with a victim sends something.
   */
  lemma BatchKeepsInvariant(x: Executors, sys: System)
    requires Invariant(sys) && Obeys(x, sys.entries)
    ensures BatchOk(x, sys, SendingPass(x, sys).env.sent, RunBatch(x, sys))
  {
    SentAccounted(x, sys);
    BatchEnds(x, sys, SendingPass(x, sys));
  }

  lemma ContinuesOk(x: Executors, sys: System, p: Traversed<BatchState>, r: BatchResult)
    requires SentOk(sys, p) && AllResponded(x, p.env.sent) && CheckOk(p.entries, p.env, r)
    ensures BatchOk(x, sys, p.env.sent, r)
  {
    assert r.sys.entries != [] ==> r.sys.entries[0].state.contextID in Ids(r.sys.entries);
    assert p.entries == [] ==> Ids(p.entries) == {};
  }

  lemma RespondedBatchOk(x: Executors, sys: System, p: Traversed<BatchState>)
    requires RepliesAllowed(x) && SentOk(sys, p) && AllResponded(x, p.env.sent)
    ensures BatchOk(x, sys, p.env.sent, CheckBatch(Deliver(x, p.entries, p.env.sent), p.env))
  {
    CheckContinues(x, p.entries, p.env);
    ContinuesOk(x, sys, p, CheckBatch(Deliver(x, p.entries, p.env.sent), p.env));
  }

  /** How a batch ends: it reports the errors counted, or goes on to the check. */
  lemma EndBatchSplits(x: Executors, p: Traversed<BatchState>)
    requires p.env.fault.None? && p.env.errors == 0
    ensures AllResponded(x, p.env.sent) ==> EndBatch(x, p) == CheckBatch(Deliver(x, p.entries, p.env.sent), p.env)
    ensures !AllResponded(x, p.env.sent) ==> EndBatch(x, p) == Aborted(|ErrorReplies(x, p.env.sent)|)
  {
    ErrorCount(x, p.env.sent);
    if AllResponded(x, p.env.sent) {
      assert p.env.(errors := p.env.errors + |ErrorReplies(x, p.env.sent)|) == p.env;
    }
  }

  lemma BatchEnds(x: Executors, sys: System, p: Traversed<BatchState>)
    requires RepliesAllowed(x) && SentOk(sys, p)
    ensures BatchOk(x, sys, p.env.sent, EndBatch(x, p))
  {
    EndBatchSplits(x, p);
    if AllResponded(x, p.env.sent) { RespondedBatchOk(x, sys, p); }
  }

  /** What the sending pass has achieved. */
  ghost predicate SentOk(sys: System, p: Traversed<BatchState>) {
    && SendingDone(p.entries, p.env) && Ids(p.entries) <= Ids(sys.entries)
    && Accounted(p.env.receipts, p.env.gasUsed, Ids(p.entries)) && Extends(sys.receipts, p.env.receipts)
    && (HasVictim(sys.entries) ==> p.env.sent != map[])
  }

  lemma SentAccounted(x: Executors, sys: System)
    requires Invariant(sys) && Obeys(x, sys.entries)
    ensures SentOk(sys, SendingPass(x, sys))
  {
    InvariantGivesSlots(sys);
    SendingPassOk(x, sys);
    SendingPassAccounted(x, sys);
    if HasVictim(sys.entries) { VictimMakesBatchSend(x, sys); }
  }

  /** The end of a batch that sent nothing while states are left. */
  lemma IdleBatchEnds(x: Executors, es: seq<Entry>, e: BatchState) returns (i: nat)
    requires SendingDone(es, e) && e.sent == map[] && es != []
    ensures FirstOwner(es, e.locks, i) && es[i].state.message.Some?
    ensures CheckBatch(Deliver(x, es, map[]), e) ==
            Continues(System(es[i := Revert(es[i])], e.locks, e.receipts, e.gasUsed), map[])
    ensures var c := es[i].state.contextID;
            (forall d :: !DeadLocked(Without(e.locks, c), d)) <==> (forall w :: WaitingSet(e.locks, w) ==> c in w)
  {
    NothingSentNothingCalled(e);
    NothingToDeliver(x, es);
    NothingSentAllBlocked(es, e);
    DeadlockPassOk(es, e);
    i := FirstOwnerIsReverted(es, e);
  }

  /**
   A batch that sends nothing while states are left changes only the first lock owner in key order, which it marks for
   revert. Once that context has given up its locks nobody is deadlocked any more if and only if no contexts wait for
   each other without it.
   */
  lemma IdleBatchRevertsFirstOwner(x: Executors, sys: System) returns (i: nat)
    requires Invariant(sys) && Obeys(x, sys.entries)
    requires SendingPass(x, sys).env.sent == map[] && SendingPass(x, sys).entries != []
    ensures var p := SendingPass(x, sys);
            && FirstOwner(p.entries, p.env.locks, i) && p.entries[i].state.message.Some?
            && RunBatch(x, sys) ==
               Continues(System(p.entries[i := Revert(p.entries[i])], p.env.locks, p.env.receipts, p.env.gasUsed), map[])
            && var c := p.entries[i].state.contextID;
               ((forall d :: !DeadLocked(Without(p.env.locks, c), d)) <==>
                (forall w :: WaitingSet(p.env.locks, w) ==> c in w))
  {
    SentAccounted(x, sys);
    EndBatchSplits(x, SendingPass(x, sys));
    i := IdleBatchEnds(x, SendingPass(x, sys).entries, SendingPass(x, sys).env);
  }

  // ---------------------------------------------------------------- runs

  /** How the execution of a block stands after a number of batches. */
  datatype Outcome =
    | Finished(sys: System)      // no state is left
    | Unfinished(sys: System)    // another batch is due
    | BatchError                 // a batch reported an error
    | Broken(fault: Fault)

  /** Runs one batch per element of xs, until no state is left. */
  ghost function Execute(xs: seq<Executors>, sys: System): Outcome {
    if xs == [] then Unfinished(sys)
    else
      match RunBatch(xs[0], sys)
      case Crashed(fault) => Broken(fault)
      case Aborted(_) => BatchError
      case Continues(next, _) => if next.entries == [] then Finished(next) else Execute(xs[1..], next)
  }

  /** The executors obey their contract in every batch of the run. */
  ghost predicate ObeyAlong(xs: seq<Executors>, sys: System) {
    xs != [] ==>
      && Obeys(xs[0], sys.entries)
      && var r := RunBatch(xs[0], sys);
         r.Continues? && r.sys.entries != [] ==> ObeyAlong(xs[1..], r.sys)
  }

  /** Messages sent, hence replies given, during a run. */
  ghost function RepliesGiven(xs: seq<Executors>, sys: System): nat {
    if xs == [] then 0
    else
      |SendingPass(xs[0], sys).env.sent| +
      var r := RunBatch(xs[0], sys);
      if r.Continues? && r.sys.entries != [] then RepliesGiven(xs[1..], r.sys) else 0
  }

  /**
   Every run is safe: it never breaks, it keeps the invariant as long as it goes on, and receipts that have been
   written stay as they are.
   */
  lemma {:induction false} RunsAreSafe(xs: seq<Executors>, sys: System)
    requires Invariant(sys) && ObeyAlong(xs, sys)
    ensures !Execute(xs, sys).Broken?
    ensures Execute(xs, sys).Unfinished? || Execute(xs, sys).Finished? ==>
              Invariant(Execute(xs, sys).sys) && Extends(sys.receipts, Execute(xs, sys).sys.receipts)
    decreases |xs|
  {
    if xs != [] {
      BatchKeepsInvariant(xs[0], sys);
      var r := RunBatch(xs[0], sys);
      if r.Continues? && r.sys.entries != [] {
        RunsAreSafe(xs[1..], r.sys);
      }
    }
  }

  /**
   When a run is finished no lock is left behind, every transaction has its receipt, and the gas total is the
   sum over the receipts, modulo the word size.
   */
  lemma FinishedRunIsComplete(xs: seq<Executors>, sys: System)
    requires Invariant(sys) && ObeyAlong(xs, sys)
    ensures Execute(xs, sys).Finished? ==> Complete(sys, Execute(xs, sys).sys)
  {
    RunsAreSafe(xs, sys);
    if Execute(xs, sys).Finished? {
      FinishedIsEmpty(xs, sys);
      EmptyIsComplete(sys, Execute(xs, sys).sys);
    }
  }

  /** Nothing is left to do, and nothing is left behind. */
  ghost predicate Complete(sys: System, end: System) {
    && end.entries == [] && end.locks == {}
    && |end.receipts| == |sys.receipts| && (forall i :: 0 <= i < |end.receipts| ==> end.receipts[i].Some?)
    && end.gasUsed == GasSum(end.receipts) % WORD
  }

  lemma EmptyIsComplete(sys: System, end: System)
    requires Invariant(end) && Extends(sys.receipts, end.receipts) && end.entries == []
    ensures Complete(sys, end)
  {
    assert Ids(end.entries) == {};
    forall d ensures d !in end.locks {}
  }

  lemma {:induction false} FinishedIsEmpty(xs: seq<Executors>, sys: System)
    ensures Execute(xs, sys).Finished? ==> Execute(xs, sys).sys.entries == []
    decreases |xs|
  {
    if xs != [] {
      var r := RunBatch(xs[0], sys);
      if r.Continues? && r.sys.entries != [] { FinishedIsEmpty(xs[1..], r.sys); }
    }
  }

  /** With gas values between zero and the limit, and a block small enough, the gas total is the plain sum. */
  lemma GasDoesNotWrap(xs: seq<Executors>, sys: System)
    requires Invariant(sys) && ObeyAlong(xs, sys)
    ensures Execute(xs, sys).Finished? && SaneGas(Execute(xs, sys).sys.receipts) ==>
              Execute(xs, sys).sys.gasUsed == GasSum(Execute(xs, sys).sys.receipts)
  {
    FinishedRunIsComplete(xs, sys);
    if Execute(xs, sys).Finished? && SaneGas(Execute(xs, sys).sys.receipts) {
      GasSumFits(Execute(xs, sys).sys.receipts);
    }
  }

  ghost predicate SaneGas(rs: seq<Option<Receipt>>) {
    && (forall i :: 0 <= i < |rs| && rs[i].Some? ==> 0 <= rs[i].value.gasAvailable <= TRANSACTION_GAS)
    && |rs| * TRANSACTION_GAS < WORD
  }

  lemma GasSumFits(rs: seq<Option<Receipt>>)
    requires SaneGas(rs)
    ensures GasSum(rs) % WORD == GasSum(rs)
  {
    GasSumBounds(rs);
  }

  /**
   Progress: a run that is still going on has used at least half as many replies as batches. One batch more is
   allowed when the run did not start with a victim already chosen.
   */
  lemma {:induction false} RepliesPayForBatches(xs: seq<Executors>, sys: System)
    requires Invariant(sys) && ObeyAlong(xs, sys)
    ensures Execute(xs, sys).Unfinished? ==>
              |xs| <= 2 * RepliesGiven(xs, sys) + if HasVictim(sys.entries) then 0 else 1
    decreases |xs|
  {
    if xs != [] {
      BatchKeepsInvariant(xs[0], sys);
      var r := RunBatch(xs[0], sys);
      if r.Continues? && r.sys.entries != [] {
        RepliesPayForBatches(xs[1..], r.sys);
        MapSize(r.sent);
      }
    }
  }

  lemma MapSize(sent: map<ContextID, Message>)
    ensures |sent| == 0 <==> sent == map[]
  {
    if sent != map[] {
      var c :| c in sent;
      assert c in sent.Keys;
    }
  }

  /** Termination: if the executors give at most b replies, the run is over within 2 b + 2 batches. */
  lemma RunsTerminate(xs: seq<Executors>, sys: System, b: nat)
    requires Invariant(sys) && ObeyAlong(xs, sys) && |xs| >= 2 * b + 2
    ensures RepliesGiven(xs, sys) <= b ==> Execute(xs, sys).Finished? || Execute(xs, sys).BatchError?
  {
    RunsAreSafe(xs, sys);
    RepliesPayForBatches(xs, sys);
  }

  // ---------------------------------------------------------------- one batch more

  /** A run of one batch more goes on from where the shorter run stopped. */
  lemma {:induction false} ExecuteOneMore(xs: seq<Executors>, x: Executors, sys: System)
    ensures Execute(xs + [x], sys) ==
            if Execute(xs, sys).Unfinished? then Execute([x], Execute(xs, sys).sys) else Execute(xs, sys)
    ensures ObeyAlong(xs + [x], sys) && Execute(xs, sys).Unfinished? ==> Obeys(x, Execute(xs, sys).sys.entries)
    decreases |xs|
  {
    if xs == [] {
      assert xs + [x] == [x];
    } else {
      assert (xs + [x])[0] == xs[0] && (xs + [x])[1..] == xs[1..] + [x];
      var r := RunBatch(xs[0], sys);
      if r.Continues? && r.sys.entries != [] { ExecuteOneMore(xs[1..], x, r.sys); }
    }
  }

  ghost function Prefix(xs: nat -> Executors, n: nat): seq<Executors> {
    seq(n, i requires 0 <= i < n => xs(i))
  }

  lemma PrefixOneMore(xs: nat -> Executors, n: nat)
    ensures Prefix(xs, n + 1) == Prefix(xs, n) + [xs(n)]
  {
  }

  /** A block about to be executed: contexts 0 to n-1, no receipts yet. */
  lemma BlockStartsInvariant(sys: System)
    requires Initial(sys) && sys.gasUsed == 0
    requires forall i :: 0 <= i < |sys.receipts| ==> sys.receipts[i].None? && i in Ids(sys.entries)
    requires forall c :: c in Ids(sys.entries) ==> 0 <= c < |sys.receipts|
    ensures Invariant(sys)
  {
    InitialIsAtRest(sys);
    NoReceiptsNoGas(sys.receipts);
  }

  lemma {:induction false} NoReceiptsNoGas(rs: seq<Option<Receipt>>)
    requires forall i :: 0 <= i < |rs| ==> rs[i].None?
    ensures GasSum(rs) == 0
  {
    if rs != [] { NoReceiptsNoGas(rs[..|rs| - 1]); }
  }
}
