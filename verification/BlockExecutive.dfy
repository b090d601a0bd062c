/**
 The block executive as the program runs it: a map of states updated in place, a lock graph, and the counters of
 the current batch. Every method is proved to do what the corresponding function on values says.
 */
module BlockExecutive {
  import opened Types
  import opened LockTable
  import opened KeyLocks
  import opened Executive
  import opened Traversal
  import opened Batch
  import opened Discipline
  import opened Forwarding
  import opened Settling
  import opened Accounting
  import opened Replies
  import opened Histories
  import opened Runs

  /** What the set-up needs to know of a transaction; its address is already in the form the map uses. */
  datatype Transaction = Transaction(to: string, create: bool, hash: int, sender: string, data: string)

  /** The first message of a transaction: by hash if the block holds meta data only, otherwise with the full data. */
  function FirstMessage(i: ContextID, tx: Transaction, byHash: bool): Message {
    if byHash then
      Message(TXHASH, i, 0, "", tx.to, tx.create, None, "", [], "", tx.hash, TRANSACTION_GAS, "", 0)
    else
      Message(MESSAGE, i, 0, tx.sender, tx.to, tx.create, None, tx.data, [], "", 0, TRANSACTION_GAS, "", 0)
  }

  function FirstEntry(i: ContextID, tx: Transaction, byHash: bool): Entry {
    Entry(StateKey(tx.to, i), ExecutiveState(i, [], Some(FirstMessage(i, tx, byHash)), false, 0, false))
  }

  /**
   The state of a transaction before anything is executed: under the contract it is addressed to, with a message that
   asks for the transaction by its hash, or says all there is to say of it.
   */
  ghost predicate SetUp(y: Entry, c: ContextID, tx: Transaction, byHash: bool) {
    && y.key.contract == tx.to && y.key.contextID == c && y.state.contextID == c
    && y.state.callStack == [] && y.state.currentSeq == 0 && !y.state.failed && !y.state.skip
    && y.state.message.Some?
    && var m := y.state.message.value;
       m.contextID == c && m.to == tx.to && m.salt.None? && m.keyLocks == [] && Introduces(m, tx, byHash)
  }

  /** The message says which transaction is to be executed, with which gas. */
  ghost predicate Introduces(m: Message, tx: Transaction, byHash: bool) {
    && m.mtype == (if byHash then TXHASH else MESSAGE)
    && m.gasAvailable == 30000000000
    && (m.create <==> tx.create)
    && (tx.to != "" ==> m.to == tx.to)
    && (if byHash then m.transactionHash == tx.hash
        else m.sender == tx.sender && m.data == tx.data && m.transactionHash == 0)
  }

  /** The states of the first n transactions. */
  ghost predicate Prepared(es: seq<Entry>, txs: seq<Transaction>, byHash: bool, n: nat)
    requires n <= |txs| <= INT64_MAX
  {
    && WellFormed(es)
    && (forall c: ContextID :: c in Ids(es) <==> 0 <= c < n)
    && (forall y :: y in es ==> 0 <= y.key.contextID < n && SetUp(y, y.key.contextID, txs[y.key.contextID], byHash))
  }

  lemma PrepareOneMore(es: seq<Entry>, txs: seq<Transaction>, byHash: bool, n: nat)
    requires n < |txs| <= INT64_MAX && Prepared(es, txs, byHash, n)
    ensures Prepared(Insert(es, FirstEntry(n, txs[n], byHash)), txs, byHash, n + 1)
  {
    InsertKeepsWellFormed(es, FirstEntry(n, txs[n], byHash));
  }

  lemma PreparedIsInitial(es: seq<Entry>, txs: seq<Transaction>, byHash: bool, receipts: seq<Option<Receipt>>)
    requires |txs| <= INT64_MAX && Prepared(es, txs, byHash, |txs|) && receipts == seq(|txs|, _ => None)
    ensures Initial(System(es, {}, receipts, 0)) && Invariant(System(es, {}, receipts, 0))
  {
    BlockStartsInvariant(System(es, {}, receipts, 0));
  }

  lemma PreparedMember(es: seq<Entry>, txs: seq<Transaction>, byHash: bool, c: ContextID) returns (y: Entry)
    requires |txs| <= INT64_MAX && Prepared(es, txs, byHash, |txs|) && 0 <= c < |txs|
    ensures y in es && SetUp(y, c, txs[c], byHash)
  {
    assert c in Ids(es);
    y :| y in es && y.state.contextID == c;
  }

  /** What reaches an executor in the first batch introduces its transaction, for the transaction's first frame. */
  lemma FirstBatchIntroduces(x: Executors, sys: System, txs: seq<Transaction>, byHash: bool, c: ContextID)
    requires |txs| <= INT64_MAX && Prepared(sys.entries, txs, byHash, |txs|)
    requires Invariant(sys) && Obeys(x, sys.entries) && 0 <= c < |txs|
    ensures var sent := SendingPass(x, sys).env.sent;
            c in sent ==> sent[c].contextID == c && sent[c].frame == 0 && Introduces(sent[c], txs[c], byHash)
  {
    var y := PreparedMember(sys.entries, txs, byHash, c);
    InvariantGivesSlots(sys);
    SendingPassTreats(x, sys, y);
  }

  /** The first call introduces the transaction, each further call carries the answer before it, the last one is the receipt. */
  ghost predicate FullyTold(d: seq<Exchange>, r: Option<Receipt>, c: ContextID, tx: Transaction, byHash: bool) {
    && (d != [] ==> d[0].call.contextID == c && Introduces(d[0].call, tx, byHash) && Coherent(d[0].answer, d[1..]))
    && (r.Some? ==>
          && d != []
          && var w := d[|d| - 1].answer;
             w.mtype in {FINISHED, REVERT} && w.frame == 0 && ReceiptSays(r, w))
  }

  lemma ToldFromSetUp(m: Message, d: seq<Exchange>, r: Option<Receipt>, c: ContextID, tx: Transaction, byHash: bool)
    requires Coherent(m, d) && ReceiptIsLastWord(r, m, d) && m.contextID == c && Introduces(m, tx, byHash)
    ensures FullyTold(d, r, c, tx, byHash)
  {
  }

  /** The same over whole runs: what executors hear of a transaction, from its first call to its receipt. */
  lemma TransactionIsFullyTold(xs: seq<Executors>, sys: System, txs: seq<Transaction>, byHash: bool, c: ContextID, end: System)
    requires |txs| <= INT64_MAX && Prepared(sys.entries, txs, byHash, |txs|)
    requires Invariant(sys) && ObeyAlong(xs, sys) && EndsWith(xs, sys, end) && 0 <= c < |txs|
    ensures 0 <= c < |end.receipts| && FullyTold(Dialogue(xs, sys, c), end.receipts[c], c, txs[c], byHash)
  {
    var y := PreparedMember(sys.entries, txs, byHash, c);
    DialogueIsCoherent(xs, sys, y, end);
    ToldFromSetUp(y.state.message.value, Dialogue(xs, sys, c), end.receipts[c], c, txs[c], byHash);
  }

  /** The three callbacks that traverse the states. */
  datatype Pass = SendPass(x: Executors) | SettlePass | DeadlockPass

  ghost function CallbackOf(pass: Pass): Callback<BatchState> {
    match pass
    case SendPass(x) => StartCallback(x)
    case SettlePass => VisitSettle
    case DeadlockPass => VisitDeadlock
  }

  /** A state takes over the message it is answered, as it is; an error takes its message away, a missing reply nothing. */
  ghost predicate TakesReply(x: Executors, sent: map<ContextID, Message>, y: Entry, z: Entry) {
    var c := y.state.contextID;
    && z.key == y.key
    && if c !in sent then z.state == y.state
       else match x.reply(sent[c])
         case Response(m) => z.state == y.state.(message := Some(m))
         case Failed => z.state == y.state.(message := None, failed := true)
         case NullResponse => z.state == y.state
  }

  lemma EmptyOrHasContext(cs: set<ContextID>)
    ensures cs == {} || exists c :: c in cs
  {
    if forall c :: c !in cs { assert cs == {}; }
  }

  class BlockExecutive {
    const keyLocks: GraphKeyLocks
    var states: seq<Entry>                      // in key order
    var receipts: seq<Option<Receipt>>
    var gasUsed: nat
    var called: set<string>                     // status of the current batch
    var sent: map<ContextID, Message>
    var total: nat
    var errors: nat
    var fault: Option<Fault>

    ghost predicate Valid()
      reads this, keyLocks
    {
      keyLocks.Valid()
    }

    ghost function Env(): BatchState
      reads this, keyLocks
      requires Valid()
    {
      BatchState(keyLocks.Table(), called, sent, total, errors, receipts, gasUsed, fault)
    }

    ghost function Sys(): System
      reads this, keyLocks
      requires Valid()
    {
      System(states, keyLocks.Table(), receipts, gasUsed)
    }

    /**
     Prepares the states of a block: one per transaction, under the contract it is addressed to. There are no locks
     and no receipts yet, and the invariant holds from here on.
     */
    constructor (txs: seq<Transaction>, byHash: bool)
      requires |txs| <= INT64_MAX
      ensures Valid() && fresh(keyLocks)
      ensures Invariant(Sys()) && Initial(Sys())
      ensures Prepared(states, txs, byHash, |txs|) && receipts == seq(|txs|, _ => None)
    {
      states, receipts, gasUsed := [], seq(|txs|, _ => None), 0;
      called, sent, total, errors, fault := {}, map[], 0, 0, None;
      keyLocks := new GraphKeyLocks();
      new;
      for i := 0 to |txs|
        invariant keyLocks.Valid() && keyLocks.Table() == {} && gasUsed == 0 && fresh(keyLocks)
        invariant receipts == seq(|txs|, _ => None)
        invariant Prepared(states, txs, byHash, i)
      {
        PrepareOneMore(states, txs, byHash, i);
        states := Insert(states, FirstEntry(i, txs[i], byHash));
      }
      PreparedIsInitial(states, txs, byHash, receipts);
    }

    /** Dispatches a message: records the contract, attaches the foreign keys, hands the message over. */
    method Dispatch(s: ExecutiveState, m: Message) returns (s': ExecutiveState)
      requires Valid()
      modifies this`called, this`sent, this`total
      ensures Valid() && Visit(Env(), s', PASS) == Send(old(Env()), s, m)
    {
      called := called + {m.to};
      var keys := keyLocks.GetKeyLocksNotHoldingByContext(m.to, s.contextID);
      var out := m.(keyLocks := keys);
      total := total + 1;
      sent := sent[s.contextID := out];
      s' := s.(message := None);
    }

    /** FINISHED or REVERT: pop the frame, and either finish the transaction or return to the caller. */
    method Return(s: ExecutiveState, m: Message) returns (s': ExecutiveState, hint: Hint)
      requires Valid()
      modifies this`called, this`sent, this`total, this`receipts, this`gasUsed, this`fault
      ensures Valid() && Visit(Env(), s', hint) == SendReturn(old(Env()), s, m)
    {
      if s.callStack == [] {
        fault := Some(EmptyCallStack);
        return s, END;
      }
      var rest := s.callStack[..|s.callStack| - 1];
      if rest == [] {
        if 0 <= s.contextID < |receipts| {
          receipts := receipts[s.contextID := Some(ReceiptOf(m))];
          gasUsed := GasAfter(gasUsed, m.gasAvailable);
          return s.(callStack := rest), DELETE;
        }
        fault := Some(NoResultSlot);
        return s, END;
      }
      s' := Dispatch(s.(callStack := rest), m.(frame := rest[|rest| - 1], create := false));
      hint := PASS;
    }

    /** The sending callback. */
    method SendVisit(x: Executors, s: ExecutiveState) returns (s': ExecutiveState, hint: Hint)
      requires Valid()
      modifies this`called, this`sent, this`total, this`receipts, this`gasUsed, this`fault, this`errors, keyLocks
      ensures Valid() && Visit(Env(), s', hint) == VisitStart(x, old(Env()), s)
    {
      if s.failed {
        errors := errors + 1;
        return s, END;
      }
      if s.message.None? {
        fault := Some(NullMessage);
        return s, END;
      }
      var m := s.message.value;
      if m.to != "" && m.to in called {
        return s.(skip := true), SKIP;
      }
      hint := PASS;
      match m.mtype {
        case MESSAGE | TXHASH =>
          var frame := s.currentSeq;
          var t := s.(currentSeq := frame + 1, callStack := s.callStack + [frame]);
          s' := Dispatch(t, Addressed(x, m, s.contextID, frame).(frame := frame));
        case FINISHED | REVERT =>
          s', hint := Return(s, m);
        case REVERT_KEY_LOCK =>
          s' := Dispatch(s, m.(mtype := REVERT, create := false, keyLocks := []));
        case KEY_LOCK =>
          var ok := keyLocks.AcquireKeyLock(m.sender, m.keyLockAcquired, s.contextID, m.frame);
          if ok {
            s' := Dispatch(s, m);
          } else {
            s' := s;
          }
        case SEND_BACK =>
          var retyped := m.(mtype := if m.transactionHash != 0 then TXHASH else MESSAGE);
          s' := Dispatch(s, Addressed(x, m, s.contextID, m.frame).(mtype := retyped.mtype));
      }
    }

    /** The callback that settles the key locks after the replies have come in. */
    method SettleVisit(s: ExecutiveState) returns (s': ExecutiveState, hint: Hint)
      requires Valid()
      modifies this`fault, keyLocks
      ensures Valid() && Visit(Env(), s', hint) == VisitSettle(old(Env()), s)
    {
      if s.skip {
        return s.(skip := false), SKIP;
      }
      if s.message.None? {
        fault := Some(NullMessage);
        return s, END;
      }
      var m := s.message.value;
      match m.mtype {
        case MESSAGE | KEY_LOCK =>
          var unexpected := keyLocks.BatchAcquireKeyLock(m.sender, m.keyLocks, m.contextID, m.frame);
          if unexpected {
            fault := Some(UnexpectedKeyLock);
            return s, END;
          }
          return s, if m.mtype == MESSAGE then UPDATE else PASS;
        case FINISHED | REVERT =>
          keyLocks.ReleaseKeyLocks(m.contextID, m.frame);
          return s, UPDATE;
        case _ =>
          return s, PASS;
      }
    }

    /** The callback that looks for a deadlocked context to revert. */
    method DeadlockVisit(s: ExecutiveState) returns (s': ExecutiveState, hint: Hint)
      requires Valid()
      modifies this`fault
      ensures Valid() && Visit(Env(), s', hint) == VisitDeadlock(old(Env()), s)
    {
      if s.skip {
        return s.(skip := false), SKIP;
      }
      var deadLock := keyLocks.DetectDeadLock(s.contextID);
      if deadLock {
        if s.message.None? {
          fault := Some(NullMessage);
          return s, END;
        }
        return s.(message := Some(s.message.value.(mtype := REVERT_KEY_LOCK))), END;
      }
      return s, PASS;
    }

    method Callback(pass: Pass, s: ExecutiveState) returns (s': ExecutiveState, hint: Hint)
      requires Valid()
      modifies this`called, this`sent, this`total, this`receipts, this`gasUsed, this`fault, this`errors, keyLocks
      ensures Valid() && Visit(Env(), s', hint) == CallbackOf(pass)(old(Env()), s)
      ensures hint.UPDATE? ==> s'.message.Some?
    {
      match pass {
        case SendPass(x) => s', hint := SendVisit(x, s);
        case SettlePass => s', hint := SettleVisit(s);
        case DeadlockPass => s', hint := DeadlockVisit(s);
      }
    }

    /** Does with the visited node what the hint says, and moves the iterator. */
    method Move(i: nat, taken: seq<Entry>, y: Entry, hint: Hint, ghost trace: seq<Visited>, ghost e: BatchState, ghost e': BatchState)
      returns (i': nat, taken': seq<Entry>)
      requires Sorted(states) && i < |states| && y.key == states[i].key
      modifies this`states
      ensures Sorted(states) && i' <= |states| && |states| - i' < |old(states)| - i
      ensures taken' == if hint.UPDATE? then [y] + taken else taken
      ensures Cursor(states[..i'], states[i'..], taken', trace + [Visited(y.key, hint)], e') ==
              Advance(Cursor(old(states)[..i], old(states)[i..], taken, trace, e), Visit(e', y.state, hint))
    {
      taken' := taken;
      if hint == DELETE || hint == UPDATE {
        LeavesMap(states, i, taken, y, hint, trace, e, e');
        states := states[..i] + states[i + 1..];
        if hint == UPDATE { taken' := [y] + taken; }
        i' := i;
      } else {
        UpperBoundFromIterator(states, i);
        i' := if hint == PASS then i + 1 else if hint == SKIP then UpperBound(states, GroupEnd(y.key)) else |states|;
        StaysInMap(states, i, i', taken, y, hint, trace, e, e');
        states := states[i := y];
      }
    }

    /**
     Walks the states in place under one of the callbacks. Nodes whose key changes are taken out and put back
     after the walk.
     */
    method TraverseExecutive(pass: Pass)
      requires Valid() && Sorted(states)
      modifies this, keyLocks
      ensures Valid()
      ensures var p := Traverse(CallbackOf(pass), old(states), old(Env()));
              states == p.entries && Env() == p.env
    {
      var i := 0;
      var taken: seq<Entry> := [];
      ghost var trace: seq<Visited>, f := [], CallbackOf(pass);
      ghost var goal := Run(f, Cursor([], states, [], [], Env()));
      assert states[i..] == states;
      while i < |states|
        invariant Valid() && 0 <= i <= |states| && Sorted(states)
        invariant HaveMessages(taken)
        invariant Run(f, Cursor(states[..i], states[i..], taken, trace, Env())) == goal
        decreases |states| - i
      {
        ghost var e := Env();
        ghost var c := Cursor(states[..i], states[i..], taken, trace, e);
        var node := states[i];
        assert c.ahead[0] == node && Run(f, Step(f, c)) == goal;
        var state, hint := Callback(pass, node.state);
        assert Step(f, c) == Advance(c, Visit(Env(), state, hint));
        i, taken := Move(i, taken, Entry(node.key, state), hint, trace, e, Env());
        trace := trace + [Visited(node.key, hint)];
      }
      assert states[..i] == states && states[i..] == [];
      PutBack(taken);
    }

    /** Puts the taken nodes back under the contracts their messages are addressed to, the one taken last first. */
    method PutBack(taken: seq<Entry>)
      requires HaveMessages(taken)
      modifies this`states
      ensures states == InsertAll(old(states), RekeyAll(taken))
    {
      for k := 0 to |taken|
        invariant InsertAll(states, RekeyAll(taken[k..])) == InsertAll(old(states), RekeyAll(taken))
      {
        assert RekeyAll(taken[k..])[0] == Rekey(taken[k]);
        assert RekeyAll(taken[k..])[1..] == RekeyAll(taken[k + 1..]);
        var node := taken[k];
        states := Insert(states, Entry(StateKey(node.state.message.value.to, node.state.contextID), node.state));
      }
      assert RekeyAll(taken[|taken|..]) == [];
    }

    static lemma StaysInMap(es: seq<Entry>, i: nat, n: nat, taken: seq<Entry>, y: Entry, hint: Hint, trace: seq<Visited>,
                            e: BatchState, e': BatchState)
      requires i < n <= |es| && Sorted(es) && y.key == es[i].key
      requires match hint
               case PASS => n == i + 1
               case SKIP => n == i + UpperBound(es[i..], GroupEnd(y.key))
               case END => n == |es|
               case _ => false
      ensures Sorted(es[i := y])
      ensures Cursor(es[i := y][..n], es[i := y][n..], taken, trace + [Visited(y.key, hint)], e') ==
              Advance(Cursor(es[..i], es[i..], taken, trace, e), Visit(e', y.state, hint))
    {
      assert forall j :: 0 <= j < |es| ==> es[i := y][j].key == es[j].key;
      assert es[i := y][..n] == es[..i] + [y] + es[i..][1..n - i];
      assert es[i := y][n..] == es[i..][n - i..];
    }

    static lemma LeavesMap(es: seq<Entry>, i: nat, taken: seq<Entry>, y: Entry, hint: Hint, trace: seq<Visited>,
                           e: BatchState, e': BatchState)
      requires i < |es| && Sorted(es) && y.key == es[i].key && hint in {DELETE, UPDATE}
      ensures var r, taken' := es[..i] + es[i + 1..], if hint == UPDATE then [y] + taken else taken;
              && Sorted(r)
              && Cursor(r[..i], r[i..], taken', trace + [Visited(y.key, hint)], e') ==
                 Advance(Cursor(es[..i], es[i..], taken, trace, e), Visit(e', y.state, hint))
    {
      var r := es[..i] + es[i + 1..];
      assert forall j :: 0 <= j < |r| ==> r[j] == es[if j < i then j else j + 1];
      assert r[..i] == es[..i] && r[i..] == es[i..][1..];
    }

    /** Searching the whole map for the end of a contract finds the same place as searching from the iterator. */
    static lemma {:induction false} UpperBoundFromIterator(es: seq<Entry>, i: nat)
      requires Sorted(es) && i < |es|
      ensures UpperBound(es, GroupEnd(es[i].key)) == i + UpperBound(es[i..], GroupEnd(es[i].key))
      ensures i < UpperBound(es, GroupEnd(es[i].key)) <= |es|
    {
      if i > 0 {
        var bound := GroupEnd(es[i].key);
        assert KeyLess(es[0].key, es[i].key);
        if KeyLess(bound, es[0].key) { KeyLessTransitive(bound, es[0].key, es[i].key); }
        assert es[1..][i - 1..] == es[i..];
        UpperBoundFromIterator(es[1..], i - 1);
      }
    }

    /** Sends every message that can be sent. */
    method StartBatch(x: Executors)
      requires Valid() && Sorted(states)
      modifies this, keyLocks
      ensures Valid()
      ensures states == SendingPass(x, old(Sys())).entries && Env() == SendingPass(x, old(Sys())).env
    {
      called, sent, total, errors, fault := {}, map[], 0, 0, None;
      TraverseExecutive(SendPass(x));
    }

    /** An executor answers the message of one context. */
    method OnReply(c: ContextID, r: Reply)
      modifies this`states, this`errors
      ensures states == WithReply(old(states), c, r)
      ensures errors == old(errors) + if r.Response? then 0 else 1
    {
      if !r.Response? { errors := errors + 1; }
      states := WithReply(states, c, r);
    }

    /** Takes in one reply per message, in an arbitrary order; the outcome does not depend on the order. */
    method ReceiveReplies(x: Executors)
      modifies this`states, this`errors
      ensures states == Deliver(x, old(states), sent)
      ensures |states| == |old(states)| && forall i :: 0 <= i < |states| ==> TakesReply(x, sent, old(states)[i], states[i])
      ensures errors == old(errors) + |ErrorReplies(x, sent)|
    {
      var pending := sent.Keys;
      assert Received(sent, pending) == map[] && Deliver(x, states, map[]) == states;
      while pending != {}
        invariant pending <= sent.Keys
        invariant states == Deliver(x, old(states), Received(sent, pending))
        invariant errors == old(errors) + |ErrorReplies(x, Received(sent, pending))|
        decreases |pending|
      {
        EmptyOrHasContext(pending);
        var c :| c in pending;
        OnReply(c, x.reply(sent[c]));
        DeliverOneMore(x, old(states), sent, pending, c);
        pending := pending - {c};
      }
      assert Received(sent, pending) == sent;
    }

    /** Ends a batch whose replies are all in; the answer is whether the batch reports an error. */
    method CheckBatch() returns (failed: bool)
      requires Valid() && fault.None? && Sorted(states)
      modifies this, keyLocks
      ensures Valid()
      ensures var r := Batch.CheckBatch(old(states), old(Env()));
              && (failed <==> r.Aborted?)
              && (r.Crashed? <==> !failed && fault.Some?)
              && (r.Continues? ==> Sys() == r.sys)
    {
      if errors > 0 {
        return true;
      }
      if states != [] && total == 0 {
        TraverseExecutive(DeadlockPass);
      } else {
        TraverseExecutive(SettlePass);
      }
      return false;
    }

    /** One batch from the first message to the check; it never runs into a fault. */
    method RunOneBatch(x: Executors) returns (failed: bool)
      requires Valid() && Invariant(Sys()) && Obeys(x, states)
      modifies this, keyLocks
      ensures Valid()
      ensures failed <==> RunBatch(x, old(Sys())).Aborted?
      ensures !failed ==> RunBatch(x, old(Sys())).Continues? && Sys() == RunBatch(x, old(Sys())).sys && fault.None?
    {
      ghost var p := BatchPieces(x, Sys());
      StartBatch(x);
      ReceiveReplies(x);
      failed := CheckBatch();
    }

    static lemma BatchPieces(x: Executors, sys: System) returns (p: Traversed<BatchState>)
      requires Invariant(sys) && Obeys(x, sys.entries)
      ensures p == SendingPass(x, sys) && p.env.fault.None? && Sorted(Deliver(x, p.entries, p.env.sent))
      ensures RunBatch(x, sys) == Batch.CheckBatch(
                Deliver(x, p.entries, p.env.sent), p.env.(errors := p.env.errors + |ErrorReplies(x, p.env.sent)|))
      ensures !RunBatch(x, sys).Crashed?
    {
      p := SendingPass(x, sys);
      SentAccounted(x, sys);
      BatchKeepsInvariant(x, sys);
      PiecesOf(x, sys, p);
    }

    static lemma PiecesOf(x: Executors, sys: System, p: Traversed<BatchState>)
      requires SentOk(sys, p)
      ensures p.env.fault.None? && Sorted(Deliver(x, p.entries, p.env.sent))
      ensures EndBatch(x, p) == Batch.CheckBatch(
                Deliver(x, p.entries, p.env.sent), p.env.(errors := p.env.errors + |ErrorReplies(x, p.env.sent)|))
    {
      DeliverShape(x, p.entries, p.env.sent);
    }

    /**
     Executes a block: batch after batch until no state is left or a batch reports an error. If the executors
     give only finitely many replies, it ends; and when it ends without an error, no state, lock or context vertex
     is left, every transaction has its receipt, and the gas total is the sum over the receipts.
     */
    method DMTExecute(xs: nat -> Executors, ghost budget: nat) returns (failed: bool)
      requires Valid() && Invariant(Sys())
      requires forall n: nat :: ObeyAlong(Prefix(xs, n), Sys()) && RepliesGiven(Prefix(xs, n), Sys()) <= budget
      modifies this, keyLocks
      ensures Valid()
      ensures failed ==> exists n :: Execute(Prefix(xs, n), old(Sys())).BatchError?
      ensures !failed ==> exists n :: Execute(Prefix(xs, n), old(Sys())) == Finished(Sys())
      ensures !failed ==>
                && states == [] && keyLocks.Table() == {} && (forall c :: Context(c) !in keyLocks.vertexes)
                && |receipts| == |old(receipts)| && (forall i :: 0 <= i < |receipts| ==> receipts[i].Some?)
                && gasUsed == GasSum(receipts) % WORD
    {
      var n: nat := 0;
      ghost var start := Sys();
      while true
        invariant Valid() && Invariant(Sys()) && Execute(Prefix(xs, n), start) == Unfinished(Sys())
        decreases 2 * budget + 2 - n
      {
        Runaway(xs, n, start, budget);
        NextBatch(xs, n, start, Sys());
        failed := RunOneBatch(xs(n));
        n := n + 1;
        if failed {
          return;
        }
        if states == [] {
          FinishedRunIsComplete(Prefix(xs, n), start);
          return;
        }
      }
    }

    /** How the run stands after one batch more. */
    static lemma NextBatch(xs: nat -> Executors, n: nat, start: System, sys: System)
      requires Execute(Prefix(xs, n), start) == Unfinished(sys) && Invariant(sys)
      requires ObeyAlong(Prefix(xs, n + 1), start)
      ensures Obeys(xs(n), sys.entries)
      ensures var r := RunBatch(xs(n), sys);
              && !r.Crashed?
              && (r.Aborted? ==> Execute(Prefix(xs, n + 1), start).BatchError?)
              && (r.Continues? ==> Invariant(r.sys) && Execute(Prefix(xs, n + 1), start) ==
                                   if r.sys.entries == [] then Finished(r.sys) else Unfinished(r.sys))
    {
      PrefixOneMore(xs, n);
      ExecuteOneMore(Prefix(xs, n), xs(n), start);
      BatchKeepsInvariant(xs(n), sys);
    }

    static lemma Runaway(xs: nat -> Executors, n: nat, sys: System, budget: nat)
      requires Invariant(sys) && ObeyAlong(Prefix(xs, n), sys)
      ensures RepliesGiven(Prefix(xs, n), sys) <= budget && Execute(Prefix(xs, n), sys).Unfinished? ==> n < 2 * budget + 2
    {
      if n >= 2 * budget + 2 { RunsTerminate(Prefix(xs, n), sys, budget); }
    }
  }
}
