/**
 One batch of the scheduler: the sending pass, the delivery of the replies, and the pass that settles key
 locks (or, when nothing could be sent, looks for a deadlock). Each pass is a traversal with its own callback.
 */
module Batch {
  import opened Types
  import opened Orders
  import opened LockTable
  import opened Executive
  import opened Traversal

  /** Conditions under which the program would throw, assert or read out of bounds. */
  datatype Fault = NullMessage | EmptyCallStack | NoResultSlot | UnexpectedKeyLock

  /** Everything outside the scheduler that a batch talks to. */
  datatype Executors = Executors(
    plainAddress: (ContextID, FrameSeq) -> string,       // address of a contract created by a frame
    saltedAddress: (string, string, int) -> string,      // the same, from sender, data and salt
    reply: Message -> Reply)                             // what the executor answers to a message

  /** State shared by the callbacks of one batch. */
  datatype BatchState = BatchState(
    locks: Table,
    called: set<string>,                // contracts that already got a message in this batch
    sent: map<ContextID, Message>,      // messages handed to executors in this batch
    total: nat,
    errors: nat,
    receipts: seq<Option<Receipt>>,
    gasUsed: nat,
    fault: Option<Fault>)

  function NewAddress(x: Executors, m: Message, c: ContextID, frame: FrameSeq): string {
    if m.salt.Some? then x.saltedAddress(m.sender, m.data, m.salt.value) else x.plainAddress(c, frame)
  }

  function Addressed(x: Executors, m: Message, c: ContextID, frame: FrameSeq): Message {
    if m.to == "" then m.(to := NewAddress(x, m, c, frame)) else m
  }

  function GasAfter(gasUsed: nat, gasAvailable: int): nat {
    (gasUsed + TRANSACTION_GAS - gasAvailable) % WORD
  }

  function ReceiptOf(m: Message): Receipt {
    Receipt(m.gasAvailable, m.newContract, m.status)
  }

  // ---------------------------------------------------------------- the sending pass

  /** Hands a message to its executor, with the keys of the contract that others hold. */
  ghost function Send(e: BatchState, s: ExecutiveState, m: Message): Visit<BatchState> {
    var out := m.(keyLocks := SortedSeq(NotHolding(e.locks, m.to, s.contextID)));
    Visit(e.(called := e.called + {m.to}, total := e.total + 1, sent := e.sent[s.contextID := out]),
          s.(message := None), PASS)
  }

  ghost function Crash(e: BatchState, s: ExecutiveState, fault: Fault): Visit<BatchState> {
    Visit(e.(fault := Some(fault)), s, END)
  }

  /** A request opens a new frame. */
  ghost function SendRequest(x: Executors, e: BatchState, s: ExecutiveState, m: Message): Visit<BatchState> {
    var frame := s.currentSeq;
    Send(e, s.(currentSeq := frame + 1, callStack := s.callStack + [frame]),
         Addressed(x, m, s.contextID, frame).(frame := frame))
  }

  /** A return closes the top frame: either the transaction is finished or its caller goes on. */
  ghost function SendReturn(e: BatchState, s: ExecutiveState, m: Message): Visit<BatchState> {
    if s.callStack == [] then Crash(e, s, EmptyCallStack)
    else
      var rest := s.callStack[..|s.callStack| - 1];
      if rest == [] then
        if 0 <= s.contextID < |e.receipts| then
          Visit(e.(receipts := e.receipts[s.contextID := Some(ReceiptOf(m))],
                   gasUsed := GasAfter(e.gasUsed, m.gasAvailable)),
                s.(callStack := rest), DELETE)
        else Crash(e, s, NoResultSlot)
      else
        Send(e, s.(callStack := rest), m.(frame := rest[|rest| - 1], create := false))
  }

  /** A frame that waits for a key is sent on only if it gets the key. */
  ghost function SendKeyLock(e: BatchState, s: ExecutiveState, m: Message): Visit<BatchState> {
    var l := KeyLock(m.sender, m.keyLockAcquired);
    var e' := e.(locks := Acquire(e.locks, l, s.contextID, m.frame));
    if OwnedByOther(e.locks, l, s.contextID) then Visit(e', s, PASS) else Send(e', s, m)
  }

  ghost function VisitStart(x: Executors, e: BatchState, s: ExecutiveState): Visit<BatchState> {
    if s.failed then Visit(e.(errors := e.errors + 1), s, END)
    else if s.message.None? then Crash(e, s, NullMessage)
    else
      var m := s.message.value;
      if m.to != "" && m.to in e.called then Visit(e, s.(skip := true), SKIP)
      else
        match m.mtype
        case MESSAGE => SendRequest(x, e, s, m)
        case TXHASH => SendRequest(x, e, s, m)
        case FINISHED => SendReturn(e, s, m)
        case REVERT => SendReturn(e, s, m)
        case REVERT_KEY_LOCK => Send(e, s, m.(mtype := REVERT, create := false, keyLocks := []))
        case KEY_LOCK => SendKeyLock(e, s, m)
        case SEND_BACK =>
          Send(e, s, Addressed(x, m, s.contextID, m.frame).(mtype := if m.transactionHash != 0 then TXHASH else MESSAGE))
  }

  ghost function StartCallback(x: Executors): Callback<BatchState> {
    (e, s) => VisitStart(x, e, s)
  }

  // ---------------------------------------------------------------- the replies

  function Receive(s: ExecutiveState, r: Reply): ExecutiveState {
    match r
    case Response(m) => s.(message := Some(m))
    case Failed => s.(message := None, failed := true)
    case NullResponse => s
  }

  /** Every state that was sent gets the reply to its message. */
  ghost function Deliver(x: Executors, es: seq<Entry>, sent: map<ContextID, Message>): seq<Entry> {
    seq(|es|, i requires 0 <= i < |es| => Answer(x, es[i], sent))
  }

  ghost function Answer(x: Executors, y: Entry, sent: map<ContextID, Message>): Entry {
    if y.state.contextID in sent then Entry(y.key, Receive(y.state, x.reply(sent[y.state.contextID]))) else y
  }

  ghost function ErrorReplies(x: Executors, sent: map<ContextID, Message>): set<ContextID> {
    set c | c in sent && !x.reply(sent[c]).Response?
  }

  // ---------------------------------------------------------------- the settling pass

  ghost function VisitSettle(e: BatchState, s: ExecutiveState): Visit<BatchState> {
    if s.skip then Visit(e, s.(skip := false), SKIP)
    else if s.message.None? then Crash(e, s, NullMessage)
    else
      var m := s.message.value;
      match m.mtype
      case MESSAGE => Claim(e, s, m, UPDATE)
      case KEY_LOCK => Claim(e, s, m, PASS)
      case FINISHED => Visit(e.(locks := Release(e.locks, m.contextID, m.frame)), s, UPDATE)
      case REVERT => Visit(e.(locks := Release(e.locks, m.contextID, m.frame)), s, UPDATE)
      case _ => Visit(e, s, PASS)
  }

  /** Takes the key locks a reply says its frame holds. */
  ghost function Claim(e: BatchState, s: ExecutiveState, m: Message, hint: Hint): Visit<BatchState> {
    var (t, ok) := BatchAcquire(e.locks, m.sender, m.keyLocks, m.contextID, m.frame);
    if ok then Visit(e.(locks := t), s, hint) else Crash(e.(locks := t), s, UnexpectedKeyLock)
  }

  // ---------------------------------------------------------------- the deadlock pass

  ghost function VisitDeadlock(e: BatchState, s: ExecutiveState): Visit<BatchState> {
    if s.skip then Visit(e, s.(skip := false), SKIP)
    else if DeadLocked(e.locks, s.contextID) then
      if s.message.None? then Crash(e, s, NullMessage)
      else Visit(e, s.(message := Some(s.message.value.(mtype := REVERT_KEY_LOCK))), END)
    else Visit(e, s, PASS)
  }

  // ---------------------------------------------------------------- a whole batch

  /** What the block executive keeps from one batch to the next. */
  datatype System = System(entries: seq<Entry>, locks: Table, receipts: seq<Option<Receipt>>, gasUsed: nat)

  datatype BatchResult =
    | Continues(sys: System, sent: map<ContextID, Message>)
    | Aborted(errors: nat)        // the batch reports an error and the block's execution ends
    | Crashed(fault: Fault)

  ghost function Begin(sys: System): BatchState {
    BatchState(sys.locks, {}, map[], 0, 0, sys.receipts, sys.gasUsed, None)
  }

  ghost function SendingPass(x: Executors, sys: System): Traversed<BatchState> {
    Traverse(StartCallback(x), sys.entries, Begin(sys))
  }

  ghost function SettlingPass(es: seq<Entry>, e: BatchState): Traversed<BatchState> {
    Traverse(VisitSettle, es, e)
  }

  ghost function DeadlockPass(es: seq<Entry>, e: BatchState): Traversed<BatchState> {
    Traverse(VisitDeadlock, es, e)
  }

  /** Whatever the states and the executors, a pass puts back only states that have a message to read the address from. */
  lemma NothingMovesWithoutMessage(x: Executors, es: seq<Entry>, e: BatchState)
    ensures HaveMessages(Run(StartCallback(x), Cursor([], es, [], [], e)).taken)
    ensures HaveMessages(Run(VisitSettle, Cursor([], es, [], [], e)).taken)
    ensures HaveMessages(Run(VisitDeadlock, Cursor([], es, [], [], e)).taken)
  {
    var c0 := Cursor([], es, [], [], e);
    RunTakesMessages(StartCallback(x), c0);
    RunTakesMessages(VisitSettle, c0);
    RunTakesMessages(VisitDeadlock, c0);
  }

  ghost function Conclude(p: Traversed<BatchState>): BatchResult {
    if p.env.fault.Some? then Crashed(p.env.fault.value)
    else Continues(System(p.entries, p.env.locks, p.env.receipts, p.env.gasUsed), p.env.sent)
  }

  /** The check at the end of a batch: report errors, break deadlocks, or settle the key locks. */
  ghost function CheckBatch(es: seq<Entry>, e: BatchState): BatchResult {
    if e.errors > 0 then Aborted(e.errors)
    else if es != [] && e.total == 0 then Conclude(DeadlockPass(es, e))
    else Conclude(SettlingPass(es, e))
  }

  /** The replies come in and the batch is checked. */
  ghost function EndBatch(x: Executors, p: Traversed<BatchState>): BatchResult {
    if p.env.fault.Some? then Crashed(p.env.fault.value)
    else CheckBatch(Deliver(x, p.entries, p.env.sent),
                    p.env.(errors := p.env.errors + |ErrorReplies(x, p.env.sent)|))
  }

  ghost function RunBatch(x: Executors, sys: System): BatchResult {
    EndBatch(x, SendingPass(x, sys))
  }
}
