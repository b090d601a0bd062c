/**
 The locking discipline: what the scheduler may assume of executors, and what holds of every transaction's
 state and of the lock table between and inside the passes of a batch.
 */
module Discipline {
  import opened Types
  import opened LockTable
  import opened Executive
  import opened Batch

  // ---------------------------------------------------------------- the executor contract

  /** What a reply may be, given the message it answers. */
  ghost predicate ReplyAllowed(sent: Message, r: Message) {
    && r.contextID == sent.contextID && r.frame == sent.frame
    && r.mtype in {MESSAGE, FINISHED, REVERT, KEY_LOCK, SEND_BACK}
    && (r.mtype in {MESSAGE, KEY_LOCK} ==>
          r.sender == sent.to && forall k :: k in r.keyLocks ==> k !in sent.keyLocks)
    && (r.mtype == KEY_LOCK ==> r.to == r.sender)
    && (r.mtype in {FINISHED, REVERT} && sent.frame != 0 ==> r.to != "")
  }

  ghost predicate Creates(s: ExecutiveState) {
    s.message.Some? && s.message.value.to == "" && s.message.value.mtype in {MESSAGE, TXHASH, SEND_BACK}
  }

  /** The address that a creating state is given when it is visited. */
  ghost function CreationAddress(x: Executors, s: ExecutiveState): string
    requires s.message.Some?
  {
    NewAddress(x, s.message.value, s.contextID,
               if s.message.value.mtype == SEND_BACK then s.message.value.frame else s.currentSeq)
  }

  /** New contracts get addresses that differ from each other and from every address in use. */
  ghost predicate FreshAddresses(x: Executors, es: seq<Entry>) {
    forall y, z :: y in es && z in es && Creates(y.state) ==>
      && CreationAddress(x, y.state) != ""
      && (z.state.message.Some? ==> CreationAddress(x, y.state) != z.state.message.value.to)
      && (Creates(z.state) && z.state.contextID != y.state.contextID ==>
            CreationAddress(x, y.state) != CreationAddress(x, z.state))
  }

  ghost predicate RepliesAllowed(x: Executors) {
    forall m :: x.reply(m).Response? ==> ReplyAllowed(m, x.reply(m).message)
  }

  ghost predicate Obeys(x: Executors, es: seq<Entry>) {
    RepliesAllowed(x) && FreshAddresses(x, es)
  }

  // ---------------------------------------------------------------- one transaction

  /** Call frames are numbered upwards, below the next number to be given out. */
  ghost predicate StackOk(s: ExecutiveState) {
    && s.currentSeq >= 0
    && (forall i, j :: 0 <= i < j < |s.callStack| ==> s.callStack[i] < s.callStack[j])
    && (forall i :: 0 <= i < |s.callStack| ==> 0 <= s.callStack[i] < s.currentSeq)
  }

  ghost function Top(s: ExecutiveState): FrameSeq
    requires s.callStack != []
  {
    s.callStack[|s.callStack| - 1]
  }

  ghost predicate EdgesOnStack(s: ExecutiveState, t: Table) {
    forall e :: e in t && e.context == s.contextID ==> e.frame in s.callStack
  }

  /** The shape of a message that waits to be sent. */
  ghost predicate MessageOk(s: ExecutiveState) {
    && s.message.Some?
    && var m := s.message.value;
       && m.contextID == s.contextID
       && (if s.callStack == [] then m.mtype in {MESSAGE, TXHASH} else m.mtype != TXHASH && m.frame == Top(s))
       && (m.mtype in {KEY_LOCK, REVERT_KEY_LOCK} ==> m.to != "")
       && (m.mtype == KEY_LOCK ==> m.sender == m.to)
       && (m.mtype in {FINISHED, REVERT} && |s.callStack| > 1 ==> m.to != "")
  }

  /**
   A state at rest between batches. Every lock of the context belongs to a frame on its call stack, a frame that
   has returned holds nothing any more, and a frame waiting for a key still holds the keys it reported.
   */
  ghost predicate Settled(s: ExecutiveState, t: Table) {
    && !s.failed && !s.skip
    && StackOk(s) && MessageOk(s) && EdgesOnStack(s, t)
    && var m := s.message.value;
       && (m.mtype in {FINISHED, REVERT} ==> forall e :: e in t && e.context == s.contextID ==> e.frame != m.frame)
       && (m.mtype == KEY_LOCK ==>
             forall k :: k in m.keyLocks ==> Own(KeyLock(m.sender, k), s.contextID, m.frame) in t)
  }

  /** The two tables agree on the edges of a context. */
  ghost predicate SameEdges(t: Table, u: Table, c: ContextID) {
    forall e: LockEdge :: e.context == c ==> (e in t <==> e in u)
  }

  lemma SettledByOwnEdges(s: ExecutiveState, t: Table, u: Table)
    requires Settled(s, t) && SameEdges(t, u, s.contextID)
    ensures Settled(s, u)
  {
  }

  /** All lock edges belong to contexts that are still being executed. */
  ghost predicate LocksLive(t: Table, es: seq<Entry>) {
    forall e :: e in t ==> e.context in Ids(es)
  }

  /** The invariant between batches. */
  ghost predicate AtRest(sys: System) {
    && WellFormed(sys.entries)
    && Consistent(sys.locks)
    && LocksLive(sys.locks, sys.entries)
    && forall y :: y in sys.entries ==> Settled(y.state, sys.locks)
  }

  /**
   How a block starts: no locks, and every transaction either has its first message, or was already run once by
   the parallel pass and has one frame and the reply it got.
   */
  ghost predicate Initial(sys: System) {
    && WellFormed(sys.entries) && sys.locks == {}
    && forall y :: y in sys.entries ==>
         && MessageOk(y.state) && !y.state.failed && !y.state.skip && y.state.message.value.mtype != KEY_LOCK
         && ((y.state.callStack == [] && y.state.currentSeq == 0) || (y.state.callStack == [0] && y.state.currentSeq == 1))
  }

  lemma InitialIsAtRest(sys: System)
    requires Initial(sys)
    ensures AtRest(sys)
  {
  }
}
