/**
 The completion protocol of a batch: a sender and any number of replying threads share three counters and two
 flags. Every atomic access is a step of its own, and the steps interleave arbitrarily.
 */
module BatchStatus {
  import opened Counting

  /** Where a thread stands. A thread that has counted its reply, or ended the sending, goes on to check the batch. */
  datatype Pc =
    | Sending                          // sender: may send another message
    | Dispatching                      // sender: the message is counted but not handed over yet
    | Executing                        // replier: the executor works on the message
    | CountError                       // replier: about to count an error reply
    | CountReceived                    // replier: about to count the reply
    | ReadSended                       // check: about to read allSended
    | ReadReceivedFirst                // check: about to read received, then total
    | ReadTotalFirst                   // check: about to read total, then received
    | ReadTotalLast(received: nat)
    | ReadReceivedLast(total: nat)
    | Swap                             // check: about to compare and swap callbackExecuted
    | Report                           // check: won the swap, about to run the callback
    | Stopped

  /** A thread and, for a replier, whether its reply is an error or missing. */
  datatype Thread = Thread(pc: Pc, bad: bool)

  datatype Status = Status(
    total: nat,
    received: nat,
    errors: nat,
    allSended: bool,
    callbackExecuted: bool,
    reports: seq<bool>,                // what the callback was told each time it ran: was there an error
    sender: Thread,
    repliers: seq<Thread>)

  datatype Label =
    | CountSend                        // the sender counts one message more
    | Dispatch(bad: bool)              // the sender hands it over; the executor will answer it well or badly
    | EndSending                       // the sender sets allSended
    | SenderStep(totalFirst: bool)     // the sender's next step in the check
    | ReplierStep(i: nat, totalFirst: bool)

  ghost const Initial: Status := Status(0, 0, 0, false, false, [], Thread(Sending, false), [])

  ghost predicate Enabled(s: Status, l: Label) {
    match l
    case CountSend => s.sender.pc.Sending?
    case Dispatch(_) => s.sender.pc.Dispatching?
    case EndSending => s.sender.pc.Sending?
    case SenderStep(_) => !s.sender.pc.Sending? && !s.sender.pc.Dispatching? && !s.sender.pc.Stopped?
    case ReplierStep(i, _) => i < |s.repliers| && !s.repliers[i].pc.Stopped?
  }

  /** The next step of one thread: the status it leaves (without the thread itself) and where the thread is then. */
  ghost function ThreadStep(s: Status, t: Thread, totalFirst: bool): (Status, Pc) {
    match t.pc
    case Executing => (s, if t.bad then CountError else CountReceived)
    case CountError => (s.(errors := s.errors + 1), CountReceived)
    case CountReceived => (s.(received := s.received + 1), ReadSended)
    case ReadSended => (s, if !s.allSended then Stopped else if totalFirst then ReadTotalFirst else ReadReceivedFirst)
    case ReadReceivedFirst => (s, ReadTotalLast(s.received))
    case ReadTotalFirst => (s, ReadReceivedLast(s.total))
    case ReadTotalLast(r) => (s, if r == s.total then Swap else Stopped)
    case ReadReceivedLast(n) => (s, if s.received == n then Swap else Stopped)
    case Swap => (s.(callbackExecuted := true), if s.callbackExecuted then Stopped else Report)
    case Report => (s.(reports := s.reports + [s.errors > 0]), Stopped)
    case _ => (s, t.pc)
  }

  ghost function Next(s: Status, l: Label): Status
    requires Enabled(s, l)
  {
    match l
    case CountSend => s.(total := s.total + 1, sender := Thread(Dispatching, false))
    case Dispatch(bad) => s.(sender := Thread(Sending, false), repliers := s.repliers + [Thread(Executing, bad)])
    case EndSending => s.(allSended := true, sender := Thread(ReadSended, false))
    case SenderStep(first) =>
      var (s', pc) := ThreadStep(s, s.sender, first);
      s'.(sender := Thread(pc, false))
    case ReplierStep(i, first) =>
      var (s', pc) := ThreadStep(s, s.repliers[i], first);
      s'.(repliers := s.repliers[i := Thread(pc, s.repliers[i].bad)])
  }

  /** A run: every label is enabled when its turn comes. */
  ghost predicate IsRun(s: Status, ls: seq<Label>)
    decreases |ls|
  {
    ls == [] || (Enabled(s, ls[0]) && IsRun(Next(s, ls[0]), ls[1..]))
  }

  ghost function After(s: Status, ls: seq<Label>): Status
    requires IsRun(s, ls)
    decreases |ls|
  {
    if ls == [] then s else After(Next(s, ls[0]), ls[1..])
  }

  // ---------------------------------------------------------------- the invariant

  /** Replies that have been counted. */
  predicate IsCounted(t: Thread) {
    !t.pc.Executing? && !t.pc.CountError? && !t.pc.CountReceived?
  }

  /** Error replies that have been counted as errors. */
  predicate IsErrorCounted(t: Thread) {
    t.bad && !t.pc.Executing? && !t.pc.CountError?
  }

  ghost predicate Complete(s: Status) {
    s.allSended && s.received == s.total
  }

  /** What a thread inside the check has learnt. */
  ghost predicate CheckOk(s: Status, t: Thread) {
    match t.pc
    case ReadReceivedFirst => s.allSended
    case ReadTotalFirst => s.allSended
    case ReadTotalLast(r) => s.allSended && r <= s.received
    case ReadReceivedLast(n) => s.allSended && n == s.total
    case Swap => Complete(s)
    case Report => s.callbackExecuted
    case _ => true
  }

  predicate Reporting(t: Thread) { t.pc.Report? }

  /** A thread that will reach the swap if the batch is complete. */
  ghost predicate WillSwap(s: Status, t: Thread) {
    match t.pc
    case ReadSended => true
    case ReadReceivedFirst => true
    case ReadTotalFirst => true
    case ReadTotalLast(r) => r == s.total
    case ReadReceivedLast(n) => true
    case Swap => true
    case _ => false
  }

  ghost predicate SomeoneWillSwap(s: Status) {
    WillSwap(s, s.sender) || exists i :: 0 <= i < |s.repliers| && WillSwap(s, s.repliers[i])
  }

  ghost predicate CountsOk(s: Status) {
    && s.total == |s.repliers| + (if s.sender.pc.Dispatching? then 1 else 0)
    && s.received == Count(s.repliers, IsCounted)
    && s.errors == Count(s.repliers, IsErrorCounted)
    && (s.allSended <==> !s.sender.pc.Sending? && !s.sender.pc.Dispatching?)
    && !s.sender.pc.Executing? && !s.sender.pc.CountError? && !s.sender.pc.CountReceived?
    && (forall i :: 0 <= i < |s.repliers| ==> ReplierOk(s.repliers[i]))
  }

  predicate ReplierOk(t: Thread) {
    !t.pc.Sending? && !t.pc.Dispatching? && (t.pc.CountError? ==> t.bad)
  }

  ghost predicate ReportsOk(s: Status) {
    && |s.reports| + Count(s.repliers, Reporting) + (if Reporting(s.sender) then 1 else 0) == (if s.callbackExecuted then 1 else 0)
    && (s.callbackExecuted ==> Complete(s))
    && (forall r :: r in s.reports ==> (r <==> s.errors > 0))
  }

  ghost predicate Invariant(s: Status) {
    && CountsOk(s) && ReportsOk(s)
    && CheckOk(s, s.sender) && (forall i :: 0 <= i < |s.repliers| ==> CheckOk(s, s.repliers[i]))
    && (Complete(s) && !s.callbackExecuted ==> SomeoneWillSwap(s))
  }

  lemma InitialInvariant()
    ensures Invariant(Initial)
  {
  }

  /** In a complete batch every reply has been counted, so nothing is counted any more. */
  lemma CompleteMeansCounted(s: Status)
    requires CountsOk(s) && Complete(s)
    ensures forall i :: 0 <= i < |s.repliers| ==> IsCounted(s.repliers[i])
  {
    CountBounds(s.repliers, IsCounted);
  }

  /** A thread's step changes the counters by exactly what it adds to the numbers of counted threads. */
  lemma ThreadCounts(s: Status, t: Thread, first: bool)
    requires ReplierOk(t) && !t.pc.Stopped?
    ensures var r := ThreadStep(s, t, first);
            var t' := Thread(r.1, t.bad);
            && ReplierOk(t')
            && r.0.total == s.total && r.0.allSended == s.allSended && r.0.sender == s.sender
            && r.0.received == s.received + (if IsCounted(t') then 1 else 0) - (if IsCounted(t) then 1 else 0)
            && r.0.errors == s.errors + (if IsErrorCounted(t') then 1 else 0) - (if IsErrorCounted(t) then 1 else 0)
  {
  }

  lemma ReplierCounts(s: Status, i: nat, first: bool)
    requires CountsOk(s) && Enabled(s, ReplierStep(i, first))
    ensures CountsOk(Next(s, ReplierStep(i, first)))
  {
    var r := ThreadStep(s, s.repliers[i], first);
    var t := Thread(r.1, s.repliers[i].bad);
    ThreadCounts(s, s.repliers[i], first);
    ReplaceCounts(s, i, t, r.0.(repliers := s.repliers[i := t]));
  }

  lemma ReplaceCounts(s: Status, i: nat, t: Thread, s': Status)
    requires CountsOk(s) && i < |s.repliers| && ReplierOk(t) && s'.repliers == s.repliers[i := t]
    requires s'.total == s.total && s'.allSended == s.allSended && s'.sender == s.sender
    requires s'.received == s.received + (if IsCounted(t) then 1 else 0) - (if IsCounted(s.repliers[i]) then 1 else 0)
    requires s'.errors == s.errors + (if IsErrorCounted(t) then 1 else 0) - (if IsErrorCounted(s.repliers[i]) then 1 else 0)
    ensures CountsOk(s')
  {
    CountUpdate(s.repliers, IsCounted, i, t);
    CountUpdate(s.repliers, IsErrorCounted, i, t);
  }

  lemma SenderCounts(s: Status, l: Label)
    requires CountsOk(s) && Enabled(s, l) && !l.ReplierStep?
    ensures CountsOk(Next(s, l))
  {
    if l.Dispatch? {
      CountAppend(s.repliers, IsCounted, Thread(Executing, l.bad));
      CountAppend(s.repliers, IsErrorCounted, Thread(Executing, l.bad));
    }
  }

  /** What a thread has learnt stays true when another thread moves. */
  lemma LearntStays(s: Status, l: Label, t: Thread)
    requires CountsOk(s) && ReportsOk(s) && Enabled(s, l) && CheckOk(s, t)
    ensures CheckOk(Next(s, l), t)
  {
    if Complete(s) { CompleteMeansCounted(s); }
  }

  /** The thread that moves knows what it has just read. */
  lemma MoverLearns(s: Status, t: Thread, first: bool)
    requires CheckOk(s, t) && s.received <= s.total
    ensures CheckOk(ThreadStep(s, t, first).0, Thread(ThreadStep(s, t, first).1, t.bad))
  {
  }

  lemma ReceivedAtMostTotal(s: Status)
    requires CountsOk(s)
    ensures s.received <= s.total
  {
    CountBounds(s.repliers, IsCounted);
  }

  lemma ReplierReports(s: Status, i: nat, first: bool)
    requires CountsOk(s) && ReportsOk(s) && Enabled(s, ReplierStep(i, first)) && CheckOk(s, s.repliers[i])
    ensures ReportsOk(Next(s, ReplierStep(i, first)))
  {
    var t := Thread(ThreadStep(s, s.repliers[i], first).1, s.repliers[i].bad);
    CountUpdate(s.repliers, Reporting, i, t);
    if Complete(s) { CompleteMeansCounted(s); }
  }

  lemma SenderReports(s: Status, l: Label)
    requires CountsOk(s) && ReportsOk(s) && Enabled(s, l) && CheckOk(s, s.sender) && !l.ReplierStep?
    ensures ReportsOk(Next(s, l))
  {
    if l.Dispatch? { CountAppend(s.repliers, Reporting, Thread(Executing, l.bad)); }
    if Complete(s) { CompleteMeansCounted(s); }
  }

  /** As long as the callback has not run in a complete batch, some thread is on its way to the swap. */
  lemma ReplierHope(s: Status, i: nat, first: bool)
    requires Invariant(s) && Enabled(s, ReplierStep(i, first))
    requires Complete(Next(s, ReplierStep(i, first))) && !Next(s, ReplierStep(i, first)).callbackExecuted
    ensures SomeoneWillSwap(Next(s, ReplierStep(i, first)))
  {
    var s' := Next(s, ReplierStep(i, first));
    if Complete(s) {
      CompleteMeansCounted(s);
      if WillSwap(s, s.sender) {
        assert WillSwap(s', s'.sender);
      } else {
        var j :| 0 <= j < |s.repliers| && WillSwap(s, s.repliers[j]);
        assert WillSwap(s', s'.repliers[j]);
      }
    } else {
      assert WillSwap(s', s'.repliers[i]);
    }
  }

  lemma SenderHope(s: Status, l: Label)
    requires Invariant(s) && Enabled(s, l) && !l.ReplierStep?
    requires Complete(Next(s, l)) && !Next(s, l).callbackExecuted
    ensures SomeoneWillSwap(Next(s, l))
  {
    var s' := Next(s, l);
    if Complete(s) {
      if !WillSwap(s, s.sender) {
        var j :| 0 <= j < |s.repliers| && WillSwap(s, s.repliers[j]);
        assert WillSwap(s', s'.repliers[j]);
      }
    }
  }

  /** After a step every replier knows what it should. */
  lemma RepliersKnow(s: Status, l: Label)
    requires Invariant(s) && Enabled(s, l)
    ensures forall i :: 0 <= i < |Next(s, l).repliers| ==> CheckOk(Next(s, l), Next(s, l).repliers[i])
  {
    var s' := Next(s, l);
    ReceivedAtMostTotal(s);
    forall i | 0 <= i < |s'.repliers| ensures CheckOk(s', s'.repliers[i]) {
      if l.ReplierStep? && l.i == i {
        MoverLearns(s, s.repliers[i], l.totalFirst);
      } else if i < |s.repliers| {
        LearntStays(s, l, s.repliers[i]);
      }
    }
  }

  lemma ReplierKeepsInvariant(s: Status, i: nat, first: bool)
    requires Invariant(s) && Enabled(s, ReplierStep(i, first))
    ensures Invariant(Next(s, ReplierStep(i, first)))
  {
    var l := ReplierStep(i, first);
    RepliersKnow(s, l);
    ReplierCounts(s, i, first);
    ReplierReports(s, i, first);
    LearntStays(s, l, s.sender);
    if Complete(Next(s, l)) && !Next(s, l).callbackExecuted { ReplierHope(s, i, first); }
  }

  lemma SenderKeepsInvariant(s: Status, l: Label)
    requires Invariant(s) && Enabled(s, l) && !l.ReplierStep?
    ensures Invariant(Next(s, l))
  {
    RepliersKnow(s, l);
    ReceivedAtMostTotal(s);
    SenderCounts(s, l);
    SenderReports(s, l);
    if l.SenderStep? { MoverLearns(s, s.sender, l.totalFirst); }
    if Complete(Next(s, l)) && !Next(s, l).callbackExecuted { SenderHope(s, l); }
  }

  lemma StepKeepsInvariant(s: Status, l: Label)
    requires Invariant(s) && Enabled(s, l)
    ensures Invariant(Next(s, l))
  {
    if l.ReplierStep? { ReplierKeepsInvariant(s, l.i, l.totalFirst); } else { SenderKeepsInvariant(s, l); }
  }

  lemma {:induction false} RunKeepsInvariant(s: Status, ls: seq<Label>)
    requires Invariant(s) && IsRun(s, ls)
    ensures Invariant(After(s, ls))
    decreases |ls|
  {
    if ls != [] {
      StepKeepsInvariant(s, ls[0]);
      RunKeepsInvariant(Next(s, ls[0]), ls[1..]);
    }
  }

  // ---------------------------------------------------------------- the guarantees

  ghost predicate Quiescent(s: Status) {
    s.sender.pc.Stopped? && forall i :: 0 <= i < |s.repliers| ==> s.repliers[i].pc.Stopped?
  }

  ghost predicate SomeReplyBad(s: Status) {
    exists i :: 0 <= i < |s.repliers| && s.repliers[i].bad
  }

  /**
   Whatever the interleaving: the callback runs at most once, only after the sender has finished and every reply
   has been counted, and it is told about an error exactly when some reply of the batch was bad.
   */
  lemma CallbackIsRight(ls: seq<Label>)
    requires IsRun(Initial, ls)
    ensures var s := After(Initial, ls);
            && |s.reports| <= 1
            && (s.reports != [] ==> Complete(s) && s.total == |s.repliers| && (s.reports[0] <==> SomeReplyBad(s)))
            && (s.reports != [] ==> forall i :: 0 <= i < |s.repliers| ==> IsCounted(s.repliers[i]))
  {
    InitialInvariant();
    RunKeepsInvariant(Initial, ls);
    var s := After(Initial, ls);
    if s.reports != [] {
      CompleteMeansCounted(s);
      CountBounds(s.repliers, IsErrorCounted);
      assert s.reports[0] in s.reports;
    }
  }

  /** When no thread has anything left to do, the callback has run exactly once. */
  lemma CallbackHasRun(ls: seq<Label>)
    requires IsRun(Initial, ls) && Quiescent(After(Initial, ls))
    ensures |After(Initial, ls).reports| == 1
  {
    InitialInvariant();
    RunKeepsInvariant(Initial, ls);
    var s := After(Initial, ls);
    CountBounds(s.repliers, IsCounted);
    CountBounds(s.repliers, Reporting);
    assert Complete(s);
  }

  // ---------------------------------------------------------------- the batch comes to its end

  /** As long as the status is not quiescent some thread can move, and need not send another message. */
  lemma NeverStuck(s: Status) returns (l: Label)
    requires !Quiescent(s)
    ensures Enabled(s, l) && !l.CountSend?
  {
    if s.sender.pc.Sending? {
      l := EndSending;
    } else if s.sender.pc.Dispatching? {
      l := Dispatch(false);
    } else if !s.sender.pc.Stopped? {
      l := SenderStep(false);
    } else {
      var i :| 0 <= i < |s.repliers| && !s.repliers[i].pc.Stopped?;
      l := ReplierStep(i, false);
    }
  }

  /** Steps a thread has left at most, if no further message is sent. */
  function StepsLeft(t: Thread): nat {
    match t.pc
    case Stopped => 0
    case Report => 1
    case Swap => 2
    case ReadTotalLast(_) => 3
    case ReadReceivedLast(_) => 3
    case ReadReceivedFirst => 4
    case ReadTotalFirst => 4
    case ReadSended => 5
    case Sending => 6
    case CountReceived => 6
    case CountError => 7
    case Executing => 8
    case Dispatching => 15
  }

  function SumLeft(ts: seq<Thread>): nat {
    if ts == [] then 0 else SumLeft(ts[..|ts| - 1]) + StepsLeft(ts[|ts| - 1])
  }

  function Work(s: Status): nat {
    StepsLeft(s.sender) + SumLeft(s.repliers)
  }

  lemma {:induction false} SumLeftUpdate(ts: seq<Thread>, i: nat, t: Thread)
    requires i < |ts|
    ensures SumLeft(ts[i := t]) == SumLeft(ts) - StepsLeft(ts[i]) + StepsLeft(t)
  {
    var n, us := |ts| - 1, ts[i := t];
    if i == n {
      assert us[..n] == ts[..n];
    } else {
      assert us[..n] == ts[..n][i := t];
      SumLeftUpdate(ts[..n], i, t);
    }
  }

  lemma ThreadUsesWork(s: Status, t: Thread, first: bool)
    requires !t.pc.Sending? && !t.pc.Dispatching? && !t.pc.Stopped?
    ensures StepsLeft(Thread(ThreadStep(s, t, first).1, t.bad)) < StepsLeft(t)
    ensures ThreadStep(s, t, first).0.total == s.total
  {
  }

  lemma ReplierUsesWork(s: Status, i: nat, first: bool)
    requires CountsOk(s) && Enabled(s, ReplierStep(i, first))
    ensures var s' := Next(s, ReplierStep(i, first)); Work(s') < Work(s) && s'.total == s.total
  {
    var t := s.repliers[i];
    var r := ThreadStep(s, t, first);
    ThreadUsesWork(s, t, first);
    SumLeftUpdate(s.repliers, i, Thread(r.1, t.bad));
    assert r.0.sender == s.sender;
  }

  lemma SenderUsesWork(s: Status, l: Label)
    requires CountsOk(s) && Enabled(s, l) && !l.ReplierStep?
    ensures Work(Next(s, l)) < Work(s) + if l.CountSend? then 10 else 0
    ensures Next(s, l).total == s.total + if l.CountSend? then 1 else 0
  {
    match l {
      case Dispatch(bad) => assert (s.repliers + [Thread(Executing, bad)])[..|s.repliers|] == s.repliers;
      case SenderStep(first) => ThreadUsesWork(s, s.sender, first);
      case _ =>
    }
  }

  /** Every step but the counting of a new message uses up work. */
  lemma StepUsesWork(s: Status, l: Label)
    requires CountsOk(s) && Enabled(s, l)
    ensures Work(Next(s, l)) < Work(s) + if l.CountSend? then 10 else 0
    ensures Next(s, l).total == s.total + if l.CountSend? then 1 else 0
  {
    if l.ReplierStep? { ReplierUsesWork(s, l.i, l.totalFirst); } else { SenderUsesWork(s, l); }
  }

  lemma {:induction false} RunUsesWork(s: Status, ls: seq<Label>)
    requires Invariant(s) && IsRun(s, ls)
    ensures |ls| + Work(After(s, ls)) <= Work(s) + 10 * (After(s, ls).total - s.total)
    decreases |ls|
  {
    if ls != [] {
      StepUsesWork(s, ls[0]);
      StepKeepsInvariant(s, ls[0]);
      RunUsesWork(Next(s, ls[0]), ls[1..]);
    }
  }

  /** Termination: whatever the interleaving, a batch of n messages is over after 10 n + 6 steps. */
  lemma BatchEnds(ls: seq<Label>)
    requires IsRun(Initial, ls)
    ensures |ls| <= 10 * After(Initial, ls).total + 6
  {
    InitialInvariant();
    RunUsesWork(Initial, ls);
  }

  /** A run that cannot go on, because no thread can move, has run the callback exactly once. */
  lemma CallbackRunsInTheEnd(ls: seq<Label>)
    requires IsRun(Initial, ls) && forall l :: !Enabled(After(Initial, ls), l)
    ensures |After(Initial, ls).reports| == 1
  {
    if Quiescent(After(Initial, ls)) {
      CallbackHasRun(ls);
    } else {
      var l := NeverStuck(After(Initial, ls));
      assert false;
    }
  }
}
