/**
 The vote counter of the two-phase commit: the storage votes first, then every executor votes from a thread of
 its own and checks the counters. The two counters are read one after the other, in either order, while other
 threads may still be counting.
 */
module CommitStatus {
  import opened Counting

  datatype Pc =
    | Voting                           // the vote is not in yet
    | ReadCounters                     // about to read the two counters
    | ReadFailedLast(success: nat)
    | ReadSuccessLast(failed: nat)
    | Decide                           // all votes seen: about to look at the failures
    | Stopped

  /** A participant; executors check after they have voted, the storage does not. */
  datatype Voter = Voter(pc: Pc, yes: bool)

  datatype Decision = Commit | Rollback

  datatype Status = Status(
    success: nat,
    failed: nat,
    storageVoted: bool,
    storageYes: bool,
    executors: seq<Voter>,
    decisions: seq<Decision>)

  datatype Label = StorageVote | ExecutorStep(i: nat, failedFirst: bool)

  /** Everybody has yet to vote; how they will vote is arbitrary. */
  ghost predicate Initial(s: Status) {
    && s.success == 0 && s.failed == 0 && !s.storageVoted && s.decisions == []
    && forall i :: 0 <= i < |s.executors| ==> s.executors[i].pc.Voting?
  }

  ghost function Total(s: Status): nat { 1 + |s.executors| }

  ghost predicate Enabled(s: Status, l: Label) {
    match l
    case StorageVote => !s.storageVoted
    case ExecutorStep(i, _) => s.storageVoted && i < |s.executors| && !s.executors[i].pc.Stopped?
  }

  ghost function Count1(s: Status, yes: bool): Status {
    if yes then s.(success := s.success + 1) else s.(failed := s.failed + 1)
  }

  ghost function VoterStep(s: Status, v: Voter, failedFirst: bool): (Status, Pc) {
    match v.pc
    case Voting => (Count1(s, v.yes), ReadCounters)
    case ReadCounters => (s, if failedFirst then ReadSuccessLast(s.failed) else ReadFailedLast(s.success))
    case ReadFailedLast(a) => (s, if a + s.failed < Total(s) then Stopped else Decide)
    case ReadSuccessLast(b) => (s, if s.success + b < Total(s) then Stopped else Decide)
    case Decide => (s.(decisions := s.decisions + [if s.failed > 0 then Rollback else Commit]), Stopped)
    case Stopped => (s, Stopped)
  }

  ghost function Next(s: Status, l: Label): Status
    requires Enabled(s, l)
  {
    match l
    case StorageVote => Count1(s, s.storageYes).(storageVoted := true)
    case ExecutorStep(i, failedFirst) =>
      var (s', pc) := VoterStep(s, s.executors[i], failedFirst);
      s'.(executors := s.executors[i := Voter(pc, s.executors[i].yes)])
  }

  ghost predicate IsRun(s: Status, ls: seq<Label>)
    decreases |ls|
  {
    ls == [] || (Enabled(s, ls[0]) && IsRun(Next(s, ls[0]), ls[1..]))
  }

  ghost function After(s: Status, ls: seq<Label>): Status
    requires IsRun(s, ls)
    decreases |ls|
  {
    if ls == [] then s else After(Next(s, ls[0]), ls[1..])
  }

  // ---------------------------------------------------------------- the invariant

  predicate VotedYes(v: Voter) { !v.pc.Voting? && v.yes }

  predicate VotedNo(v: Voter) { !v.pc.Voting? && !v.yes }

  predicate Voted(v: Voter) { !v.pc.Voting? }

  ghost predicate AllIn(s: Status) {
    s.success + s.failed == Total(s)
  }

  ghost predicate VoterOk(s: Status, v: Voter) {
    && (!v.pc.Voting? ==> s.storageVoted)
    && match v.pc
       case ReadFailedLast(a) => a <= s.success
       case ReadSuccessLast(b) => b <= s.failed
       case Decide => AllIn(s)
       case _ => true
  }

  ghost predicate WillDecide(s: Status, v: Voter) {
    Deciders(s.success, s.failed)(v)
  }

  /** The executors that will fire, once the counters have these final values: those that have read nothing stale. */
  ghost function Deciders(success: nat, failed: nat): Voter -> bool {
    (v: Voter) =>
      match v.pc
      case ReadCounters => true
      case ReadFailedLast(a) => a == success
      case ReadSuccessLast(b) => b == failed
      case Decide => true
      case _ => false
  }

  ghost predicate CountsOk(s: Status) {
    && s.success == Count(s.executors, VotedYes) + (if s.storageVoted && s.storageYes then 1 else 0)
    && s.failed == Count(s.executors, VotedNo) + (if s.storageVoted && !s.storageYes then 1 else 0)
    && s.success + s.failed == Count(s.executors, Voted) + (if s.storageVoted then 1 else 0)
  }

  ghost predicate Invariant(s: Status) {
    && CountsOk(s)
    && (forall i :: 0 <= i < |s.executors| ==> VoterOk(s, s.executors[i]))
    && (s.decisions != [] ==> AllIn(s))
    && (forall d :: d in s.decisions ==> (d.Rollback? <==> s.failed > 0))
    && (AllIn(s) && s.decisions == [] && s.executors != [] ==> SomeoneWillDecide(s))
  }

  ghost predicate SomeoneWillDecide(s: Status) {
    exists i :: 0 <= i < |s.executors| && WillDecide(s, s.executors[i])
  }

  lemma AtMostTotal(s: Status)
    requires CountsOk(s)
    ensures s.success + s.failed <= Total(s)
    ensures AllIn(s) <==> s.storageVoted && forall i :: 0 <= i < |s.executors| ==> Voted(s.executors[i])
  {
    CountBounds(s.executors, Voted);
  }

  lemma InitialInvariant(s: Status)
    requires Initial(s)
    ensures Invariant(s)
  {
    CountBounds(s.executors, VotedYes);
    CountBounds(s.executors, VotedNo);
    CountBounds(s.executors, Voted);
  }

  lemma StorageKeepsInvariant(s: Status)
    requires Invariant(s) && Enabled(s, StorageVote)
    ensures Invariant(Next(s, StorageVote))
  {
    AtMostTotal(s);
    var s' := Next(s, StorageVote);
    assert forall i :: 0 <= i < |s.executors| ==> s.executors[i].pc.Voting?;
    AtMostTotal(s');
    if s.executors != [] { assert !Voted(s.executors[0]); }
  }

  lemma ExecutorCounts(s: Status, i: nat, first: bool)
    requires CountsOk(s) && Enabled(s, ExecutorStep(i, first))
    ensures CountsOk(Next(s, ExecutorStep(i, first)))
  {
    var v := Voter(VoterStep(s, s.executors[i], first).1, s.executors[i].yes);
    CountUpdate(s.executors, VotedYes, i, v);
    CountUpdate(s.executors, VotedNo, i, v);
    CountUpdate(s.executors, Voted, i, v);
  }

  /** An executor that has seen enough votes has seen them all: the counters only grow, up to the number of voters. */
  lemma MoverOk(s: Status, v: Voter, first: bool)
    requires CountsOk(s) && VoterOk(s, v) && s.storageVoted && !v.pc.Stopped?
    ensures var (s', pc) := VoterStep(s, v, first); VoterOk(s', Voter(pc, v.yes))
  {
    AtMostTotal(s);
  }

  lemma OthersOk(s: Status, l: Label, v: Voter)
    requires CountsOk(s) && Enabled(s, l) && l.ExecutorStep? && VoterOk(s, v)
    ensures VoterOk(Next(s, l), v)
  {
    AtMostTotal(s);
    if AllIn(s) { assert Voted(s.executors[l.i]); }
  }

  lemma ExecutorHope(s: Status, i: nat, first: bool)
    requires Invariant(s) && Enabled(s, ExecutorStep(i, first))
    requires AllIn(Next(s, ExecutorStep(i, first))) && Next(s, ExecutorStep(i, first)).decisions == []
    ensures SomeoneWillDecide(Next(s, ExecutorStep(i, first)))
  {
    var s' := Next(s, ExecutorStep(i, first));
    AtMostTotal(s);
    if AllIn(s) {
      assert Voted(s.executors[i]);
      var j :| 0 <= j < |s.executors| && WillDecide(s, s.executors[j]);
      assert WillDecide(s', s'.executors[j]);
    } else {
      assert WillDecide(s', s'.executors[i]);
    }
  }

  lemma StepKeepsInvariant(s: Status, l: Label)
    requires Invariant(s) && Enabled(s, l)
    ensures Invariant(Next(s, l))
  {
    if l.StorageVote? {
      StorageKeepsInvariant(s);
    } else {
      var s' := Next(s, l);
      ExecutorCounts(s, l.i, l.failedFirst);
      AtMostTotal(s);
      forall j | 0 <= j < |s'.executors| ensures VoterOk(s', s'.executors[j]) {
        if j == l.i { MoverOk(s, s.executors[j], l.failedFirst); } else { OthersOk(s, l, s.executors[j]); }
      }
      if AllIn(s) { assert Voted(s.executors[l.i]); }
      if AllIn(s') && s'.decisions == [] { ExecutorHope(s, l.i, l.failedFirst); }
    }
  }

  lemma {:induction false} RunKeepsInvariant(s: Status, ls: seq<Label>)
    requires Invariant(s) && IsRun(s, ls)
    ensures Invariant(After(s, ls))
    decreases |ls|
  {
    if ls != [] {
      StepKeepsInvariant(s, ls[0]);
      RunKeepsInvariant(Next(s, ls[0]), ls[1..]);
    }
  }

  /** Votes are what the participants make of them; the protocol does not change them. */
  ghost predicate SameVotes(s: Status, t: Status) {
    && t.storageYes == s.storageYes && |t.executors| == |s.executors|
    && forall i :: 0 <= i < |s.executors| ==> t.executors[i].yes == s.executors[i].yes
  }

  lemma {:induction false} RunKeepsVotes(s: Status, ls: seq<Label>)
    requires IsRun(s, ls)
    ensures SameVotes(s, After(s, ls))
    decreases |ls|
  {
    if ls != [] { RunKeepsVotes(Next(s, ls[0]), ls[1..]); }
  }

  ghost predicate AllYes(s: Status) {
    s.storageYes && forall i :: 0 <= i < |s.executors| ==> s.executors[i].yes
  }

  // ---------------------------------------------------------------- the guarantees

  /**
   Agreement: whenever the check fires, all votes are in, and it fires for commit exactly when the storage and all
   executors voted yes. So all firings decide alike and a block never gets both a commit and a rollback.
   */
  lemma Agreement(start: Status, ls: seq<Label>, d: Decision)
    requires Initial(start) && IsRun(start, ls) && d in After(start, ls).decisions
    ensures AllIn(After(start, ls))
    ensures d.Commit? <==> AllYes(start)
  {
    InitialInvariant(start);
    RunKeepsInvariant(start, ls);
    RunKeepsVotes(start, ls);
    var s := After(start, ls);
    AtMostTotal(s);
    CountBounds(s.executors, VotedNo);
    assert s.failed > 0 <==> !AllYes(s) by {
      if !AllYes(s) && s.storageYes {
        var i :| 0 <= i < |s.executors| && !s.executors[i].yes;
        assert Voted(s.executors[i]) && VotedNo(s.executors[i]);
      }
    }
  }

  /** All threads are done. */
  ghost predicate Finished(s: Status) {
    s.storageVoted && forall i :: 0 <= i < |s.executors| ==> s.executors[i].pc.Stopped?
  }

  /** When all threads are done, a decision has been taken exactly when there is an executor to take it. */
  lemma DecidesUnlessAlone(start: Status, ls: seq<Label>)
    requires Initial(start) && IsRun(start, ls)
    requires Finished(After(start, ls))
    ensures After(start, ls).decisions != [] <==> start.executors != []
  {
    InitialInvariant(start);
    RunKeepsInvariant(start, ls);
    RunKeepsVotes(start, ls);
    var s := After(start, ls);
    AtMostTotal(s);
    if start.executors == [] { NoExecutorNoDecision(start, ls); }
  }

  lemma {:induction false} NoExecutorNoDecision(s: Status, ls: seq<Label>)
    requires s.executors == [] && IsRun(s, ls)
    ensures After(s, ls).decisions == s.decisions
    decreases |ls|
  {
    if ls != [] { NoExecutorNoDecision(Next(s, ls[0]), ls[1..]); }
  }

  lemma ThreeSteps(s: Status, ls: seq<Label>, t: Status)
    requires |ls| >= 3 && Enabled(s, ls[0]) && Enabled(Next(s, ls[0]), ls[1]) && Enabled(Next(Next(s, ls[0]), ls[1]), ls[2])
    requires t == Next(Next(Next(s, ls[0]), ls[1]), ls[2])
    ensures IsRun(t, ls[3..]) ==> IsRun(s, ls) && After(s, ls) == After(t, ls[3..])
  {
    var u, v := Next(s, ls[0]), Next(Next(s, ls[0]), ls[1]);
    if IsRun(t, ls[3..]) {
      assert ls[2..][1..] == ls[3..] && ls[1..][1..] == ls[2..];
      RunCons(v, ls[2..]);
      RunCons(u, ls[1..]);
      RunCons(s, ls);
    }
  }

  lemma RunCons(s: Status, ls: seq<Label>)
    requires ls != [] && Enabled(s, ls[0]) && IsRun(Next(s, ls[0]), ls[1..])
    ensures IsRun(s, ls) && After(s, ls) == After(Next(s, ls[0]), ls[1..])
  {
  }

  // ---------------------------------------------------------------- how often the check fires

  lemma {:induction false} RunAppend(s: Status, a: seq<Label>, b: seq<Label>)
    requires IsRun(s, a) && IsRun(After(s, a), b)
    ensures IsRun(s, a + b) && After(s, a + b) == After(After(s, a), b)
    decreases |a|
  {
    if a == [] {
      assert a + b == b;
    } else {
      assert (a + b)[0] == a[0] && (a + b)[1..] == a[1..] + b;
      RunAppend(Next(s, a[0]), a[1..], b);
    }
  }

  /** The storage and the first k executors have voted, and nobody has looked at the counters yet. */
  ghost predicate VotesOf(s: Status, k: nat) {
    && k <= |s.executors| && s.storageVoted && s.decisions == []
    && forall i :: 0 <= i < |s.executors| ==> s.executors[i].pc == if i < k then ReadCounters else Voting
  }

  lemma {:induction false} LetVote(start: Status, k: nat) returns (ls: seq<Label>)
    requires Initial(start) && k <= |start.executors|
    ensures IsRun(start, ls) && VotesOf(After(start, ls), k) && |After(start, ls).executors| == |start.executors|
  {
    if k == 0 {
      ls := [StorageVote];
      RunCons(start, ls);
    } else {
      var before := LetVote(start, k - 1);
      var step := [ExecutorStep(k - 1, false)];
      RunCons(After(start, before), step);
      RunAppend(start, before, step);
      ls := before + step;
    }
  }

  /** Once all votes are in, an executor that has not looked at the counters yet will fire. */
  lemma LetDecide(s: Status, i: nat) returns (ls: seq<Label>)
    requires AllIn(s) && s.storageVoted && i < |s.executors| && s.executors[i].pc.ReadCounters?
    ensures IsRun(s, ls)
    ensures var t := After(s, ls);
            && AllIn(t) && t.storageVoted && |t.decisions| == |s.decisions| + 1
            && t.executors == s.executors[i := Voter(Stopped, s.executors[i].yes)]
  {
    ls := [ExecutorStep(i, false), ExecutorStep(i, false), ExecutorStep(i, false)];
    var s1 := Next(s, ls[0]);
    var s2 := Next(s1, ls[1]);
    var t := Next(s2, ls[2]);
    assert t.executors == s.executors[i := Voter(Stopped, s.executors[i].yes)];
    ThreeSteps(s, ls, t);
    assert ls[3..] == [];
  }

  /** With two or more executors some schedule makes the check fire twice. */
  lemma TwoExecutorsMayDecideTwice(start: Status) returns (ls: seq<Label>)
    requires Initial(start) && |start.executors| >= 2
    ensures IsRun(start, ls) && |After(start, ls).decisions| == 2
  {
    var votes := LetVote(start, |start.executors|);
    var s := After(start, votes);
    InitialInvariant(start);
    RunKeepsInvariant(start, votes);
    RunKeepsVotes(start, votes);
    AtMostTotal(s);
    var first := LetDecide(s, 0);
    var second := LetDecide(After(s, first), 1);
    RunAppend(s, first, second);
    RunAppend(start, votes, first + second);
    ls := votes + (first + second);
  }

  /** A single executor cannot overlap with another one. */
  lemma {:induction false} SingleIsOneAtATime(s: Status, ls: seq<Label>)
    requires |s.executors| == 1 && IsRun(s, ls)
    ensures OneAtATime(s, ls)
    decreases |ls|
  {
    if ls != [] { SingleIsOneAtATime(Next(s, ls[0]), ls[1..]); }
  }

  /** Once all votes are in, a step turns one executor that will fire into one decision, or changes neither number. */
  lemma DecideStep(s: Status, l: Label)
    requires Invariant(s) && AllIn(s) && Enabled(s, l)
    ensures var t := Next(s, l);
            && AllIn(t) && t.success == s.success && t.failed == s.failed
            && |t.decisions| + Count(t.executors, Deciders(s.success, s.failed)) ==
               |s.decisions| + Count(s.executors, Deciders(s.success, s.failed))
  {
    AtMostTotal(s);
    if l.ExecutorStep? {
      assert Voted(s.executors[l.i]);
      var v := Voter(VoterStep(s, s.executors[l.i], l.failedFirst).1, s.executors[l.i].yes);
      CountUpdate(s.executors, Deciders(s.success, s.failed), l.i, v);
    }
  }

  lemma {:induction false} DecideRun(s: Status, ls: seq<Label>)
    requires Invariant(s) && AllIn(s) && IsRun(s, ls)
    ensures |After(s, ls).decisions| + Count(After(s, ls).executors, Deciders(s.success, s.failed)) ==
            |s.decisions| + Count(s.executors, Deciders(s.success, s.failed))
    decreases |ls|
  {
    if ls != [] {
      DecideStep(s, ls[0]);
      StepKeepsInvariant(s, ls[0]);
      DecideRun(Next(s, ls[0]), ls[1..]);
    }
  }

  /**
   The exact number of firings, whatever the schedule: when the last vote comes in, the executors that have read
   nothing stale are counted; that many decisions are taken by the time all threads are done.
   */
  lemma DecisionsAreTheReadyOnes(s: Status, ls: seq<Label>)
    requires Invariant(s) && AllIn(s) && s.decisions == [] && IsRun(s, ls)
    requires Finished(After(s, ls))
    ensures |After(s, ls).decisions| == Count(s.executors, Deciders(s.success, s.failed))
  {
    DecideRun(s, ls);
    CountBounds(After(s, ls).executors, Deciders(s.success, s.failed));
  }

  // ---------------------------------------------------------------- callbacks that do not overlap

  /** In the middle of its check. */
  predicate Checking(v: Voter) { !v.pc.Voting? && !v.pc.Stopped? }

  /** No executor votes while another one is in the middle of its check. */
  ghost predicate OneAtATime(s: Status, ls: seq<Label>)
    requires IsRun(s, ls)
    decreases |ls|
  {
    ls != [] ==>
      && (ls[0].ExecutorStep? && s.executors[ls[0].i].pc.Voting? ==>
            forall j :: 0 <= j < |s.executors| ==> !Checking(s.executors[j]))
      && OneAtATime(Next(s, ls[0]), ls[1..])
  }

  ghost predicate AtMostOne(s: Status) {
    && (s.decisions != [] ==> AllIn(s))
    && Count(s.executors, Checking) + |s.decisions| <= 1
  }

  lemma AtMostOneStep(s: Status, l: Label)
    requires Invariant(s) && AtMostOne(s) && Enabled(s, l)
    requires l.ExecutorStep? && s.executors[l.i].pc.Voting? ==> forall j :: 0 <= j < |s.executors| ==> !Checking(s.executors[j])
    ensures AtMostOne(Next(s, l))
  {
    StepKeepsInvariant(s, l);
    AtMostTotal(s);
    CountBounds(s.executors, Checking);
    if l.ExecutorStep? {
      var v := Voter(VoterStep(s, s.executors[l.i], l.failedFirst).1, s.executors[l.i].yes);
      CountUpdate(s.executors, Checking, l.i, v);
      assert s.executors[l.i].pc.Voting? <==> !Voted(s.executors[l.i]);
    }
  }

  /** If the callbacks do not overlap, the check fires at most once. */
  lemma {:induction false} DecidesOnceOneAtATime(s: Status, ls: seq<Label>)
    requires Invariant(s) && AtMostOne(s) && IsRun(s, ls) && OneAtATime(s, ls)
    ensures |After(s, ls).decisions| <= 1
    decreases |ls|
  {
    if ls != [] {
      AtMostOneStep(s, ls[0]);
      StepKeepsInvariant(s, ls[0]);
      DecidesOnceOneAtATime(Next(s, ls[0]), ls[1..]);
    }
  }

  /** With at least one executor and callbacks that do not overlap, a finished vote is decided exactly once. */
  lemma SerialVoteDecidesOnce(start: Status, ls: seq<Label>)
    requires Initial(start) && start.executors != [] && IsRun(start, ls) && OneAtATime(start, ls)
    requires Finished(After(start, ls))
    ensures |After(start, ls).decisions| == 1
  {
    InitialInvariant(start);
    CountBounds(start.executors, Checking);
    DecidesOnceOneAtATime(start, ls);
    DecidesUnlessAlone(start, ls);
  }

  /** The check never fires twice, and has fired when all threads are done, whatever the schedule. */
  ghost predicate FiresExactlyOnce(start: Status) {
    forall ls :: IsRun(start, ls) ==>
      |After(start, ls).decisions| <= 1 && (Finished(After(start, ls)) ==> |After(start, ls).decisions| == 1)
  }

  /**
   The exact condition: the check fires exactly once in every schedule if and only if there is exactly one executor.
   Without executors it never fires, and with two or more it may fire twice.
   */
  lemma FiresOnceExactlyForOneExecutor(start: Status)
    requires Initial(start)
    ensures FiresExactlyOnce(start) <==> |start.executors| == 1
  {
    if |start.executors| == 1 {
      InitialInvariant(start);
      CountBounds(start.executors, Checking);
      forall ls | IsRun(start, ls)
        ensures |After(start, ls).decisions| <= 1 && (Finished(After(start, ls)) ==> |After(start, ls).decisions| == 1)
      {
        SingleIsOneAtATime(start, ls);
        DecidesOnceOneAtATime(start, ls);
        if Finished(After(start, ls)) { SerialVoteDecidesOnce(start, ls); }
      }
    } else if start.executors == [] {
      var ls := [StorageVote];
      RunCons(start, ls);
      assert Finished(After(start, ls)) && After(start, ls).decisions == [];
    } else {
      var ls := TwoExecutorsMayDecideTwice(start);
      assert IsRun(start, ls) && |After(start, ls).decisions| == 2;
    }
  }
}
