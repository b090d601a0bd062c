/**
 The queue of blocks that are executed but not committed. Executions and commits overlap; what happens between two
 callbacks is one step. The class does the steps in place; the functions on values say what each step does.
 */
module BlockQueue {

  datatype QueuedBlock = QueuedBlock(number: nat, executed: bool)

  /** Who holds the execute lock. */
  datatype Execution =
    | Free
    | Running(number: nat)         // the block at the back is being executed
    | Storing(number: nat)         // its result is set, the last executed number is not stored yet

  /** Who holds the commit lock. */
  datatype Commit = Idle | Committing(number: nat)

  datatype Queue = Queue(
    blocks: seq<QueuedBlock>,
    lastExecuted: nat,
    execution: Execution,
    commit: Commit,
    popped: seq<nat>)              // numbers removed from the queue so far, oldest first

  datatype ExecuteAnswer =
    | AnotherIsExecuting
    | AlreadyQueued(executed: bool)    // answered from the queue; without a header if that execution has not succeeded
    | BadNumber
    | ExecutionStarted

  datatype CommitAnswer = AnotherIsCommitting | NothingToCommit | NotExecuted | NotTheFront | CommitStarted

  datatype Step =
    | Execute(number: nat)
    | SetResult
    | StoreNumber
    | FailExecution
    | StartCommit(number: nat)
    | FailCommit
    | FinishCommit

  function Front(q: Queue): QueuedBlock requires q.blocks != [] { q.blocks[0] }

  function Back(q: Queue): QueuedBlock requires q.blocks != [] { q.blocks[|q.blocks| - 1] }

  /** Whether a request is answered from the queue. */
  predicate InRange(q: Queue, number: nat) {
    q.blocks != [] && Front(q).number <= number <= Back(q).number
  }

  /** Whether a block may be appended. */
  predicate MayAppend(q: Queue, number: nat) {
    if q.blocks != [] then number == Back(q).number + 1
    else q.lastExecuted == 0 || q.lastExecuted < number
  }

  ghost function Next(q: Queue, step: Step): Queue {
    match step
    case Execute(n) =>
      if q.execution.Free? && !InRange(q, n) && MayAppend(q, n)
      then q.(blocks := q.blocks + [QueuedBlock(n, false)], execution := Running(n)) else q
    case SetResult =>
      if q.execution.Running? && q.blocks != []
      then q.(blocks := q.blocks[|q.blocks| - 1 := Back(q).(executed := true)], execution := Storing(q.execution.number)) else q
    case StoreNumber =>
      if q.execution.Storing? then q.(lastExecuted := q.execution.number, execution := Free) else q
    case FailExecution =>
      if q.execution.Running? then q.(execution := Free) else q
    case StartCommit(n) =>
      if q.commit.Idle? && q.blocks != [] && Front(q).executed && Front(q).number == n
      then q.(commit := Committing(n)) else q
    case FailCommit =>
      q.(commit := Idle)
    case FinishCommit =>
      if q.commit.Committing? && q.blocks != []
      then q.(blocks := q.blocks[1..], commit := Idle, popped := q.popped + [Front(q).number]) else q
  }

  // ---------------------------------------------------------------- the invariant

  ghost const Empty: Queue := Queue([], 0, Free, Idle, [])

  ghost predicate Consecutive(blocks: seq<QueuedBlock>) {
    forall i :: 0 <= i < |blocks| ==> blocks[i].number == blocks[0].number + i
  }

  /** The greatest number known to be executed: stored, or about to be. */
  ghost function Executed(q: Queue): nat {
    if q.execution.Storing? then q.execution.number else q.lastExecuted
  }

  ghost predicate Invariant(q: Queue) {
    && Consecutive(q.blocks)
    && (q.execution.Running? ==> q.blocks != [] && Back(q) == QueuedBlock(q.execution.number, false))
    && (q.execution.Storing? ==> q.lastExecuted <= q.execution.number && (q.blocks != [] ==> Back(q).number == q.execution.number))
    && (q.commit.Committing? ==> q.blocks != [] && Front(q) == QueuedBlock(q.commit.number, true))
    && (q.blocks != [] ==> Executed(q) <= Back(q).number)
    && (forall b :: b in q.blocks && b.executed ==> b.number <= Executed(q))
    && (q.popped != [] ==>
          var p := q.popped[|q.popped| - 1];
          p <= Executed(q) && (q.blocks != [] ==> p == 0 || p < Front(q).number))
    && Ordered(q.popped)
  }

  /** Strictly increasing, except that block 0 may be followed by block 0. */
  ghost predicate Ordered(popped: seq<nat>) {
    forall i :: 0 <= i < |popped| - 1 ==> popped[i] < popped[i + 1] || popped[i] == popped[i + 1] == 0
  }

  lemma SetResultKeepsInvariant(q: Queue)
    requires Invariant(q)
    ensures Invariant(Next(q, SetResult))
  {
    var r := Next(q, SetResult);
    assert forall i :: 0 <= i < |r.blocks| ==> r.blocks[i].number == q.blocks[i].number;
    forall b | b in r.blocks && b.executed ensures b.number <= Executed(r) {
      var i :| 0 <= i < |r.blocks| && r.blocks[i] == b;
      if r != q { assert b.number <= Back(q).number; }
    }
  }

  lemma FinishCommitKeepsInvariant(q: Queue)
    requires Invariant(q)
    ensures Invariant(Next(q, FinishCommit))
  {
    var r := Next(q, FinishCommit);
    if r != q {
      assert forall i :: 0 <= i < |r.blocks| ==> r.blocks[i] == q.blocks[i + 1];
      assert Front(q) in q.blocks;
    }
  }

  lemma StepKeepsInvariant(q: Queue, step: Step)
    requires Invariant(q)
    ensures Invariant(Next(q, step))
  {
    match step {
      case SetResult => SetResultKeepsInvariant(q);
      case FinishCommit => FinishCommitKeepsInvariant(q);
      case Execute(n) => ExecuteKeepsInvariant(q, n);
      case _ =>
    }
  }

  lemma ExecuteKeepsInvariant(q: Queue, n: nat)
    requires Invariant(q)
    ensures Invariant(Next(q, Execute(n)))
  {
    var r := Next(q, Execute(n));
    if r != q { assert forall b :: b in r.blocks ==> b in q.blocks || b == QueuedBlock(n, false); }
  }

  ghost function After(steps: seq<Step>): Queue {
    if steps == [] then Empty else Next(After(steps[..|steps| - 1]), steps[|steps| - 1])
  }

  lemma {:induction false} RunKeepsInvariant(steps: seq<Step>)
    ensures Invariant(After(steps))
  {
    if steps != [] {
      RunKeepsInvariant(steps[..|steps| - 1]);
      StepKeepsInvariant(After(steps[..|steps| - 1]), steps[|steps| - 1]);
    }
  }

  /**
   Over every interleaving of executions and commits, the numbers in the queue are consecutive. A number taken out of
   it is greater than the one before exactly when it is not 0; block 0 can only follow block 0.
   */
  lemma {:induction false} QueueIsSafe(steps: seq<Step>)
    ensures Consecutive(After(steps).blocks)
    ensures var popped := After(steps).popped;
            forall i :: 0 <= i < |popped| - 1 ==>
              && (popped[i] < popped[i + 1] <==> popped[i + 1] != 0)
              && (popped[i + 1] == 0 ==> popped[i] == 0)
  {
    RunKeepsInvariant(steps);
  }

  /** What a finished commit takes out of the queue is the block whose commit was started, and it was executed. */
  lemma {:induction false} CommitTakesItsBlock(steps: seq<Step>)
    requires After(steps).commit.Committing?
    ensures var q := After(steps);
            && q.blocks != [] && Front(q) == QueuedBlock(q.commit.number, true)
            && After(steps + [FinishCommit]).popped == q.popped + [q.commit.number]
            && After(steps + [FinishCommit]).blocks == q.blocks[1..]
  {
    RunKeepsInvariant(steps);
    assert (steps + [FinishCommit])[..|steps|] == steps;
  }

  /** The exception is real: block 0 can be executed and committed twice. */
  lemma BlockZeroTwice() returns (steps: seq<Step>)
    ensures After(steps).popped == [0, 0]
  {
    var once := [Execute(0), SetResult, StoreNumber, StartCommit(0), FinishCommit];
    steps := [] + once + once;
    RoundOfZero([]);
    RoundOfZero([] + once);
  }

  /** One round with block 0: from an empty queue whose last executed number is 0, and back to such a queue. */
  lemma RoundOfZero(before: seq<Step>)
    requires var q := After(before); q == Queue([], 0, Free, Idle, q.popped)
    ensures After(before + [Execute(0), SetResult, StoreNumber, StartCommit(0), FinishCommit]) ==
            Queue([], 0, Free, Idle, After(before).popped + [0])
  {
    var steps, n := before + [Execute(0), SetResult, StoreNumber, StartCommit(0), FinishCommit], |before|;
    assert steps[..n] == before && steps[..n + 5] == steps;
    Unfold(steps, n + 1);
    Unfold(steps, n + 2);
    Unfold(steps, n + 3);
    Unfold(steps, n + 4);
    Unfold(steps, n + 5);
    ExecutesZero(After(before).popped);
    CommitsZero(After(before).popped);
  }

  lemma ExecutesZero(popped: seq<nat>)
    ensures var q := Queue([], 0, Free, Idle, popped);
            Next(Next(Next(q, Execute(0)), SetResult), StoreNumber) == Queue([QueuedBlock(0, true)], 0, Free, Idle, popped)
  {
    var q := Next(Queue([], 0, Free, Idle, popped), Execute(0));
    assert q.blocks == [QueuedBlock(0, false)];
    assert Next(q, SetResult).blocks == [QueuedBlock(0, true)];
  }

  lemma CommitsZero(popped: seq<nat>)
    ensures var q := Queue([QueuedBlock(0, true)], 0, Free, Idle, popped);
            Next(Next(q, StartCommit(0)), FinishCommit) == Queue([], 0, Free, Idle, popped + [0])
  {
  }

  lemma Unfold(steps: seq<Step>, n: nat)
    requires 0 < n <= |steps|
    ensures After(steps[..n]) == Next(After(steps[..n - 1]), steps[n - 1])
  {
    assert steps[..n][..n - 1] == steps[..n - 1];
  }

  // ---------------------------------------------------------------- a failed execution

  /** Block n is in the queue without a result, and nobody is working on it. */
  ghost predicate Wedged(q: Queue, n: nat) {
    QueuedBlock(n, false) in q.blocks && q.execution != Running(n)
  }

  /** Numbers taken out since `before` are all less than n. */
  ghost predicate PoppedBelow(before: seq<nat>, popped: seq<nat>, n: nat) {
    before <= popped && forall i :: |before| <= i < |popped| ==> popped[i] < n
  }

  lemma SetResultKeepsWedge(q: Queue, n: nat)
    requires Invariant(q) && Wedged(q, n)
    ensures Wedged(Next(q, SetResult), n)
  {
    var r := Next(q, SetResult);
    if r != q {
      var i :| 0 <= i < |q.blocks| && q.blocks[i] == QueuedBlock(n, false);
      assert r.blocks[i] == q.blocks[i];
    }
  }

  /** Only what lies before the wedged block can be taken out. */
  lemma FinishCommitKeepsWedge(q: Queue, n: nat)
    requires Invariant(q) && Wedged(q, n)
    ensures Wedged(Next(q, FinishCommit), n) && PoppedBelow(q.popped, Next(q, FinishCommit).popped, n)
  {
    var r := Next(q, FinishCommit);
    if r != q {
      var i :| 0 <= i < |q.blocks| && q.blocks[i] == QueuedBlock(n, false);
      assert i > 0 && r.blocks[i - 1] == q.blocks[i];
      assert Front(q).number + i == n;
    }
  }

  lemma WedgedInRange(q: Queue, n: nat)
    requires Invariant(q) && Wedged(q, n)
    ensures InRange(q, n)
  {
    var i :| 0 <= i < |q.blocks| && q.blocks[i] == QueuedBlock(n, false);
  }

  lemma StepKeepsWedge(q: Queue, step: Step, n: nat)
    requires Invariant(q) && Wedged(q, n)
    ensures Wedged(Next(q, step), n) && PoppedBelow(q.popped, Next(q, step).popped, n)
  {
    match step {
      case SetResult => SetResultKeepsWedge(q, n);
      case FinishCommit => FinishCommitKeepsWedge(q, n);
      case Execute(m) => WedgedInRange(q, n);
      case _ =>
    }
  }

  lemma {:induction false} RunKeepsWedge(start: seq<Step>, steps: seq<Step>, n: nat)
    requires Wedged(After(start), n)
    ensures Wedged(After(start + steps), n) && PoppedBelow(After(start).popped, After(start + steps).popped, n)
    decreases |steps|
  {
    if steps == [] {
      assert start + steps == start;
    } else {
      var k := |steps| - 1;
      RunKeepsWedge(start, steps[..k], n);
      assert (start + steps)[..|start| + k] == start + steps[..k] && (start + steps)[|start| + k] == steps[k];
      RunKeepsInvariant(start + steps[..k]);
      StepKeepsWedge(After(start + steps[..k]), steps[k], n);
    }
  }

  /**
   A failed execution wedges the queue for good: whatever is asked for afterwards, the block stays in the queue without
   a result, no request executes it again, and no number from it upwards is ever taken out.
   */
  lemma FailureWedgesTheQueue(before: seq<Step>, steps: seq<Step>, n: nat)
    requires After(before).execution == Running(n)
    ensures var q := After(before + [FailExecution] + steps);
            && QueuedBlock(n, false) in q.blocks && q.execution != Running(n) && InRange(q, n)
            && PoppedBelow(After(before).popped, q.popped, n)
  {
    var start := before + [FailExecution];
    RunKeepsInvariant(before);
    assert start[..|before|] == before;
    assert Back(After(before)) in After(before).blocks;
    assert Wedged(After(start), n);
    RunKeepsWedge(start, steps, n);
    RunKeepsInvariant(start + steps);
    WedgedInRange(After(start + steps), n);
  }

  ghost function Numbers(blocks: seq<QueuedBlock>): seq<nat> {
    seq(|blocks|, i requires 0 <= i < |blocks| => blocks[i].number)
  }

  /** Every block in the queue has its result or is being executed. */
  ghost predicate NothingWedged(q: Queue) {
    forall b :: b in q.blocks && !b.executed ==> q.execution == Running(b.number)
  }

  ghost predicate AllExecuted(q: Queue) {
    forall b :: b in q.blocks ==> b.executed
  }

  lemma OneStepMore(before: seq<Step>, step: Step)
    ensures After(before + [step]) == Next(After(before), step)
  {
    assert (before + [step])[..|before|] == before;
  }

  /** An execution that is going on may succeed. */
  lemma ExecutionMaySucceed(before: seq<Step>) returns (steps: seq<Step>)
    requires NothingWedged(After(before))
    ensures var q, r := After(before), After(before + steps);
            AllExecuted(r) && Numbers(r.blocks) == Numbers(q.blocks) && r.popped == q.popped
  {
    var q := After(before);
    RunKeepsInvariant(before);
    if q.execution.Running? {
      steps := [SetResult];
      OneStepMore(before, SetResult);
      var r := Next(q, SetResult);
      forall b | b in r.blocks ensures b.executed {
        var i :| 0 <= i < |r.blocks| && r.blocks[i] == b;
        if i < |r.blocks| - 1 { assert r.blocks[i] == q.blocks[i] && q.blocks[i].number < Back(q).number; }
      }
    } else {
      steps := [];
      assert before + steps == before;
    }
  }

  /** The front block may be committed. */
  lemma FrontMayBeCommitted(before: seq<Step>) returns (steps: seq<Step>)
    requires AllExecuted(After(before)) && After(before).blocks != []
    ensures var q, r := After(before), After(before + steps);
            r.blocks == q.blocks[1..] && r.popped == q.popped + [Front(q).number]
  {
    var q := After(before);
    RunKeepsInvariant(before);
    if q.commit.Committing? {
      steps := [FinishCommit];
      OneStepMore(before, FinishCommit);
    } else {
      assert Front(q) in q.blocks;
      steps := [StartCommit(Front(q).number), FinishCommit];
      OneStepMore(before, steps[0]);
      OneStepMore(before + [steps[0]], steps[1]);
      assert before + steps == before + [steps[0]] + [steps[1]];
    }
  }

  lemma OneAfterTheOther(before: seq<Step>, first: seq<Step>, rest: seq<Step>)
    ensures After(before + (first + rest)) == After(before + first + rest)
  {
    assert before + (first + rest) == before + first + rest;
  }

  lemma NumbersInOrder(popped: seq<nat>, blocks: seq<QueuedBlock>)
    requires blocks != []
    ensures popped + [blocks[0].number] + Numbers(blocks[1..]) == popped + Numbers(blocks)
  {
  }

  lemma {:induction false} AllMayBeCommitted(before: seq<Step>) returns (steps: seq<Step>)
    requires AllExecuted(After(before))
    ensures After(before + steps).blocks == []
    ensures After(before + steps).popped == After(before).popped + Numbers(After(before).blocks)
    decreases |After(before).blocks|
  {
    var q := After(before);
    if q.blocks == [] {
      steps := [];
      assert before + steps == before;
    } else {
      var one := FrontMayBeCommitted(before);
      var rest := AllMayBeCommitted(before + one);
      steps := one + rest;
      OneAfterTheOther(before, one, rest);
      NumbersInOrder(q.popped, q.blocks);
    }
  }

  /** The continuation commits what is in the queue, in order. */
  ghost predicate CommitsAll(before: seq<Step>, steps: seq<Step>) {
    After(before + steps).popped == After(before).popped + Numbers(After(before).blocks)
  }

  lemma WedgedIsNotCommitted(before: seq<Step>, steps: seq<Step>, n: nat)
    requires Wedged(After(before), n)
    ensures !CommitsAll(before, steps)
  {
    var q, r := After(before), After(before + steps);
    RunKeepsWedge(before, steps, n);
    var i :| 0 <= i < |q.blocks| && q.blocks[i] == QueuedBlock(n, false);
    assert (q.popped + Numbers(q.blocks))[|q.popped| + i] == n;
  }

  lemma SomeRunCommitsAll(before: seq<Step>) returns (steps: seq<Step>)
    requires NothingWedged(After(before))
    ensures CommitsAll(before, steps)
  {
    var first := ExecutionMaySucceed(before);
    var rest := AllMayBeCommitted(before + first);
    steps := first + rest;
    OneAfterTheOther(before, first, rest);
  }

  /**
   The exact condition: after any run, the blocks in the queue can still all be committed, one after the other, if and
   only if each of them has its result or is being executed.
   */
  lemma CommitsAllUnlessWedged(before: seq<Step>)
    ensures (exists steps :: CommitsAll(before, steps)) <==> NothingWedged(After(before))
  {
    if NothingWedged(After(before)) {
      var steps := SomeRunCommitsAll(before);
    } else {
      var b :| b in After(before).blocks && !b.executed && After(before).execution != Running(b.number);
      forall steps ensures !CommitsAll(before, steps) { WedgedIsNotCommitted(before, steps, b.number); }
    }
  }

  // ---------------------------------------------------------------- which blocks are executed

  /** The last executed block is in the queue, or was the last one taken out, or there was none. */
  ghost predicate LastIsTraced(q: Queue) {
    || (exists b :: b in q.blocks && b.executed && b.number == Executed(q))
    || (if q.popped == [] then Executed(q) == 0 else q.popped[|q.popped| - 1] == Executed(q))
  }

  lemma SetResultKeepsTrace(q: Queue)
    requires Invariant(q) && LastIsTraced(q)
    ensures LastIsTraced(Next(q, SetResult))
  {
    var r := Next(q, SetResult);
    if r != q { assert Back(r) in r.blocks && Back(r).executed && Back(r).number == Executed(r); }
  }

  lemma ExecuteKeepsTrace(q: Queue, n: nat)
    requires LastIsTraced(q)
    ensures LastIsTraced(Next(q, Execute(n)))
  {
    if b :| b in q.blocks && b.executed && b.number == Executed(q) { assert b in Next(q, Execute(n)).blocks; }
  }

  lemma FinishCommitKeepsTrace(q: Queue)
    requires Invariant(q) && LastIsTraced(q)
    ensures LastIsTraced(Next(q, FinishCommit))
  {
    var r := Next(q, FinishCommit);
    if r != q {
      assert Front(q) in q.blocks;
      if b :| b in q.blocks && b.executed && b.number == Executed(q) {
        var i :| 0 <= i < |q.blocks| && q.blocks[i] == b;
        if i > 0 { assert r.blocks[i - 1] == b; }
      }
    }
  }

  lemma StepKeepsTrace(q: Queue, step: Step)
    requires Invariant(q) && LastIsTraced(q)
    ensures LastIsTraced(Next(q, step))
  {
    match step {
      case SetResult => SetResultKeepsTrace(q);
      case Execute(n) => ExecuteKeepsTrace(q, n);
      case FinishCommit => FinishCommitKeepsTrace(q);
      case _ =>
    }
  }

  lemma {:induction false} RunKeepsTrace(steps: seq<Step>)
    ensures LastIsTraced(After(steps))
  {
    if steps != [] {
      RunKeepsInvariant(steps[..|steps| - 1]);
      RunKeepsTrace(steps[..|steps| - 1]);
      StepKeepsTrace(After(steps[..|steps| - 1]), steps[|steps| - 1]);
    }
  }

  /** The block is the next one: behind the last queued block, or after the last committed one, if that was not block 0. */
  ghost predicate IsNext(q: Queue, n: nat) {
    if q.blocks != [] then n == q.blocks[|q.blocks| - 1].number + 1
    else q.popped == [] || q.popped[|q.popped| - 1] == 0 || n > q.popped[|q.popped| - 1]
  }

  /**
   Which requests start an execution, after any run: those made while no execution is going on, for a block that comes
   next. The block goes to the back of the queue and is executed; every other request changes nothing.
   */
  lemma ExecutionStartsForNext(steps: seq<Step>, n: nat)
    ensures var q, r := After(steps), After(steps + [Execute(n)]);
            if q.execution.Free? && IsNext(q, n)
            then r == q.(blocks := q.blocks + [QueuedBlock(n, false)], execution := Running(n))
            else r == q
  {
    OneStepMore(steps, Execute(n));
    RunKeepsInvariant(steps);
    RunKeepsTrace(steps);
  }

  /** So as long as nothing is wedged the chain goes on: the next block can be executed, and all blocks committed. */
  lemma ChainGoesOn(before: seq<Step>, n: nat) returns (steps: seq<Step>)
    requires NothingWedged(After(before)) && After(before).execution.Free? && IsNext(After(before), n)
    ensures After(before + steps).blocks == []
    ensures After(before + steps).popped == After(before).popped + Numbers(After(before).blocks) + [n]
  {
    var q := After(before);
    ExecutionStartsForNext(before, n);
    var first := ExecutionMaySucceed(before + [Execute(n)]);
    var rest := AllMayBeCommitted(before + [Execute(n)] + first);
    steps := [Execute(n)] + (first + rest);
    OneAfterTheOther(before, [Execute(n)], first + rest);
    OneAfterTheOther(before + [Execute(n)], first, rest);
    assert Numbers(q.blocks + [QueuedBlock(n, false)]) == Numbers(q.blocks) + [n];
  }

  // ---------------------------------------------------------------- the program

  class SchedulerImpl {
    var blocks: seq<QueuedBlock>
    var lastExecuted: nat
    var execution: Execution
    var commit: Commit
    ghost var popped: seq<nat>

    ghost function State(): Queue
      reads this
    {
      Queue(blocks, lastExecuted, execution, commit, popped)
    }

    constructor ()
      ensures State() == Empty
    {
      blocks, lastExecuted, execution, commit, popped := [], 0, Free, Idle, [];
    }

    /** A request to execute a block, up to the point where the execution runs on its own. */
    method ExecuteBlock(number: nat) returns (answer: ExecuteAnswer)
      requires Invariant(State())
      modifies this
      ensures State() == Next(old(State()), Execute(number)) && Invariant(State())
      ensures answer.AnotherIsExecuting? <==> !old(execution).Free?
      ensures answer.ExecutionStarted? <==>
                && old(execution).Free?
                && (if old(blocks) != [] then number == old(blocks)[|old(blocks)| - 1].number + 1
                    else old(lastExecuted) == 0 || old(lastExecuted) < number)
      ensures answer.AlreadyQueued? <==> old(execution).Free? && InRange(old(State()), number)
      ensures blocks == if answer.ExecutionStarted? then old(blocks) + [QueuedBlock(number, false)] else old(blocks)
      ensures execution == if answer.ExecutionStarted? then Running(number) else old(execution)
      ensures lastExecuted == old(lastExecuted) && commit == old(commit) && popped == old(popped)
      ensures answer.AlreadyQueued? ==> QueuedBlock(number, answer.executed) in old(blocks)
    {
      StepKeepsInvariant(State(), Execute(number));
      if !execution.Free? {
        return AnotherIsExecuting;
      }
      if blocks != [] {
        var front, back := blocks[0], blocks[|blocks| - 1];
        if front.number <= number <= back.number {
          var i := 0;
          while blocks[i].number != number
            invariant 0 <= i < |blocks| && blocks[i].number <= number
            decreases |blocks| - i
          {
            i := i + 1;
          }
          return AlreadyQueued(blocks[i].executed);
        }
        if number - back.number != 1 {
          return BadNumber;
        }
      } else if lastExecuted != 0 && lastExecuted >= number {
        return BadNumber;
      }
      blocks := blocks + [QueuedBlock(number, false)];
      execution := Running(number);
      return ExecutionStarted;
    }

    /** The execution has a result; the number is stored a moment later. */
    method SetBlockResult()
      requires Invariant(State()) && execution.Running?
      modifies this
      ensures State() == Next(old(State()), SetResult) && Invariant(State())
      ensures blocks != [] && blocks[|blocks| - 1] == QueuedBlock(old(execution).number, true)
      ensures blocks[..|blocks| - 1] == old(blocks)[..|old(blocks)| - 1] && execution == Storing(old(execution).number)
      ensures lastExecuted == old(lastExecuted) && commit == old(commit) && popped == old(popped)
    {
      StepKeepsInvariant(State(), SetResult);
      blocks := blocks[|blocks| - 1 := blocks[|blocks| - 1].(executed := true)];
      execution := Storing(execution.number);
    }

    method StoreExecutedNumber()
      requires Invariant(State()) && execution.Storing?
      modifies this
      ensures State() == Next(old(State()), StoreNumber) && Invariant(State())
      ensures lastExecuted == old(execution).number >= old(lastExecuted)
      ensures execution.Free? && blocks == old(blocks) && commit == old(commit) && popped == old(popped)
    {
      StepKeepsInvariant(State(), StoreNumber);
      lastExecuted := execution.number;
      execution := Free;
    }

    /** A failed execution gives the lock back and leaves its block in the queue without a result. */
    method ExecutionFailed()
      requires Invariant(State()) && execution.Running?
      modifies this
      ensures State() == Next(old(State()), FailExecution) && Invariant(State())
      ensures execution.Free? && blocks == old(blocks) && lastExecuted == old(lastExecuted)
      ensures commit == old(commit) && popped == old(popped)
    {
      StepKeepsInvariant(State(), FailExecution);
      execution := Free;
    }

    /** A request to commit a block, up to the point where the commit runs on its own. */
    method CommitBlock(number: nat) returns (answer: CommitAnswer)
      requires Invariant(State())
      modifies this
      ensures State() == Next(old(State()), StartCommit(number)) && Invariant(State())
      ensures answer.CommitStarted? <==>
                old(commit).Idle? && old(blocks) != [] && old(blocks)[0] == QueuedBlock(number, true)
      ensures answer.AnotherIsCommitting? <==> old(commit).Committing?
      ensures answer.AnotherIsCommitting? ==> blocks != []
      ensures answer.NothingToCommit? <==> old(commit).Idle? && old(blocks) == []
      ensures answer.NotExecuted? <==> old(commit).Idle? && old(blocks) != [] && !old(blocks)[0].executed
      ensures answer.NotTheFront? <==>
                old(commit).Idle? && old(blocks) != [] && old(blocks)[0].executed && old(blocks)[0].number != number
      ensures commit == if answer.CommitStarted? then Committing(number) else old(commit)
      ensures blocks == old(blocks) && lastExecuted == old(lastExecuted) && execution == old(execution) && popped == old(popped)
    {
      StepKeepsInvariant(State(), StartCommit(number));
      if commit.Committing? {
        return AnotherIsCommitting;
      }
      if blocks == [] {
        return NothingToCommit;
      }
      if !blocks[0].executed {
        return NotExecuted;
      }
      if number != blocks[0].number {
        return NotTheFront;
      }
      commit := Committing(number);
      return CommitStarted;
    }

    method CommitFailed()
      requires Invariant(State()) && commit.Committing?
      modifies this
      ensures State() == Next(old(State()), FailCommit) && Invariant(State())
      ensures commit.Idle? && blocks == old(blocks) && popped == old(popped)
      ensures lastExecuted == old(lastExecuted) && execution == old(execution)
    {
      StepKeepsInvariant(State(), FailCommit);
      commit := Idle;
    }

    /** The commit is done: the front block, which is the committed one, leaves the queue. */
    method CommitFinished()
      requires Invariant(State()) && commit.Committing?
      modifies this
      ensures State() == Next(old(State()), FinishCommit) && Invariant(State())
      ensures old(blocks) == [QueuedBlock(old(commit).number, true)] + blocks
      ensures popped == old(popped) + [old(commit).number]
      ensures commit.Idle? && lastExecuted == old(lastExecuted) && execution == old(execution)
    {
      StepKeepsInvariant(State(), FinishCommit);
      popped := popped + [blocks[0].number];
      blocks := blocks[1..];
      commit := Idle;
    }
  }
}
