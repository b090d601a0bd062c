/** The two passes of a batch visit the same states: the skip marks steer the second one as the first one went. */
module Passes {
  import opened Types
  import opened LockTable
  import opened Executive
  import opened Traversal
  import opened Batch
  import opened Discipline
  import opened Sending
  import opened Settling
  import opened Recovery
  import opened Runs

  /** Keys of the states that a traversal steered by the marks gets to see, in order. */
  ghost function VisibleKeys(es: seq<Entry>): seq<StateKey> {
    if es == [] then [] else VisibleKeys(es[..|es| - 1]) + LastKey(es)
  }

  ghost function LastKey(es: seq<Entry>): seq<StateKey>
    requires es != []
  {
    if Visible(es, |es| - 1) then [es[|es| - 1].key] else []
  }

  ghost function VisitedKeys(trace: seq<Visited>): seq<StateKey> {
    seq(|trace|, i requires 0 <= i < |trace| => trace[i].key)
  }

  /** Keys of the states that were visited and not deleted. */
  ghost function KeptKeys(trace: seq<Visited>): seq<StateKey> {
    if trace == [] then []
    else
      var n := |trace| - 1;
      KeptKeys(trace[..n]) + if trace[n].hint.DELETE? then [] else [trace[n].key]
  }

  lemma VisibleKeysAppend(es: seq<Entry>, y: Entry)
    ensures VisibleKeys(es + [y]) == VisibleKeys(es) + if Visible(es + [y], |es|) then [y.key] else []
  {
    assert (es + [y])[..|es|] == es;
  }

  /** What lies behind a mark of the same contract adds nothing. */
  lemma {:induction false} VisibleKeysGroup(es: seq<Entry>, group: seq<Entry>)
    requires es != [] && es[|es| - 1].state.skip
    requires forall g :: g in group ==> g.key.contract == es[|es| - 1].key.contract
    ensures VisibleKeys(es + group) == VisibleKeys(es)
    decreases |group|
  {
    if group == [] {
      assert es + group == es;
    } else {
      var m := |group| - 1;
      var r := es + group;
      assert r[..|r| - 1] == es + group[..m];
      assert group[m] in group && r[|r| - 1] == group[m] && r[|es| - 1].state.skip;
      assert !Visible(r, |r| - 1);
      VisibleKeysGroup(es, group[..m]);
    }
  }

  lemma VisibleInSuffix(a: seq<Entry>, b: seq<Entry>, i: nat)
    requires MarksClear(a, b) && i < |b|
    ensures Visible(a + b, |a| + i) <==> Visible(b, i)
  {
    var r := a + b;
    assert forall j :: 0 <= j < |r| ==> r[j] == if j < |a| then a[j] else b[j - |a|];
    if Visible(r, |a| + i) {
      forall j | 0 <= j < i && b[j].state.skip ensures b[j].key.contract != b[i].key.contract {
        assert r[|a| + j] == b[j];
      }
    }
  }

  /** What lies behind marks of other contracts only is seen as if it stood alone. */
  lemma {:induction false} VisibleKeysConcat(a: seq<Entry>, b: seq<Entry>)
    requires MarksClear(a, b)
    ensures VisibleKeys(a + b) == VisibleKeys(a) + VisibleKeys(b)
    decreases |b|
  {
    if b == [] {
      assert a + b == a;
    } else {
      var m := |b| - 1;
      VisibleKeysConcat(a, b[..m]);
      VisibleInSuffix(a, b, m);
      DropLast(a, b);
      Regroup(VisibleKeys(a), VisibleKeys(b[..m]), LastKey(b));
    }
  }

  lemma DropLast(a: seq<Entry>, b: seq<Entry>)
    requires b != []
    ensures a + b != [] && (a + b)[..|a + b| - 1] == a + b[..|b| - 1] && (a + b)[|a + b| - 1] == b[|b| - 1]
  {
  }

  lemma Regroup(a: seq<StateKey>, b: seq<StateKey>, c: seq<StateKey>)
    ensures (a + b) + c == a + (b + c)
  {
  }

  lemma VisibleKeysSingle(y: Entry)
    ensures VisibleKeys([y]) == [y.key]
  {
    VisibleKeysAppend([], y);
    assert [] + [y] == [y];
  }

  /** A traversal that finds no mark on the first state sees it and goes on behind it. */
  lemma {:induction false} VisibleKeysFront(es: seq<Entry>)
    requires es != [] && !es[0].state.skip
    ensures VisibleKeys(es) == [es[0].key] + VisibleKeys(es[1..])
  {
    VisibleKeysSingle(es[0]);
    VisibleKeysConcat([es[0]], es[1..]);
    assert [es[0]] + es[1..] == es;
  }

  /** A traversal that finds a mark on the first state sees it and goes on behind its contract. */
  lemma {:induction false} VisibleKeysFrontMarked(es: seq<Entry>)
    requires es != [] && Sorted(es) && es[0].state.skip
    ensures VisibleKeys(es) == [es[0].key] + VisibleKeys(es[UpperBound(es, GroupEnd(es[0].key))..])
  {
    var n := UpperBound(es, GroupEnd(es[0].key));
    ContractParts(es);
    VisibleKeysSingle(es[0]);
    VisibleKeysGroup([es[0]], es[1..n]);
    VisibleKeysConcat([es[0]] + es[1..n], es[n..]);
    Parts(es, n);
  }

  lemma Parts(es: seq<Entry>, n: nat)
    requires 1 <= n <= |es|
    ensures ([es[0]] + es[1..n]) + es[n..] == es
  {
  }

  /** Delivering the replies moves no marks. */
  lemma {:induction false} VisibleKeysSame(es: seq<Entry>, r: seq<Entry>)
    requires |es| == |r|
    requires forall i :: 0 <= i < |es| ==> r[i].key == es[i].key && r[i].state.skip == es[i].state.skip
    ensures VisibleKeys(r) == VisibleKeys(es)
    decreases |es|
  {
    if es != [] {
      var n := |es| - 1;
      VisibleKeysSame(es[..n], r[..n]);
      assert LastKey(r) == LastKey(es);
    }
  }

  // ---------------------------------------------------------------- the sending pass

  lemma KeptKeysAppend(trace: seq<Visited>, w: Visited)
    ensures KeptKeys(trace + [w]) == if w.hint.DELETE? then KeptKeys(trace) else KeptKeys(trace) + [w.key]
  {
    assert (trace + [w])[..|trace|] == trace;
  }

  /** A state that no mark behind concerns is seen. */
  lemma SeenBehind(behind: seq<Entry>, ahead: seq<Entry>, y: Entry)
    requires ahead != [] && y.key == ahead[0].key && MarksClear(behind, ahead)
    ensures VisibleKeys(behind + [y]) == VisibleKeys(behind) + [y.key]
  {
    assert ahead[0] in ahead;
    VisibleKeysSingle(y);
    VisibleKeysConcat(behind, [y]);
  }

  /** The rest of the contract of a marked state is not. */
  lemma GroupUnseen(behind: seq<Entry>, ahead: seq<Entry>, y: Entry)
    requires ahead != [] && Sorted(ahead) && y.key == ahead[0].key && y.state.skip
    ensures VisibleKeys(behind + [y] + ahead[1..UpperBound(ahead, GroupEnd(y.key))]) == VisibleKeys(behind + [y])
  {
    ContractParts(ahead);
    VisibleKeysGroup(behind + [y], ahead[1..UpperBound(ahead, GroupEnd(y.key))]);
  }

  lemma SendingStepKept(c: Cursor<BatchState>, v: Visit<BatchState>)
    requires c.ahead != [] && Sorted(c.ahead) && MarksClear(c.behind, c.ahead)
    requires VisitOk(c.env, c.ahead[0].state, v)
    requires KeptKeys(c.trace) == VisibleKeys(c.behind)
    ensures KeptKeys(Advance(c, v).trace) == VisibleKeys(Advance(c, v).behind)
  {
    var y := Entry(c.ahead[0].key, v.state);
    KeptKeysAppend(c.trace, Visited(y.key, v.hint));
    if !v.hint.DELETE? {
      SeenBehind(c.behind, c.ahead, y);
      if v.hint.SKIP? { GroupUnseen(c.behind, c.ahead, y); }
    }
  }

  lemma {:induction false} RunSendingKept(x: Executors, es: seq<Entry>, c: Cursor<BatchState>)
    requires SendingInv(x, es, c) && KeptKeys(c.trace) == VisibleKeys(c.behind)
    ensures KeptKeys(Run(StartCallback(x), c).trace) == VisibleKeys(Run(StartCallback(x), c).behind)
    decreases |c.ahead|
  {
    if c.ahead != [] {
      var v := VisitStart(x, c.env, c.ahead[0].state);
      HeadVisitable(x, es, c);
      VisitStartOk(x, c.env, c.ahead[0].state);
      VisitStartCalls(x, c.env, c.ahead[0].state);
      SendingStep(x, es, c, v);
      HeadApart(c.behind, c.ahead);
      SendingStepKept(c, v);
      RunSendingKept(x, es, Step(StartCallback(x), c));
    }
  }

  lemma SendingKeeps(x: Executors, sys: System)
    requires AtRest(sys) && SlotsExist(sys) && Obeys(x, sys.entries)
    ensures KeptKeys(SendingPass(x, sys).trace) == VisibleKeys(SendingPass(x, sys).entries)
  {
    var c0 := SendingStarts(x, sys);
    RunSendingKept(x, sys.entries, c0);
    RunSending(x, sys.entries, c0);
    assert RekeyAll(Run(StartCallback(x), c0).taken) == [];
  }

  // ---------------------------------------------------------------- the settling pass

  lemma VisitedKeysAppend(trace: seq<Visited>, w: Visited, rest: seq<StateKey>)
    ensures VisitedKeys(trace + [w]) + rest == VisitedKeys(trace) + ([w.key] + rest)
  {
    assert VisitedKeys(trace + [w]) == VisitedKeys(trace) + [w.key];
  }

  lemma SettlingStepVisits(c: Cursor<BatchState>, v: Visit<BatchState>)
    requires c.ahead != [] && Sorted(c.ahead)
    requires v.hint in {PASS, SKIP, UPDATE} && (v.hint.SKIP? <==> c.ahead[0].state.skip)
    ensures VisitedKeys(Advance(c, v).trace) + VisibleKeys(Advance(c, v).ahead) == VisitedKeys(c.trace) + VisibleKeys(c.ahead)
  {
    var h, n := c.ahead[0], UpperBound(c.ahead, GroupEnd(c.ahead[0].key));
    if h.state.skip {
      VisibleKeysFrontMarked(c.ahead);
      VisitedKeysAppend(c.trace, Visited(h.key, v.hint), VisibleKeys(c.ahead[n..]));
    } else {
      VisibleKeysFront(c.ahead);
      VisitedKeysAppend(c.trace, Visited(h.key, v.hint), VisibleKeys(c.ahead[1..]));
    }
  }

  /** One visit of the pass: the invariant goes on, and what is ahead gets shorter. */
  lemma SettlingVisit(es: seq<Entry>, e0: BatchState, c: Cursor<BatchState>)
    requires SettlingInv(es, e0, c) && c.ahead != []
    ensures Sorted(c.ahead) && SettleOk(c.env, c.ahead[0].state, VisitSettle(c.env, c.ahead[0].state))
    ensures SettlingInv(es, e0, Step(VisitSettle, c)) && |Step(VisitSettle, c).ahead| < |c.ahead|
  {
    HeadPending(es, e0, c);
    VisitSettleOk(c.env, c.ahead[0].state);
    SettlingStep(es, e0, c, VisitSettle(c.env, c.ahead[0].state));
  }

  lemma {:induction false} RunSettlingVisits(es: seq<Entry>, e0: BatchState, c: Cursor<BatchState>)
    requires SettlingInv(es, e0, c)
    ensures VisitedKeys(Run(VisitSettle, c).trace) == VisitedKeys(c.trace) + VisibleKeys(c.ahead)
    decreases |c.ahead|
  {
    if c.ahead != [] {
      SettlingVisit(es, e0, c);
      SettlingStepVisits(c, VisitSettle(c.env, c.ahead[0].state));
      RunSettlingVisits(es, e0, Step(VisitSettle, c));
    }
  }

  lemma SettlingVisits(es: seq<Entry>, e: BatchState)
    requires WellFormed(es) && Consistent(e.locks) && LocksLive(e.locks, es)
    requires AllPending(es, e.locks) && ClaimsDisjoint(es)
    ensures VisitedKeys(SettlingPass(es, e).trace) == VisibleKeys(es)
  {
    var c0 := SettlingStarts(es, e);
    RunSettlingVisits(es, e, c0);
    NothingVisited(VisibleKeys(es));
  }

  lemma NothingVisited(keys: seq<StateKey>)
    ensures VisitedKeys([]) + keys == keys
  {
  }

  lemma SettlingUnmarks(es: seq<Entry>, e: BatchState)
    requires WellFormed(es) && Consistent(e.locks) && LocksLive(e.locks, es)
    requires AllPending(es, e.locks) && ClaimsDisjoint(es)
    ensures Unmarked(SettlingPass(es, e).entries)
  {
    SettlingPassOk(es, e);
  }

  ghost predicate Unmarked(es: seq<Entry>) {
    forall y :: y in es ==> !y.state.skip
  }

  // ---------------------------------------------------------------- the deadlock pass

  lemma AdvanceVisitsPrefix(c: Cursor<BatchState>, v: Visit<BatchState>)
    requires c.ahead != [] && !c.ahead[0].state.skip && v.hint in {PASS, END}
    ensures var d := Advance(c, v);
            VisitedKeys(d.trace) + VisibleKeys(d.ahead) <= VisitedKeys(c.trace) + VisibleKeys(c.ahead)
  {
    var w := Visited(c.ahead[0].key, v.hint);
    VisibleKeysFront(c.ahead);
    if w.hint.END? {
      VisitedKeysAppend(c.trace, w, []);
      StopEarly(VisitedKeys(c.trace), w.key, VisibleKeys(c.ahead[1..]));
    } else {
      VisitedKeysAppend(c.trace, w, VisibleKeys(c.ahead[1..]));
    }
  }

  lemma DeadlockStepShape(e: BatchState, c: Cursor<BatchState>, v: Visit<BatchState>)
    requires c.ahead != [] && AllBlocked(c.ahead, e.locks) && v.env == e && v.hint in {PASS, END}
    ensures var d := Advance(c, v); AllBlocked(d.ahead, e.locks) && d.env == e && |d.ahead| < |c.ahead|
  {
  }

  lemma DeadlockVisitHint(e: BatchState, s: ExecutiveState)
    requires Settled(s, e.locks)
    ensures VisitDeadlock(e, s).env == e && VisitDeadlock(e, s).hint in {PASS, END}
  {
  }

  lemma DeadlockStepVisits(e: BatchState, c: Cursor<BatchState>)
    requires c.ahead != [] && AllBlocked(c.ahead, e.locks) && c.env == e
    ensures var d := Step(VisitDeadlock, c);
            && AllBlocked(d.ahead, e.locks) && d.env == e && |d.ahead| < |c.ahead|
            && VisitedKeys(d.trace) + VisibleKeys(d.ahead) <= VisitedKeys(c.trace) + VisibleKeys(c.ahead)
  {
    assert c.ahead[0] in c.ahead;
    DeadlockVisitHint(e, c.ahead[0].state);
    DeadlockStepShape(e, c, VisitDeadlock(e, c.ahead[0].state));
    AdvanceVisitsPrefix(c, VisitDeadlock(e, c.ahead[0].state));
  }

  lemma StopEarly(before: seq<StateKey>, key: StateKey, after: seq<StateKey>)
    ensures before + ([key] + []) <= before + ([key] + after)
  {
  }

  lemma {:induction false} RunDeadlockVisits(e: BatchState, c: Cursor<BatchState>)
    requires AllBlocked(c.ahead, e.locks) && c.env == e
    ensures VisitedKeys(Run(VisitDeadlock, c).trace) <= VisitedKeys(c.trace) + VisibleKeys(c.ahead)
    decreases |c.ahead|
  {
    if c.ahead != [] {
      DeadlockStepVisits(e, c);
      RunDeadlockVisits(e, Step(VisitDeadlock, c));
    }
  }

  lemma DeadlockVisits(es: seq<Entry>, e: BatchState)
    requires WellFormed(es) && AllBlocked(es, e.locks)
    ensures VisitedKeys(DeadlockPass(es, e).trace) <= VisibleKeys(es)
    ensures Unmarked(DeadlockPass(es, e).entries)
  {
    var c0 := Cursor([], es, [], [], e);
    RunDeadlockVisits(e, c0);
    NothingVisited(VisibleKeys(es));
    DeadlockPassOk(es, e);
  }

  // ---------------------------------------------------------------- both passes

  /**
   In a batch without error replies, the settling pass visits exactly the states that the sending pass visited and
   did not finish, in the same order, and leaves no skip mark behind. When nothing was sent the deadlock pass runs
   instead: it visits the first of those states, up to the one it picks, and there is no mark either.
   */
  lemma PassesAgree(x: Executors, sys: System)
    requires Invariant(sys) && Obeys(x, sys.entries) && AllResponded(x, SendingPass(x, sys).env.sent)
    ensures var p := SendingPass(x, sys);
            var r := Deliver(x, p.entries, p.env.sent);
            if p.env.sent != map[] || p.entries == [] then
              var q := SettlingPass(r, p.env);
              VisitedKeys(q.trace) == KeptKeys(p.trace) && Unmarked(q.entries)
            else
              var q := DeadlockPass(r, p.env);
              VisitedKeys(q.trace) <= KeptKeys(p.trace) && Unmarked(q.entries)
  {
    InvariantGivesSlots(sys);
    SendingKeeps(x, sys);
    SendingPassOk(x, sys);
    var p := SendingPass(x, sys);
    if p.env.sent != map[] || p.entries == [] {
      DeliveredVisits(x, p.entries, p.env);
    } else {
      NothingToDeliver(x, p.entries);
      NothingSentAllBlocked(p.entries, p.env);
      DeadlockVisits(p.entries, p.env);
    }
  }

  lemma DeliveredVisits(x: Executors, es: seq<Entry>, e: BatchState)
    requires SendingDone(es, e) && RepliesAllowed(x) && AllResponded(x, e.sent)
    ensures VisitedKeys(SettlingPass(Deliver(x, es, e.sent), e).trace) == VisibleKeys(es)
    ensures Unmarked(SettlingPass(Deliver(x, es, e.sent), e).entries)
  {
    var r := Deliver(x, es, e.sent);
    DeliverShape(x, es, e.sent);
    DeliveredPending(x, es, e);
    VisibleKeysSame(es, r);
    SettlingVisits(r, e);
    SettlingUnmarks(r, e);
  }

  // ---------------------------------------------------------------- where the states are after the batch

  /** Where the i-th state belongs after the settling pass, and what it is then. */
  ghost function Placed(es: seq<Entry>, i: nat): Entry
    requires i < |es|
  {
    var s := es[i].state.(skip := false);
    if Visible(es, i) && !es[i].state.skip && Moves(s) then Entry(StateKey(s.message.value.to, s.contextID), s)
    else Entry(es[i].key, s)
  }

  /** An entry is in the map, or will be once the taken nodes are put back. */
  ghost predicate Kept(c: Cursor<BatchState>, y: Entry) {
    y in c.behind || y in RekeyAll(c.taken)
  }

  lemma AdvanceKeeps(c: Cursor<BatchState>, v: Visit<BatchState>, y: Entry)
    requires c.ahead != [] && Kept(c, y)
    ensures Kept(Advance(c, v), y)
  {
    if y in RekeyAll(c.taken) && v.hint.UPDATE? {
      var t := [Entry(c.ahead[0].key, v.state)] + c.taken;
      var i :| 0 <= i < |RekeyAll(c.taken)| && RekeyAll(c.taken)[i] == y;
      assert RekeyAll(t)[i + 1] == y;
    }
  }

  /** The visited state ends up where it belongs. */
  lemma HeadPlaced(c: Cursor<BatchState>, v: Visit<BatchState>)
    requires c.ahead != [] && SettleOk(c.env, c.ahead[0].state, v)
    ensures Kept(Advance(c, v), Placed(c.ahead, 0))
  {
    var y := Entry(c.ahead[0].key, v.state);
    assert Visible(c.ahead, 0);
    if v.hint.UPDATE? {
      assert RekeyAll([y] + c.taken)[0] == Rekey(y);
    } else {
      assert y in Advance(c, v).behind;
    }
  }

  /** A state that is passed over with its contract stays where it is. */
  lemma GroupPlaced(c: Cursor<BatchState>, v: Visit<BatchState>, i: nat)
    requires c.ahead != [] && Sorted(c.ahead) && AllPending(c.ahead, c.env.locks)
    requires v.hint in {PASS, SKIP, UPDATE} && (v.hint.SKIP? <==> c.ahead[0].state.skip)
    requires 0 < i < |c.ahead| - |Advance(c, v).ahead|
    ensures Kept(Advance(c, v), Placed(c.ahead, i))
  {
    var n := UpperBound(c.ahead, GroupEnd(c.ahead[0].key));
    UpperBoundIsGroup(c.ahead, c.ahead[0].key);
    assert !Visible(c.ahead, i) && PendingAt(c.ahead, c.env.locks, i);
    assert Placed(c.ahead, i) == c.ahead[i] && c.ahead[i] == c.ahead[1..n][i - 1];
    assert c.ahead[i] in c.ahead[1..n];
  }

  /** A state further ahead belongs where it did before the visit. */
  lemma TailPlaced(c: Cursor<BatchState>, v: Visit<BatchState>, i: nat)
    requires c.ahead != [] && Sorted(c.ahead) && v.hint in {PASS, SKIP, UPDATE} && (v.hint.SKIP? <==> c.ahead[0].state.skip)
    requires i < |Advance(c, v).ahead|
    ensures Placed(Advance(c, v).ahead, i) == Placed(c.ahead, |c.ahead| - |Advance(c, v).ahead| + i)
  {
    var shift := AdvanceSuffix(c, v);
    if v.hint.SKIP? {
      UpperBoundIsGroup(c.ahead, c.ahead[0].key);
      VisibleAfterGroup(c.ahead, shift, i);
    } else {
      assert shift == 1;
      VisibleTail(c.ahead, i);
    }
  }

  /** One visit: what it passes is placed, what is ahead belongs where it did. */
  lemma StepPlaces(c: Cursor<BatchState>, v: Visit<BatchState>, i: nat)
    requires c.ahead != [] && Sorted(c.ahead) && AllPending(c.ahead, c.env.locks)
    requires SettleOk(c.env, c.ahead[0].state, v) && i < |c.ahead|
    ensures var d := Advance(c, v);
            var shift := |c.ahead| - |d.ahead|;
            && shift > 0
            && (i < shift ==> Kept(d, Placed(c.ahead, i)))
            && (i >= shift ==> Placed(d.ahead, i - shift) == Placed(c.ahead, i))
  {
    var shift := |c.ahead| - |Advance(c, v).ahead|;
    if i >= shift {
      TailPlaced(c, v, i - shift);
    } else if i == 0 {
      HeadPlaced(c, v);
    } else {
      GroupPlaced(c, v, i);
    }
  }

  lemma {:induction false} RunKeeps(c: Cursor<BatchState>, y: Entry)
    requires Kept(c, y)
    ensures Kept(Run(VisitSettle, c), y)
    decreases |c.ahead|
  {
    if c.ahead != [] {
      AdvanceKeeps(c, VisitSettle(c.env, c.ahead[0].state), y);
      RunKeeps(Step(VisitSettle, c), y);
    }
  }

  lemma {:induction false} RunPlaces(es: seq<Entry>, e0: BatchState, c: Cursor<BatchState>, i: nat, y: Entry)
    requires SettlingInv(es, e0, c) && i < |c.ahead| && y == Placed(c.ahead, i)
    ensures Kept(Run(VisitSettle, c), y)
    decreases |c.ahead|
  {
    var d := Step(VisitSettle, c);
    SettlingVisit(es, e0, c);
    StepPlaces(c, VisitSettle(c.env, c.ahead[0].state), i);
    var shift := |c.ahead| - |d.ahead|;
    if i < shift { RunKeeps(d, y); } else { RunPlaces(es, e0, d, i - shift, y); }
  }

  /**
   After the settling pass the map holds, for each state, exactly that state without its mark: under the contract its
   message is addressed to if it was visited with a request or a return, and under its old key otherwise.
   */
  lemma SettlingPlaces(es: seq<Entry>, e: BatchState)
    requires WellFormed(es) && Consistent(e.locks) && LocksLive(e.locks, es)
    requires AllPending(es, e.locks) && ClaimsDisjoint(es)
    ensures forall i :: 0 <= i < |es| ==> Placed(es, i) in SettlingPass(es, e).entries
    ensures forall y :: y in SettlingPass(es, e).entries ==> exists i :: 0 <= i < |es| && y == Placed(es, i)
  {
    var c0 := SettlingStarts(es, e);
    var r := SettlingPass(es, e).entries;
    RunSettling(es, e, c0);
    ReinsertMembers(es, e, Run(VisitSettle, c0));
    forall i | 0 <= i < |es| ensures Placed(es, i) in r { RunPlaces(es, e, c0, i, Placed(es, i)); }
    SettlingPassOk(es, e);
    NothingElse(es, r);
  }

  /** With every state in its place and no context more than before, there is nothing else in the map. */
  lemma NothingElse(es: seq<Entry>, r: seq<Entry>)
    requires DistinctIds(r) && Ids(r) == Ids(es) && forall i :: 0 <= i < |es| ==> Placed(es, i) in r
    ensures forall y :: y in r ==> exists i :: 0 <= i < |es| && y == Placed(es, i)
  {
    forall y | y in r ensures exists i :: 0 <= i < |es| && y == Placed(es, i) {
      assert y.state.contextID in Ids(es);
      var z :| z in es && z.state.contextID == y.state.contextID;
      var i :| 0 <= i < |es| && es[i] == z;
      MembersOfDistinctIds(r, y, Placed(es, i));
    }
  }

  lemma ReinsertMembers(es: seq<Entry>, e: BatchState, c: Cursor<BatchState>)
    requires SettlingInv(es, e, c) && c.ahead == []
    ensures forall y :: Kept(c, y) <==> y in InsertAll(c.behind, RekeyAll(c.taken))
  {
    assert c.behind + c.ahead == c.behind;
    RekeyAllIds(c.taken);
    InsertAllKeepsWellFormed(c.behind, RekeyAll(c.taken));
  }

  // ---------------------------------------------------------------- what the locks are after the batch

  /** What becomes of the edges of the i-th state's context. */
  ghost predicate EdgesFollow(es: seq<Entry>, i: nat, t: Table, t': Table)
    requires i < |es|
  {
    var s := es[i].state;
    if Visible(es, i) && !s.skip then s.message.Some? && LocksFollow(s.message.value, s.contextID, t, t')
    else SameEdges(t, t', s.contextID)
  }

  lemma EdgesFollowAfter(es: seq<Entry>, i: nat, t: Table, u: Table, t': Table)
    requires i < |es| && EdgesFollow(es, i, t, u) && SameEdges(u, t', es[i].state.contextID)
    ensures EdgesFollow(es, i, t, t')
  {
  }

  lemma EdgesFollowBefore(es: seq<Entry>, i: nat, t: Table, u: Table, t': Table)
    requires i < |es| && SameEdges(t, u, es[i].state.contextID) && EdgesFollow(es, i, u, t')
    ensures EdgesFollow(es, i, t, t')
  {
  }

  /** The pass leaves the edges of contexts that are not ahead alone. */
  lemma {:induction false} RunLeavesEdges(es: seq<Entry>, e0: BatchState, c: Cursor<BatchState>, k: ContextID)
    requires SettlingInv(es, e0, c) && k !in Ids(c.ahead)
    ensures SameEdges(c.env.locks, Run(VisitSettle, c).env.locks, k)
    decreases |c.ahead|
  {
    if c.ahead != [] {
      var h, d := c.ahead[0], Step(VisitSettle, c);
      SettlingVisit(es, e0, c);
      assert h in c.ahead && h.state.contextID != k;
      AdvanceShrinksIds(c, VisitSettle(c.env, h.state));
      RunLeavesEdges(es, e0, d, k);
    }
  }

  lemma AdvanceShrinksIds(c: Cursor<BatchState>, v: Visit<BatchState>)
    requires c.ahead != []
    ensures Ids(Advance(c, v).ahead) <= Ids(c.ahead)
  {
    AdvanceAhead(c, v);
    forall y | y in Advance(c, v).ahead ensures y in c.ahead { assert y in c.ahead[1..]; }
  }

  /** What the visit passes is not ahead any more. */
  lemma PassedNotAhead(c: Cursor<BatchState>, v: Visit<BatchState>, i: nat)
    requires c.ahead != [] && DistinctIds(c.ahead) && i < |c.ahead| - |Advance(c, v).ahead|
    ensures c.ahead[i].state.contextID !in Ids(Advance(c, v).ahead)
  {
    var shift := AdvanceSuffix(c, v);
    forall y | y in Advance(c, v).ahead ensures y.state.contextID != c.ahead[i].state.contextID {
      var j :| 0 <= j < |c.ahead[shift..]| && c.ahead[shift..][j] == y;
      assert y == c.ahead[shift + j];
    }
  }

  /** What the visit does to the edges of the states it passes. */
  lemma PassedEdges(c: Cursor<BatchState>, v: Visit<BatchState>, i: nat)
    requires c.ahead != [] && Sorted(c.ahead) && SettleOk(c.env, c.ahead[0].state, v)
    requires i < |c.ahead| - |Advance(c, v).ahead|
    ensures EdgesFollow(c.ahead, i, c.env.locks, v.env.locks)
  {
    var shift := AdvanceSuffix(c, v);
    assert Visible(c.ahead, 0);
    if i > 0 {
      UpperBoundIsGroup(c.ahead, c.ahead[0].key);
      assert c.ahead[0].state.skip && !Visible(c.ahead, i);
    }
  }

  lemma TailVisible(c: Cursor<BatchState>, v: Visit<BatchState>, i: nat)
    requires c.ahead != [] && Sorted(c.ahead) && v.hint in {PASS, SKIP, UPDATE} && (v.hint.SKIP? <==> c.ahead[0].state.skip)
    requires i < |Advance(c, v).ahead|
    ensures var j := |c.ahead| - |Advance(c, v).ahead| + i;
            && Advance(c, v).ahead[i] == c.ahead[j] && (Visible(Advance(c, v).ahead, i) <==> Visible(c.ahead, j))
  {
    var shift := AdvanceSuffix(c, v);
    if v.hint.SKIP? {
      UpperBoundIsGroup(c.ahead, c.ahead[0].key);
      VisibleAfterGroup(c.ahead, shift, i);
    } else {
      assert shift == 1;
      VisibleTail(c.ahead, i);
    }
  }

  /** A state that is passed keeps the edges that the visit leaves it. */
  lemma PassedRunEdges(es: seq<Entry>, e0: BatchState, c: Cursor<BatchState>, i: nat)
    requires SettlingInv(es, e0, c) && c.ahead != [] && i < |c.ahead| - |Step(VisitSettle, c).ahead|
    ensures EdgesFollow(c.ahead, i, c.env.locks, Run(VisitSettle, Step(VisitSettle, c)).env.locks)
  {
    var v, d := VisitSettle(c.env, c.ahead[0].state), Step(VisitSettle, c);
    HeadPending(es, e0, c);
    SettlingVisit(es, e0, c);
    PassedEdges(c, v, i);
    PassedNotAhead(c, v, i);
    RunLeavesEdges(es, e0, d, c.ahead[i].state.contextID);
    EdgesFollowAfter(c.ahead, i, c.env.locks, d.env.locks, Run(VisitSettle, d).env.locks);
  }

  /** What becomes of a state further ahead is what becomes of it after the visit. */
  lemma TailEdges(c: Cursor<BatchState>, v: Visit<BatchState>, i: nat, t': Table)
    requires c.ahead != [] && Sorted(c.ahead) && DistinctIds(c.ahead) && SettleOk(c.env, c.ahead[0].state, v)
    requires i < |Advance(c, v).ahead| && EdgesFollow(Advance(c, v).ahead, i, v.env.locks, t')
    requires |Advance(c, v).ahead| < |c.ahead|
    ensures EdgesFollow(c.ahead, |c.ahead| - |Advance(c, v).ahead| + i, c.env.locks, t')
  {
    var j := |c.ahead| - |Advance(c, v).ahead| + i;
    TailVisible(c, v, i);
    assert c.ahead[j].state.contextID != c.ahead[0].state.contextID;
    EdgesFollowBefore(c.ahead, j, c.env.locks, v.env.locks, t');
  }

  lemma {:induction false} RunEdges(es: seq<Entry>, e0: BatchState, c: Cursor<BatchState>, i: nat, t': Table)
    requires SettlingInv(es, e0, c) && i < |c.ahead| && t' == Run(VisitSettle, c).env.locks
    ensures EdgesFollow(c.ahead, i, c.env.locks, t')
    decreases |c.ahead|
  {
    var d := Step(VisitSettle, c);
    SettlingVisit(es, e0, c);
    if i < |c.ahead| - |d.ahead| {
      PassedRunEdges(es, e0, c, i);
    } else {
      RunEdges(es, e0, d, i - (|c.ahead| - |d.ahead|), t');
      AheadRunEdges(es, e0, c, i, t');
    }
  }

  lemma AheadRunEdges(es: seq<Entry>, e0: BatchState, c: Cursor<BatchState>, i: nat, t': Table)
    requires SettlingInv(es, e0, c) && c.ahead != []
    requires |Step(VisitSettle, c).ahead| < |c.ahead| && |c.ahead| - |Step(VisitSettle, c).ahead| <= i < |c.ahead|
    requires var d := Step(VisitSettle, c); EdgesFollow(d.ahead, i - (|c.ahead| - |d.ahead|), d.env.locks, t')
    ensures EdgesFollow(c.ahead, i, c.env.locks, t')
  {
    HeadPending(es, e0, c);
    SettlingVisit(es, e0, c);
    TailEdges(c, VisitSettle(c.env, c.ahead[0].state), i - (|c.ahead| - |Step(VisitSettle, c).ahead|), t');
  }

  /**
   The table after the settling pass, context by context: a visited state has taken or given up exactly what its message
   says, and every other state's context has the edges it had.
   */
  lemma SettlingPassLocks(es: seq<Entry>, e: BatchState, i: nat)
    requires WellFormed(es) && Consistent(e.locks) && LocksLive(e.locks, es)
    requires AllPending(es, e.locks) && ClaimsDisjoint(es) && i < |es|
    ensures EdgesFollow(es, i, e.locks, SettlingPass(es, e).env.locks)
  {
    var c0 := SettlingStarts(es, e);
    RunEdges(es, e, c0, i, SettlingPass(es, e).env.locks);
  }
}
