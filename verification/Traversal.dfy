/**
 The traversal of the executive states under an arbitrary callback: the callback sees the states in key
 order, may change the visited state and an environment of its own, and says what to do next.
 */
module Traversal {
  import opened Types
  import opened Executive

  datatype Hint = PASS | DELETE | SKIP | UPDATE | END

  /** What one call of the callback produced. */
  datatype Visit<E> = Visit(env: E, state: ExecutiveState, hint: Hint)

  type Callback<!E> = (E, ExecutiveState) -> Visit<E>

  datatype Visited = Visited(key: StateKey, hint: Hint)

  /**
   A traversal in progress: the part of the map behind the iterator, the part still ahead, the nodes taken
   out for re-insertion (latest first), a record of the visits, and the callback's environment.
   */
  datatype Cursor<E> = Cursor(
    behind: seq<Entry>, ahead: seq<Entry>, taken: seq<Entry>, trace: seq<Visited>, env: E)

  /** How the traversal goes on after a visit to the state ahead. */
  ghost function Advance<E>(c: Cursor<E>, v: Visit<E>): Cursor<E>
    requires c.ahead != []
  {
    var x := c.ahead[0];
    var y := Entry(x.key, v.state);
    var trace := c.trace + [Visited(x.key, v.hint)];
    match v.hint
    case PASS => Cursor(c.behind + [y], c.ahead[1..], c.taken, trace, v.env)
    case DELETE => Cursor(c.behind, c.ahead[1..], c.taken, trace, v.env)
    case SKIP =>
      var n := UpperBound(c.ahead, GroupEnd(x.key));
      Cursor(c.behind + [y] + c.ahead[1..n], c.ahead[n..], c.taken, trace, v.env)
    case UPDATE => Cursor(c.behind, c.ahead[1..], [y] + c.taken, trace, v.env)
    case END => Cursor(c.behind + [y] + c.ahead[1..], [], c.taken, trace, v.env)
  }

  ghost function Step<E>(f: Callback<E>, c: Cursor<E>): Cursor<E>
    requires c.ahead != []
  {
    Advance(c, f(c.env, c.ahead[0].state))
  }

  ghost function Run<E>(f: Callback<E>, c: Cursor<E>): Cursor<E>
    decreases |c.ahead|
  {
    if c.ahead == [] then c else Run(f, Step(f, c))
  }

  /**
   The key under which a state is put back: the contract its message is addressed to. The program reads the address
   without asking whether there is a message; no pass of a batch ever takes out a state that has none.
   */
  function Rekey(x: Entry): Entry {
    Entry(StateKey(if x.state.message.Some? then x.state.message.value.to else "", x.state.contextID), x.state)
  }

  function RekeyAll(xs: seq<Entry>): seq<Entry> {
    seq(|xs|, i requires 0 <= i < |xs| => Rekey(xs[i]))
  }

  datatype Traversed<E> = Traversed(entries: seq<Entry>, trace: seq<Visited>, env: E)

  /** The whole traversal: walk, then put the taken nodes back under their new keys. */
  ghost function Traverse<E>(f: Callback<E>, es: seq<Entry>, env: E): Traversed<E> {
    var c := Run(f, Cursor([], es, [], [], env));
    Traversed(InsertAll(c.behind, RekeyAll(c.taken)), c.trace, c.env)
  }

  // ---------------------------------------------------------------- conservation

  /** A callback may change anything about a state except whose state it is. */
  ghost predicate KeepsContext<E(!new)>(f: Callback<E>) {
    forall e, s :: f(e, s).state.contextID == s.contextID
  }

  ghost function Deleted(trace: seq<Visited>): set<ContextID> {
    set v | v in trace && v.hint.DELETE? :: v.key.contextID
  }

  ghost predicate Conserved<E>(es: seq<Entry>, c: Cursor<E>) {
    && WellFormed(c.behind + c.ahead)
    && DistinctIds(c.taken) && (forall x :: x in c.taken ==> x.key.contextID == x.state.contextID)
    && Ids(c.behind + c.ahead) !! Ids(c.taken)
    && Ids(c.behind + c.ahead) + Ids(c.taken) == Ids(es) - Deleted(c.trace)
  }

  /** Replacing the state at one position by another state of the same context. */
  lemma ReplaceKeepsWellFormed(es: seq<Entry>, i: nat, y: Entry)
    requires WellFormed(es) && i < |es| && y.key == es[i].key && y.state.contextID == es[i].state.contextID
    ensures WellFormed(es[i := y]) && Ids(es[i := y]) == Ids(es)
  {
    SameKeysWellFormed(es, es[i := y]);
  }

  lemma RemoveMember(es: seq<Entry>, i: nat, x: Entry)
    requires DistinctIds(es) && i < |es|
    ensures x in es[..i] + es[i + 1..] <==> x in es && x.state.contextID != es[i].state.contextID
  {
    var r := es[..i] + es[i + 1..];
    if x in r {
      if j :| 0 <= j < i && es[j] == x {
      } else {
        var j :| 0 <= j < |es[i + 1..]| && es[i + 1..][j] == x;
        assert es[i + 1 + j] == x;
      }
    }
    if x in es && x.state.contextID != es[i].state.contextID {
      var j :| 0 <= j < |es| && es[j] == x;
      assert r[if j < i then j else j - 1] == x;
    }
  }

  lemma RemoveKeepsWellFormed(es: seq<Entry>, i: nat)
    requires WellFormed(es) && i < |es|
    ensures WellFormed(es[..i] + es[i + 1..])
    ensures Ids(es[..i] + es[i + 1..]) == Ids(es) - {es[i].state.contextID}
  {
    var r := es[..i] + es[i + 1..];
    forall x ensures x in r <==> x in es && x.state.contextID != es[i].state.contextID { RemoveMember(es, i, x); }
    forall j, k | 0 <= j < k < |r|
      ensures KeyLess(r[j].key, r[k].key) && r[j].state.contextID != r[k].state.contextID
    {
      var j', k' := if j < i then j else j + 1, if k < i then k else k + 1;
      assert r[j] == es[j'] && r[k] == es[k'] && j' < k';
    }
  }

  lemma DeletedGrows(trace: seq<Visited>, v: Visited)
    ensures Deleted(trace + [v]) == Deleted(trace) + (if v.hint.DELETE? then {v.key.contextID} else {})
  {
    assert forall x :: x in trace + [v] <==> x in trace || x == v;
  }

  /** A visit that leaves the node in the map replaces its state, wherever the iterator goes next. */
  lemma AdvanceInPlace<E>(c: Cursor<E>, v: Visit<E>)
    requires c.ahead != [] && v.hint in {PASS, SKIP, END}
    ensures var d := Advance(c, v);
            d.behind + d.ahead == (c.behind + c.ahead)[|c.behind| := Entry(c.ahead[0].key, v.state)] && d.taken == c.taken
  {
  }

  lemma AdvanceTakesOut<E>(c: Cursor<E>, v: Visit<E>)
    requires c.ahead != [] && v.hint in {DELETE, UPDATE}
    ensures var d, all, n := Advance(c, v), c.behind + c.ahead, |c.behind|;
            d.behind + d.ahead == all[..n] + all[n + 1..]
  {
  }

  lemma TakenGrows(taken: seq<Entry>, y: Entry)
    requires DistinctIds(taken) && y.state.contextID !in Ids(taken)
    ensures DistinctIds([y] + taken) && Ids([y] + taken) == Ids(taken) + {y.state.contextID}
  {
    forall z | z in taken ensures z.state.contextID != y.state.contextID {
      assert z.state.contextID in Ids(taken);
    }
  }

  lemma AdvanceConserves<E>(es: seq<Entry>, c: Cursor<E>, v: Visit<E>)
    requires Conserved(es, c) && c.ahead != [] && v.state.contextID == c.ahead[0].state.contextID
    ensures Conserved(es, Advance(c, v))
    ensures Ids(Advance(c, v).behind + Advance(c, v).ahead) ==
            if v.hint in {DELETE, UPDATE} then Ids(c.behind + c.ahead) - {v.state.contextID} else Ids(c.behind + c.ahead)
  {
    var x := c.ahead[0];
    var y := Entry(x.key, v.state);
    var n, all := |c.behind|, c.behind + c.ahead;
    assert all[n] == x && x in all;
    DeletedGrows(c.trace, Visited(x.key, v.hint));
    if v.hint in {PASS, SKIP, END} {
      AdvanceInPlace(c, v);
      ReplaceKeepsWellFormed(all, n, y);
    } else {
      AdvanceTakesOut(c, v);
      RemoveKeepsWellFormed(all, n);
      assert x.state.contextID in Ids(all);
      if v.hint.UPDATE? { TakenGrows(c.taken, y); }
    }
  }

  lemma {:induction false} RunConserves<E(!new)>(f: Callback<E>, es: seq<Entry>, c: Cursor<E>)
    requires KeepsContext(f) && Conserved(es, c)
    ensures Conserved(es, Run(f, c)) && Run(f, c).ahead == []
    decreases |c.ahead|
  {
    if c.ahead != [] {
      AdvanceConserves(es, c, f(c.env, c.ahead[0].state));
      RunConserves(f, es, Step(f, c));
    }
  }

  lemma RekeyAllIds(xs: seq<Entry>)
    ensures Ids(RekeyAll(xs)) == Ids(xs)
    ensures DistinctIds(xs) ==> DistinctIds(RekeyAll(xs))
    ensures forall x :: x in RekeyAll(xs) ==> x.key.contextID == x.state.contextID
    ensures forall x :: x in xs ==> Rekey(x) in RekeyAll(xs)
    ensures forall y :: y in RekeyAll(xs) ==> exists x :: x in xs && y == Rekey(x)
  {
    var r := RekeyAll(xs);
    forall x | x in xs ensures Rekey(x) in r {
      var j :| 0 <= j < |xs| && xs[j] == x;
      assert r[j] == Rekey(x);
    }
    forall y | y in r ensures exists x :: x in xs && y == Rekey(x) {
      var j :| 0 <= j < |r| && r[j] == y;
      assert xs[j] in xs;
    }
  }

  /**
   Whatever the callback does, the contexts after a traversal are the contexts before it minus the deleted
   ones: no state is lost when it is put back, because no two states ever compete for a key.
   */
  lemma TraversalConservesContexts<E(!new)>(f: Callback<E>, es: seq<Entry>, env: E)
    requires KeepsContext(f) && WellFormed(es)
    ensures WellFormed(Traverse(f, es, env).entries)
    ensures Ids(Traverse(f, es, env).entries) == Ids(es) - Deleted(Traverse(f, es, env).trace)
  {
    var c0 := Cursor([], es, [], [], env);
    assert c0.behind + c0.ahead == es;
    RunConserves(f, es, c0);
    ConservedEnds(es, Run(f, c0));
  }

  lemma ConservedEnds<E>(es: seq<Entry>, c: Cursor<E>)
    requires Conserved(es, c) && c.ahead == []
    ensures WellFormed(InsertAll(c.behind, RekeyAll(c.taken)))
    ensures Ids(InsertAll(c.behind, RekeyAll(c.taken))) == Ids(es) - Deleted(c.trace)
  {
    assert c.behind + c.ahead == c.behind;
    RekeyAllIds(c.taken);
    InsertAllKeepsWellFormed(c.behind, RekeyAll(c.taken));
  }

  // ---------------------------------------------------------------- nodes taken out

  /** A callback asks for a node to be taken out only if the node has the message that says where it is put back. */
  ghost predicate MovesWithMessage<E(!new)>(f: Callback<E>) {
    forall e, s :: f(e, s).hint.UPDATE? ==> f(e, s).state.message.Some?
  }

  ghost predicate HaveMessages(xs: seq<Entry>) {
    forall x :: x in xs ==> x.state.message.Some?
  }

  lemma {:induction false} RunTakesMessages<E(!new)>(f: Callback<E>, c: Cursor<E>)
    requires MovesWithMessage(f) && HaveMessages(c.taken)
    ensures HaveMessages(Run(f, c).taken)
    decreases |c.ahead|
  {
    if c.ahead != [] { RunTakesMessages(f, Step(f, c)); }
  }

  // ---------------------------------------------------------------- order of the visits

  /** An earlier visit that keeps the traversal away from a key. */
  ghost predicate Blocks(v: Visited, key: StateKey) {
    KeyLess(v.key, key) && (v.hint.END? || (v.hint.SKIP? && v.key.contract == key.contract))
  }

  ghost predicate Blocked(trace: seq<Visited>, key: StateKey) {
    exists v :: v in trace && Blocks(v, key)
  }

  ghost predicate WasVisited(trace: seq<Visited>, key: StateKey) {
    exists v :: v in trace && v.key == key
  }

  /** Entries already passed are visited exactly when no earlier visit blocks them. */
  ghost predicate Accounts<E>(es: seq<Entry>, c: Cursor<E>) {
    && |c.ahead| <= |es|
    && c.ahead == es[|es| - |c.ahead|..]
    && (forall i, j :: 0 <= i < j < |c.trace| ==> KeyLess(c.trace[i].key, c.trace[j].key))
    && (forall v, x :: v in c.trace && x in c.ahead ==> KeyLess(v.key, x.key) && !Blocks(v, x.key))
    && (forall i :: 0 <= i < |es| - |c.ahead| ==> (WasVisited(c.trace, es[i].key) <==> !Blocked(c.trace, es[i].key)))
  }

  /** What is ahead after a visit is a proper suffix of what was ahead before. */
  lemma AdvanceSuffix<E>(c: Cursor<E>, v: Visit<E>) returns (shift: nat)
    requires c.ahead != []
    ensures 0 < shift <= |c.ahead| && Advance(c, v).ahead == c.ahead[shift..]
    ensures v.hint.SKIP? ==> shift == UpperBound(c.ahead, GroupEnd(c.ahead[0].key))
    ensures v.hint.END? ==> shift == |c.ahead|
  {
    shift := |c.ahead| - |Advance(c, v).ahead|;
  }

  /** What is ahead after a visit lies after the visit, and the visit does not block it. */
  lemma AdvanceLeavesAhead<E>(c: Cursor<E>, v: Visit<E>, z: Entry)
    requires Sorted(c.ahead) && c.ahead != [] && z in Advance(c, v).ahead
    ensures z in c.ahead && KeyLess(c.ahead[0].key, z.key)
    ensures !Blocks(Visited(c.ahead[0].key, v.hint), z.key)
  {
    var shift := AdvanceSuffix(c, v);
    MemberOfSuffix(c.ahead, shift, z);
    if v.hint.SKIP? { UpperBoundIsGroup(c.ahead, c.ahead[0].key); }
  }

  lemma MemberOfSuffix(es: seq<Entry>, shift: nat, z: Entry)
    requires Sorted(es) && 0 < shift <= |es| && z in es[shift..]
    ensures z in es && KeyLess(es[0].key, z.key) && exists i :: shift <= i < |es| && es[i] == z
  {
    var j :| 0 <= j < |es[shift..]| && es[shift..][j] == z;
    assert z == es[shift + j];
  }

  lemma AdvanceLeavesEarlier<E>(es: seq<Entry>, c: Cursor<E>, v: Visit<E>, u: Visited, z: Entry)
    requires Accounts(es, c) && c.ahead != [] && Sorted(c.ahead)
    requires u in c.trace && z in Advance(c, v).ahead
    ensures KeyLess(u.key, z.key) && !Blocks(u, z.key)
  {
    AdvanceLeavesAhead(c, v, z);
  }

  lemma AdvanceLeavesAll<E>(es: seq<Entry>, c: Cursor<E>, v: Visit<E>)
    requires Sorted(es) && Accounts(es, c) && c.ahead != []
    ensures forall u, z :: u in c.trace + [Visited(c.ahead[0].key, v.hint)] && z in Advance(c, v).ahead ==>
              KeyLess(u.key, z.key) && !Blocks(u, z.key)
  {
    SuffixSorted(es, |es| - |c.ahead|);
    forall u, z | u in c.trace + [Visited(c.ahead[0].key, v.hint)] && z in Advance(c, v).ahead
      ensures KeyLess(u.key, z.key) && !Blocks(u, z.key)
    {
      if u in c.trace { AdvanceLeavesEarlier(es, c, v, u, z); } else { AdvanceLeavesAhead(c, v, z); }
    }
  }

  lemma SuffixSorted(es: seq<Entry>, k: nat)
    requires Sorted(es) && k <= |es|
    ensures Sorted(es[k..])
  {
  }

  /** What a visit jumps over is blocked by it. */
  lemma AdvanceJumpsBlocked<E>(c: Cursor<E>, v: Visit<E>, j: nat)
    requires Sorted(c.ahead) && c.ahead != [] && 0 < j < |c.ahead| - |Advance(c, v).ahead|
    ensures Blocks(Visited(c.ahead[0].key, v.hint), c.ahead[j].key)
  {
    UpperBoundIsGroup(c.ahead, c.ahead[0].key);
    assert KeyLess(c.ahead[0].key, c.ahead[j].key);
  }

  lemma AdvanceShape<E>(es: seq<Entry>, c: Cursor<E>, v: Visit<E>)
    requires c.ahead != [] && |c.ahead| <= |es| && c.ahead == es[|es| - |c.ahead|..]
    ensures |Advance(c, v).ahead| < |c.ahead|
    ensures Advance(c, v).ahead == es[|es| - |Advance(c, v).ahead|..]
    ensures Advance(c, v).trace == c.trace + [Visited(c.ahead[0].key, v.hint)]
  {
  }

  lemma StepAccounts<E(!new)>(f: Callback<E>, es: seq<Entry>, c: Cursor<E>)
    requires Sorted(es) && Accounts(es, c) && c.ahead != []
    ensures Accounts(es, Step(f, c))
  {
    var v := f(c.env, c.ahead[0].state);
    AdvanceAccounts(es, c, v);
  }

  lemma AdvanceAccounts<E>(es: seq<Entry>, c: Cursor<E>, v: Visit<E>)
    requires Sorted(es) && Accounts(es, c) && c.ahead != []
    ensures Accounts(es, Advance(c, v))
  {
    AdvanceShape(es, c, v);
    AdvanceLeavesAll(es, c, v);
    AdvancePassed(es, c, v);
    AccountsAfter(es, c, Visited(c.ahead[0].key, v.hint), Advance(c, v));
  }

  lemma AccountsAfter<E>(es: seq<Entry>, c: Cursor<E>, w: Visited, d: Cursor<E>)
    requires Accounts(es, c) && c.ahead != [] && w.key == c.ahead[0].key
    requires d.trace == c.trace + [w]
    requires |d.ahead| <= |es| && d.ahead == es[|es| - |d.ahead|..]
    requires forall u, z :: u in d.trace && z in d.ahead ==> KeyLess(u.key, z.key) && !Blocks(u, z.key)
    requires forall i :: 0 <= i < |es| - |d.ahead| ==> (WasVisited(d.trace, es[i].key) <==> !Blocked(d.trace, es[i].key))
    ensures Accounts(es, d)
  {
    assert c.ahead[0] in c.ahead;
    forall i, j | 0 <= i < j < |d.trace| ensures KeyLess(d.trace[i].key, d.trace[j].key) {
      if j == |c.trace| { assert d.trace[i] in c.trace && d.trace[j] == w; }
    }
  }

  lemma AdvancePassed<E>(es: seq<Entry>, c: Cursor<E>, v: Visit<E>)
    requires Sorted(es) && Accounts(es, c) && c.ahead != []
    ensures forall i :: 0 <= i < |es| - |Advance(c, v).ahead| ==>
              (WasVisited(Advance(c, v).trace, es[i].key) <==> !Blocked(Advance(c, v).trace, es[i].key))
  {
    var k, k' := |es| - |c.ahead|, |es| - |Advance(c, v).ahead|;
    var w := Visited(c.ahead[0].key, v.hint);
    AdvanceShape(es, c, v);
    forall i | 0 <= i < k' ensures WasVisited(c.trace + [w], es[i].key) <==> !Blocked(c.trace + [w], es[i].key) {
      if i > k { AdvanceJumpsTo(es, c, v, i); }
      StepAccountsAt(es, c, w, i, k');
    }
  }

  lemma AdvanceJumpsTo<E>(es: seq<Entry>, c: Cursor<E>, v: Visit<E>, i: nat)
    requires c.ahead != [] && |c.ahead| <= |es| && c.ahead == es[|es| - |c.ahead|..] && Sorted(c.ahead)
    requires |es| - |c.ahead| < i < |es| - |Advance(c, v).ahead|
    ensures Blocks(Visited(c.ahead[0].key, v.hint), es[i].key)
  {
    var k := |es| - |c.ahead|;
    assert es[i] == c.ahead[i - k];
    AdvanceJumpsBlocked(c, v, i - k);
  }

  lemma StepAccountsAt<E>(es: seq<Entry>, c: Cursor<E>, w: Visited, i: nat, k': nat)
    requires Sorted(es) && Accounts(es, c) && c.ahead != []
    requires w.key == c.ahead[0].key
    requires i < k' <= |es| && |es| - |c.ahead| < k'
    requires |es| - |c.ahead| < i ==> Blocks(w, es[i].key)
    ensures WasVisited(c.trace + [w], es[i].key) <==> !Blocked(c.trace + [w], es[i].key)
  {
    var k, key, trace := |es| - |c.ahead|, es[i].key, c.trace + [w];
    assert forall u :: u in trace <==> u in c.trace || u == w;
    assert es[k] == c.ahead[0] && c.ahead[0] in c.ahead;
    KeyLessTotal(w.key, key);
    if i < k {
      assert KeyLess(es[i].key, es[k].key);
      assert WasVisited(trace, key) <==> WasVisited(c.trace, key);
      assert Blocked(trace, key) <==> Blocked(c.trace, key);
    } else if i == k {
      assert w in trace;
      assert !Blocked(trace, key);
    } else {
      assert w in trace && Blocked(trace, key);
      assert es[i] == c.ahead[i - k] && es[i] in c.ahead;
      if u :| u in trace && u.key == key {
        KeyLessTotal(u.key, key);
        assert false;
      }
    }
  }

  lemma {:induction false} RunAccounts<E(!new)>(f: Callback<E>, es: seq<Entry>, c: Cursor<E>)
    requires Sorted(es) && Accounts(es, c)
    ensures Accounts(es, Run(f, c)) && Run(f, c).ahead == []
    decreases |c.ahead|
  {
    if c.ahead != [] {
      StepAccounts(f, es, c);
      RunAccounts(f, es, Step(f, c));
    }
  }

  /**
   States are visited in strictly increasing key order, so at most once, and a state goes unvisited exactly
   when an earlier visit ended the traversal or skipped its contract.
   */
  lemma TraversalVisitsInOrder<E(!new)>(f: Callback<E>, es: seq<Entry>, env: E)
    requires Sorted(es)
    ensures var trace := Traverse(f, es, env).trace;
            && (forall i, j :: 0 <= i < j < |trace| ==> KeyLess(trace[i].key, trace[j].key))
            && (forall x :: x in es ==> (WasVisited(trace, x.key) <==> !Blocked(trace, x.key)))
  {
    var c0 := Cursor([], es, [], [], env);
    RunAccounts(f, es, c0);
    var trace := Traverse(f, es, env).trace;
    forall x | x in es ensures WasVisited(trace, x.key) <==> !Blocked(trace, x.key) {
      var i :| 0 <= i < |es| && es[i] == x;
    }
  }
}
