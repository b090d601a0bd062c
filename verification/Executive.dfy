/** Messages, per-transaction states and the ordered map that holds them. */
module Executive {
  import opened Types
  import opened Orders

  datatype MessageType = TXHASH | MESSAGE | FINISHED | KEY_LOCK | SEND_BACK | REVERT | REVERT_KEY_LOCK

  datatype Message = Message(
    mtype: MessageType,
    contextID: ContextID,
    frame: FrameSeq,               // call frame the message belongs to
    sender: string,                // `from`
    to: string,
    create: bool,
    salt: Option<int>,
    data: string,
    keyLocks: seq<string>,
    keyLockAcquired: string,
    transactionHash: int,          // 0 when the message carries no transaction hash
    gasAvailable: int,
    newContract: string,
    status: int)

  /** What an executor answers: a message, an error, or nothing. */
  datatype Reply = Response(message: Message) | Failed | NullResponse

  datatype ExecutiveState = ExecutiveState(
    contextID: ContextID,
    callStack: seq<FrameSeq>,      // the last element is the top
    message: Option<Message>,      // None once it has been handed to an executor
    failed: bool,
    currentSeq: FrameSeq,
    skip: bool)

  datatype Receipt = Receipt(gasAvailable: int, newContract: string, status: int)

  // ---------------------------------------------------------------- the ordered map of states

  datatype StateKey = StateKey(contract: string, contextID: ContextID)

  datatype Entry = Entry(key: StateKey, state: ExecutiveState)

  predicate KeyLess(a: StateKey, b: StateKey) {
    StringLess(a.contract, b.contract) || (a.contract == b.contract && a.contextID < b.contextID)
  }

  lemma KeyLessTransitive(a: StateKey, b: StateKey, c: StateKey)
    requires KeyLess(a, b) && KeyLess(b, c)
    ensures KeyLess(a, c)
  {
    if StringLess(a.contract, b.contract) && StringLess(b.contract, c.contract) {
      StringLessTransitive(a.contract, b.contract, c.contract);
    }
  }

  lemma KeyLessTotal(a: StateKey, b: StateKey)
    ensures a == b || KeyLess(a, b) || KeyLess(b, a)
    ensures !(KeyLess(a, b) && KeyLess(b, a))
    ensures !KeyLess(a, a)
  {
    StringLessTotal(a.contract, b.contract);
    StringLessIrreflexive(a.contract);
    StringLessAsymmetric(a.contract, b.contract);
  }

  ghost predicate Sorted(es: seq<Entry>) {
    forall i, j :: 0 <= i < j < |es| ==> KeyLess(es[i].key, es[j].key)
  }

  ghost function Ids(es: seq<Entry>): set<ContextID> {
    set x | x in es :: x.state.contextID
  }

  ghost predicate DistinctIds(es: seq<Entry>) {
    forall i, j :: 0 <= i < j < |es| ==> es[i].state.contextID != es[j].state.contextID
  }

  /** A well-formed map: in key order, each key ends in the id of its state, one state per context. */
  ghost predicate WellFormed(es: seq<Entry>) {
    && Sorted(es)
    && DistinctIds(es)
    && (forall x :: x in es ==> x.key.contextID == x.state.contextID)
  }

  /** Replacing states by other states of the same contexts, key by key. */
  lemma SameKeysWellFormed(es: seq<Entry>, r: seq<Entry>)
    requires WellFormed(es) && |r| == |es|
    requires forall i :: 0 <= i < |es| ==> r[i].key == es[i].key && r[i].state.contextID == es[i].state.contextID
    ensures WellFormed(r) && Ids(r) == Ids(es)
  {
    forall y | y in r ensures y.key.contextID == y.state.contextID && y.state.contextID in Ids(es) {
      var i :| 0 <= i < |r| && r[i] == y;
      assert es[i] in es;
    }
    forall x | x in es ensures x.state.contextID in Ids(r) {
      var i :| 0 <= i < |es| && es[i] == x;
      assert r[i] in r;
    }
  }

  /** Index of the first entry whose key is greater than the bound. */
  function UpperBound(es: seq<Entry>, bound: StateKey): (n: nat)
    ensures n <= |es|
    ensures forall i :: 0 <= i < n ==> !KeyLess(bound, es[i].key)
    ensures n < |es| ==> KeyLess(bound, es[n].key)
    ensures es != [] && !KeyLess(bound, es[0].key) ==> n >= 1
  {
    if es == [] || KeyLess(bound, es[0].key) then 0 else 1 + UpperBound(es[1..], bound)
  }

  /** The greatest possible key of a contract. */
  function GroupEnd(key: StateKey): (r: StateKey)
    ensures !KeyLess(r, key)
  {
    StringLessIrreflexive(key.contract);
    StateKey(key.contract, INT64_MAX)
  }

  /** The upper bound of a contract's greatest key separates that contract's entries from the later ones. */
  lemma UpperBoundIsGroup(es: seq<Entry>, key: StateKey)
    requires Sorted(es) && es != [] && es[0].key == key
    ensures UpperBound(es, GroupEnd(key)) >= 1
    ensures forall i :: 0 <= i < |es| ==>
              (i < UpperBound(es, GroupEnd(key)) <==> es[i].key.contract == key.contract)
  {
    var n := UpperBound(es, GroupEnd(key));
    KeyLessTotal(GroupEnd(key), key);
    StringLessIrreflexive(key.contract);
    forall i | 0 <= i < |es| ensures i < n <==> es[i].key.contract == key.contract {
      if i < n {
        assert !KeyLess(GroupEnd(key), es[i].key);
        assert i > 0 ==> KeyLess(es[0].key, es[i].key);
        StringLessAsymmetric(es[i].key.contract, key.contract);
        StringLessTotal(es[i].key.contract, key.contract);
      } else {
        assert KeyLess(GroupEnd(key), es[n].key);
        if n < i { KeyLessTransitive(GroupEnd(key), es[n].key, es[i].key); }
        assert KeyLess(GroupEnd(key), es[i].key);
      }
    }
  }

  /** Insertion into the map; an entry whose key is taken is lost. */
  function Insert(es: seq<Entry>, x: Entry): seq<Entry> {
    if es == [] then [x]
    else if KeyLess(x.key, es[0].key) then [x] + es
    else if x.key == es[0].key then es
    else [es[0]] + Insert(es[1..], x)
  }

  function InsertAll(es: seq<Entry>, xs: seq<Entry>): seq<Entry>
    decreases |xs|
  {
    if xs == [] then es else InsertAll(Insert(es, xs[0]), xs[1..])
  }

  /** Inserting a context that is not there loses nothing and keeps the order. */
  lemma {:induction false} InsertKeepsOrder(es: seq<Entry>, x: Entry)
    requires Sorted(es)
    requires forall y :: y in es ==> y.key != x.key
    ensures Sorted(Insert(es, x))
    ensures forall y :: y in Insert(es, x) <==> y in es || y == x
  {
    if es == [] {
    } else if KeyLess(x.key, es[0].key) {
      forall j | 0 <= j < |es| ensures KeyLess(x.key, es[j].key) {
        if j > 0 { KeyLessTransitive(x.key, es[0].key, es[j].key); }
      }
    } else {
      assert es[0] in es;
      KeyLessTotal(x.key, es[0].key);
      assert es == [es[0]] + es[1..];
      InsertKeepsOrder(es[1..], x);
      assert forall y :: y in Insert(es[1..], x) ==> KeyLess(es[0].key, y.key);
    }
  }

  /** Distinct ids stated without positions, for a sorted sequence of entries. */
  lemma DistinctIdsByMembers(es: seq<Entry>)
    requires Sorted(es)
    requires forall x, y :: x in es && y in es && x.state.contextID == y.state.contextID ==> x == y
    ensures DistinctIds(es)
  {
    forall i, j | 0 <= i < j < |es| ensures es[i].state.contextID != es[j].state.contextID {
      assert KeyLess(es[i].key, es[j].key);
      KeyLessTotal(es[i].key, es[i].key);
      assert es[i] in es && es[j] in es;
    }
  }

  /** In a concatenation with distinct ids, the head of the second part is apart from everything else. */
  lemma HeadApart(left: seq<Entry>, right: seq<Entry>)
    requires WellFormed(left + right) && right != []
    ensures right[0] in left + right && right[0].state.contextID in Ids(left + right)
    ensures forall i :: 0 <= i < |left| ==> left[i].state.contextID != right[0].state.contextID
    ensures forall i :: 0 < i < |right| ==> right[i].state.contextID != right[0].state.contextID
    ensures Sorted(right) && DistinctIds(right)
  {
    var all := left + right;
    assert forall i :: 0 <= i < |left| ==> all[i] == left[i];
    assert forall i :: 0 <= i < |right| ==> all[|left| + i] == right[i];
  }

  lemma MembersOfDistinctIds(es: seq<Entry>, x: Entry, y: Entry)
    requires DistinctIds(es) && x in es && y in es && x.state.contextID == y.state.contextID
    ensures x == y
  {
    var i :| 0 <= i < |es| && es[i] == x;
    var j :| 0 <= j < |es| && es[j] == y;
  }

  lemma InsertKeepsWellFormed(es: seq<Entry>, x: Entry)
    requires WellFormed(es) && x.key.contextID == x.state.contextID && x.state.contextID !in Ids(es)
    ensures WellFormed(Insert(es, x))
    ensures forall y :: y in Insert(es, x) <==> y in es || y == x
    ensures Ids(Insert(es, x)) == Ids(es) + {x.state.contextID}
  {
    assert forall y :: y in es ==> y.state.contextID in Ids(es);
    InsertKeepsOrder(es, x);
    forall a, b | a in Insert(es, x) && b in Insert(es, x) && a.state.contextID == b.state.contextID ensures a == b {
      if a in es && b in es { MembersOfDistinctIds(es, a, b); }
    }
    DistinctIdsByMembers(Insert(es, x));
  }

  /** Re-inserting states whose contexts are all missing loses none of them. */
  lemma {:induction false} InsertAllKeepsWellFormed(es: seq<Entry>, xs: seq<Entry>)
    requires WellFormed(es) && DistinctIds(xs) && Ids(es) !! Ids(xs)
    requires forall x :: x in xs ==> x.key.contextID == x.state.contextID
    ensures WellFormed(InsertAll(es, xs))
    ensures forall y :: y in InsertAll(es, xs) <==> y in es || y in xs
    ensures Ids(InsertAll(es, xs)) == Ids(es) + Ids(xs)
    decreases |xs|
  {
    if xs != [] {
      assert xs == [xs[0]] + xs[1..];
      assert xs[0].state.contextID in Ids(xs);
      InsertKeepsWellFormed(es, xs[0]);
      forall x | x in xs[1..] ensures x.state.contextID != xs[0].state.contextID {
        var j :| 0 <= j < |xs[1..]| && xs[1..][j] == x;
        assert xs[j + 1] == x;
      }
      assert Ids(xs) == {xs[0].state.contextID} + Ids(xs[1..]);
      InsertAllKeepsWellFormed(Insert(es, xs[0]), xs[1..]);
    }
  }
}
