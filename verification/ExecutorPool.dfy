/** Assignment of contracts to executors, on values: who is registered and which contract goes where. */
module ExecutorPool {

  datatype Pool = Pool(executors: set<string>, placed: map<string, string>)

  ghost function LoadSet(p: Pool, e: string): set<string> {
    set c | c in p.placed && p.placed[c] == e
  }

  ghost function Load(p: Pool, e: string): nat {
    |LoadSet(p, e)|
  }

  ghost predicate LeastLoaded(p: Pool, e: string) {
    e in p.executors && forall f :: f in p.executors ==> Load(p, e) <= Load(p, f)
  }

  /** Contracts go to registered executors only. */
  ghost predicate WellFormed(p: Pool) {
    forall c :: c in p.placed ==> p.placed[c] in p.executors
  }

  /** What dispatching a contract may do: stick to the executor it has, or take a least loaded one. */
  ghost predicate Dispatches(p: Pool, c: string, e: string, q: Pool) {
    if c in p.placed then q == p && e == p.placed[c]
    else LeastLoaded(p, e) && q == p.(placed := p.placed[c := e])
  }

  /** What is left of a pool when an executor leaves. */
  ghost function Without(p: Pool, e: string): Pool {
    Pool(p.executors - {e}, map c | c in p.placed && p.placed[c] != e :: p.placed[c])
  }

  /** The calls that change a pool. */
  datatype Op = Add(executor: string) | Dispatch(contract: string) | Remove(executor: string)

  /** One call. A name that is taken is not added again, an unknown one is not removed, and nobody dispatches to nobody. */
  ghost predicate Takes(p: Pool, op: Op, q: Pool) {
    match op
    case Add(e) => q == p.(executors := p.executors + {e})
    case Dispatch(c) => if p.executors == {} then q == p else exists e :: Dispatches(p, c, e, q)
    case Remove(e) => q == if e in p.executors then Without(p, e) else p
  }

  /** No two executors differ by more than d contracts. */
  ghost predicate SpreadWithin(p: Pool, d: nat) {
    forall e, f :: e in p.executors && f in p.executors ==> Load(p, e) <= Load(p, f) + d
  }

  lemma LoadAfterAssign(p: Pool, c: string, e: string, f: string)
    requires c !in p.placed
    ensures Load(p.(placed := p.placed[c := e]), f) == Load(p, f) + if e == f then 1 else 0
  {
    var q := p.(placed := p.placed[c := e]);
    assert LoadSet(q, f) == LoadSet(p, f) + if e == f then {c} else {};
  }

  /** Dispatching never widens the spread of the loads beyond one, or beyond what it was. */
  lemma DispatchKeepsSpread(p: Pool, c: string, e: string, q: Pool, d: nat)
    requires Dispatches(p, c, e, q) && SpreadWithin(p, d) && d >= 1
    ensures SpreadWithin(q, d)
  {
    if c !in p.placed {
      forall x, f | x in q.executors && f in q.executors ensures Load(q, x) <= Load(q, f) + d {
        LoadAfterAssign(p, c, e, x);
        LoadAfterAssign(p, c, e, f);
      }
    }
  }

  /** Removing an executor with its contracts leaves the loads of the others alone. */
  lemma RemoveKeepsSpread(p: Pool, e: string, d: nat)
    requires SpreadWithin(p, d)
    ensures SpreadWithin(Without(p, e), d)
  {
    var q := Without(p, e);
    forall f | f in q.executors ensures Load(q, f) == Load(p, f) {
      assert LoadSet(q, f) == LoadSet(p, f);
    }
  }

  /** In a pool without assignments the spread is zero. */
  lemma FreshPoolIsEven(p: Pool)
    requires p.placed == map[]
    ensures SpreadWithin(p, 0)
  {
    forall e ensures Load(p, e) == 0 {
      assert LoadSet(p, e) == {};
    }
  }

  // ---------------------------------------------------------------- runs

  /** A run: the pool before each call, and after the last. */
  ghost predicate IsRun(pools: seq<Pool>, ops: seq<Op>) {
    && |pools| == |ops| + 1
    && forall i :: 0 <= i < |ops| ==> Takes(pools[i], ops[i], pools[i + 1])
  }

  /** The call brings in an executor that was not there. */
  predicate Widens(p: Pool, op: Op) {
    op.Add? && op.executor !in p.executors
  }

  /** A call takes a contract away from its executor exactly when it removes that executor. */
  lemma TakesSticks(p: Pool, op: Op, q: Pool, c: string)
    requires WellFormed(p) && Takes(p, op, q) && c in p.placed
    ensures c in q.placed <==> op != Remove(p.placed[c])
    ensures c in q.placed ==> q.placed[c] == p.placed[c]
  {
  }

  lemma TakesKeepsWellFormed(p: Pool, op: Op, q: Pool)
    requires WellFormed(p) && Takes(p, op, q)
    ensures WellFormed(q)
  {
  }

  /** Only a new executor can widen the spread of the loads beyond one, or beyond what it was. */
  lemma TakesKeepsSpread(p: Pool, op: Op, q: Pool, d: nat)
    requires Takes(p, op, q) && !Widens(p, op) && SpreadWithin(p, d) && d >= 1
    ensures SpreadWithin(q, d)
  {
    match op {
      case Add(e) => assert q == p;
      case Dispatch(c) =>
        if p.executors != {} {
          var e :| Dispatches(p, c, e, q);
          DispatchKeepsSpread(p, c, e, q, d);
        }
      case Remove(e) => RemoveKeepsSpread(p, e, d);
    }
  }

  lemma {:induction false} RunKeepsWellFormed(pools: seq<Pool>, ops: seq<Op>, j: nat)
    requires IsRun(pools, ops) && WellFormed(pools[0]) && j <= |ops|
    ensures WellFormed(pools[j])
  {
    if j > 0 {
      RunKeepsWellFormed(pools, ops, j - 1);
      TakesKeepsWellFormed(pools[j - 1], ops[j - 1], pools[j]);
    }
  }

  ghost predicate RemovedBetween(ops: seq<Op>, i: nat, j: nat, e: string)
    requires j <= |ops|
  {
    exists k :: i <= k < j && ops[k] == Remove(e)
  }

  /**
   Stickiness over any run of additions, dispatches and removals: a contract that has an executor keeps it for as long
   as that executor is not removed.
   */
  lemma {:induction false} PlacedUntilRemoved(pools: seq<Pool>, ops: seq<Op>, i: nat, j: nat, c: string)
    requires IsRun(pools, ops) && WellFormed(pools[0]) && i <= j <= |ops| && c in pools[i].placed
    ensures !RemovedBetween(ops, i, j, pools[i].placed[c]) ==> c in pools[j].placed && pools[j].placed[c] == pools[i].placed[c]
    decreases j
  {
    if i < j {
      PlacedUntilRemoved(pools, ops, i, j - 1, c);
      RunKeepsWellFormed(pools, ops, j - 1);
      if !RemovedBetween(ops, i, j, pools[i].placed[c]) {
        assert !RemovedBetween(ops, i, j - 1, pools[i].placed[c]) && ops[j - 1] != Remove(pools[i].placed[c]);
        TakesSticks(pools[j - 1], ops[j - 1], pools[j], c);
      }
    }
  }

  /**
   What a dispatch in the middle of any run does: with an executor at hand, the contract has one afterwards, which is
   a least loaded one if the contract is new, and a later dispatch of the contract finds the same one unless it was
   removed in between.
   */
  lemma DispatchedStays(pools: seq<Pool>, ops: seq<Op>, i: nat, j: nat, c: string)
    requires IsRun(pools, ops) && WellFormed(pools[0]) && i < j <= |ops|
    requires ops[i] == Dispatch(c) && pools[i].executors != {}
    ensures c in pools[i + 1].placed && pools[i + 1].placed[c] in pools[i].executors
    ensures c !in pools[i].placed ==> LeastLoaded(pools[i], pools[i + 1].placed[c])
    ensures !RemovedBetween(ops, i + 1, j, pools[i + 1].placed[c]) ==>
              c in pools[j].placed && pools[j].placed[c] == pools[i + 1].placed[c]
  {
    RunKeepsWellFormed(pools, ops, i);
    assert Takes(pools[i], ops[i], pools[i + 1]);
    PlacedUntilRemoved(pools, ops, i + 1, j, c);
  }

  /** Over any run that brings in no new executor the loads stay as even as they were, or within one. */
  lemma {:induction false} RunKeepsSpread(pools: seq<Pool>, ops: seq<Op>, i: nat, j: nat, d: nat)
    requires IsRun(pools, ops) && i <= j <= |ops| && d >= 1 && SpreadWithin(pools[i], d)
    requires forall k :: i <= k < j ==> !Widens(pools[k], ops[k])
    ensures SpreadWithin(pools[j], d)
    decreases j
  {
    if i < j {
      RunKeepsSpread(pools, ops, i, j - 1, d);
      TakesKeepsSpread(pools[j - 1], ops[j - 1], pools[j], d);
    }
  }

  /** So executors that were all there before the first dispatch never differ by more than one contract. */
  lemma EvenFromTheStart(pools: seq<Pool>, ops: seq<Op>, i: nat, j: nat)
    requires IsRun(pools, ops) && i <= j <= |ops| && pools[i].placed == map[]
    requires forall k :: i <= k < j ==> !Widens(pools[k], ops[k])
    ensures SpreadWithin(pools[j], 1)
  {
    FreshPoolIsEven(pools[i]);
    assert SpreadWithin(pools[i], 1);
    RunKeepsSpread(pools, ops, i, j, 1);
  }
}
