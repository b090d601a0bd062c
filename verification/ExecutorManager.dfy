/**
 The executor manager: a map from contracts to executors, a map from names to executors, and a queue that yields
 an executor with the fewest contracts. The three containers share the executor records.
 */
module ExecutorManager {
  import opened Types
  import opened ExecutorPool

  class ExecutorInfo {
    const name: string
    const executor: int
    var contracts: set<string>

    constructor (name: string, executor: int)
      ensures this.name == name && this.executor == executor && contracts == {}
    {
      this.name, this.executor, contracts := name, executor, {};
    }
  }

  /** Contracts with the names of their executors. */
  ghost function Names(cs: map<string, ExecutorInfo>): map<string, string> {
    map c | c in cs :: cs[c].name
  }

  lemma NamesGrow(cs: map<string, ExecutorInfo>, contract: string, info: ExecutorInfo)
    ensures Names(cs[contract := info]) == Names(cs)[contract := info.name]
  {
  }

  lemma NamesShrink(cs: map<string, ExecutorInfo>, ns: map<string, ExecutorInfo>, name: string)
    requires name in ns && (forall n :: n in ns ==> ns[n].name == n) && forall c :: c in cs ==> cs[c] in ns.Values
    ensures Names(map c | c in cs && cs[c] != ns[name] :: cs[c]) ==
            map c | c in Names(cs) && Names(cs)[c] != name :: Names(cs)[c]
  {
    forall c | c in cs ensures cs[c] != ns[name] <==> cs[c].name != name {
      var n :| n in ns && ns[n] == cs[c];
    }
  }

  lemma ValuesGrow(m: map<string, ExecutorInfo>, name: string, info: ExecutorInfo)
    requires name !in m
    ensures m[name := info].Values == m.Values + {info}
  {
    var u := m[name := info];
    forall x: ExecutorInfo | x in m.Values + {info} ensures x in u.Values {
      if x in m.Values {
        var n :| n in m && m[n] == x;
        assert u[n] == x;
      } else {
        assert u[name] == x;
      }
    }
  }

  class ExecutorManager {
    var contract2Executor: map<string, ExecutorInfo>
    var name2Executor: map<string, ExecutorInfo>
    var queue: seq<ExecutorInfo>

    /** The three containers agree. */
    ghost predicate Valid()
      reads this, name2Executor.Values
    {
      && (forall n :: n in name2Executor ==> name2Executor[n].name == n)
      && (forall i, j :: 0 <= i < j < |queue| ==> queue[i] != queue[j])
      && (forall x :: x in queue ==> x in name2Executor.Values)
      && (forall x :: x in name2Executor.Values ==> x in queue)
      && (forall c :: c in contract2Executor ==> contract2Executor[c] in name2Executor.Values)
      && (forall x :: x in name2Executor.Values ==> x.contracts == Owned(x))
    }

    ghost function Owned(x: ExecutorInfo): set<string>
      reads this
    {
      set c | c in contract2Executor && contract2Executor[c] == x
    }

    ghost function State(): Pool
      reads this
    {
      Pool(name2Executor.Keys, Names(contract2Executor))
    }

    constructor ()
      ensures Valid() && State() == Pool({}, map[])
    {
      contract2Executor, name2Executor, queue := map[], map[], [];
    }

    /** Registers an executor; the answer is whether the name is taken, which the program reports by throwing. */
    method AddExecutor(name: string, executor: int) returns (exists_: bool)
      requires Valid()
      modifies this
      ensures Valid()
      ensures Takes(old(State()), Add(name), State())
      ensures exists_ <==> name in old(name2Executor)
      ensures State() == old(State()).(executors := old(State()).executors + {name})
      ensures !exists_ ==> fresh(name2Executor[name]) && name2Executor[name].executor == executor
      ensures forall n :: n in old(name2Executor) ==> n in name2Executor && name2Executor[n] == old(name2Executor[n])
    {
      if name in name2Executor {
        return true;
      }
      var info := new ExecutorInfo(name, executor);
      ghost var before := name2Executor;
      name2Executor := name2Executor[name := info];
      queue := queue + [info];
      assert name2Executor.Values == before.Values + {info} by {
        ValuesGrow(before, name, info);
      }
      assert Owned(info) == {};
      return false;
    }

    /** Position of an executor with the fewest contracts. */
    method Top() returns (k: nat)
      requires queue != []
      ensures k < |queue| && forall i :: 0 <= i < |queue| ==> |queue[k].contracts| <= |queue[i].contracts|
    {
      k := 0;
      for i := 1 to |queue|
        invariant k < i
        invariant forall j :: 0 <= j < i ==> |queue[k].contracts| <= |queue[j].contracts|
      {
        if |queue[i].contracts| < |queue[k].contracts| { k := i; }
      }
    }

    /** The number of contracts of a record is the load of its executor. */
    lemma LoadOf(x: ExecutorInfo)
      requires Valid() && x in name2Executor.Values
      ensures |x.contracts| == Load(State(), x.name)
    {
      var n :| n in name2Executor && name2Executor[n] == x;
      forall c ensures c in LoadSet(State(), x.name) <==> c in Owned(x) {
        if c in contract2Executor && contract2Executor[c].name == x.name {
          var m :| m in name2Executor && name2Executor[m] == contract2Executor[c];
        }
      }
      assert LoadSet(State(), x.name) == Owned(x);
    }

    lemma TopIsLeastLoaded(k: nat)
      requires Valid() && k < |queue|
      requires forall i :: 0 <= i < |queue| ==> |queue[k].contracts| <= |queue[i].contracts|
      ensures LeastLoaded(State(), queue[k].name)
    {
      assert queue[k] in name2Executor.Values;
      var n :| n in name2Executor && name2Executor[n] == queue[k];
      LoadOf(queue[k]);
      forall f | f in State().executors ensures Load(State(), queue[k].name) <= Load(State(), f) {
        var x := name2Executor[f];
        assert x in name2Executor.Values && x in queue;
        var i :| 0 <= i < |queue| && queue[i] == x;
        LoadOf(x);
      }
    }

    /**
     The executor of a contract. A new contract goes to a least loaded executor; inserting it there cannot fail,
     because no executor lists a contract that the contract map does not know.
     */
    method DispatchExecutor(contract: string) returns (r: Option<int>)
      requires Valid()
      modifies this, name2Executor.Values
      ensures Valid() && name2Executor == old(name2Executor)
      ensures Takes(old(State()), Dispatch(contract), State())
      ensures old(State()).executors == {} ==> r.None? && State() == old(State())
      ensures old(State()).executors != {} ==>
                && contract in contract2Executor && r == Some(contract2Executor[contract].executor)
                && Dispatches(old(State()), contract, contract2Executor[contract].name, State())
    {
      if |name2Executor| == 0 {
        return None;
      }
      if contract in contract2Executor {
        assert Dispatches(State(), contract, contract2Executor[contract].name, State());
        return Some(contract2Executor[contract].executor);
      }
      QueueNotEmpty();
      var k := Top();
      TopIsLeastLoaded(k);
      var info := queue[k];
      Assign(contract, k);
      NamesGrow(old(contract2Executor), contract, info);
      assert Dispatches(old(State()), contract, info.name, State());
      return Some(info.executor);
    }

    /** Takes the executor at position k out of the queue, gives it the contract and pushes it again. */
    method Assign(contract: string, k: nat)
      requires Valid() && contract !in contract2Executor && k < |queue|
      modifies this`queue, this`contract2Executor, queue[k]
      ensures Valid()
      ensures contract2Executor == old(contract2Executor)[contract := old(queue)[k]]
    {
      var info := queue[k];
      assert info in name2Executor.Values && contract !in info.contracts;
      queue := queue[..k] + queue[k + 1..];
      info.contracts := info.contracts + {contract};
      queue := queue + [info];
      contract2Executor := contract2Executor[contract := info];
      QueueAfterPush(old(queue), k);
      forall x | x in name2Executor.Values ensures x.contracts == Owned(x) {
        assert Owned(x) == old(Owned(x)) + if x == info then {contract} else {};
      }
    }

    lemma QueueNotEmpty()
      requires Valid() && |name2Executor| != 0
      ensures queue != []
    {
      var n :| n in name2Executor;
      assert name2Executor[n] in name2Executor.Values;
    }

    /** Taking an element out of the queue and pushing it again keeps the queue's elements. */
    static lemma QueueAfterPush(q: seq<ExecutorInfo>, k: nat)
      requires k < |q| && forall i, j :: 0 <= i < j < |q| ==> q[i] != q[j]
      ensures var r := q[..k] + q[k + 1..] + [q[k]];
              && (forall i, j :: 0 <= i < j < |r| ==> r[i] != r[j])
              && (forall x :: x in q ==> x in r) && (forall x :: x in r ==> x in q)
    {
      var r := q[..k] + q[k + 1..] + [q[k]];
      assert forall i :: 0 <= i < |r| ==> r[i] == if i < k then q[i] else if i < |r| - 1 then q[i + 1] else q[k];
      forall x | x in q ensures x in r {
        var i :| 0 <= i < |q| && q[i] == x;
        assert r[if i < k then i else if i == k then |r| - 1 else i - 1] == x;
      }
    }

    /**
     Unregisters an executor together with its contracts; each of them is found in the contract map. The answer is
     whether the name is unknown, which the program reports by throwing.
     */
    method RemoveExecutor(name: string) returns (unknown: bool)
      requires Valid()
      modifies this
      ensures Valid()
      ensures Takes(old(State()), Remove(name), State())
      ensures unknown <==> name !in old(name2Executor)
      ensures State() == if unknown then old(State()) else Without(old(State()), name)
      ensures forall n :: n in name2Executor ==> n in old(name2Executor) && name2Executor[n] == old(name2Executor[n])
    {
      if name !in name2Executor {
        return true;
      }
      var info := name2Executor[name];
      assert info in name2Executor.Values;
      ForgetContracts(info);
      name2Executor := map n | n in name2Executor && n != name :: name2Executor[n];
      RebuildQueue();
      ValuesShrink(old(name2Executor), name);
      NamesShrink(old(contract2Executor), old(name2Executor), name);
      return false;
    }

    /** Erases the contracts of an executor from the contract map, one by one; none of them is missing there. */
    method ForgetContracts(info: ExecutorInfo)
      requires Valid() && info in name2Executor.Values
      modifies this`contract2Executor
      ensures contract2Executor == map c | c in old(contract2Executor) && old(contract2Executor)[c] != info :: old(contract2Executor)[c]
    {
      var todo := info.contracts;
      ghost var before, owned := contract2Executor, info.contracts;
      assert forall c :: c in owned <==> c in before && before[c] == info;
      while todo != {}
        invariant todo <= owned
        invariant contract2Executor == map c | c in before && (c in todo || c !in owned) :: before[c]
        decreases |todo|
      {
        var c :| c in todo;
        assert c in contract2Executor;
        contract2Executor := map d | d in contract2Executor && d != c :: contract2Executor[d];
        todo := todo - {c};
      }
      assert forall c :: c in contract2Executor <==> c in before && before[c] != info;
    }

    static lemma ValuesShrink(m: map<string, ExecutorInfo>, name: string)
      requires name in m && forall n :: n in m ==> m[n].name == n
      ensures (map n | n in m && n != name :: m[n]).Values == m.Values - {m[name]}
    {
      var u := map n | n in m && n != name :: m[n];
      forall x: ExecutorInfo | x in m.Values - {m[name]} ensures x in u.Values {
        var n :| n in m && m[n] == x;
        assert u[n] == x;
      }
    }

    /** Fills the queue with the registered executors. */
    method RebuildQueue()
      requires forall n :: n in name2Executor ==> name2Executor[n].name == n
      modifies this`queue
      ensures forall i, j :: 0 <= i < j < |queue| ==> queue[i] != queue[j]
      ensures forall x :: x in queue ==> x in name2Executor.Values
      ensures forall x :: x in name2Executor.Values ==> x in queue
    {
      queue := [];
      var todo := name2Executor.Keys;
      while todo != {}
        invariant todo <= name2Executor.Keys
        invariant forall i, j :: 0 <= i < j < |queue| ==> queue[i] != queue[j]
        invariant forall x :: x in queue ==> x in name2Executor.Values && x.name !in todo
        invariant forall n :: n in name2Executor && n !in todo ==> name2Executor[n] in queue
        decreases |todo|
      {
        var n :| n in todo;
        queue := queue + [name2Executor[n]];
        todo := todo - {n};
      }
    }
  }
}
