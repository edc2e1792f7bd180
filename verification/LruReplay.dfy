/** Whole runs of the LRU cache class: any list of calls, one after the other, leaves map, linked list
    and pool in the state that the sequence operations reach, so the theorems over runs hold of the class. */
module LruReplay {
  import opened CacheTypes
  import opened Collections
  import opened LruSpec
  import opened LruCache
  import opened RecencyList
  import opened LruRuns

  /** A call of the cache; a clean-up names the instant it starts at. */
  datatype Call =
    | Store(key: Key, value: Value, time: int)
    | LookUp(key: Key, now: int)
    | Clean(start: int)

  /** The operation that a call amounts to, up to the instants at which a clean-up reads the clock. */
  ghost predicate Realizes(op: Op, call: Call) {
    match call
    case Store(k, v, t) => op == Set(k, v, t)
    case LookUp(k, now) => op == Get(k, now)
    case Clean(start) => op.CleanUp? && forall k :: start <= op.clock(k)
  }

  /** What a call answers: nothing, the outcome of a lookup, or the number of records cleaned up. */
  datatype Reply = Stored | Looked(found: Option<Value>) | Cleaned(count: int)

  /** The answer of an operation, given the records before it. */
  ghost function Answer(before: seq<Item>, policy: Policy, op: Op): Reply {
    match op
    case Set(_, _, _) => Stored
    case Get(k, now) => Looked(GetItem(before, policy.onGet, k, now).1)
    case CleanUp(clock) => Cleaned(|before| - |Sweep(before, policy.onCleanUp, clock)|)
  }

  ghost predicate Answered(capacity: int, policy: Policy, ops: seq<Op>, calls: seq<Call>, answers: seq<Reply>) {
    && |ops| == |calls| == |answers|
    && (forall i :: 0 <= i < |calls| ==> Realizes(ops[i], calls[i]))
    && (forall i :: 0 <= i < |calls| ==> answers[i] == Answer(Run(capacity, policy, ops[..i]), policy, ops[i]))
  }

  // ---- What the answers say of the calls ----

  /** The value and the instant last stored under `k`, found by searching the calls backward. */
  function LastStore(calls: seq<Call>, k: Key): Option<(Value, int)> {
    if calls == [] then None
    else if calls[|calls| - 1].Store? && calls[|calls| - 1].key == k then
      Some((calls[|calls| - 1].value, calls[|calls| - 1].time))
    else LastStore(calls[..|calls| - 1], k)
  }

  /** The keys that stores and lookups name. */
  function NamedBy(calls: seq<Call>): set<Key> {
    if calls == [] then {}
    else NamedBy(calls[..|calls| - 1]) + if calls[|calls| - 1].Clean? then {} else {calls[|calls| - 1].key}
  }

  ghost predicate RealizesAll(ops: seq<Op>, calls: seq<Call>) {
    |ops| == |calls| && forall i :: 0 <= i < |calls| ==> Realizes(ops[i], calls[i])
  }

  lemma {:induction false} CallsSay(ops: seq<Op>, calls: seq<Call>, k: Key)
    requires RealizesAll(ops, calls)
    ensures LastStored(ops, k) == LastStore(calls, k) && Named(ops) == NamedBy(calls)
  {
    if calls != [] {
      var n := |calls| - 1;
      CallsSay(ops[..n], calls[..n], k);
      assert Realizes(ops[n], calls[n]);
    }
  }

  /** A lookup that hits answers with the value last stored under its key, which is at least as old as the time
      to live; every other call answers in its own kind. */
  ghost predicate Serves(calls: seq<Call>, answers: seq<Reply>, ttl: int, i: nat)
    requires i < |calls| == |answers|
  {
    match calls[i]
    case Store(_, _, _) => answers[i] == Stored
    case Clean(_) => answers[i].Cleaned?
    case LookUp(k, now) =>
      answers[i].Looked? &&
      (answers[i].found.Some? ==>
         var last := LastStore(calls[..i], k);
         last.Some? && answers[i].found.value == last.value.0 && now - last.value.1 >= ttl)
  }

  lemma AnswersServe(capacity: int, ttl: int, ops: seq<Op>, calls: seq<Call>, answers: seq<Reply>, i: nat)
    requires Answered(capacity, TtlPolicy(ttl), ops, calls, answers) && i < |calls|
    ensures Serves(calls, answers, ttl, i)
    ensures answers[i].Cleaned? ==>
              answers[i].count ==
              |Run(capacity, TtlPolicy(ttl), ops[..i])| - |Run(capacity, TtlPolicy(ttl), ops[..i + 1])|
  {
    hide Run;
    assert Realizes(ops[i], calls[i]);
    RunNext(capacity, TtlPolicy(ttl), ops[..i], ops[i]);
    assert ops[..i] + [ops[i]] == ops[..i + 1];
    if calls[i].LookUp? {
      var s, k := Run(capacity, TtlPolicy(ttl), ops[..i]), calls[i].key;
      if Find(s, k).Some? {
        CarriesLastStored(capacity, TtlPolicy(ttl), ops[..i], k);
        CallsSay(ops[..i], calls[..i], k);
      }
    }
  }

  /** A clean-up takes away every record that is too old when it starts, and only those found too old when it comes to
      them, which is not before it starts. */
  lemma AnswersClean(capacity: int, ttl: int, ops: seq<Op>, calls: seq<Call>, answers: seq<Reply>, i: nat)
    requires Answered(capacity, TtlPolicy(ttl), ops, calls, answers) && i < |calls| && calls[i].Clean?
    ensures ops[i].CleanUp? && forall k :: ops[i].clock(k) >= calls[i].start
    ensures var before, after := Run(capacity, TtlPolicy(ttl), ops[..i]), Run(capacity, TtlPolicy(ttl), ops[..i + 1]);
            && (forall item :: item in after ==> item in before && calls[i].start - item.time <= ttl)
            && (forall item :: item in before && item !in after ==> ops[i].clock(item.key) - item.time > ttl)
  {
    hide Run;
    assert Realizes(ops[i], calls[i]);
    RunNext(capacity, TtlPolicy(ttl), ops[..i], ops[i]);
    assert ops[..i] + [ops[i]] == ops[..i + 1];
    SweepKeeps(Run(capacity, TtlPolicy(ttl), ops[..i]), TtlPolicy(ttl).onCleanUp, ops[i].clock);
  }

  /** A stored value is served, once it is old enough, until it is stored or looked up again, a clean-up finds it
      too old, or as many other keys have been named since as the cache has room for. */
  lemma AnswersHit(capacity: int, ttl: int, ops: seq<Op>, calls: seq<Call>, answers: seq<Reply>, i: nat, j: nat)
    requires Answered(capacity, TtlPolicy(ttl), ops, calls, answers) && capacity != 0
    requires i < j < |calls| && calls[i].Store? && calls[j].LookUp? && calls[j].key == calls[i].key
    requires forall m :: i < m < j ==>
               if calls[m].Clean? then ops[m].CleanUp? && ops[m].clock(calls[i].key) - calls[i].time <= ttl
               else calls[m].key != calls[i].key
    requires |NamedBy(calls[i + 1..j])| < Bound(capacity) && calls[j].now - calls[i].time >= ttl
    ensures answers[j] == Looked(Some(calls[i].value))
  {
    hide Run;
    var k := calls[i].key;
    assert Realizes(ops[i], calls[i]) && Realizes(ops[j], calls[j]);
    forall m | i < m < j
      ensures Spares(TtlPolicy(ttl), ops[..j][m], k, calls[i].time)
    {
      assert Realizes(ops[m], calls[m]);
    }
    assert ops[..j][i + 1..] == ops[i + 1..j];
    CallsSay(ops[i + 1..j], calls[i + 1..j], k);
    Retained(capacity, TtlPolicy(ttl), ops[..j], i);
  }

  /** A key that a lookup has not found is not found again before it is stored again. */
  lemma AnswersMiss(capacity: int, ttl: int, ops: seq<Op>, calls: seq<Call>, answers: seq<Reply>, i: nat, j: nat)
    requires Answered(capacity, TtlPolicy(ttl), ops, calls, answers)
    requires i < j < |calls| && calls[i].LookUp? && calls[j].LookUp? && calls[j].key == calls[i].key
    requires answers[i] == Looked(None) && forall m :: i < m < j ==> !(calls[m].Store? && calls[m].key == calls[i].key)
    ensures answers[j] == Looked(None)
  {
    hide Run;
    assert Realizes(ops[i], calls[i]) && Realizes(ops[j], calls[j]);
    StaysAway(capacity, ttl, ops, calls, i, j);
  }

  lemma {:induction false} StaysAway(capacity: int, ttl: int, ops: seq<Op>, calls: seq<Call>, i: nat, j: nat)
    requires RealizesAll(ops, calls) && i < j <= |calls| && calls[i].LookUp?
    requires GetItem(Run(capacity, TtlPolicy(ttl), ops[..i]), TtlPolicy(ttl).onGet, calls[i].key, calls[i].now).1.None?
    requires forall m :: i < m < j ==> !(calls[m].Store? && calls[m].key == calls[i].key)
    ensures Find(Run(capacity, TtlPolicy(ttl), ops[..j]), calls[i].key).None?
    decreases j
  {
    hide Run, Sweep;
    var k, s := calls[i].key, Run(capacity, TtlPolicy(ttl), ops[..j - 1]);
    assert Realizes(ops[j - 1], calls[j - 1]);
    assert ops[..j][..j - 1] == ops[..j - 1];
    RunNext(capacity, TtlPolicy(ttl), ops[..j - 1], ops[j - 1]);
    assert ops[..j - 1] + [ops[j - 1]] == ops[..j];
    if j == i + 1 {
      DropFind(s, {k}, k);
    } else {
      StaysAway(capacity, ttl, ops, calls, i, j - 1);
      RunKeeps(capacity, TtlPolicy(ttl), ops[..j - 1]);
      ApplyFind(s, capacity, TtlPolicy(ttl), ops[j - 1], k);
    }
  }

  /** Every record a run leaves carries what was last stored under its key. */
  lemma RecordsCarry(capacity: int, policy: Policy, ops: seq<Op>, calls: seq<Call>, item: Item)
    requires RealizesAll(ops, calls) && item in Run(capacity, policy, ops)
    ensures LastStore(calls, item.key) == Some((item.value, item.time))
  {
    hide Run;
    var s := Run(capacity, policy, ops);
    RunKeeps(capacity, policy, ops);
    var n :| 0 <= n < |s| && s[n] == item;
    if Find(s, item.key).None? {
      FindNone(s, item.key);
    }
    assert Find(s, item.key) == Some(s[FindIndex(s, item.key)]);
    CarriesLastStored(capacity, policy, ops, item.key);
    CallsSay(ops, calls, item.key);
  }

  // ---- The class ----

  lemma AnsweredNext(capacity: int, policy: Policy, ops: seq<Op>, calls: seq<Call>, answers: seq<Reply>,
                     op: Op, call: Call, answer: Reply)
    requires Answered(capacity, policy, ops, calls, answers) && Realizes(op, call)
    requires answer == Answer(Run(capacity, policy, ops), policy, op)
    ensures Answered(capacity, policy, ops + [op], calls + [call], answers + [answer])
    ensures Run(capacity, policy, ops + [op]) == Apply(Run(capacity, policy, ops), capacity, policy, op)
  {
    hide Run, Realizes, Answer;
    assert (ops + [op])[..|ops|] == ops;
    forall i | 0 <= i < |ops|
      ensures (ops + [op])[..i] == ops[..i]
    {}
    RunNext(capacity, policy, ops, op);
  }

  lemma RunNext(capacity: int, policy: Policy, ops: seq<Op>, op: Op)
    ensures Run(capacity, policy, ops + [op]) == Apply(Run(capacity, policy, ops), capacity, policy, op)
  {
    assert (ops + [op])[..|ops|] == ops;
  }

  /** One call on the class is one operation on the sequence of records. */
  method Perform(c: SetGetter, call: Call) returns (answer: Reply, ghost op: Op)
    requires c.Valid()
    modifies c`data, c`pool, c`entries, c`items, c`owned, c.list, c.list.cells, c.owned
    ensures c.Valid() && fresh(c.owned - old(c.owned)) && fresh(c.list.cells - old(c.list.cells))
    ensures Realizes(op, call)
    ensures c.items == Apply(old(c.items), c.capacity, TtlPolicy(c.ttl), op)
    ensures answer == Answer(old(c.items), TtlPolicy(c.ttl), op)
  {
    hide List.Valid, Indexed, Live, Carried, SetItem, GetItem, Sweep;
    match call {
      case Store(k, v, t) =>
        c.Set(k, v, t);
        answer, op := Stored, Set(k, v, t);
      case LookUp(k, now) =>
        var found := c.Get(k, now);
        answer, op := Looked(found), Get(k, now);
      case Clean(start) =>
        var cleaned, end;
        ghost var clock;
        cleaned, end, clock := c.CleanUp(start);
        answer, op := Cleaned(cleaned), CleanUp(clock);
    }
  }

  /** Any calls on a new cache, in any order: the class holds the records of the run and gives its answers. A lookup
      that hits answers with the value last stored under its key, and so every record carries what was last stored. */
  method Replay(capacity: int, ttl: int, calls: seq<Call>)
    returns (c: SetGetter, answers: seq<Reply>, ghost ops: seq<Op>)
    ensures fresh(c) && c.Valid() && c.capacity == capacity && c.ttl == ttl
    ensures c.items == Run(capacity, TtlPolicy(ttl), ops)
    ensures Answered(capacity, TtlPolicy(ttl), ops, calls, answers)
    ensures |answers| == |calls| && forall i :: 0 <= i < |calls| ==> Serves(calls, answers, ttl, i)
    ensures forall item <- c.items :: LastStore(calls, item.key) == Some((item.value, item.time))
  {
    hide List.Valid, Indexed, Live, Carried, Apply, Answer, Realizes, Serves, LastStore;
    c := new SetGetter(capacity, ttl);
    answers, ops := [], [];
    for i := 0 to |calls|
      invariant fresh(c) && fresh(c.list) && fresh(c.list.cells) && fresh(c.owned)
      invariant c.Valid() && c.capacity == capacity && c.ttl == ttl
      invariant c.items == Run(capacity, TtlPolicy(ttl), ops)
      invariant Answered(capacity, TtlPolicy(ttl), ops, calls[..i], answers)
    {
      var answer;
      ghost var op;
      answer, op := Perform(c, calls[i]);
      AnsweredNext(capacity, TtlPolicy(ttl), ops, calls[..i], answers, op, calls[i], answer);
      assert calls[..i + 1] == calls[..i] + [calls[i]];
      answers, ops := answers + [answer], ops + [op];
    }
    assert calls[..|calls|] == calls;
    forall i | 0 <= i < |calls|
      ensures Serves(calls, answers, ttl, i)
    {
      AnswersServe(capacity, ttl, ops, calls, answers, i);
    }
    forall item | item in c.items
      ensures LastStore(calls, item.key) == Some((item.value, item.time))
    {
      RecordsCarry(capacity, TtlPolicy(ttl), ops, calls, item);
    }
  }

  /** Two caches given the same stores and lookups: the smaller holds a part of what the larger holds.
      (Clean-ups of two caches read the clock at instants of their own.) */
  method Compare(small: int, large: int, ttl: int, calls: seq<Call>)
    returns (a: SetGetter, b: SetGetter, answersA: seq<Reply>, answersB: seq<Reply>, ghost ops: seq<Op>)
    requires Bound(small) <= Bound(large) && forall i :: 0 <= i < |calls| ==> !calls[i].Clean?
    ensures fresh(a) && a.Valid() && a.capacity == small && a.ttl == ttl
    ensures fresh(b) && b.Valid() && b.capacity == large && b.ttl == ttl
    ensures Answered(small, TtlPolicy(ttl), ops, calls, answersA) && a.items == Run(small, TtlPolicy(ttl), ops)
    ensures Answered(large, TtlPolicy(ttl), ops, calls, answersB) && b.items == Run(large, TtlPolicy(ttl), ops)
    ensures Included(a.items, b.items, Bound(small), Bound(large))
  {
    hide List.Valid, Indexed, Live, Carried, Run, Answer, Included;
    ghost var opsB;
    a, answersA, ops := Replay(small, ttl, calls);
    b, answersB, opsB := Replay(large, ttl, calls);
    forall i | 0 <= i < |calls|
      ensures ops[i] == opsB[i]
    {
      assert Realizes(ops[i], calls[i]) && Realizes(opsB[i], calls[i]);
    }
    assert ops == opsB;
    Inclusion(small, large, TtlPolicy(ttl), ops);
  }
}
