/** What holds of the LRU cache over whole runs. */
module LruRuns {
  import opened CacheTypes
  import opened Collections
  import opened LruSpec

  // ---- A larger cache includes a smaller one ----

  /** A record of the smaller list is the record of the same key in the larger one. */
  lemma {:induction false} WithinFind(a: seq<Item>, b: seq<Item>, k: Key)
    requires Within(a, b) && Distinct(b) && Find(a, k).Some?
    ensures Find(b, k) == Find(a, k)
  {
    if a[0] == b[0] && Within(a[1..], b[1..]) {
      if a[0].key != k {
        WithinFind(a[1..], b[1..], k);
      }
    } else {
      WithinFind(a, b[1..], k);
      var i := FindIndex(b[1..], k);
      assert b[i + 1].key == k;
    }
  }

  lemma {:induction false} WithinDrop(a: seq<Item>, b: seq<Item>, gone: set<Key>)
    requires Within(a, b)
    ensures Within(Drop(a, gone), Drop(b, gone))
    ensures |Drop(b, gone)| - |Drop(a, gone)| <= |b| - |a|
  {
    if a == [] {
    } else if a[0] == b[0] && Within(a[1..], b[1..]) {
      WithinDrop(a[1..], b[1..], gone);
    } else {
      WithinDrop(a, b[1..], gone);
      var rest := Drop(b[1..], gone);
      assert ([b[0]] + rest)[1..] == rest;
    }
  }

  lemma {:induction false} WithinSweep(a: seq<Item>, b: seq<Item>, drop: int -> bool, clock: Key -> int)
    requires Within(a, b)
    ensures Within(Sweep(a, drop, clock), Sweep(b, drop, clock))
    ensures |Sweep(b, drop, clock)| - |Sweep(a, drop, clock)| <= |b| - |a|
  {
    if a == [] {
    } else if a[0] == b[0] && Within(a[1..], b[1..]) {
      WithinSweep(a[1..], b[1..], drop, clock);
    } else {
      WithinSweep(a, b[1..], drop, clock);
      var rest := Sweep(b[1..], drop, clock);
      assert ([b[0]] + rest)[1..] == rest;
    }
  }

  /** `a` is included in `b`, which has room for at least as much. */
  ghost predicate Included(a: seq<Item>, b: seq<Item>, small: nat, large: nat) {
    && Distinct(a) && |a| <= small
    && Distinct(b) && |b| <= large
    && Within(a, b)
    && |b| - |a| <= large - small
  }

  /** Touching the same record in both, or in the larger alone, keeps the inclusion. */
  lemma TouchIncludes(a: seq<Item>, b: seq<Item>, small: nat, large: nat, k: Key, item: Item)
    requires Included(a, b, small, large) && item.key == k && Find(b, k).Some?
    ensures Find(a, k).Some? ==> Included(Drop(a, {k}) + [item], Drop(b, {k}) + [item], small, large)
    ensures Find(a, k).None? ==> Included(a, Drop(b, {k}) + [item], small, large)
    ensures Find(a, k).None? ==> Within(a, Drop(b, {k}))
  {
    hide Find;
    TouchKeeps(b, k, item);
    WithinDrop(a, b, {k});
    WithinAppend(Drop(a, {k}), Drop(b, {k}), item);
    if Find(a, k).Some? {
      TouchKeeps(a, k, item);
    } else {
      FindNone(a, k);
      DropNothing(a, {k});
      WithinLonger(a, Drop(b, {k}), item);
    }
  }

  lemma SetIncludes(a: seq<Item>, b: seq<Item>, small: int, large: int, item: Item)
    requires Bound(small) <= Bound(large) && Included(a, b, Bound(small), Bound(large))
    ensures Included(SetItem(a, small, item), SetItem(b, large, item), Bound(small), Bound(large))
  {
    var policy := TtlPolicy(0);
    ApplyKeeps(a, small, policy, Set(item.key, item.value, item.time));
    ApplyKeeps(b, large, policy, Set(item.key, item.value, item.time));
    hide Find, Distinct;
    if large == 0 {
    } else if Find(b, item.key).Some? {
      TouchIncludes(a, b, Bound(small), Bound(large), item.key, item);
      if Find(a, item.key).None? {
        SetWithin(a, Drop(b, {item.key}), small, item);
      }
    } else {
      if Find(a, item.key).Some? {
        WithinFind(a, b, item.key);
      }
      if |b| >= Bound(large) {
        if a != [] {
          WithinTail(a, b);
          WithinAppend(a[1..], b[1..], item);
        }
      } else {
        SetWithin(a, b, small, item);
      }
    }
  }

  /** Adding a record to a list that may have to evict one stays within adding it to the larger list. */
  lemma SetWithin(a: seq<Item>, b: seq<Item>, small: int, item: Item)
    requires Within(a, b) && Find(a, item.key).None?
    ensures Within(SetItem(a, small, item), b + [item])
  {
    if small == 0 {
      WithinLonger(a, b, item);
    } else if |a| >= small && a != [] {
      WithinTail(a, b);
      assert Within(a[1..], b);
      WithinAppend(a[1..], b, item);
    } else {
      WithinAppend(a, b, item);
    }
  }

  /** Two caches driven by the same run, with the same drop rules and the same clock readings: the
      one with the smaller bound holds a subsequence of what the other holds, with the same values
      and times, and the two never differ by more records than their bounds do. */
  lemma {:induction false} Inclusion(small: int, large: int, policy: Policy, ops: seq<Op>)
    requires Bound(small) <= Bound(large)
    ensures Included(Run(small, policy, ops), Run(large, policy, ops), Bound(small), Bound(large))
  {
    if ops != [] {
      var before, op := ops[..|ops| - 1], ops[|ops| - 1];
      Inclusion(small, large, policy, before);
      ApplyIncludes(Run(small, policy, before), Run(large, policy, before), small, large, policy, op);
    }
  }

  lemma ApplyIncludes(a: seq<Item>, b: seq<Item>, small: int, large: int, policy: Policy, op: Op)
    requires Bound(small) <= Bound(large) && Included(a, b, Bound(small), Bound(large))
    ensures Included(Apply(a, small, policy, op), Apply(b, large, policy, op), Bound(small), Bound(large))
  {
    match op {
      case Set(k, v, t) =>
        SetIncludes(a, b, small, large, Item(k, v, t));
      case Get(k, now) =>
        GetIncludes(a, b, small, large, policy.onGet, k, now);
      case CleanUp(clock) =>
        WithinSweep(a, b, policy.onCleanUp, clock);
        SweepKeeps(a, policy.onCleanUp, clock);
        SweepKeeps(b, policy.onCleanUp, clock);
    }
  }

  lemma GetIncludes(a: seq<Item>, b: seq<Item>, small: int, large: int, drop: int -> bool, k: Key, now: int)
    requires Bound(small) <= Bound(large) && Included(a, b, Bound(small), Bound(large))
    ensures Included(GetItem(a, drop, k, now).0, GetItem(b, drop, k, now).0, Bound(small), Bound(large))
  {
    hide Find, Distinct;
    if Find(a, k).Some? {
      WithinFind(a, b, k);
    }
    if Find(b, k).Some? {
      var item := Find(b, k).value;
      TouchIncludes(a, b, Bound(small), Bound(large), k, item);
      WithinDrop(a, b, {k});
      DropDistinct(a, {k});
      DropDistinct(b, {k});
    }
  }

  // ---- Clean-up with a moving clock, and the two readings of the time to live ----

  /** However the clock moves while a clean-up runs: what had expired at its start is gone, what has
      not expired at its end is kept, and the survivors keep their order. */
  lemma {:induction false} SweepWindow(s: seq<Item>, ttl: int, clock: Key -> int, start: int, end: int)
    requires forall k :: start <= clock(k) <= end
    ensures var r := Sweep(s, TtlPolicy(ttl).onCleanUp, clock);
            && Within(r, s)
            && (forall item :: item in r ==> item in s && start - item.time <= ttl)
            && (forall item :: item in s && end - item.time <= ttl ==> item in r)
  {
    if s != [] {
      SweepWindow(s[1..], ttl, clock, start, end);
      assert start <= clock(s[0].key) <= end;
    }
  }

  lemma {:induction false} SweepFind(s: seq<Item>, drop: int -> bool, clock: Key -> int, k: Key)
    requires Distinct(s)
    ensures Find(Sweep(s, drop, clock), k) ==
            if Find(s, k).Some? && drop(clock(k) - Find(s, k).value.time) then None else Find(s, k)
  {
    if s != [] {
      SweepFind(s[1..], drop, clock, k);
      var rest := Sweep(s[1..], drop, clock);
      assert ([s[0]] + rest)[1..] == rest;
      if s[0].key == k {
        FindAbsent(s[1..], k);
      }
    }
  }

  /** A lookup drops what is younger than the time to live and a clean-up what is older, so of the
      records a clean-up leaves, a lookup at the same instant finds those of exactly that age. */
  lemma ServedAtExactAge(s: seq<Item>, ttl: int, k: Key, now: int)
    requires Distinct(s)
    ensures GetItem(s, TtlPolicy(ttl).onGet, k, now).1.Some? <==>
            Find(s, k).Some? && now - Find(s, k).value.time >= ttl
    ensures GetItem(Sweep(s, TtlPolicy(ttl).onCleanUp, _ => now), TtlPolicy(ttl).onGet, k, now).1.Some? <==>
            Find(s, k).Some? && now - Find(s, k).value.time == ttl
  {
    SweepFind(s, TtlPolicy(ttl).onCleanUp, _ => now, k);
  }

  // ---- What a record carries ----

  /** The value and the instant last stored under `k`, found by searching the operations backward. */
  function LastStored(ops: seq<Op>, k: Key): Option<(Value, int)> {
    if ops == [] then None
    else
      match ops[|ops| - 1]
      case Set(key, v, t) => if key == k then Some((v, t)) else LastStored(ops[..|ops| - 1], k)
      case _ => LastStored(ops[..|ops| - 1], k)
  }

  /** On every run a record holds the value and the stamp last stored under its key. */
  lemma {:induction false} CarriesLastStored(capacity: int, policy: Policy, ops: seq<Op>, k: Key)
    requires Find(Run(capacity, policy, ops), k).Some?
    ensures var item := Find(Run(capacity, policy, ops), k).value;
            LastStored(ops, k) == Some((item.value, item.time))
  {
    hide Sweep, Run;
    RunUnfolds(capacity, policy, ops);
    var before, op := ops[..|ops| - 1], ops[|ops| - 1];
    var s := Run(capacity, policy, before);
    ApplyFind(s, capacity, policy, op, k);
    if Find(s, k).Some? {
      CarriesLastStored(capacity, policy, before, k);
    }
  }

  lemma RunUnfolds(capacity: int, policy: Policy, ops: seq<Op>)
    ensures ops == [] ==> forall k :: Find(Run(capacity, policy, ops), k).None?
    ensures ops != [] ==> Run(capacity, policy, ops) ==
                          Apply(Run(capacity, policy, ops[..|ops| - 1]), capacity, policy, ops[|ops| - 1])
    ensures ops != [] ==> Distinct(Run(capacity, policy, ops[..|ops| - 1]))
    ensures ops != [] ==> |Run(capacity, policy, ops[..|ops| - 1])| <= Bound(capacity)
  {
    if ops != [] {
      RunKeeps(capacity, policy, ops[..|ops| - 1]);
    }
  }

  /** After an operation a key has the record just stored under it, the one it had, or none. */
  lemma ApplyFind(s: seq<Item>, capacity: int, policy: Policy, op: Op, k: Key)
    requires Distinct(s) && |s| <= Bound(capacity)
    ensures var r := Find(Apply(s, capacity, policy, op), k);
            r.Some? ==> if op.Set? && op.key == k then r == Some(Item(k, op.value, op.time)) else r == Find(s, k)
    ensures op.Set? && op.key == k && capacity != 0 ==>
              Find(Apply(s, capacity, policy, op), k) == Some(Item(k, op.value, op.time))
  {
    match op {
      case Set(key, v, t) => SetFind(s, capacity, Item(key, v, t), k);
      case Get(key, now) => GetFind(s, policy.onGet, key, now, k);
      case CleanUp(clock) => SweepFind(s, policy.onCleanUp, clock, k);
    }
  }

  lemma SetFind(s: seq<Item>, capacity: int, item: Item, k: Key)
    requires Distinct(s) && |s| <= Bound(capacity)
    ensures var r := Find(SetItem(s, capacity, item), k);
            r.Some? ==> r == if capacity != 0 && item.key == k then Some(item) else Find(s, k)
    ensures capacity != 0 && item.key == k ==> Find(SetItem(s, capacity, item), k) == Some(item)
  {
    hide Drop;
    DropFind(s, {item.key}, k);
    FindAppend(Drop(s, {item.key}), item, k);
    FindAppend(s, item, k);
    if s != [] {
      FindAppend(s[1..], item, k);
      TailFind(s, k);
    }
  }

  lemma TailFind(s: seq<Item>, k: Key)
    requires s != [] && Distinct(s)
    ensures Find(s[1..], k) == if s[0].key == k then None else Find(s, k)
  {
    if s[0].key == k {
      FindAbsent(s[1..], k);
    }
  }

  lemma GetFind(s: seq<Item>, drop: int -> bool, key: Key, now: int, k: Key)
    ensures var r := Find(GetItem(s, drop, key, now).0, k); r.Some? ==> r == Find(s, k)
  {
    hide Drop;
    DropFind(s, {key}, k);
    if Find(s, key).Some? {
      FindAppend(Drop(s, {key}), Find(s, key).value, k);
    }
  }

  // ---- Who is still there ----

  /** The record is held, and the more recent ones have keys of `others` only. */
  ghost predicate HeldBefore(s: seq<Item>, item: Item, others: set<Key>) {
    s != [] &&
    ((s[0] == item && forall j :: 1 <= j < |s| ==> s[j].key in others) || HeldBefore(s[1..], item, others))
  }

  lemma {:induction false} HeldFind(s: seq<Item>, item: Item, others: set<Key>)
    requires Distinct(s) && HeldBefore(s, item, others)
    ensures Find(s, item.key) == Some(item)
  {
    if s[0] != item {
      HeldFind(s[1..], item, others);
      var i := FindIndex(s[1..], item.key);
      assert s[i + 1].key == item.key;
    }
  }

  lemma {:induction false} HeldAppend(s: seq<Item>, item: Item, others: set<Key>, x: Item)
    requires HeldBefore(s, item, others)
    ensures HeldBefore(s + [x], item, others + {x.key})
  {
    assert (s + [x])[1..] == s[1..] + [x];
    if HeldBefore(s[1..], item, others) {
      HeldAppend(s[1..], item, others, x);
    }
  }

  lemma {:induction false} HeldDrop(s: seq<Item>, item: Item, others: set<Key>, gone: set<Key>)
    requires HeldBefore(s, item, others) && item.key !in gone
    ensures HeldBefore(Drop(s, gone), item, others)
  {
    var rest := Drop(s[1..], gone);
    assert ([s[0]] + rest)[1..] == rest;
    if HeldBefore(s[1..], item, others) {
      HeldDrop(s[1..], item, others, gone);
    } else {
      DropAll(s[1..], gone, others);
    }
  }

  lemma {:induction false} DropAll(s: seq<Item>, gone: set<Key>, others: set<Key>)
    requires forall j :: 0 <= j < |s| ==> s[j].key in others
    ensures forall j :: 0 <= j < |Drop(s, gone)| ==> Drop(s, gone)[j].key in others
  {
    if s != [] {
      DropAll(s[1..], gone, others);
    }
  }

  lemma {:induction false} HeldSweep(s: seq<Item>, item: Item, others: set<Key>, drop: int -> bool, clock: Key -> int)
    requires HeldBefore(s, item, others) && !drop(clock(item.key) - item.time)
    ensures HeldBefore(Sweep(s, drop, clock), item, others)
  {
    var rest := Sweep(s[1..], drop, clock);
    assert ([s[0]] + rest)[1..] == rest;
    if HeldBefore(s[1..], item, others) {
      HeldSweep(s[1..], item, others, drop, clock);
    } else {
      SweepAll(s[1..], drop, clock, others);
    }
  }

  lemma {:induction false} SweepAll(s: seq<Item>, drop: int -> bool, clock: Key -> int, others: set<Key>)
    requires forall j :: 0 <= j < |s| ==> s[j].key in others
    ensures forall j :: 0 <= j < |Sweep(s, drop, clock)| ==> Sweep(s, drop, clock)[j].key in others
  {
    if s != [] {
      SweepAll(s[1..], drop, clock, others);
    }
  }

  /** A full cache evicts the record only when as many other keys as it has room for have been named since. */
  lemma HeldEvict(s: seq<Item>, item: Item, others: set<Key>, key: Key, bound: nat)
    requires Distinct(s) && HeldBefore(s, item, others) && Find(s, key).None? && |s| >= bound
    requires |others + {key}| < bound
    ensures HeldBefore(s[1..], item, others)
  {
    if !HeldBefore(s[1..], item, others) {
      var tail := set k | k in Keys(s[1..]);
      FindNone(s, key);
      KeyCount(s[1..]);
      forall k | k in tail + {key}
        ensures k in others + {key}
      {
        if k != key {
          var j :| 0 <= j < |s| - 1 && Keys(s[1..])[j] == k;
          assert s[j + 1].key == k;
        }
      }
      assert key !in tail && |tail + {key}| == |s|;
      SubsetSize(tail + {key}, others + {key});
    }
  }

  lemma {:induction false} SubsetSize(a: set<Key>, b: set<Key>)
    requires a <= b
    ensures |a| <= |b|
  {
    if a != {} {
      var x :| x in a;
      SubsetSize(a - {x}, b - {x});
    }
  }

  /** The keys that stores and lookups name. */
  function Named(ops: seq<Op>): set<Key> {
    if ops == [] then {}
    else
      Named(ops[..|ops| - 1]) + match ops[|ops| - 1] { case Set(k, _, _) => {k} case Get(k, _) => {k} case _ => {} }
  }

  /** No operation names the key, and no clean-up finds the stamp too old. */
  ghost predicate Spares(policy: Policy, op: Op, k: Key, time: int) {
    match op
    case Set(key, _, _) => key != k
    case Get(key, _) => key != k
    case CleanUp(clock) => !policy.onCleanUp(clock(k) - time)
  }

  lemma HeldSet(s: seq<Item>, capacity: int, item: Item, others: set<Key>, x: Item)
    requires Distinct(s) && |s| <= Bound(capacity) && HeldBefore(s, item, others)
    requires x.key != item.key && |others + {x.key}| < Bound(capacity)
    ensures HeldBefore(SetItem(s, capacity, x), item, others + {x.key})
  {
    hide HeldBefore, Drop, Find, Distinct;
    HeldDrop(s, item, others, {x.key});
    HeldAppend(Drop(s, {x.key}), item, others, x);
    HeldAppend(s, item, others, x);
    if Find(s, x.key).None? && |s| >= capacity && s != [] {
      HeldEvict(s, item, others, x.key, Bound(capacity));
      HeldAppend(s[1..], item, others, x);
    }
  }

  lemma HeldApply(s: seq<Item>, capacity: int, policy: Policy, op: Op, item: Item, others: set<Key>)
    requires Distinct(s) && |s| <= Bound(capacity) && HeldBefore(s, item, others)
    requires Spares(policy, op, item.key, item.time) && |others + Named([op])| < Bound(capacity)
    ensures HeldBefore(Apply(s, capacity, policy, op), item, others + Named([op]))
  {
    hide HeldBefore, Drop, Find, Distinct;
    assert [op][..0] == [];
    match op {
      case Set(key, v, t) => HeldSet(s, capacity, item, others, Item(key, v, t));
      case Get(key, now) =>
        HeldDrop(s, item, others, {key});
        HeldMore(s, item, others, others + {key});
        HeldMore(Drop(s, {key}), item, others, others + {key});
        if Find(s, key).Some? {
          HeldAppend(Drop(s, {key}), item, others, Find(s, key).value);
        }
      case CleanUp(clock) =>
        HeldSweep(s, item, others, policy.onCleanUp, clock);
        assert others + {} == others;
    }
  }

  lemma {:induction false} HeldMore(s: seq<Item>, item: Item, others: set<Key>, more: set<Key>)
    requires HeldBefore(s, item, others) && others <= more
    ensures HeldBefore(s, item, more)
  {
    if HeldBefore(s[1..], item, others) {
      HeldMore(s[1..], item, others, more);
    }
  }

  /** A record stays, whatever else expires or is dropped, until its key is named again, a clean-up finds it too
      old, or as many other keys have been named since as the cache has room for. */
  lemma {:induction false} Retained(capacity: int, policy: Policy, ops: seq<Op>, i: nat)
    requires capacity != 0 && i < |ops| && ops[i].Set?
    requires forall j :: i < j < |ops| ==> Spares(policy, ops[j], ops[i].key, ops[i].time)
    requires |Named(ops[i + 1..])| < Bound(capacity)
    ensures var item := Item(ops[i].key, ops[i].value, ops[i].time);
            HeldBefore(Run(capacity, policy, ops), item, Named(ops[i + 1..])) &&
            Find(Run(capacity, policy, ops), ops[i].key) == Some(item)
    decreases |ops|
  {
    hide HeldBefore, Spares, Apply, Distinct, Find;
    var n := |ops| - 1;
    var item := Item(ops[i].key, ops[i].value, ops[i].time);
    RunKeeps(capacity, policy, ops);
    RunKeeps(capacity, policy, ops[..n]);
    if i == n {
      JustStored(Run(capacity, policy, ops[..n]), capacity, policy, ops[n]);
      assert ops[i + 1..] == [];
    } else {
      var rest := ops[i + 1..];
      assert ops[..n][i + 1..] == rest[..|rest| - 1] && rest[|rest| - 1] == ops[n];
      NamedLast(rest);
      SubsetSize(Named(rest[..|rest| - 1]), Named(rest));
      Retained(capacity, policy, ops[..n], i);
      HeldApply(Run(capacity, policy, ops[..n]), capacity, policy, ops[n], item, Named(rest[..|rest| - 1]));
    }
    HeldFind(Run(capacity, policy, ops), item, Named(ops[i + 1..]));
  }

  lemma NamedLast(ops: seq<Op>)
    requires ops != []
    ensures Named(ops) == Named(ops[..|ops| - 1]) + Named([ops[|ops| - 1]])
  {
    assert [ops[|ops| - 1]][..0] == [];
  }

  lemma JustStored(s: seq<Item>, capacity: int, policy: Policy, op: Op)
    requires Distinct(s) && op.Set? && capacity != 0
    ensures HeldBefore(Apply(s, capacity, policy, op), Item(op.key, op.value, op.time), {})
  {
    hide Drop;
    var item := Item(op.key, op.value, op.time);
    LastHeld(Drop(s, {op.key}), item);
    LastHeld(s, item);
    if s != [] {
      LastHeld(s[1..], item);
    }
  }

  lemma {:induction false} LastHeld(s: seq<Item>, item: Item)
    ensures HeldBefore(s + [item], item, {})
  {
    if s != [] {
      assert (s + [item])[1..] == s[1..] + [item];
      LastHeld(s[1..], item);
    }
  }
}
