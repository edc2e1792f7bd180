/** The LRU cache as an ordered sequence of records, least recently touched first. */
module LruSpec {
  import opened CacheTypes
  import opened Collections
  import opened RecencyList

  /** One cached record; `time` is the instant its value was read from the source. */
  datatype Item = Item(key: Key, value: Value, time: int)

  /** When a record of a given age is dropped by a lookup, and when by a clean-up. */
  datatype Policy = Policy(onGet: int -> bool, onCleanUp: int -> bool)

  /** The two comparisons the cache makes with its time to live. */
  function TtlPolicy(ttl: int): Policy {
    Policy(age => age < ttl, age => age > ttl)
  }

  datatype Op =
    | Set(key: Key, value: Value, time: int)
    | Get(key: Key, now: int)
    | CleanUp(clock: Key -> int)  // the instant at which the loop examines each key

  /** The most records a cache made with this capacity can hold: a negative capacity acts as one. */
  function Bound(capacity: int): nat {
    if capacity < 0 then 1 else capacity
  }

  function Keys(s: seq<Item>): (r: seq<Key>)
    ensures |r| == |s|
    ensures forall i :: 0 <= i < |s| ==> r[i] == s[i].key
  {
    seq(|s|, i requires 0 <= i < |s| => s[i].key)
  }

  ghost predicate Distinct(s: seq<Item>) {
    forall i, j :: 0 <= i < j < |s| ==> s[i].key != s[j].key
  }

  /** The record of `k`. */
  function Find(s: seq<Item>, k: Key): (r: Option<Item>)
    ensures r.Some? ==> r.value.key == k
  {
    if s == [] then None
    else if s[0].key == k then Some(s[0])
    else Find(s[1..], k)
  }

  /** `s` without the records whose key is in `gone`, the others in order. */
  function Drop(s: seq<Item>, gone: set<Key>): (r: seq<Item>)
    ensures |r| <= |s|
  {
    if s == [] then []
    else if s[0].key in gone then Drop(s[1..], gone)
    else [s[0]] + Drop(s[1..], gone)
  }

  /** Stores a record as the most recent one, evicting the least recent one when full. */
  function SetItem(s: seq<Item>, capacity: int, item: Item): seq<Item> {
    if capacity == 0 then s
    else if Find(s, item.key).Some? then Drop(s, {item.key}) + [item]
    else (if |s| >= capacity && s != [] then s[1..] else s) + [item]
  }

  /** Looks `k` up: a record is either dropped for its age or becomes the most recent one. */
  function GetItem(s: seq<Item>, drop: int -> bool, k: Key, now: int)
    : (seq<Item>, Option<Value>)
  {
    match Find(s, k)
    case None => (s, None)
    case Some(item) =>
      if drop(now - item.time) then (Drop(s, {k}), None)
      else (Drop(s, {k}) + [item], Some(item.value))
  }

  /** A clean-up that examines each key at the instant `clock` gives. */
  ghost function Sweep(s: seq<Item>, drop: int -> bool, clock: Key -> int): (r: seq<Item>)
    ensures |r| <= |s|
  {
    if s == [] then []
    else if drop(clock(s[0].key) - s[0].time) then Sweep(s[1..], drop, clock)
    else [s[0]] + Sweep(s[1..], drop, clock)
  }

  /** A clean-up under way: only the keys in `read` have been examined, at the instants it gives. */
  ghost function Swept(s: seq<Item>, drop: int -> bool, read: map<Key, int>): (r: seq<Item>)
    ensures |r| <= |s|
  {
    if s == [] then []
    else if s[0].key in read && drop(read[s[0].key] - s[0].time) then Swept(s[1..], drop, read)
    else [s[0]] + Swept(s[1..], drop, read)
  }

  ghost function Apply(s: seq<Item>, capacity: int, policy: Policy, op: Op): seq<Item> {
    match op
    case Set(k, v, t) => SetItem(s, capacity, Item(k, v, t))
    case Get(k, now) => GetItem(s, policy.onGet, k, now).0
    case CleanUp(clock) => Sweep(s, policy.onCleanUp, clock)
  }

  /** The records after a run that starts from an empty cache. */
  ghost function Run(capacity: int, policy: Policy, ops: seq<Op>): seq<Item> {
    if ops == [] then []
    else Apply(Run(capacity, policy, ops[..|ops| - 1]), capacity, policy, ops[|ops| - 1])
  }

  // ---- Facts about dropping ----

  lemma {:induction false} DropNothing(s: seq<Item>, gone: set<Key>)
    requires forall i :: 0 <= i < |s| ==> s[i].key !in gone
    ensures Drop(s, gone) == s
  {
    if s != [] {
      DropNothing(s[1..], gone);
    }
  }

  /** Dropping the key of one record removes that record alone. */
  lemma {:induction false} DropOne(s: seq<Item>, i: nat)
    requires Distinct(s) && i < |s|
    ensures Drop(s, {s[i].key}) == RemoveAt(s, i)
  {
    if i == 0 {
      DropNothing(s[1..], {s[0].key});
    } else {
      DropOne(s[1..], i - 1);
      assert RemoveAt(s, i) == [s[0]] + RemoveAt(s[1..], i - 1);
    }
  }

  lemma {:induction false} FindKeys(s: seq<Item>, k: Key)
    ensures Find(s, k).Some? <==> k in Keys(s)
  {
    if s != [] {
      assert Keys(s) == [s[0].key] + Keys(s[1..]);
      FindKeys(s[1..], k);
    }
  }

  /** The position of the record of `k`. */
  ghost function FindIndex(s: seq<Item>, k: Key): (i: nat)
    requires Find(s, k).Some?
    ensures i < |s| && s[i].key == k && Find(s, k).value == s[i]
  {
    if s[0].key == k then 0 else 1 + FindIndex(s[1..], k)
  }

  lemma {:induction false} FindNone(s: seq<Item>, k: Key)
    requires Find(s, k).None?
    ensures forall i :: 0 <= i < |s| ==> s[i].key != k
  {
    if s != [] {
      FindNone(s[1..], k);
    }
  }

  lemma {:induction false} FindAbsent(s: seq<Item>, k: Key)
    requires forall i :: 0 <= i < |s| ==> s[i].key != k
    ensures Find(s, k).None?
  {
    if s != [] {
      FindAbsent(s[1..], k);
    }
  }

  lemma {:induction false} FindAppend(s: seq<Item>, item: Item, k: Key)
    ensures Find(s + [item], k) ==
            if Find(s, k).Some? then Find(s, k) else if item.key == k then Some(item) else None
  {
    if s != [] {
      assert (s + [item])[1..] == s[1..] + [item];
      FindAppend(s[1..], item, k);
    }
  }

  /** Records with the same keys in the same order hold the same keys. */
  lemma {:induction false} FindRekey(s: seq<Item>, t: seq<Item>, k: Key)
    requires |s| == |t| && forall i :: 0 <= i < |s| ==> s[i].key == t[i].key
    ensures Find(s, k).Some? <==> Find(t, k).Some?
  {
    if s != [] {
      FindRekey(s[1..], t[1..], k);
    }
  }

  lemma {:induction false} DropFind(s: seq<Item>, gone: set<Key>, k: Key)
    ensures Find(Drop(s, gone), k) == if k in gone then None else Find(s, k)
  {
    if s != [] {
      DropFind(s[1..], gone, k);
      var rest := Drop(s[1..], gone);
      assert ([s[0]] + rest)[1..] == rest;
    }
  }

  // ---- Facts about sweeping ----

  lemma {:induction false} SweptFind(s: seq<Item>, drop: int -> bool, read: map<Key, int>, k: Key)
    requires k !in read
    ensures Find(Swept(s, drop, read), k) == Find(s, k)
  {
    if s != [] {
      hide Keys;
      SweptFind(s[1..], drop, read, k);
      var rest := Swept(s[1..], drop, read);
      assert ([s[0]] + rest)[1..] == rest;
    }
  }

  lemma {:induction false} SweptSame(s: seq<Item>, drop: int -> bool, read: map<Key, int>, k: Key, now: int)
    requires forall i :: 0 <= i < |s| ==> s[i].key != k
    ensures Swept(s, drop, read[k := now]) == Swept(s, drop, read)
  {
    if s != [] {
      SweptSame(s[1..], drop, read, k, now);
    }
  }

  /** Examining one more key drops its record exactly when it is too old. */
  lemma {:induction false} SweptNext(s: seq<Item>, drop: int -> bool, read: map<Key, int>, k: Key, now: int)
    requires Distinct(s) && Find(s, k).Some? && k !in read
    ensures Swept(s, drop, read[k := now]) ==
            if drop(now - Find(s, k).value.time) then Drop(Swept(s, drop, read), {k}) else Swept(s, drop, read)
  {
    var rest := Swept(s[1..], drop, read);
    assert ([s[0]] + rest)[1..] == rest;
    if s[0].key == k {
      SweptSame(s[1..], drop, read, k, now);
      SweptAvoids(s[1..], drop, read, k);
      DropNothing(rest, {k});
    } else {
      SweptNext(s[1..], drop, read, k, now);
    }
  }

  /** One step of the clean-up loop keeps the records those of the clean-up under way. */
  lemma SweptStep(s: seq<Item>, before: seq<Item>, after: seq<Item>, drop: int -> bool, read: map<Key, int>, k: Key,
                  now: int)
    requires Distinct(s) && k !in read && before == Swept(s, drop, read) && Find(before, k).Some?
    requires after == if drop(now - Find(before, k).value.time) then Drop(before, {k}) else before
    ensures after == Swept(s, drop, read[k := now])
  {
    SweptFind(s, drop, read, k);
    SweptNext(s, drop, read, k, now);
  }

  lemma {:induction false} SweptAvoids(s: seq<Item>, drop: int -> bool, read: map<Key, int>, k: Key)
    requires forall i :: 0 <= i < |s| ==> s[i].key != k
    ensures forall i :: 0 <= i < |Swept(s, drop, read)| ==> Swept(s, drop, read)[i].key != k
  {
    if s != [] {
      SweptAvoids(s[1..], drop, read, k);
    }
  }

  /** Once every key has been examined the clean-up is complete. */
  lemma {:induction false} SweptAll(s: seq<Item>, drop: int -> bool, read: map<Key, int>, clock: Key -> int)
    requires forall i :: 0 <= i < |s| ==> s[i].key in read && clock(s[i].key) == read[s[i].key]
    ensures Swept(s, drop, read) == Sweep(s, drop, clock)
  {
    if s != [] {
      SweptAll(s[1..], drop, read, clock);
    }
  }

  lemma {:induction false} SweptNone(s: seq<Item>, drop: int -> bool)
    ensures Swept(s, drop, map[]) == s
  {
    if s != [] {
      SweptNone(s[1..], drop);
    }
  }

  lemma KeysAppend(a: seq<Item>, b: seq<Item>)
    ensures Keys(a + b) == Keys(a) + Keys(b)
  {
    forall i | 0 <= i < |a + b|
      ensures Keys(a + b)[i] == (Keys(a) + Keys(b))[i]
    {
      if i < |a| {
        assert (a + b)[i] == a[i];
      }
    }
  }

  /** Dropping keeps exactly the keys outside `gone`. */
  lemma {:induction false} DropKeys(s: seq<Item>, gone: set<Key>)
    ensures forall k :: k in Keys(Drop(s, gone)) <==> k in Keys(s) && k !in gone
  {
    if s != [] {
      var d := Drop(s[1..], gone);
      DropKeys(s[1..], gone);
      assert Keys(s) == [s[0].key] + Keys(s[1..]);
      if s[0].key in gone {
        assert Drop(s, gone) == d;
      } else {
        assert Keys(Drop(s, gone)) == [s[0].key] + Keys(d);
      }
    }
  }

  /** Dropping keeps the keys distinct. */
  lemma {:induction false} DropDistinct(s: seq<Item>, gone: set<Key>)
    requires Distinct(s)
    ensures Distinct(Drop(s, gone))
  {
    if s != [] {
      var d := Drop(s[1..], gone);
      DropDistinct(s[1..], gone);
      DropKeys(s[1..], gone);
      forall j | 0 <= j < |d|
        ensures d[j].key != s[0].key
      {
        assert Keys(d)[j] in Keys(s[1..]);
      }
    }
  }

  /** A sweep keeps exactly the records that are not too old, and keeps their keys distinct. */
  lemma {:induction false} SweepKeeps(s: seq<Item>, drop: int -> bool, clock: Key -> int)
    ensures forall item :: item in Sweep(s, drop, clock) <==> item in s && !drop(clock(item.key) - item.time)
    ensures Distinct(s) ==> Distinct(Sweep(s, drop, clock))
  {
    if s != [] {
      SweepKeeps(s[1..], drop, clock);
      assert s == [s[0]] + s[1..];
      forall item
        ensures item in Sweep(s, drop, clock) <==> item in s && !drop(clock(item.key) - item.time)
      {}
    }
  }

  lemma {:induction false} KeyCount(s: seq<Item>)
    requires Distinct(s)
    ensures |set k | k in Keys(s)| == |s|
  {
    if s != [] {
      KeyCount(s[1..]);
      var tail := set k | k in Keys(s[1..]);
      assert Keys(s) == [s[0].key] + Keys(s[1..]);
      assert (set k | k in Keys(s)) == {s[0].key} + tail;
      assert s[0].key !in tail;
    } else {
      assert (set k | k in Keys(s)) == {};
    }
  }

  /** Every operation keeps keys distinct and respects the bound. */
  lemma ApplyKeeps(s: seq<Item>, capacity: int, policy: Policy, op: Op)
    requires Distinct(s) && |s| <= Bound(capacity)
    ensures Distinct(Apply(s, capacity, policy, op))
    ensures |Apply(s, capacity, policy, op)| <= Bound(capacity)
  {
    match op {
      case Set(k, v, t) =>
        if Find(s, k).Some? {
          TouchKeeps(s, k, Item(k, v, t));
        } else {
          FindNone(s, k);
        }
      case Get(k, now) =>
        if Find(s, k).Some? {
          TouchKeeps(s, k, Find(s, k).value);
        }
      case CleanUp(clock) =>
        SweepKeeps(s, policy.onCleanUp, clock);
    }
  }

  /** Replacing the record of a held key by one at the end keeps the length and the distinctness. */
  lemma TouchKeeps(s: seq<Item>, k: Key, item: Item)
    requires Distinct(s) && Find(s, k).Some? && item.key == k
    ensures |Drop(s, {k}) + [item]| == |s|
    ensures Distinct(Drop(s, {k})) && Distinct(Drop(s, {k}) + [item])
  {
    DropOne(s, FindIndex(s, k));
    DropKeys(s, {k});
    FindKeys(s, k);
    DropDistinct(s, {k});
    KeysAppend(Drop(s, {k}), [item]);
  }

  /** On every run keys stay distinct and the bound is respected, whatever the two drop rules are. */
  lemma {:induction false} RunKeeps(capacity: int, policy: Policy, ops: seq<Op>)
    ensures Distinct(Run(capacity, policy, ops))
    ensures |Run(capacity, policy, ops)| <= Bound(capacity)
  {
    if ops != [] {
      var before := ops[..|ops| - 1];
      RunKeeps(capacity, policy, before);
      ApplyKeeps(Run(capacity, policy, before), capacity, policy, ops[|ops| - 1]);
    }
  }
}
