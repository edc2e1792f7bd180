/** On a run without age drops the LRU cache holds the most recently touched keys, in order. */
module LruRecency {
  import opened CacheTypes
  import opened Collections
  import opened LruSpec

  /** The keys touched by a run, in order: a touch is a store or a lookup that hits. */
  ghost function Touches(capacity: int, policy: Policy, ops: seq<Op>): seq<Key> {
    if ops == [] then []
    else
      var before, op := ops[..|ops| - 1], ops[|ops| - 1];
      var earlier := Touches(capacity, policy, before);
      match op
      case Set(k, v, t) => earlier + [k]
      case Get(k, now) =>
        if GetItem(Run(capacity, policy, before), policy.onGet, k, now).1.Some? then earlier + [k] else earlier
      case CleanUp(clock) => earlier
  }

  /** No lookup and no clean-up of the run drops a record for its age. */
  ghost predicate NoAgeDrops(capacity: int, policy: Policy, ops: seq<Op>) {
    ops == [] ||
    var before, op := ops[..|ops| - 1], ops[|ops| - 1];
    var s := Run(capacity, policy, before);
    && NoAgeDrops(capacity, policy, before)
    && match op
       case Set(k, v, t) => true
       case Get(k, now) => Find(s, k).Some? ==> !policy.onGet(now - Find(s, k).value.time)
       case CleanUp(clock) => Sweep(s, policy.onCleanUp, clock) == s
  }

  /** `ks` without `k`. */
  function Without(ks: seq<Key>, k: Key): seq<Key> {
    if ks == [] then []
    else if ks[0] == k then Without(ks[1..], k)
    else [ks[0]] + Without(ks[1..], k)
  }

  /** The distinct keys of a sequence of touches, each at the place of its last touch. */
  function LastTouched(touches: seq<Key>): seq<Key> {
    if touches == [] then []
    else
      var k := touches[|touches| - 1];
      Without(LastTouched(touches[..|touches| - 1]), k) + [k]
  }

  ghost predicate NoDup(ks: seq<Key>) {
    forall i, j :: 0 <= i < j < |ks| ==> ks[i] != ks[j]
  }

  ghost predicate Avoids(ks: seq<Key>, k: Key) {
    forall i :: 0 <= i < |ks| ==> ks[i] != k
  }

  /** The position of the last touch of `k`, or -1. */
  ghost function LastIndex(touches: seq<Key>, k: Key): (i: int)
    ensures -1 <= i < |touches|
    ensures i >= 0 ==> touches[i] == k
    ensures forall j :: i < j < |touches| ==> touches[j] != k
  {
    if touches == [] then -1
    else if touches[|touches| - 1] == k then |touches| - 1
    else LastIndex(touches[..|touches| - 1], k)
  }

  // ---- What `LastTouched` means ----

  lemma {:induction false} WithoutAvoids(ks: seq<Key>, k: Key)
    ensures Avoids(Without(ks, k), k)
  {
    if ks != [] {
      WithoutAvoids(ks[1..], k);
    }
  }

  lemma {:induction false} WithoutOther(ks: seq<Key>, k: Key, x: Key)
    requires x != k
    ensures Avoids(Without(ks, k), x) <==> Avoids(ks, x)
  {
    if ks != [] {
      WithoutOther(ks[1..], k, x);
      assert ks == [ks[0]] + ks[1..];
      AvoidsSplit([ks[0]], ks[1..], x);
      AvoidsSplit([ks[0]], Without(ks[1..], k), x);
    }
  }

  lemma AvoidsSplit(a: seq<Key>, b: seq<Key>, k: Key)
    ensures Avoids(a + b, k) <==> Avoids(a, k) && Avoids(b, k)
  {
    if Avoids(a + b, k) {
      assert forall i :: 0 <= i < |a| ==> a[i] == (a + b)[i];
      assert forall i :: 0 <= i < |b| ==> b[i] == (a + b)[|a| + i];
    }
  }

  /** `Without` keeps the order of what it keeps. */
  lemma {:induction false} WithoutOrder(ks: seq<Key>, k: Key, rank: Key -> int)
    requires Increasing(ks, rank)
    ensures Increasing(Without(ks, k), rank)
    ensures forall low :: Above(ks, rank, low) ==> Above(Without(ks, k), rank, low)
  {
    if ks != [] {
      WithoutOrder(ks[1..], k, rank);
      assert Above(ks[1..], rank, rank(ks[0]));
      forall low | Above(ks, rank, low)
        ensures Above(Without(ks, k), rank, low)
      {
        assert Above(ks[1..], rank, low);
        assert low < rank(ks[0]);
      }
    }
  }

  ghost predicate Increasing(ks: seq<Key>, rank: Key -> int) {
    forall i, j :: 0 <= i < j < |ks| ==> rank(ks[i]) < rank(ks[j])
  }

  ghost predicate Above(ks: seq<Key>, rank: Key -> int, low: int) {
    forall i :: 0 <= i < |ks| ==> low < rank(ks[i])
  }

  /** `LastTouched` lists exactly the touched keys, one before another when its last touch came first. */
  lemma {:induction false} LastTouchedOrder(touches: seq<Key>)
    ensures forall k :: Avoids(LastTouched(touches), k) <==> LastIndex(touches, k) == -1
    ensures Increasing(LastTouched(touches), k => LastIndex(touches, k))
  {
    if touches != [] {
      var n := |touches| - 1;
      var earlier, k := touches[..n], touches[n];
      var o := LastTouched(earlier);
      LastTouchedOrder(earlier);
      WithoutAvoids(o, k);
      WithoutOrder(o, k, x => LastIndex(earlier, x));
      var w := Without(o, k);
      forall x
        ensures Avoids(w + [k], x) <==> LastIndex(touches, x) == -1
      {
        AvoidsSplit(w, [k], x);
        if x != k {
          WithoutOther(o, k, x);
          assert Avoids([k], x);
        } else {
          assert [k][0] == x;
        }
      }
      forall i, j | 0 <= i < j < |w + [k]|
        ensures LastIndex(touches, (w + [k])[i]) < LastIndex(touches, (w + [k])[j])
      {
        assert w[i] != k;
        assert j < |w| ==> w[j] != k;
      }
    }
  }

  // ---- The theorem ----

  /** `ks` is the last min(bound, |order|) keys of `order`. */
  ghost predicate MostRecent(ks: seq<Key>, order: seq<Key>, bound: nat) {
    && |ks| == (if |order| < bound then |order| else bound)
    && ks == order[|order| - |ks|..]
  }

  lemma {:induction false} WithoutAppend(a: seq<Key>, b: seq<Key>, k: Key)
    ensures Without(a + b, k) == Without(a, k) + Without(b, k)
  {
    if a == [] {
      assert a + b == b;
    } else {
      assert (a + b)[1..] == a[1..] + b;
      WithoutAppend(a[1..], b, k);
    }
  }

  lemma {:induction false} WithoutNone(ks: seq<Key>, k: Key)
    requires Avoids(ks, k)
    ensures Without(ks, k) == ks
  {
    if ks != [] {
      assert forall i :: 0 <= i < |ks| - 1 ==> ks[1..][i] == ks[i + 1];
      WithoutNone(ks[1..], k);
    }
  }

  lemma {:induction false} WithoutOne(ks: seq<Key>, k: Key)
    requires NoDup(ks) && !Avoids(ks, k)
    ensures |Without(ks, k)| == |ks| - 1
  {
    if ks[0] == k {
      WithoutNone(ks[1..], k);
    } else {
      assert ks == [ks[0]] + ks[1..];
      AvoidsSplit([ks[0]], ks[1..], k);
      WithoutOne(ks[1..], k);
    }
  }

  lemma MostRecentSuffix(a: seq<Key>, ks: seq<Key>, bound: nat)
    ensures MostRecent(ks, a + ks, bound) <==> |ks| <= bound && (a != [] ==> |ks| == bound)
  {
    assert (a + ks)[|a|..] == ks;
  }

  /** What a cache holds, preceded by the touched keys it no longer holds. */
  lemma Evicted(ks: seq<Key>, order: seq<Key>, bound: nat) returns (a: seq<Key>)
    requires MostRecent(ks, order, bound)
    ensures order == a + ks && |ks| <= bound && (a != [] ==> |ks| == bound)
  {
    a := order[..|order| - |ks|];
  }

  lemma AvoidsPrefix(a: seq<Key>, ks: seq<Key>, k: Key)
    requires NoDup(a + ks)
    ensures NoDup(a) && NoDup(ks) && (!Avoids(ks, k) ==> Avoids(a, k))
  {
    assert forall i :: 0 <= i < |a| ==> a[i] == (a + ks)[i];
    assert forall i :: 0 <= i < |ks| ==> ks[i] == (a + ks)[|a| + i];
  }

  /** Touching a key held by the cache. */
  lemma TouchHeld(ks: seq<Key>, order: seq<Key>, bound: nat, k: Key)
    requires NoDup(order) && MostRecent(ks, order, bound) && !Avoids(ks, k)
    ensures MostRecent(Without(ks, k) + [k], Without(order, k) + [k], bound)
  {
    hide Without, Avoids, NoDup, MostRecent;
    var a := Evicted(ks, order, bound);
    AvoidsPrefix(a, ks, k);
    WithoutAppend(a, ks, k);
    WithoutNone(a, k);
    WithoutOne(ks, k);
    assert a + Without(ks, k) + [k] == a + (Without(ks, k) + [k]);
    MostRecentSuffix(a, Without(ks, k) + [k], bound);
  }

  /** Touching a key the cache does not hold, evicting its first key when it is full. */
  lemma TouchNew(ks: seq<Key>, order: seq<Key>, bound: nat, k: Key)
    requires NoDup(order) && MostRecent(ks, order, bound) && Avoids(ks, k) && bound > 0
    ensures MostRecent((if |ks| >= bound then ks[1..] else ks) + [k], Without(order, k) + [k], bound)
  {
    hide Without, Avoids, NoDup, MostRecent;
    var a := Evicted(ks, order, bound);
    WithoutAppend(a, ks, k);
    WithoutNone(ks, k);
    var a' := Without(a, k);
    if |ks| >= bound {
      assert a' + ks + [k] == (a' + [ks[0]]) + (ks[1..] + [k]);
      MostRecentSuffix(a' + [ks[0]], ks[1..] + [k], bound);
    } else {
      assert a == [] && a' == [] by { WithoutEmpty(k); }
      assert a' + ks + [k] == [] + (ks + [k]);
      MostRecentSuffix([], ks + [k], bound);
    }
  }

  lemma WithoutEmpty(k: Key)
    ensures Without([], k) == []
  {}

  lemma {:induction false} KeysDrop(s: seq<Item>, k: Key)
    ensures Keys(Drop(s, {k})) == Without(Keys(s), k)
  {
    if s != [] {
      KeysDrop(s[1..], k);
      assert Keys(s) == [s[0].key] + Keys(s[1..]);
      assert Keys([s[0]] + Drop(s[1..], {k})) == [s[0].key] + Keys(Drop(s[1..], {k}));
    }
  }

  lemma FindAvoids(s: seq<Item>, k: Key)
    ensures Find(s, k).None? <==> Avoids(Keys(s), k)
  {
    if Find(s, k).None? {
      FindNone(s, k);
    } else {
      var i := FindIndex(s, k);
      assert Keys(s)[i] == k;
    }
  }

  /** Moving the record of a held key to the end. */
  lemma TouchKeys(s: seq<Item>, order: seq<Key>, bound: nat, item: Item)
    requires NoDup(order) && MostRecent(Keys(s), order, bound) && Find(s, item.key).Some?
    ensures MostRecent(Keys(Drop(s, {item.key}) + [item]), Without(order, item.key) + [item.key], bound)
  {
    hide MostRecent;
    FindAvoids(s, item.key);
    TouchHeld(Keys(s), order, bound, item.key);
    KeysDrop(s, item.key);
    KeysAppend(Drop(s, {item.key}), [item]);
    assert Keys([item]) == [item.key];
  }

  lemma SetKeys(s: seq<Item>, capacity: int, order: seq<Key>, item: Item)
    requires NoDup(order) && MostRecent(Keys(s), order, Bound(capacity))
    ensures MostRecent(Keys(SetItem(s, capacity, item)), Without(order, item.key) + [item.key], Bound(capacity))
  {
    var k := item.key;
    assert Keys([item]) == [k];
    if capacity == 0 {
      assert Keys(s) == [];
    } else if Find(s, k).Some? {
      TouchKeys(s, order, Bound(capacity), item);
    } else {
      FindAvoids(s, k);
      TouchNew(Keys(s), order, Bound(capacity), k);
      KeysAppend(s, [item]);
      if |s| >= capacity && s != [] {
        KeysAppend(s[1..], [item]);
        assert Keys(s[1..]) == Keys(s)[1..];
      }
    }
  }

  /** On a run without age drops the cache holds exactly the last min(bound, n) of the n distinct
      keys touched, least recently touched first: what it evicts is always the least recent. */
  lemma {:induction false} Recency(capacity: int, policy: Policy, ops: seq<Op>)
    requires NoAgeDrops(capacity, policy, ops)
    ensures MostRecent(Keys(Run(capacity, policy, ops)), LastTouched(Touches(capacity, policy, ops)), Bound(capacity))
  {
    hide MostRecent;
    if ops == [] {
      EmptyRecent(Bound(capacity));
    } else {
      var before, op := ops[..|ops| - 1], ops[|ops| - 1];
      Recency(capacity, policy, before);
      var s, touches := Run(capacity, policy, before), Touches(capacity, policy, before);
      LastTouchedDistinct(touches);
      match op {
        case Set(k, v, t) =>
          assert (touches + [k])[..|touches|] == touches;
          SetKeys(s, capacity, LastTouched(touches), Item(k, v, t));
        case Get(k, now) =>
          if Find(s, k).Some? {
            assert (touches + [k])[..|touches|] == touches;
            TouchKeys(s, LastTouched(touches), Bound(capacity), Find(s, k).value);
          }
        case CleanUp(clock) =>
      }
    }
  }

  lemma EmptyRecent(bound: nat)
    ensures MostRecent(Keys([]), LastTouched([]), bound)
  {}

  lemma LastTouchedDistinct(touches: seq<Key>)
    ensures NoDup(LastTouched(touches))
  {
    LastTouchedOrder(touches);
    var rank := k => LastIndex(touches, k);
    assert Increasing(LastTouched(touches), rank);
    forall i, j | 0 <= i < j < |LastTouched(touches)|
      ensures LastTouched(touches)[i] != LastTouched(touches)[j]
    {
      assert rank(LastTouched(touches)[i]) < rank(LastTouched(touches)[j]);
    }
  }
}
