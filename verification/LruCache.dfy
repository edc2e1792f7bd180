/** The LRU cache over its hash map, its recency list and its pool of recycled entries.
    Every method is proved against the sequence operations of `LruSpec`. */
module LruCache {
  import opened CacheTypes
  import opened Collections
  import opened RecencyList
  import opened LruSpec

  /** The map sends the key of each record to the node at the record's position, and has no other key. */
  ghost predicate Indexed(data: map<Key, Element>, nodes: seq<Element>, items: seq<Item>) {
    && |nodes| == |items|
    && Distinct(items)
    && (forall i :: 0 <= i < |items| ==> items[i].key in data && data[items[i].key] == nodes[i])
    && (forall k :: k in data ==> Find(items, k).Some?)
  }

  /** No entry is used twice, and none in use is up for recycling. */
  ghost predicate Live(entries: seq<Entry>, pool: set<Entry>) {
    && (forall i, j :: 0 <= i < j < |entries| ==> entries[i] != entries[j])
    && (forall i :: 0 <= i < |entries| ==> entries[i] !in pool)
  }

  /** Node `i` carries entry `i`, whose fields are those of record `i`. */
  ghost predicate Carried(nodes: seq<Element>, entries: seq<Entry>, items: seq<Item>)
    reads (set n | n in nodes)`value, set e | e in entries
  {
    && |nodes| == |entries| == |items|
    && (forall i :: 0 <= i < |nodes| ==> nodes[i].value == entries[i])
    && (forall i :: 0 <= i < |entries| ==>
          items[i] == Item(entries[i].key, entries[i].value, entries[i].lastUpdated))
  }

  lemma IndexedRemove(data: map<Key, Element>, nodes: seq<Element>, items: seq<Item>, i: nat)
    requires |nodes| == |items| && Indexed(data, nodes, items) && i < |items|
    ensures items[i].key in data && data[items[i].key] == nodes[i]
    ensures Indexed(data - {items[i].key}, RemoveAt(nodes, i), RemoveAt(items, i))
    ensures RemoveAt(items, i) == Drop(items, {items[i].key})
  {
    hide Drop, Keys, Find;
    var gone := {items[i].key};
    DropOne(items, i);
    DropDistinct(items, gone);
    forall k | k in data - gone
      ensures Find(Drop(items, gone), k).Some?
    {
      DropFind(items, gone, k);
    }
    forall j | 0 <= j < |items| - 1
      ensures RemoveAt(items, i)[j].key in data - {items[i].key}
      ensures data[RemoveAt(items, i)[j].key] == RemoveAt(nodes, i)[j]
    {
      var j0 := if j < i then j else j + 1;
      assert RemoveAt(items, i)[j] == items[j0] && RemoveAt(nodes, i)[j] == nodes[j0];
    }
  }

  lemma IndexedPush(data: map<Key, Element>, nodes: seq<Element>, items: seq<Item>, item: Item, n: Element)
    requires Indexed(data, nodes, items) && item.key !in data
    ensures Indexed(data[item.key := n], nodes + [n], items + [item])
  {
    hide Find;
    forall k | k in data || k == item.key
      ensures Find(items + [item], k).Some?
    {
      FindAppend(items, item, k);
    }
  }

  lemma LiveRemove(entries: seq<Entry>, pool: set<Entry>, i: nat)
    requires Live(entries, pool) && i < |entries|
    ensures Live(RemoveAt(entries, i), pool + {entries[i]})
  {
    forall j | 0 <= j < |entries| - 1
      ensures RemoveAt(entries, i)[j] !in pool + {entries[i]}
    {
      assert RemoveAt(entries, i)[j] == entries[if j < i then j else j + 1];
    }
  }

  lemma LivePush(entries: seq<Entry>, pool: set<Entry>, entry: Entry)
    requires Live(entries, pool) && entry !in entries && entry !in pool
    ensures Live(entries + [entry], pool)
  {}

  lemma CarriedRemove(nodes: seq<Element>, entries: seq<Entry>, items: seq<Item>, i: nat)
    requires Carried(nodes, entries, items) && i < |nodes|
    ensures Carried(RemoveAt(nodes, i), RemoveAt(entries, i), RemoveAt(items, i))
    ensures nodes[i].value == entries[i] && entries[i].key == items[i].key
  {}

  /** `s` with the element at position `i` moved to the end. */
  function MoveLast<T>(s: seq<T>, i: nat): seq<T>
    requires i < |s|
  {
    RemoveAt(s, i) + [s[i]]
  }

  /** Moving one record to the end keeps map, entries and nodes in step. */
  lemma MoveKeeps(data: map<Key, Element>, nodes: seq<Element>,
                              entries: seq<Entry>, items: seq<Item>, pool: set<Entry>, i: nat)
    requires |nodes| == |entries| == |items| && i < |items|
    requires Indexed(data, nodes, items) && Live(entries, pool) && Carried(nodes, entries, items)
    ensures Indexed(data, MoveLast(nodes, i), MoveLast(items, i))
    ensures Live(MoveLast(entries, i), pool)
    ensures Carried(MoveLast(nodes, i), MoveLast(entries, i), MoveLast(items, i))
    ensures MoveLast(items, i) == Drop(items, {items[i].key}) + [items[i]]
  {
    hide Indexed, Distinct, Drop, Keys;
    CarriedRemove(nodes, entries, items, i);
    LiveRemove(entries, pool, i);
    IndexedRemove(data, nodes, items, i);
    IndexedPush(data - {items[i].key}, RemoveAt(nodes, i), RemoveAt(items, i), items[i], nodes[i]);
    assert (data - {items[i].key})[items[i].key := nodes[i]] == data;
  }

  class SetGetter {
    var data: map<Key, Element>
    var list: List
    var pool: set<Entry>
    var ttl: int
    var capacity: int
    ghost var entries: seq<Entry>
    ghost var items: seq<Item>
    ghost var owned: set<Entry>  // every entry in use or in the pool

    ghost predicate Valid()
      reads this, list, list.cells, owned
    {
      && pool <= owned
      && (forall i :: 0 <= i < |entries| ==> entries[i] in owned)
      && list.Valid()
      && |list.nodes| == |entries| == |items|
      && Indexed(data, list.nodes, items)
      && Live(entries, pool)
      && Carried(list.nodes, entries, items)
      && |items| <= Bound(capacity)
    }

    constructor (capacity: int, ttl: int)
      ensures Valid() && items == [] && this.capacity == capacity && this.ttl == ttl
      ensures fresh(list) && fresh(list.cells) && owned == {}
    {
      data := map[];
      list := new List();
      pool := {};
      this.ttl, this.capacity := ttl, capacity;
      entries, items, owned := [], [], {};
    }

    /** Takes an entry out of the pool, or makes one. */
    method TakeEntry() returns (entry: Entry)
      modifies this`pool
      ensures entry in old(pool) || fresh(entry)
      ensures pool == old(pool) - {entry}
    {
      var recycle: bool := *;
      if pool != {} && recycle {
        entry :| entry in pool;
        pool := pool - {entry};
      } else {
        entry := new Entry();
      }
    }

    method RemoveElement(elem: Element, ghost i: nat)
      requires Valid() && i < |items| && list.nodes[i] == elem
      modifies this`data, this`pool, this`entries, this`items
      modifies list`len, list`nodes, list.cells`next, list.cells`prev
      ensures Valid() && items == RemoveAt(old(items), i)
      ensures entries == RemoveAt(old(entries), i) && pool == old(pool) + {old(entries[i])}
      ensures data.Keys == old(data.Keys) - {old(items)[i].key}
    {
      hide List.Valid, Indexed, Live;
      IndexedRemove(data, list.nodes, items, i);
      LiveRemove(entries, pool, i);
      CarriedRemove(list.nodes, entries, items, i);
      var entry := elem.value;
      data := data - {entry.key};
      pool := pool + {entry};
      entries := RemoveAt(entries, i);
      items := RemoveAt(items, i);
      list.Remove(elem, i);
    }

    /** Makes the record at position `i` the most recent one. */
    method Touch(elem: Element, ghost i: nat)
      requires Valid() && i < |items| && list.nodes[i] == elem
      modifies this`entries, this`items, list`nodes, list.cells`next, list.cells`prev
      ensures Valid() && items == Drop(old(items), {old(items)[i].key}) + [old(items)[i]]
      ensures elem.value == entries[|items| - 1]
      ensures entries == MoveLast(old(entries), i)
    {
      hide List.Valid, Indexed, Live, Drop;
      MoveKeeps(data, list.nodes, entries, items, pool, i);
      entries := MoveLast(entries, i);
      items := MoveLast(items, i);
      list.MoveToBack(elem, i);
    }

    /** Replaces value and time of the most recent record. */
    method Overwrite(entry: Entry, v: Value, updateTime: int)
      requires Valid() && items != [] && entries[|items| - 1] == entry
      modifies this`items, entry`value, entry`lastUpdated
      ensures Valid()
      ensures items == old(items[..|items| - 1]) + [Item(old(items)[|items| - 1].key, v, updateTime)]
    {
      hide List.Valid;
      entry.value := v;
      entry.lastUpdated := updateTime;
      items := items[..|items| - 1] + [Item(items[|items| - 1].key, v, updateTime)];
      forall k | k in data
        ensures Find(items, k).Some?
      {
        FindRekey(old(items), items, k);
      }
    }

    /** An entry, recycled or new, with the fields given. */
    method FillEntry(k: Key, v: Value, updateTime: int) returns (entry: Entry)
      requires Valid()
      modifies this`pool, this`owned, owned
      ensures Valid() && entry in owned && entry !in pool && entry !in entries
      ensures entry.key == k && entry.value == v && entry.lastUpdated == updateTime
      ensures fresh(owned - old(owned))
    {
      hide List.Valid, Indexed;
      entry := TakeEntry();
      owned := owned + {entry};
      entry.key := k;
      entry.value := v;
      entry.lastUpdated := updateTime;
    }

    /** Adds a record for a key the map does not hold. */
    method Append(k: Key, v: Value, updateTime: int)
      requires Valid() && k !in data && |items| < Bound(capacity)
      modifies this`data, this`pool, this`entries, this`items, this`owned
      modifies list`len, list`nodes, list`cells, list.cells`next, list.cells`prev, owned
      ensures Valid() && items == old(items) + [Item(k, v, updateTime)]
      ensures fresh(owned - old(owned)) && fresh(list.cells - old(list.cells))
    {
      hide Valid;
      var entry := FillEntry(k, v, updateTime);
      Link(entry);
    }

    /** Adds the record of an entry that is in use nowhere else. */
    method Link(entry: Entry)
      requires Valid() && entry in owned && entry !in pool && entry !in entries
      requires entry.key !in data && |items| < Bound(capacity)
      modifies this`data, this`entries, this`items
      modifies list`len, list`nodes, list`cells, list.cells`next, list.cells`prev
      ensures Valid() && items == old(items) + [Item(entry.key, entry.value, entry.lastUpdated)]
      ensures fresh(list.cells - old(list.cells))
    {
      hide List.Valid, Indexed, Live;
      var elem := list.PushBack(entry);
      LivePush(entries, pool, entry);
      IndexedPush(data, old(list.nodes), items, Item(entry.key, entry.value, entry.lastUpdated), elem);
      data := data[entry.key := elem];
      entries := entries + [entry];
      items := items + [Item(entry.key, entry.value, entry.lastUpdated)];
    }

    /** Position of the record of a key the map holds. */
    ghost function Position(k: Key): (i: nat)
      requires Valid() && k in data
      reads this, list, list.cells, owned
      ensures i < |items| && items[i].key == k && list.nodes[i] == data[k]
      ensures Find(items, k) == Some(items[i])
    {
      FindIndex(items, k)
    }

    /** Stores `v` under `k` as the most recent record, read from the source at `updateTime`. */
    method Set(k: Key, v: Value, updateTime: int)
      requires Valid()
      modifies this`data, this`pool, this`entries, this`items, this`owned, list, list.cells, owned
      ensures Valid() && items == SetItem(old(items), capacity, Item(k, v, updateTime))
      ensures fresh(owned - old(owned)) && fresh(list.cells - old(list.cells))
    {
      hide List.Valid, Carried, Live, Find;
      DataKeys(k);
      if capacity == 0 {
        return;
      }
      if k in data {
        var elem := data[k];
        Rewrite(elem, Position(k), v, updateTime);
        return;
      }
      MakeRoom();
      Append(k, v, updateTime);
    }

    /** The branch of `Set` for a key the map holds. */
    method Rewrite(elem: Element, ghost i: nat, v: Value, updateTime: int)
      requires Valid() && i < |items| && list.nodes[i] == elem
      modifies this`items, this`entries, list`nodes, list.cells`next, list.cells`prev, owned
      ensures Valid() && items == Drop(old(items), {old(items)[i].key}) + [Item(old(items)[i].key, v, updateTime)]
    {
      hide List.Valid, Indexed, Carried, Live, Drop;
      Touch(elem, i);
      Overwrite(elem.value, v, updateTime);
    }

    /** Evicts the least recent record when the list has reached its capacity. */
    method MakeRoom()
      requires Valid() && capacity != 0
      modifies this`data, this`pool, this`entries, this`items
      modifies list`len, list`nodes, list.cells`next, list.cells`prev
      ensures Valid() && |items| < Bound(capacity)
      ensures items == if |old(items)| >= capacity && old(items) != [] then old(items)[1..] else old(items)
      ensures data.Keys <= old(data.Keys)
    {
      hide Indexed, Carried, Live;
      if list.len >= capacity {
        var oldest := list.Front();
        if oldest != null {
          RemoveElement(oldest, 0);
        }
      }
    }

    /** Looks `k` up at the instant `now`. */
    method Get(k: Key, now: int) returns (r: Option<Value>)
      requires Valid()
      modifies this`data, this`pool, this`entries, this`items
      modifies list`len, list`nodes, list.cells`next, list.cells`prev
      ensures Valid() && (items, r) == GetItem(old(items), TtlPolicy(ttl).onGet, k, now)
    {
      hide List.Valid, Live;
      DataKeys(k);
      if k !in data {
        return None;
      }
      var elem := data[k];
      ghost var i := Position(k);
      if now - elem.value.lastUpdated < ttl {
        DropOne(items, i);
        RemoveElement(elem, i);
        return None;
      }
      r := Some(elem.value.value);
      Touch(elem, i);
    }

    method LastUpdated(k: Key) returns (r: Option<int>)
      requires Valid()
      ensures r == match Find(items, k) { case None => None case Some(item) => Some(item.time) }
    {
      hide List.Valid, Live;
      DataKeys(k);
      if k in data {
        ghost var i := Position(k);
        r := Some(data[k].value.lastUpdated);
      } else {
        r := None;
      }
    }

    /** The map holds the keys of the records and no others. */
    lemma DataKeys(k: Key)
      requires Valid()
      ensures k in data <==> Find(items, k).Some?
    {
      if Find(items, k).Some? {
        var i := FindIndex(items, k);
        assert items[i].key == k;
      }
    }

    lemma AllIndexed()
      requires Valid()
      ensures Distinct(items) && forall i :: 0 <= i < |items| ==> items[i].key in data.Keys
    {}

    /** One step of the clean-up loop: removes the record of `key` if it is too old at `now`. */
    method Examine(key: Key, now: int) returns (removed: bool)
      requires Valid() && key in data
      modifies this`data, this`pool, this`entries, this`items
      modifies list`len, list`nodes, list.cells`next, list.cells`prev
      ensures Valid()
      ensures Find(old(items), key).Some? && removed == (now - Find(old(items), key).value.time > ttl)
      ensures items == if removed then Drop(old(items), {key}) else old(items)
      ensures data.Keys == if removed then old(data.Keys) - {key} else old(data.Keys)
      ensures |items| == if removed then |old(items)| - 1 else |old(items)|
      ensures |pool| == if removed then |old(pool)| + 1 else |old(pool)|
    {
      hide List.Valid, Drop;
      var elem := data[key];
      ghost var i := Position(key);
      removed := now - elem.value.lastUpdated > ttl;
      if removed {
        DropOne(items, i);
        RemoveElement(elem, i);
      }
    }

    /** Removes the records found too old, visiting the map in any order while the clock moves on
        from `start`; `clock` gives the instant at which each key was examined. */
    method CleanUp(start: int) returns (cleaned: nat, end: int, ghost clock: Key -> int)
      requires Valid()
      modifies this`data, this`pool, this`entries, this`items
      modifies list`len, list`nodes, list.cells`next, list.cells`prev
      ensures Valid() && start <= end && forall k :: start <= clock(k) <= end
      ensures items == Sweep(old(items), TtlPolicy(ttl).onCleanUp, clock)
      ensures cleaned == |old(items)| - |items| && |pool| == |old(pool)| + cleaned
    {
      hide Valid, Drop, Keys, Find, Swept, Sweep;
      cleaned, end := 0, start;
      var todo := data.Keys;
      ghost var drop := TtlPolicy(ttl).onCleanUp;
      ghost var read: map<Key, int> := map[];
      SweptNone(items, drop);
      ghost var was := items;
      AllIndexed();
      while todo != {}
        invariant Valid() && start <= end
        invariant items == Swept(was, drop, read) && todo <= data.Keys
        invariant todo == old(data.Keys) - read.Keys
        invariant forall k <- read :: start <= read[k] <= end
        invariant cleaned == |was| - |items| && |pool| == |old(pool)| + cleaned
        decreases todo
      {
        var key :| key in todo;
        todo := todo - {key};
        var now: int :| now >= end;
        end := now;
        ghost var before := items;
        var removed := Examine(key, now);
        SweptStep(was, before, items, drop, read, key, now);
        if removed {
          cleaned := cleaned + 1;
        }
        read := read[key := now];
      }
      clock := k => if k in read then read[k] else end;
      assert forall k <- old(data.Keys) :: k !in todo && k in read;
      SweptAll(was, drop, read, clock);
    }

    method Len() returns (n: nat)
      requires Valid()
      ensures n == |items|
    {
      assert data.Keys == (set k | k in Keys(items)) by {
        forall k
          ensures k in data <==> k in Keys(items)
        {
          DataKeys(k);
          FindKeys(items, k);
        }
      }
      KeyCount(items);
      assert |data| == |data.Keys|;
      n := |data|;
    }
  }
}
