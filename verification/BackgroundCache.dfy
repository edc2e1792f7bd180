/** The background cache: a map from keys to entries that are updated in place and recycled.
    Its content is the map `view` from keys to stamped values. */
module BackgroundCache {
  import opened CacheTypes
  import opened Collections

  /** A cached value and the instant just before it was read from its source. */
  datatype Stamped = Stamped(value: Value, time: int)

  /** `Get` reads through the entry it found, or through nil when there is none. */
  datatype Lookup = Found(value: Value) | NilDereference

  class Entry {
    var value: Value
    var lastUpdated: int

    constructor () {
    }
  }

  /** Each key of `view` has an entry of its own, holding the stamped value, that is not in the pool. */
  ghost predicate Represents(data: map<Key, Entry>, pool: set<Entry>, owned: set<Entry>, view: map<Key, Stamped>)
    reads owned
  {
    && data.Keys == view.Keys
    && pool <= owned
    && (forall k <- data :: data[k] in owned && data[k] !in pool)
    && (forall k <- data :: view[k] == Stamped(data[k].value, data[k].lastUpdated))
    && (forall k, l :: k in data && l in data && k != l ==> data[k] != data[l])
  }

  /** What a clean-up leaves when it examines each key at the instant `clock` gives. */
  ghost function Unexpired(view: map<Key, Stamped>, limit: int, clock: Key -> int): map<Key, Stamped> {
    map k | k in view && clock(k) - view[k].time <= limit :: view[k]
  }

  /** A clean-up under way: only the keys in `read` have been examined. */
  ghost function Checked(view: map<Key, Stamped>, limit: int, read: map<Key, int>): map<Key, Stamped> {
    map k | k in view && (k in read ==> read[k] - view[k].time <= limit) :: view[k]
  }

  lemma CheckedNext(view: map<Key, Stamped>, limit: int, read: map<Key, int>, k: Key, now: int)
    requires k in view && k !in read
    ensures k in Checked(view, limit, read) && Checked(view, limit, read)[k] == view[k]
    ensures Checked(view, limit, read[k := now]) ==
            if now - view[k].time > limit then Checked(view, limit, read) - {k} else Checked(view, limit, read)
  {}

  lemma CheckedAll(view: map<Key, Stamped>, limit: int, read: map<Key, int>, clock: Key -> int)
    requires forall k <- view :: k in read && clock(k) == read[k]
    ensures Checked(view, limit, read) == Unexpired(view, limit, clock)
  {}

  class SetGetter {
    var data: map<Key, Entry>
    var pool: set<Entry>
    var ttl: int
    ghost var view: map<Key, Stamped>
    ghost var owned: set<Entry>  // every entry in use or in the pool

    ghost predicate Valid()
      reads this, owned
    {
      Represents(data, pool, owned, view)
    }

    constructor (ttl: int)
      ensures Valid() && view == map[] && this.ttl == ttl && pool == {} && owned == {}
    {
      data, pool, owned, view := map[], {}, {}, map[];
      this.ttl := ttl;
    }

    method TakeEntry() returns (entry: Entry)
      modifies this`pool
      ensures entry in old(pool) || fresh(entry)
      ensures pool == old(pool) - {entry}
    {
      var recycle: bool := *;
      if pool != {} && recycle {
        entry :| entry in pool;
        pool := pool - {entry};
      } else {
        entry := new Entry();
      }
    }

    method Set(k: Key, v: Value, updateTime: int)
      requires Valid()
      modifies this`data, this`pool, this`view, this`owned, owned
      ensures Valid() && view == old(view)[k := Stamped(v, updateTime)]
      ensures fresh(owned - old(owned)) && pool <= old(pool)
    {
      if k in data {
        var prev := data[k];
        prev.lastUpdated := updateTime;
        prev.value := v;
      } else {
        var entry := TakeEntry();
        data := data[k := entry];
        data[k].lastUpdated := updateTime;
        data[k].value := v;
        owned := owned + {entry};
      }
      view := view[k := Stamped(v, updateTime)];
    }

    method Get(k: Key) returns (r: Lookup)
      requires Valid()
      ensures r == if k in view then Found(view[k].value) else NilDereference
    {
      if k in data {
        r := Found(data[k].value);
      } else {
        r := NilDereference;
      }
    }

    method LastUpdated(k: Key) returns (r: Option<int>)
      requires Valid()
      ensures r == if k in view then Some(view[k].time) else None
    {
      if k !in data {
        return None;
      }
      r := Some(data[k].lastUpdated);
    }

    /** Removes the entries older than ten times the time to live, visiting the map in any order
        while the clock moves on from `start`; `clock` gives the instant each key was examined at. */
    method CleanUp(start: int) returns (cleaned: nat, end: int, ghost clock: Key -> int)
      requires Valid()
      modifies this`data, this`pool, this`view
      ensures Valid() && start <= end && forall k :: start <= clock(k) <= end
      ensures view == Unexpired(old(view), 10 * ttl, clock)
      ensures cleaned == |old(view)| - |view| && |pool| == |old(pool)| + cleaned
    {
      hide Represents, Unexpired, Checked;
      cleaned, end := 0, start;
      var todo := data.Keys;
      ghost var was := view;
      ghost var read: map<Key, int> := map[];
      Starting();
      while todo != {}
        invariant Valid() && start <= end
        invariant todo <= view.Keys && todo <= was.Keys
        invariant forall k <- was :: k in todo <==> k !in read
        invariant forall k <- read :: start <= read[k] <= end
        invariant view == Checked(was, 10 * ttl, read)
        invariant cleaned == |was| - |view| && |pool| == |old(pool)| + cleaned
        decreases todo
      {
        var key :| key in todo;
        todo := todo - {key};
        var now: int :| now >= end;
        end := now;
        CheckedNext(was, 10 * ttl, read, key, now);
        var removed := Examine(key, now);
        if removed {
          cleaned := cleaned + 1;
        }
        read := read[key := now];
      }
      clock := k => if k in read then read[k] else end;
      assert forall k <- was :: k !in todo;
      CheckedAll(was, 10 * ttl, read, clock);
    }

    lemma Starting()
      requires Valid()
      ensures data.Keys == view.Keys && view == Checked(view, 10 * ttl, map[])
    {}

    /** One step of the clean-up loop: recycles the entry of `key` if it is too old at `now`. */
    method Examine(key: Key, now: int) returns (removed: bool)
      requires Valid() && key in view
      modifies this`data, this`pool, this`view
      ensures Valid() && removed == (now - old(view)[key].time > 10 * ttl)
      ensures view == if removed then old(view) - {key} else old(view)
      ensures |view| == |old(view)| - (if removed then 1 else 0)
      ensures |pool| == |old(pool)| + (if removed then 1 else 0)
    {
      removed := now - data[key].lastUpdated > 10 * ttl;
      if removed {
        var entry := data[key];
        data := data - {key};
        pool := pool + {entry};
        view := view - {key};
        assert old(view).Keys == view.Keys + {key};
      }
    }

    method Len() returns (n: nat)
      requires Valid()
      ensures n == |view|
    {
      assert |data.Keys| == |view.Keys|;
      n := |data|;
    }
  }
}
