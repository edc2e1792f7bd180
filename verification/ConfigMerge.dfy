/** The merge of default settings into a user's settings, as a function on trees, and its laws. */
module ConfigMerge {
  import opened Collections

  /** A scalar or a list: the merge does not look inside. */
  type Atom(==, !new, 0)

  datatype Tree = Null | Leaf(atom: Atom) | Dict(fields: map<string, Tree>)

  /** The settings of `user`, completed from `defaults`. */
  function Merge(user: map<string, Tree>, defaults: map<string, Tree>): map<string, Tree>
    decreases Dict(defaults)
  {
    map k | k in user.Keys + defaults.Keys ::
      if k !in defaults then user[k]
      else if k !in user || user[k].Null? then defaults[k]
      else if user[k].Dict? && defaults[k].Dict? then Dict(Merge(user[k].fields, defaults[k].fields))
      else user[k]
  }

  /** What the tree holds at a path of keys. */
  function Lookup(t: Tree, path: seq<string>): Option<Tree>
    decreases |path|
  {
    if path == [] then Some(t)
    else if t.Dict? && path[0] in t.fields then Lookup(t.fields[path[0]], path[1..])
    else None
  }

  // ---- Merging twice ----

  /** Merging a tree into itself changes nothing, at any depth. */
  lemma {:induction false} SelfMerge(s: map<string, Tree>)
    ensures Merge(s, s) == s
    decreases Dict(s)
  {
    forall k | k in s && s[k].Dict?
      ensures Merge(s[k].fields, s[k].fields) == s[k].fields
    {
      SelfMerge(s[k].fields);
    }
  }

  /** Merging the same defaults again changes nothing: regenerating a generated file is a fixpoint. */
  lemma {:induction false} MergeTwice(user: map<string, Tree>, defaults: map<string, Tree>)
    ensures Merge(Merge(user, defaults), defaults) == Merge(user, defaults)
    decreases Dict(defaults)
  {
    var m := Merge(user, defaults);
    forall k | k in m
      ensures Merge(m, defaults)[k] == m[k]
    {
      if k in defaults && defaults[k].Dict? {
        if k in user && user[k].Dict? {
          MergeTwice(user[k].fields, defaults[k].fields);
        } else {
          SelfMerge(defaults[k].fields);
        }
      }
    }
  }

  // ---- What is at each path ----

  /** At a path where both sides hold a dictionary, the merge holds the merge of the two: the union of
      the keys, each decided by what the two sides hold there. */
  lemma {:induction false} MergeAtPath(user: map<string, Tree>, defaults: map<string, Tree>, path: seq<string>)
    requires Lookup(Dict(user), path).Some? && Lookup(Dict(user), path).value.Dict?
    requires Lookup(Dict(defaults), path).Some? && Lookup(Dict(defaults), path).value.Dict?
    ensures var u, d := Lookup(Dict(user), path).value.fields, Lookup(Dict(defaults), path).value.fields;
            var r := Lookup(Dict(Merge(user, defaults)), path);
            && r.Some? && r.value.Dict?
            && r.value.fields.Keys == u.Keys + d.Keys
            && (forall k <- u :: (u[k].Leaf? || k !in d) ==> r.value.fields[k] == u[k])
            && (forall k <- u :: u[k].Dict? ==>
                  r.value.fields[k].Dict? && u[k].fields.Keys <= r.value.fields[k].fields.Keys)
            && (forall k <- d :: k !in u || u[k].Null? ==> r.value.fields[k] == d[k])
            && (forall k <- u :: u[k].Dict? && k in d && !d[k].Dict? ==> r.value.fields[k] == u[k])
    decreases |path|
  {
    if path != [] {
      MergeAtPath(user[path[0]].fields, defaults[path[0]].fields, path[1..]);
    }
  }

  /** A value the user has set, at whatever path, is kept. */
  lemma {:induction false} UserValueKept(user: map<string, Tree>, defaults: map<string, Tree>, path: seq<string>)
    requires Lookup(Dict(user), path).Some? && Lookup(Dict(user), path).value.Leaf?
    ensures Lookup(Dict(Merge(user, defaults)), path) == Lookup(Dict(user), path)
    decreases |path|
  {
    var k := path[0];
    if k in defaults && user[k].Dict? && defaults[k].Dict? {
      UserValueKept(user[k].fields, defaults[k].fields, path[1..]);
    }
  }

  /** Nothing appears that neither side holds. */
  lemma {:induction false} NothingInvented(user: map<string, Tree>, defaults: map<string, Tree>, path: seq<string>)
    requires Lookup(Dict(Merge(user, defaults)), path).Some?
    ensures Lookup(Dict(user), path).Some? || Lookup(Dict(defaults), path).Some?
    decreases |path|
  {
    if path != [] {
      var k := path[0];
      if k in user && k in defaults && user[k].Dict? && defaults[k].Dict? {
        NothingInvented(user[k].fields, defaults[k].fields, path[1..]);
      }
    }
  }

  /** What there is at the end of a path. */
  datatype Kind = Absent | IsNull | IsLeaf(atom: Atom) | IsDict

  function KindAt(t: Tree, path: seq<string>): Kind {
    match Lookup(t, path)
    case None => Absent
    case Some(Null) => IsNull
    case Some(Leaf(a)) => IsLeaf(a)
    case Some(Dict(_)) => IsDict
  }

  /** Going down the path the tree comes to a missing or a null setting. */
  predicate Open(t: Tree, path: seq<string>)
    decreases |path|
  {
    match t
    case Null => true
    case Leaf(_) => false
    case Dict(fields) => path != [] && (path[0] in fields ==> Open(fields[path[0]], path[1..]))
  }

  /** At every path the merge holds what the defaults hold there, if anything, where the user's settings leave the
      path open, and what the user's settings hold otherwise. */
  lemma {:induction false} MergedKind(user: map<string, Tree>, defaults: map<string, Tree>, path: seq<string>)
    ensures KindAt(Dict(Merge(user, defaults)), path) ==
            if Open(Dict(user), path) && KindAt(Dict(defaults), path) != Absent then KindAt(Dict(defaults), path)
            else KindAt(Dict(user), path)
    decreases |path|
  {
    if path != [] {
      var k := path[0];
      KindDown(Merge(user, defaults), path);
      KindDown(user, path);
      KindDown(defaults, path);
      if k in user && k in defaults && user[k].Dict? && defaults[k].Dict? {
        MergedKind(user[k].fields, defaults[k].fields, path[1..]);
      }
    }
  }

  lemma KindDown(fields: map<string, Tree>, path: seq<string>)
    requires path != []
    ensures KindAt(Dict(fields), path) ==
            if path[0] in fields then KindAt(fields[path[0]], path[1..]) else Absent
  {}

  // ---- Associativity ----

  /** Merging `d` into `u` adds something. */
  predicate Adds(u: map<string, Tree>, d: map<string, Tree>)
    decreases Dict(d)
  {
    exists k <- d ::
      k !in u || (u[k].Null? && !d[k].Null?) || (u[k].Dict? && d[k].Dict? && Adds(u[k].fields, d[k].fields))
  }

  lemma {:induction false} AddsExactly(u: map<string, Tree>, d: map<string, Tree>)
    ensures Merge(u, d) == u <==> !Adds(u, d)
    decreases Dict(d)
  {
    var m := Merge(u, d);
    forall k | k in d && k in u && u[k].Dict? && d[k].Dict?
      ensures Merge(u[k].fields, d[k].fields) == u[k].fields <==> !Adds(u[k].fields, d[k].fields)
    {
      AddsExactly(u[k].fields, d[k].fields);
    }
    if Adds(u, d) {
      var k :| k in d &&
               (k !in u || (u[k].Null? && !d[k].Null?) || (u[k].Dict? && d[k].Dict? && Adds(u[k].fields, d[k].fields)));
      assert k in m && (k in u ==> m[k] != u[k]);
    } else {
      assert m.Keys == u.Keys;
      assert forall k <- u :: m[k] == u[k];
    }
  }

  /** At some path reached through dictionaries of all three, the second holds a plain value between a
      dictionary of the first and one of the third that adds to it. */
  predicate Clash(a: map<string, Tree>, b: map<string, Tree>, c: map<string, Tree>)
    decreases Dict(c)
  {
    exists k <- c ::
      k in a && k in b && a[k].Dict? && c[k].Dict? &&
      ((b[k].Leaf? && Adds(a[k].fields, c[k].fields)) || (b[k].Dict? && Clash(a[k].fields, b[k].fields, c[k].fields)))
  }

  function Get<T>(m: map<string, T>, k: string): Option<T> {
    if k in m then Some(m[k]) else None
  }

  /** What a merge makes of one key. */
  function MergeSlot(u: Option<Tree>, d: Option<Tree>): Option<Tree> {
    if d.None? then u
    else if u.None? || u.value.Null? then d
    else if u.value.Dict? && d.value.Dict? then Some(Dict(Merge(u.value.fields, d.value.fields)))
    else u
  }

  lemma MergeByKey(user: map<string, Tree>, defaults: map<string, Tree>, k: string)
    ensures Get(Merge(user, defaults), k) == MergeSlot(Get(user, k), Get(defaults, k))
  {}

  lemma SameByKey(a: map<string, Tree>, b: map<string, Tree>)
    ensures a == b <==> forall k :: Get(a, k) == Get(b, k)
  {
    if forall k :: Get(a, k) == Get(b, k) {
      forall k
        ensures k in a <==> k in b
        ensures k in a ==> a[k] == b[k]
      {
        assert Get(a, k) == Get(b, k);
      }
    }
  }

  predicate ClashSlot(a: Option<Tree>, b: Option<Tree>, c: Option<Tree>) {
    a.Some? && b.Some? && c.Some? && a.value.Dict? && c.value.Dict? &&
    ((b.value.Leaf? && Adds(a.value.fields, c.value.fields)) ||
     (b.value.Dict? && Clash(a.value.fields, b.value.fields, c.value.fields)))
  }

  lemma ClashByKey(a: map<string, Tree>, b: map<string, Tree>, c: map<string, Tree>)
    ensures Clash(a, b, c) <==> exists k :: ClashSlot(Get(a, k), Get(b, k), Get(c, k))
  {
    hide Adds;
    if Clash(a, b, c) {
      var k :| k in c && k in a && k in b && a[k].Dict? && c[k].Dict? &&
        ((b[k].Leaf? && Adds(a[k].fields, c[k].fields)) ||
         (b[k].Dict? && Clash(a[k].fields, b[k].fields, c[k].fields)));
      assert ClashSlot(Get(a, k), Get(b, k), Get(c, k));
    }
  }

  /** The order of two merges does not matter exactly when no plain value of the middle tree stands
      between a dictionary and further settings for it. */
  lemma {:induction false} AssociativeExactly(a: map<string, Tree>, b: map<string, Tree>, c: map<string, Tree>)
    ensures Merge(Merge(a, b), c) == Merge(a, Merge(b, c)) <==> !Clash(a, b, c)
    decreases Dict(c), 1
  {
    hide Merge, Clash, ClashSlot, MergeSlot, Get;
    var l, r := Merge(Merge(a, b), c), Merge(a, Merge(b, c));
    forall k
      ensures Get(l, k) == Get(r, k) <==> !ClashSlot(Get(a, k), Get(b, k), Get(c, k))
    {
      MergeByKey(a, b, k);
      MergeByKey(b, c, k);
      MergeByKey(Merge(a, b), c, k);
      MergeByKey(a, Merge(b, c), k);
      AssociativeSlot(Get(a, k), Get(b, k), Get(c, k), c, k);
    }
    SameByKey(l, r);
    ClashByKey(a, b, c);
  }

  lemma {:induction false} AssociativeSlot(a: Option<Tree>, b: Option<Tree>, c: Option<Tree>,
                                           all: map<string, Tree>, k: string)
    requires c == Get(all, k)
    ensures MergeSlot(MergeSlot(a, b), c) == MergeSlot(a, MergeSlot(b, c)) <==> !ClashSlot(a, b, c)
    decreases Dict(all), 0
  {
    hide Merge, Clash, Adds;
    if a.Some? && b.Some? && c.Some? && a.value.Dict? && c.value.Dict? {
      if b.value.Dict? {
        AssociativeExactly(a.value.fields, b.value.fields, c.value.fields);
      } else if b.value.Leaf? {
        AddsExactly(a.value.fields, c.value.fields);
      }
    }
  }

  /** A plain value between two dictionaries: merged left to right the third fills the first, merged
      right to left the plain value hides it. */
  lemma NotAlwaysAssociative(x: Atom)
    ensures var a, b, c := map["k" := Dict(map[])], map["k" := Leaf(x)], map["k" := Dict(map["f" := Leaf(x)])];
            Merge(Merge(a, b), c) != Merge(a, Merge(b, c))
  {
    var a, b, c := map["k" := Dict(map[])], map["k" := Leaf(x)], map["k" := Dict(map["f" := Leaf(x)])];
    assert Merge(a, b)["k"] == Dict(map[]);
    assert Merge(Merge(a, b), c)["k"] == Dict(Merge(map[], map["f" := Leaf(x)]));
    assert "f" in Merge(map[], map["f" := Leaf(x)]);
    assert Merge(a, Merge(b, c))["k"] == Dict(map[]);
  }
}
