/** JSON-like trees, and the mutable maps that hold them in memory. */
module GoValues {
  import opened Collections

  datatype Tree =
    | Nil
    | Bool(b: bool)
    | Text(s: string)
    | Number(n: int)
    | Arr(items: seq<Tree>)
    | Obj(fields: map<string, Tree>)

  class GoMap {
    var m: map<string, Value>

    constructor ()
      ensures m == map[]
    {
      m := map[];
    }
  }

  /** A value in memory: maps are shared by reference, everything else is a value. */
  datatype Value =
    | VNil
    | VBool(b: bool)
    | VText(s: string)
    | VNumber(n: int)
    | VArr(items: seq<Value>)
    | Ref(o: GoMap)

  /** `v` reads as the tree `t`, going through maps of `F` only. */
  ghost predicate Models(v: Value, t: Tree, F: set<GoMap>)
    reads F
    decreases t
  {
    match (v, t)
    case (VNil, Nil) => true
    case (VBool(b), Bool(b')) => b == b'
    case (VText(s), Text(s')) => s == s'
    case (VNumber(n), Number(n')) => n == n'
    case (VArr(vs), Arr(ts)) => |vs| == |ts| && forall i :: 0 <= i < |ts| ==> Models(vs[i], ts[i], F)
    case (Ref(o), Obj(fs)) => o in F && o.m.Keys == fs.Keys && forall k <- fs :: Models(o.m[k], fs[k], F)
    case _ => false
  }

  ghost predicate ModelsMap(m: map<string, Value>, fs: map<string, Tree>, F: set<GoMap>)
    reads F
  {
    m.Keys == fs.Keys && forall k <- fs :: Models(m[k], fs[k], F)
  }

  /** Going through more maps changes nothing. */
  lemma {:induction false} ModelsGrows(v: Value, t: Tree, F: set<GoMap>, G: set<GoMap>)
    requires Models(v, t, F) && F <= G
    ensures Models(v, t, G)
    decreases t
  {
    match (v, t)
    case (VArr(vs), Arr(ts)) =>
      forall i | 0 <= i < |ts|
        ensures Models(vs[i], ts[i], G)
      {
        ModelsGrows(vs[i], ts[i], F, G);
      }
    case (Ref(o), Obj(fs)) =>
      forall k | k in fs
        ensures Models(o.m[k], fs[k], G)
      {
        ModelsGrows(o.m[k], fs[k], F, G);
      }
    case _ =>
  }

  lemma ModelsMapGrows(m: map<string, Value>, fs: map<string, Tree>, F: set<GoMap>, G: set<GoMap>)
    requires ModelsMap(m, fs, F) && F <= G
    ensures ModelsMap(m, fs, G)
  {
    forall k | k in fs
      ensures Models(m[k], fs[k], G)
    {
      ModelsGrows(m[k], fs[k], F, G);
    }
  }

  // ---- What merging fields into a shared map changes ----

  /** The content of some maps at one moment. */
  type Heap = map<GoMap, map<string, Value>>

  ghost function Snap(F: set<GoMap>): (h: Heap)
    reads F
    ensures h.Keys == F
  {
    map o | o in F :: o.m
  }

  /** `v` reads as `t` in the heap `h`. */
  ghost predicate ModelsIn(h: Heap, v: Value, t: Tree)
    decreases t
  {
    match (v, t)
    case (VNil, Nil) => true
    case (VBool(b), Bool(b')) => b == b'
    case (VText(s), Text(s')) => s == s'
    case (VNumber(n), Number(n')) => n == n'
    case (VArr(vs), Arr(ts)) => |vs| == |ts| && forall i :: 0 <= i < |ts| ==> ModelsIn(h, vs[i], ts[i])
    case (Ref(o), Obj(fs)) => o in h && h[o].Keys == fs.Keys && forall k <- fs :: ModelsIn(h, h[o][k], fs[k])
    case _ => false
  }

  ghost predicate ModelsMapIn(h: Heap, m: map<string, Value>, fs: map<string, Tree>) {
    m.Keys == fs.Keys && forall k <- fs :: ModelsIn(h, m[k], fs[k])
  }

  lemma {:induction false} ModelsSnap(v: Value, t: Tree, F: set<GoMap>)
    ensures Models(v, t, F) <==> ModelsIn(Snap(F), v, t)
    decreases t
  {
    match (v, t)
    case (VArr(vs), Arr(ts)) =>
      forall i | 0 <= i < |ts| && |vs| == |ts|
        ensures Models(vs[i], ts[i], F) <==> ModelsIn(Snap(F), vs[i], ts[i])
      {
        ModelsSnap(vs[i], ts[i], F);
      }
    case (Ref(o), Obj(fs)) =>
      if o in F && o.m.Keys == fs.Keys {
        forall k | k in fs
          ensures Models(o.m[k], fs[k], F) <==> ModelsIn(Snap(F), o.m[k], fs[k])
        {
          ModelsSnap(o.m[k], fs[k], F);
        }
      }
    case _ =>
  }

  lemma ModelsMapSnap(m: map<string, Value>, fs: map<string, Tree>, F: set<GoMap>)
    ensures ModelsMap(m, fs, F) <==> ModelsMapIn(Snap(F), m, fs)
  {
    hide Models, ModelsIn;
    forall k | k in fs && k in m
      ensures Models(m[k], fs[k], F) <==> ModelsIn(Snap(F), m[k], fs[k])
    {
      ModelsSnap(m[k], fs[k], F);
    }
  }

  /** More maps change nothing. */
  lemma {:induction false} ModelsInGrows(h: Heap, g: Heap, v: Value, t: Tree)
    requires ModelsIn(h, v, t) && forall x <- h :: x in g && g[x] == h[x]
    ensures ModelsIn(g, v, t)
    decreases t
  {
    match (v, t)
    case (VArr(vs), Arr(ts)) =>
      forall i | 0 <= i < |ts|
        ensures ModelsIn(g, vs[i], ts[i])
      {
        ModelsInGrows(h, g, vs[i], ts[i]);
      }
    case (Ref(o), Obj(fs)) =>
      forall k | k in fs
        ensures ModelsIn(g, g[o][k], fs[k])
      {
        ModelsInGrows(h, g, g[o][k], fs[k]);
      }
    case _ =>
  }

  /** A value reads as one tree only. */
  lemma {:induction false} ReadsOnce(h: Heap, v: Value, t: Tree, u: Tree)
    requires ModelsIn(h, v, t) && ModelsIn(h, v, u)
    ensures t == u
    decreases t
  {
    match (v, t)
    case (VArr(vs), Arr(ts)) =>
      forall i | 0 <= i < |ts|
        ensures ts[i] == u.items[i]
      {
        ReadsOnce(h, vs[i], ts[i], u.items[i]);
      }
    case (Ref(o), Obj(fs)) =>
      forall k | k in fs
        ensures fs[k] == u.fields[k]
      {
        ReadsOnce(h, h[o][k], fs[k], u.fields[k]);
      }
    case _ =>
  }

  // ---- Reading along a path ----

  /** One step down: into a field of an object or an element of an array. */
  datatype Step = Field(k: string) | Element(i: nat)

  function TreeAt(t: Tree, path: seq<Step>): Option<Tree>
    decreases |path|
  {
    if path == [] then Some(t)
    else
      match (path[0], t)
      case (Field(k), Obj(fs)) => if k in fs then TreeAt(fs[k], path[1..]) else None
      case (Element(i), Arr(ts)) => if i < |ts| then TreeAt(ts[i], path[1..]) else None
      case _ => None
  }

  ghost function ValueAt(h: Heap, v: Value, path: seq<Step>): Option<Value>
    decreases |path|
  {
    if path == [] then Some(v)
    else
      match (path[0], v)
      case (Field(k), Ref(o)) => if o in h && k in h[o] then ValueAt(h, h[o][k], path[1..]) else None
      case (Element(i), VArr(vs)) => if i < |vs| then ValueAt(h, vs[i], path[1..]) else None
      case _ => None
  }

  /** At every path a value holds what the tree it reads as holds there: the same plain value, an array of the same
      length, or a map with the same keys. */
  lemma {:induction false} ReadsAtPath(h: Heap, v: Value, t: Tree, path: seq<Step>)
    requires ModelsIn(h, v, t)
    ensures ValueAt(h, v, path).None? <==> TreeAt(t, path).None?
    ensures ValueAt(h, v, path) == Some(VNil) <==> TreeAt(t, path) == Some(Nil)
    ensures forall b :: ValueAt(h, v, path) == Some(VBool(b)) <==> TreeAt(t, path) == Some(Bool(b))
    ensures forall s :: ValueAt(h, v, path) == Some(VText(s)) <==> TreeAt(t, path) == Some(Text(s))
    ensures forall n :: ValueAt(h, v, path) == Some(VNumber(n)) <==> TreeAt(t, path) == Some(Number(n))
    ensures TreeAt(t, path).Some? && TreeAt(t, path).value.Arr? ==>
              ValueAt(h, v, path).value.VArr? && |ValueAt(h, v, path).value.items| == |TreeAt(t, path).value.items|
    ensures TreeAt(t, path).Some? && TreeAt(t, path).value.Obj? ==>
              ValueAt(h, v, path).value.Ref? && ValueAt(h, v, path).value.o in h &&
              h[ValueAt(h, v, path).value.o].Keys == TreeAt(t, path).value.fields.Keys
    decreases |path|
  {
    if path != [] {
      match (path[0], t)
      case (Field(k), Obj(fs)) =>
        if k in fs {
          ReadsAtPath(h, h[v.o][k], fs[k], path[1..]);
        }
      case (Element(i), Arr(ts)) =>
        if i < |ts| {
          ReadsAtPath(h, v.items[i], ts[i], path[1..]);
        }
      case _ =>
    }
  }

  /** Only the map `o` has changed: it has gained, or had overwritten, the fields `sub`. */
  ghost predicate MergedInto(h: Heap, g: Heap, o: GoMap, sub: map<string, Value>) {
    && g.Keys == h.Keys && o in h && g[o] == h[o] + sub
    && forall x <- h :: x != o ==> g[x] == h[x]
  }

  /** A merge of fields that read as those already there changes what no value reads as. */
  lemma {:induction false} MergeSame(h: Heap, g: Heap, o: GoMap, sub: map<string, Value>,
                                     fields: map<string, Tree>, fs: map<string, Tree>, v: Value, t: Tree)
    requires MergedInto(h, g, o, sub) && ModelsIn(h, Ref(o), Obj(fields)) && ModelsMapIn(h, sub, fs)
    requires fields + fs == fields && ModelsIn(h, v, t)
    ensures ModelsIn(g, v, t)
    decreases t
  {
    match (v, t)
    case (VArr(vs), Arr(ts)) =>
      forall i | 0 <= i < |ts|
        ensures ModelsIn(g, vs[i], ts[i])
      {
        MergeSame(h, g, o, sub, fields, fs, vs[i], ts[i]);
      }
    case (Ref(x), Obj(gs)) =>
      if x == o {
        ReadsOnce(h, v, t, Obj(fields));
        assert forall k <- fs :: (fields + fs)[k] == fs[k];
      }
      forall k | k in gs
        ensures ModelsIn(g, g[x][k], gs[k])
      {
        MergeSame(h, g, o, sub, fields, fs, g[x][k], gs[k]);
      }
    case _ =>
  }

  /** Were the map to read as before, what is smaller than it would be out of the reach of the merge. */
  lemma {:induction false} SmallerUntouched(h: Heap, g: Heap, o: GoMap, sub: map<string, Value>,
                                            fields: map<string, Tree>, v: Value, t: Tree)
    requires MergedInto(h, g, o, sub) && ModelsIn(g, Ref(o), Obj(fields))
    requires ModelsIn(g, v, t) && t < Obj(fields)
    ensures ModelsIn(h, v, t)
    decreases t
  {
    match (v, t)
    case (VArr(vs), Arr(ts)) =>
      forall i | 0 <= i < |ts|
        ensures ModelsIn(h, vs[i], ts[i])
      {
        SmallerUntouched(h, g, o, sub, fields, vs[i], ts[i]);
      }
    case (Ref(x), Obj(gs)) =>
      if x == o {
        ReadsOnce(g, v, t, Obj(fields));
        assert false;
      }
      forall k | k in gs
        ensures ModelsIn(h, g[x][k], gs[k])
      {
        SmallerUntouched(h, g, o, sub, fields, g[x][k], gs[k]);
      }
    case _ =>
  }

  /** A merge leaves the map it goes into the tree it was exactly when it adds and alters no field. */
  lemma MergeExactly(h: Heap, g: Heap, o: GoMap, sub: map<string, Value>,
                     fields: map<string, Tree>, fs: map<string, Tree>)
    requires MergedInto(h, g, o, sub) && ModelsIn(h, Ref(o), Obj(fields)) && ModelsMapIn(h, sub, fs)
    ensures ModelsIn(g, Ref(o), Obj(fields)) <==> fields + fs == fields
  {
    if fields + fs == fields {
      MergeSame(h, g, o, sub, fields, fs, Ref(o), Obj(fields));
    }
    if ModelsIn(g, Ref(o), Obj(fields)) {
      forall k | k in fs
        ensures k in fields && fields[k] == fs[k]
      {
        assert g[o][k] == sub[k];
        assert fields[k] < Obj(fields);
        SmallerUntouched(h, g, o, sub, fields, sub[k], fields[k]);
        ReadsOnce(h, sub[k], fields[k], fs[k]);
      }
      assert fields + fs == fields;
    }
  }

  // ---- What a merge changes elsewhere ----

  /** `v`, which reads as `t`, is the map `o` or goes through it. */
  ghost predicate Reaches(h: Heap, v: Value, t: Tree, o: GoMap)
    requires ModelsIn(h, v, t)
    decreases t
  {
    match (v, t)
    case (VArr(vs), Arr(ts)) => exists i :: 0 <= i < |ts| && Reaches(h, vs[i], ts[i], o)
    case (Ref(x), Obj(fs)) => x == o || exists k :: k in fs && Reaches(h, h[x][k], fs[k], o)
    case _ => false
  }

  /** What does not go through the map reads as before. */
  lemma {:induction false} OutOfReach(h: Heap, g: Heap, o: GoMap, sub: map<string, Value>, v: Value, t: Tree)
    requires MergedInto(h, g, o, sub) && ModelsIn(h, v, t) && !Reaches(h, v, t, o)
    ensures ModelsIn(g, v, t)
    decreases t
  {
    match (v, t)
    case (VArr(vs), Arr(ts)) =>
      forall i | 0 <= i < |ts|
        ensures ModelsIn(g, vs[i], ts[i])
      {
        OutOfReach(h, g, o, sub, vs[i], ts[i]);
      }
    case (Ref(x), Obj(fs)) =>
      forall k | k in fs
        ensures ModelsIn(g, g[x][k], fs[k])
      {
        OutOfReach(h, g, o, sub, h[x][k], fs[k]);
      }
    case _ =>
  }

  /** What goes through a map that reads otherwise now, reads otherwise too. */
  lemma {:induction false} InReach(h: Heap, g: Heap, o: GoMap, sub: map<string, Value>,
                                   fields: map<string, Tree>, v: Value, t: Tree)
    requires MergedInto(h, g, o, sub) && ModelsIn(h, v, t) && Reaches(h, v, t, o)
    requires ModelsIn(h, Ref(o), Obj(fields)) && !ModelsIn(g, Ref(o), Obj(fields))
    ensures !ModelsIn(g, v, t)
    decreases t
  {
    match (v, t)
    case (VArr(vs), Arr(ts)) =>
      var i :| 0 <= i < |ts| && Reaches(h, vs[i], ts[i], o);
      InReach(h, g, o, sub, fields, vs[i], ts[i]);
    case (Ref(x), Obj(fs)) =>
      if x == o {
        ReadsOnce(h, v, t, Obj(fields));
      } else {
        var k :| k in fs && Reaches(h, h[x][k], fs[k], o);
        InReach(h, g, o, sub, fields, h[x][k], fs[k]);
      }
    case _ =>
  }

  /** After a merge a value reads as before exactly when it does not go through the map merged into, or the merge
      has added and altered no field. */
  lemma ReadsAfterMerge(h: Heap, g: Heap, o: GoMap, sub: map<string, Value>,
                        fields: map<string, Tree>, fs: map<string, Tree>, v: Value, t: Tree)
    requires MergedInto(h, g, o, sub) && ModelsIn(h, Ref(o), Obj(fields)) && ModelsMapIn(h, sub, fs)
    requires ModelsIn(h, v, t)
    ensures ModelsIn(g, v, t) <==> !Reaches(h, v, t, o) || fields + fs == fields
  {
    MergeExactly(h, g, o, sub, fields, fs);
    if fields + fs == fields {
      MergeSame(h, g, o, sub, fields, fs, v, t);
    } else if Reaches(h, v, t, o) {
      InReach(h, g, o, sub, fields, v, t);
    } else {
      OutOfReach(h, g, o, sub, v, t);
    }
  }

  /** What goes through the map reads as no smaller a tree than the map does. */
  lemma {:induction false} AtLeast(h: Heap, g: Heap, o: GoMap, sub: map<string, Value>,
                                   v: Value, t: Tree, u: Tree, whole: Tree)
    requires MergedInto(h, g, o, sub) && ModelsIn(h, v, t) && Reaches(h, v, t, o)
    requires ModelsIn(g, v, u) && ModelsIn(g, Ref(o), whole)
    ensures whole == u || whole < u
    decreases t
  {
    match (v, t)
    case (VArr(vs), Arr(ts)) =>
      var i :| 0 <= i < |ts| && Reaches(h, vs[i], ts[i], o);
      AtLeast(h, g, o, sub, vs[i], ts[i], u.items[i], whole);
      assert u.items[i] < u;
    case (Ref(x), Obj(fs)) =>
      if x == o {
        ReadsOnce(g, v, u, whole);
      } else {
        var k :| k in fs && Reaches(h, h[x][k], fs[k], o);
        AtLeast(h, g, o, sub, h[x][k], fs[k], u.fields[k], whole);
        assert u.fields[k] < u;
      }
    case _ =>
  }

  /** Some value merged goes through the map it is merged into. */
  ghost predicate Loops(h: Heap, o: GoMap, sub: map<string, Value>, fs: map<string, Tree>)
    requires ModelsMapIn(h, sub, fs)
  {
    exists k :: k in fs && Reaches(h, sub[k], fs[k], o)
  }

  /** The map merged into reads as its old content overwritten by the fields, unless one of them goes through the
      map itself: then it reads as no tree at all. */
  lemma MergedReads(h: Heap, g: Heap, o: GoMap, sub: map<string, Value>,
                    fields: map<string, Tree>, fs: map<string, Tree>)
    requires MergedInto(h, g, o, sub) && ModelsIn(h, Ref(o), Obj(fields)) && ModelsMapIn(h, sub, fs)
    ensures !Loops(h, o, sub, fs) ==> ModelsIn(g, Ref(o), Obj(fields + fs))
    ensures Loops(h, o, sub, fs) ==> forall t :: !ModelsIn(g, Ref(o), t)
  {
    if Loops(h, o, sub, fs) {
      var k :| k in fs && Reaches(h, sub[k], fs[k], o);
      forall t
        ensures !ModelsIn(g, Ref(o), t)
      {
        if ModelsIn(g, Ref(o), t) {
          assert g[o][k] == sub[k] && t.fields[k] < t;
          AtLeast(h, g, o, sub, sub[k], fs[k], t.fields[k], t);
        }
      }
    } else {
      forall k | k in fields + fs
        ensures ModelsIn(g, g[o][k], (fields + fs)[k])
      {
        if k in fs {
          OutOfReach(h, g, o, sub, sub[k], fs[k]);
        } else {
          NoLoopBefore(h, o, fields, k);
          OutOfReach(h, g, o, sub, h[o][k], fields[k]);
        }
      }
    }
  }

  /** No field of a map that reads as a tree goes through the map. */
  lemma NoLoopBefore(h: Heap, o: GoMap, fields: map<string, Tree>, k: string)
    requires ModelsIn(h, Ref(o), Obj(fields)) && k in fields
    ensures !Reaches(h, h[o][k], fields[k], o)
  {
    if Reaches(h, h[o][k], fields[k], o) {
      assert h[o] + map[] == h[o];
      assert fields[k] < Obj(fields);
      AtLeast(h, h, o, map[], h[o][k], fields[k], fields[k], Obj(fields));
    }
  }

  // ---- Heaps in which everything reads as before ----

  /** Every map of `h` reads in `g` as it does in `h`. */
  ghost predicate Keeps(h: Heap, g: Heap) {
    forall o, t :: o in h && ModelsIn(h, Ref(o), t) ==> ModelsIn(g, Ref(o), t)
  }

  /** And so does every value. */
  lemma {:induction false} KeepsValue(h: Heap, g: Heap, v: Value, t: Tree)
    requires Keeps(h, g) && ModelsIn(h, v, t)
    ensures ModelsIn(g, v, t)
    decreases t
  {
    match (v, t)
    case (VArr(vs), Arr(ts)) =>
      forall i | 0 <= i < |ts|
        ensures ModelsIn(g, vs[i], ts[i])
      {
        KeepsValue(h, g, vs[i], ts[i]);
      }
    case _ =>
  }

  lemma KeepsModels(h: Heap, v: Value, t: Tree, F: set<GoMap>)
    requires Keeps(h, Snap(F)) && ModelsIn(h, v, t)
    ensures Models(v, t, F)
  {
    KeepsValue(h, Snap(F), v, t);
    ModelsSnap(v, t, F);
  }

  lemma KeepsTransitive(a: Heap, b: Heap, c: Heap)
    requires Keeps(a, b) && Keeps(b, c)
    ensures Keeps(a, c)
  {
    forall o, t | o in a && ModelsIn(a, Ref(o), t)
      ensures ModelsIn(c, Ref(o), t)
    {
      KeepsValue(b, c, Ref(o), t);
    }
  }

  // ---- Trimming, as Go's strings.TrimSpace does ----

  predicate IsSpace(c: char) {
    c in "\t\n\r \U{000B}\U{000C}\U{0085}\U{00A0}\U{1680}\U{2028}\U{2029}\U{202F}\U{205F}\U{3000}"
    || '\U{2000}' <= c <= '\U{200A}'
  }

  function TrimLeft(s: string): (r: string)
    ensures |r| <= |s|
  {
    if s != "" && IsSpace(s[0]) then TrimLeft(s[1..]) else s
  }

  function TrimRight(s: string): (r: string)
    ensures |r| <= |s|
  {
    if s != "" && IsSpace(s[|s| - 1]) then TrimRight(s[..|s| - 1]) else s
  }

  function Trim(s: string): string {
    TrimRight(TrimLeft(s))
  }
}
