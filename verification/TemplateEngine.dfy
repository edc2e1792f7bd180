/** The rendering of templates over mutable maps. Templates and item are shared by reference: a rendering reads the
    maps of `known`, and writes the maps it has allocated and the one under the key, when an object meets a map. */
module TemplateEngine {
  import opened Collections
  import opened GoValues
  import opened TemplateSemantics
  import opened TemplateLaws
  import opened TemplateRules

  /** The map under `key`, if there is one: what an object written to `key` is merged into. */
  ghost function Existing(c: GoMap, key: string): set<GoMap>
    reads c
  {
    if key in c.m && c.m[key].Ref? then {c.m[key].o} else {}
  }

  /** What writing `w` under `key` merges into. */
  ghost function Target(c: GoMap, key: string, w: Written): set<GoMap>
    reads c
  {
    if w.Fields? then Existing(c, key) else {}
  }

  /** The map written to when `w` is written under `key`, besides the result itself. */
  ghost function Touched(c: GoMap, key: string, w: Written): set<GoMap>
    reads c
  {
    if w.Fields? && w.fields != map[] then Existing(c, key) else {}
  }

  /** What rendering a map under a key did with maps: nothing but storing a value, storing a new map, or merging
      into the map that was there, which adds or alters some field or none. */
  datatype Effect = NoMap | Made(o: GoMap) | Merged(o: GoMap, altered: bool)

  /** The map under `key`, if there is one, holds the fields `base`. */
  ghost predicate Bases(c: GoMap, key: string, base: map<string, Tree>, G: set<GoMap>)
    reads c, Existing(c, key), G
  {
    forall o <- Existing(c, key) :: ModelsMap(o.m, base, G)
  }

  /** Writing `w` under `key` turned `before` into `after`, with values that read through F; an object
      is written as a map outside F. */
  ghost predicate Wrote(w: Written, before: map<string, Value>, after: map<string, Value>, key: string, F: set<GoMap>)
    reads F, if key in after && after[key].Ref? then {after[key].o} else {}
  {
    match w
    case Nothing => after == before
    case Store(t) => key in after && after == before[key := after[key]] && Models(after[key], t, F)
    case Fields(fs) =>
      && key in after && after == before[key := after[key]]
      && after[key].Ref? && after[key].o !in F && ModelsMap(after[key].o.m, fs, F)
  }

  /** The heap `h` is the heap `was` and, as they are now, the maps `made`. */
  ghost predicate Froze(h: Heap, was: Heap, made: set<GoMap>)
    reads made
  {
    && h.Keys == was.Keys + made
    && (forall o <- was :: h[o] == was[o])
    && (forall o <- made :: h[o] == o.m)
  }

  /** The content of the map under `key`, if there is one. */
  ghost function Content(c: GoMap, key: string): map<string, Value>
    reads c, Existing(c, key)
  {
    if Existing(c, key) != {} then c.m[key].o.m else map[]
  }

  /** The maps and values involved in rendering one key: the result and the map under the key as they were,
      the maps made, what was merged, and the heap just before the merge, as far as it was read or made. */
  datatype Trace = Trace(was: map<string, Value>, target: set<GoMap>, content: map<string, Value>,
                         made: set<GoMap>, sub: map<string, Value>, before: Heap)

  const NO_TRACE := Trace(map[], {}, map[], {}, map[], map[])

  /** `w` has been written under `key`. An object meeting a map has been merged into it: the fields `sub`, which
      before the merge read as those of the object, are written over those of the map. */
  ghost predicate Applied(w: Written, combined: GoMap, key: string, known: set<GoMap>, base: map<string, Tree>,
                          x: Trace, effect: Effect)
    reads combined, known, x.made, if key in combined.m && combined.m[key].Ref? then {combined.m[key].o} else {}
  {
    if !w.Fields? then Wrote(w, x.was, combined.m, key, known + x.made) && effect == NoMap
    else
      && key in combined.m && combined.m[key].Ref?
      && var o := combined.m[key].o;
      if x.target == {} then Wrote(w, x.was, combined.m, key, known + x.made) && effect == Made(o)
      else
        && combined.m == x.was && o.m == x.content + x.sub && ModelsMapIn(x.before, x.sub, w.fields)
        && effect == Merged(o, base + w.fields != base)
  }

  /** The fields of `fields` rendered so far. */
  ghost function Rendered(env: Env, fields: map<string, Tree>, dropIf: bool, done: set<string>): map<string, Tree> {
    map k | k in done && k in RenderFields(env, fields, dropIf) :: RenderFields(env, fields, dropIf)[k]
  }

  /** What rendering `t` under `k` adds to the fields rendered so far. */
  function Adding(env: Env, part: map<string, Tree>, k: string, t: Tree): map<string, Tree> {
    match Alone(RenderEntry(env, t))
    case None => part
    case Some(r) => part[k := r]
  }

  lemma RenderedNext(env: Env, fields: map<string, Tree>, dropIf: bool, done: set<string>, k: string)
    requires k in fields && k !in done
    ensures k !in Rendered(env, fields, dropIf, done)
    ensures Rendered(env, fields, dropIf, done + {k}) ==
            if dropIf && IsIf(k) then Rendered(env, fields, dropIf, done)
            else Adding(env, Rendered(env, fields, dropIf, done), k, fields[k])
  {
    hide RenderEntry, IsIf;
  }

  lemma RenderedAll(env: Env, fields: map<string, Tree>, dropIf: bool)
    ensures Rendered(env, fields, dropIf, fields.Keys) == RenderFields(env, fields, dropIf)
    ensures Rendered(env, fields, dropIf, {}) == map[]
  {}

  lemma ModelsMapPut(m: map<string, Value>, fs: map<string, Tree>, k: string, v: Value, t: Tree, F: set<GoMap>)
    requires ModelsMap(m, fs, F) && Models(v, t, F)
    ensures ModelsMap(m[k := v], fs[k := t], F)
  {}

  /** One rendering of one item. */
  class Rendering {
    const env: Env
    const ask: string -> Value      // the values paths resolve to, shared with the item
    ghost var known: set<GoMap>     // the maps of the instructions, of the item and of provider answers

    constructor (env: Env, ask: string -> Value, ghost known: set<GoMap>)
      ensures this.env == env && this.ask == ask && this.known == known
    {
      this.env, this.ask, this.known := env, ask, known;
    }

    /** Every path resolves in memory to what it resolves to in the semantics. */
    ghost predicate Ready()
      reads this, known
    {
      forall p :: env.resolve(p).Resolved? ==> Models(ask(p), env.resolve(p).value, known)
    }

    lemma ReadyIn()
      requires Ready()
      ensures forall p :: env.resolve(p).Resolved? ==> ModelsIn(Snap(known), ask(p), env.resolve(p).value)
    {
      forall p | env.resolve(p).Resolved?
        ensures ModelsIn(Snap(known), ask(p), env.resolve(p).value)
      {
        ModelsSnap(ask(p), env.resolve(p).value, known);
      }
    }

    /** While everything reads as before the paths resolve as before. */
    lemma ReadyKeeps(h: Heap)
      requires forall p :: env.resolve(p).Resolved? ==> ModelsIn(h, ask(p), env.resolve(p).value)
      requires Keeps(h, Snap(known))
      ensures Ready()
    {
      hide Keeps;
      forall p | env.resolve(p).Resolved?
        ensures Models(ask(p), env.resolve(p).value, known)
      {
        KeepsModels(h, ask(p), env.resolve(p).value, known);
      }
    }

    /** Counts more maps among the known ones. */
    ghost method Enlarge(F: set<GoMap>, h: Heap)
      requires forall p :: env.resolve(p).Resolved? ==> ModelsIn(h, ask(p), env.resolve(p).value)
      requires Keeps(h, Snap(F))
      modifies `known
      ensures known == F && Ready()
    {
      hide Keeps, ModelsIn;
      known := F;
      ReadyKeeps(h);
    }

    /** What is stored by reference when `val`, which reads as `fields`, renders to a whole object: the answer to its
        path, or the map itself. */
    ghost function Original(val: GoMap, fields: map<string, Tree>): Value {
      if "type" in fields && fields["type"] in {Text("string"), Text("number")} &&
         "path" in fields && fields["path"].Text?
      then ask(fields["path"].s)
      else Ref(val)
    }

    /** It reads as that object, in any heap where the map and the answers read as they should. */
    lemma OriginalReads(h: Heap, val: GoMap, fields: map<string, Tree>)
      requires forall p :: env.resolve(p).Resolved? ==> ModelsIn(h, ask(p), env.resolve(p).value)
      requires ModelsIn(h, Ref(val), Obj(fields)) && RenderMap(env, fields).Store? && RenderMap(env, fields).value.Obj?
      ensures ModelsIn(h, Original(val, fields), RenderMap(env, fields).value)
    {
      hide ModelsIn;
    }

    method WritePath(key: string, path: Value, result: GoMap, ghost t: Tree)
      requires Ready() && result !in known && Models(path, t, known)
      modifies result
      ensures Wrote(RenderPath(env, t), old(result.m), result.m, key, known)
      ensures RenderPath(env, t).Store? && RenderPath(env, t).value.Obj? ==>
                t.Text? && key in result.m && result.m[key] == ask(t.s)
    {
      if !path.VText? {
        return;
      }
      match env.resolve(path.s)
      case NoAnswer =>
      case Unresolved => result.m := result.m[key := VNil];
      case Resolved(_) => result.m := result.m[key := ask(path.s)];
    }

    method ProcessStringValue(key: string, val: GoMap, result: GoMap, ghost fields: map<string, Tree>)
      requires Ready() && result !in known && Models(Ref(val), Obj(fields), known)
      modifies result
      ensures Wrote(RenderString(env, fields), old(result.m), result.m, key, known)
      ensures RenderString(env, fields).Store? && RenderString(env, fields).value.Obj? ==>
                "path" in fields && fields["path"].Text? && key in result.m && result.m[key] == ask(fields["path"].s)
    {
      if "path" in val.m {
        WritePath(key, val.m["path"], result, fields["path"]);
      } else if "value" in val.m {
        var tmpl := val.m["value"];
        assert Models(tmpl, fields["value"], known);
        if tmpl.VText? {
          match env.interpolate(tmpl.s)
          case None => result.m := result.m[key := tmpl];
          case Some(s) => result.m := result.m[key := VText(s)];
        }
      }
    }

    method ProcessNumberValue(key: string, val: GoMap, result: GoMap, ghost fields: map<string, Tree>)
      requires Ready() && result !in known && Models(Ref(val), Obj(fields), known)
      modifies result
      ensures Wrote(RenderNumber(env, fields), old(result.m), result.m, key, known)
      ensures RenderNumber(env, fields).Store? && RenderNumber(env, fields).value.Obj? ==>
                "path" in fields && fields["path"].Text? && key in result.m && result.m[key] == ask(fields["path"].s)
    {
      if "path" in val.m {
        WritePath(key, val.m["path"], result, fields["path"]);
      }
    }

    method ProcessBoolValue(key: string, val: GoMap, result: GoMap, ghost fields: map<string, Tree>)
      requires result !in known && Models(Ref(val), Obj(fields), known)
      modifies result
      ensures Wrote(RenderBool(fields), old(result.m), result.m, key, known)
    {
      if "value" in val.m {
        assert Models(val.m["value"], fields["value"], known);
        if val.m["value"].VBool? {
          result.m := result.m[key := val.m["value"]];
        }
      }
    }

    /** Stores a map of the template itself. */
    method StoreShared(key: string, val: GoMap, combined: GoMap, ghost fields: map<string, Tree>)
      requires combined !in known && Models(Ref(val), Obj(fields), known)
      modifies combined
      ensures Wrote(Store(Obj(fields)), old(combined.m), combined.m, key, known)
      ensures combined.m == old(combined.m)[key := Ref(val)]
    {
      combined.m := combined.m[key := Ref(val)];
    }

    /** The rendering of one map under `key`. Where the result already holds a map there, a rendered
        object is merged into it, whoever made it. */
    method ApplyMapValue(key: string, val: GoMap, combined: GoMap, ghost fields: map<string, Tree>,
                         ghost base: map<string, Tree>, ghost G: set<GoMap>)
      returns (effect: Effect, ghost x: Trace)
      requires Ready() && Models(Ref(val), Obj(fields), known)
      requires combined !in known && combined !in Existing(combined, key) && Bases(combined, key, base, G)
      modifies combined, Touched(combined, key, RenderMap(env, fields))
      ensures fresh(x.made) && Applied(RenderMap(env, fields), combined, key, known, base, x, effect)
      ensures x.was == old(combined.m) && x.target == old(Existing(combined, key))
      ensures x.content == old(Content(combined, key))
      ensures Froze(x.before, old(Snap(known)), x.made)
      ensures effect.Made? ==> fresh(effect.o)
      ensures RenderMap(env, fields).Store? && RenderMap(env, fields).value.Obj? ==>
                x.made == {} && key in combined.m && combined.m[key] == Original(val, fields)
      decreases Obj(fields), 2
    {
      hide Applied, Wrote, RenderString, RenderNumber, RenderBool, RenderArray, RenderObject, ModelsMap;
      if "type" !in val.m {
        effect, x := ApplyNestedObject(key, val, combined, fields, base, G);
        return;
      }
      var typeRaw := val.m["type"];
      assert Models(typeRaw, fields["type"], known);
      if typeRaw == VText("object") {
        effect, x := ApplyNestedObject(key, val, combined, fields, base, G);
      } else {
        effect, x := ApplyTyped(key, typeRaw, val, combined, fields, base);
      }
    }

    /** The values of the types that are rendered to no object. */
    method ApplyTyped(key: string, typeRaw: Value, val: GoMap, combined: GoMap, ghost fields: map<string, Tree>,
                      ghost base: map<string, Tree>)
      returns (effect: Effect, ghost x: Trace)
      requires Ready() && Models(Ref(val), Obj(fields), known) && combined !in known
      requires "type" in val.m && typeRaw == val.m["type"] && typeRaw != VText("object")
      modifies combined
      ensures fresh(x.made) && Applied(RenderMap(env, fields), combined, key, known, base, x, effect) && effect == NoMap
      ensures !RenderMap(env, fields).Fields? && Froze(x.before, old(Snap(known)), x.made)
      ensures x.was == old(combined.m) && x.target == old(Existing(combined, key))
      ensures x.content == old(Content(combined, key))
      ensures RenderMap(env, fields).Store? && RenderMap(env, fields).value.Obj? ==>
                x.made == {} && key in combined.m && combined.m[key] == Original(val, fields)
      decreases Obj(fields), 1
    {
      hide Wrote, RenderString, RenderNumber, RenderBool, RenderArray, RenderObject, ModelsMap, ModelsMapIn;
      effect := NoMap;
      x := Trace(combined.m, Existing(combined, key), Content(combined, key), {}, map[], Snap(known));
      assert known + x.made == known && Froze(x.before, x.before, {});
      assert Models(typeRaw, fields["type"], known);
      if typeRaw == VText("string") {
        ProcessStringValue(key, val, combined, fields);
      } else if typeRaw == VText("number") {
        ProcessNumberValue(key, val, combined, fields);
      } else if typeRaw == VText("array") {
        ghost var made := ProcessArrayValue(key, val, combined, fields);
        x := x.(made := made, before := x.before + Snap(made));
      } else if typeRaw == VText("bool") {
        ProcessBoolValue(key, val, combined, fields);
      } else {
        StoreShared(key, val, combined, fields);
      }
    }

    method ApplyNestedObject(key: string, val: GoMap, combined: GoMap, ghost fields: map<string, Tree>,
                             ghost base: map<string, Tree>, ghost G: set<GoMap>)
      returns (effect: Effect, ghost x: Trace)
      requires Ready() && Models(Ref(val), Obj(fields), known)
      requires combined !in known && combined !in Existing(combined, key) && Bases(combined, key, base, G)
      modifies combined, Touched(combined, key, RenderObject(env, fields))
      ensures fresh(x.made) && Applied(RenderObject(env, fields), combined, key, known, base, x, effect)
      ensures x.was == old(combined.m) && x.target == old(Existing(combined, key))
      ensures x.content == old(Content(combined, key))
      ensures Froze(x.before, old(Snap(known)), x.made)
      ensures effect.Made? ==> fresh(effect.o)
      ensures !RenderObject(env, fields).Fields? ==> combined.m == old(combined.m)[key := Ref(val)] && x.made == {}
      decreases Obj(fields), 0
    {
      hide Applied, Wrote, ModelsMap, ModelsMapIn, ModelsIn, RenderFields;
      if "value" in val.m {
        assert Models(val.m["value"], fields["value"], known);
      }
      if "value" !in val.m || !val.m["value"].Ref? {
        effect := NoMap;
        x := Trace(combined.m, Existing(combined, key), Content(combined, key), {}, map[], Snap(known));
        StoreShared(key, val, combined, fields);
        StorePlain(combined, key, x, RenderObject(env, fields), base);
        return;
      }
      var subResult;
      ghost var made;
      subResult, made := RenderNew(val.m["value"].o, fields["value"].fields);
      Freezing(Snap(known + made), made);
      effect, x :=
        PutRendered(key, combined, subResult, RenderFields(env, fields["value"].fields, false), made, base, G);
    }

    /** Renders the fields of `source` into a map of their own. */
    method RenderNew(source: GoMap, ghost fields: map<string, Tree>) returns (subResult: GoMap, ghost made: set<GoMap>)
      requires Ready() && Models(Ref(source), Obj(fields), known)
      ensures fresh(subResult) && fresh(made) && subResult !in made
      ensures ModelsMap(subResult.m, RenderFields(env, fields, false), known + made)
      decreases Obj(fields), 6
    {
      subResult := new GoMap();
      made := RenderInto(source, subResult, false, fields);
    }

    lemma StorePlain(combined: GoMap, key: string, x: Trace, w: Written, base: map<string, Tree>)
      requires !w.Fields? && Wrote(w, x.was, combined.m, key, known) && x.made == {} && x.before == Snap(known)
      ensures Applied(w, combined, key, known, base, x, NoMap)
    {
      assert known + x.made == known;
    }

    /** Puts a rendered object under `key`: merged into the map that is there, or as it is. */
    method PutObject(key: string, combined: GoMap, subResult: GoMap, altered: bool) returns (effect: Effect)
      requires combined !in Existing(combined, key) && subResult !in {combined} + Existing(combined, key)
      modifies combined, if subResult.m == map[] then {} else Existing(combined, key)
      ensures Existing(combined, key) ==
              if old(Existing(combined, key)) == {} then {subResult} else old(Existing(combined, key))
      ensures key in combined.m && combined.m[key].Ref?
      ensures if old(Existing(combined, key)) != {}
              then combined.m == old(combined.m) && combined.m[key].o.m == old(Content(combined, key)) + subResult.m &&
                   effect == Merged(combined.m[key].o, altered)
              else combined.m == old(combined.m)[key := Ref(subResult)] && effect == Made(subResult)
    {
      if key in combined.m && combined.m[key].Ref? {
        var existing := combined.m[key].o;
        MergeInto(existing, subResult);
        effect := Merged(existing, altered);
      } else {
        combined.m := combined.m[key := Ref(subResult)];
        effect := Made(subResult);
      }
    }

    /** The same of an object whose fields read as `fs`. */
    method PutRendered(key: string, combined: GoMap, subResult: GoMap, ghost fs: map<string, Tree>,
                       ghost made: set<GoMap>, ghost base: map<string, Tree>, ghost G: set<GoMap>)
      returns (effect: Effect, ghost x: Trace)
      requires combined !in known && combined !in Existing(combined, key) && Bases(combined, key, base, G)
      requires subResult !in known + made + {combined} + Existing(combined, key)
      requires combined !in made && made !! known && made !! Existing(combined, key)
      requires ModelsMap(subResult.m, fs, known + made)
      modifies combined, Touched(combined, key, Fields(fs))
      ensures Applied(Fields(fs), combined, key, known, base, x, effect)
      ensures x.was == old(combined.m) && x.target == old(Existing(combined, key))
      ensures x.content == old(Content(combined, key))
      ensures x.made == made && x.before == old(Snap(known + made))
      ensures effect.Made? ==> effect.o == subResult
    {
      hide ModelsIn, Models, Applied, Wrote, ModelsMap, ModelsMapIn, Bases, Touched;
      var altered := Alters(key, combined, subResult, base, fs, G, known + made);
      effect, x := PutTraced(key, combined, subResult, altered, fs, known + made);
      x := x.(made := made);
      if x.target != {} {
        MergedApplied(combined, key, x, fs, base, effect);
      } else {
        StoredApplied(combined, key, subResult, x, fs, base);
      }
    }

    /** The same, keeping track of what was there; F are the maps the fields read through. */
    method PutTraced(key: string, combined: GoMap, subResult: GoMap, altered: bool, ghost fs: map<string, Tree>,
                     ghost F: set<GoMap>)
      returns (effect: Effect, ghost x: Trace)
      requires combined !in F && combined !in Existing(combined, key)
      requires subResult !in F + {combined} + Existing(combined, key) && ModelsMap(subResult.m, fs, F)
      modifies combined, Touched(combined, key, Fields(fs))
      ensures x.was == old(combined.m) && x.target == old(Existing(combined, key))
      ensures x.content == old(Content(combined, key))
      ensures x.before == old(Snap(F)) && ModelsMapIn(x.before, x.sub, fs)
      ensures key in combined.m && combined.m[key].Ref?
      ensures x.target != {} ==>
                combined.m == x.was && combined.m[key].o.m == x.content + x.sub && x.target == {combined.m[key].o} &&
                effect == Merged(combined.m[key].o, altered)
      ensures x.target == {} ==>
                combined.m == x.was[key := Ref(subResult)] && effect == Made(subResult) && ModelsMap(subResult.m, fs, F)
    {
      hide ModelsIn, Models, ModelsMapIn;
      x := Trace(combined.m, Existing(combined, key), Content(combined, key), {}, subResult.m, Snap(F));
      ModelsMapSnap(subResult.m, fs, F);
      SameEmptiness(subResult.m, fs, F);
      effect := PutObject(key, combined, subResult, altered);
    }

    /** Whether a merge into the map under `key`, if there is one, adds or alters a field. */
    method Alters(key: string, combined: GoMap, subResult: GoMap, ghost base: map<string, Tree>,
                  ghost fs: map<string, Tree>, ghost F: set<GoMap>, ghost G: set<GoMap>)
      returns (altered: bool)
      requires Bases(combined, key, base, F) && ModelsMap(subResult.m, fs, G)
      ensures Existing(combined, key) != {} ==> (altered <==> base + fs != base)
    {
      hide ModelsMap;
      altered := false;
      if key in combined.m && combined.m[key].Ref? {
        var nothing := AddsNothing(combined.m[key].o, subResult, base, fs, F, G);
        altered := !nothing;
      }
    }

    /** Whether all the fields of one map are fields of the other, with values that read the same. */
    method AddsNothing(existing: GoMap, subResult: GoMap, ghost base: map<string, Tree>, ghost fs: map<string, Tree>,
                       ghost F: set<GoMap>, ghost G: set<GoMap>)
      returns (nothing: bool)
      requires ModelsMap(existing.m, base, F) && ModelsMap(subResult.m, fs, G)
      ensures nothing <==> base + fs == base
      decreases Obj(fs), 0
    {
      hide Models;
      var todo := subResult.m.Keys;
      while todo != {}
        invariant todo <= fs.Keys
        invariant forall k <- fs :: k !in todo ==> k in base && base[k] == fs[k]
        decreases todo
      {
        var k :| k in todo;
        todo := todo - {k};
        var same := false;
        if k in existing.m {
          same := SameTree(existing.m[k], subResult.m[k], base[k], fs[k], F, G);
        }
        if !same {
          assert (base + fs)[k] == fs[k];
          return false;
        }
      }
      assert base + fs == base;
      return true;
    }

    /** Whether two values read as the same tree. */
    method SameTree(v: Value, w: Value, ghost t: Tree, ghost u: Tree, ghost F: set<GoMap>, ghost G: set<GoMap>)
      returns (same: bool)
      requires Models(v, t, F) && Models(w, u, G)
      ensures same <==> t == u
      decreases u, 1
    {
      match (v, w) {
        case (VNil, VNil) => same := true;
        case (VBool(b), VBool(c)) => same := b == c;
        case (VText(a), VText(b)) => same := a == b;
        case (VNumber(m), VNumber(n)) => same := m == n;
        case (VArr(vs), VArr(ws)) =>
          same := |vs| == |ws|;
          for i := 0 to |ws|
            invariant same ==> |vs| == |ws| && forall j :: 0 <= j < i ==> t.items[j] == u.items[j]
            invariant !same ==> t != u
          {
            if same {
              same := SameTree(vs[i], ws[i], t.items[i], u.items[i], F, G);
            }
          }
        case (Ref(o), Ref(p)) =>
          same := o.m.Keys == p.m.Keys;
          if same {
            same := AddsNothing(o, p, t.fields, u.fields, F, G);
            assert t.fields.Keys == u.fields.Keys;
            assert t.fields + u.fields == u.fields;
          }
        case _ => same := false;
      }
    }

    lemma Freezing(h: Heap, made: set<GoMap>)
      requires h == Snap(known + made)
      ensures Froze(h, Snap(known), made)
    {}

    lemma SameEmptiness(m: map<string, Value>, fs: map<string, Tree>, F: set<GoMap>)
      requires ModelsMap(m, fs, F)
      ensures m == map[] <==> fs == map[]
      ensures m == map[] <==> |m| == 0
    {}

    lemma MergedApplied(combined: GoMap, key: string, x: Trace, fs: map<string, Tree>, base: map<string, Tree>,
                        effect: Effect)
      requires key in combined.m && combined.m[key].Ref? && x.target != {}
      requires combined.m == x.was && combined.m[key].o.m == x.content + x.sub && ModelsMapIn(x.before, x.sub, fs)
      requires effect == Merged(combined.m[key].o, base + fs != base)
      ensures Applied(Fields(fs), combined, key, known, base, x, effect)
    {
      hide ModelsMapIn, ModelsMap;
    }

    lemma StoredApplied(combined: GoMap, key: string, subResult: GoMap, x: Trace, fs: map<string, Tree>,
                        base: map<string, Tree>)
      requires combined.m == x.was[key := Ref(subResult)] && x.target == {} && subResult !in known + x.made
      requires ModelsMap(subResult.m, fs, known + x.made)
      ensures Applied(Fields(fs), combined, key, known, base, x, Made(subResult))
    {}

    /** Writes the fields of `subResult`, in any order, over those of `existing`. */
    method MergeInto(existing: GoMap, subResult: GoMap)
      requires existing != subResult
      modifies if subResult.m == map[] then {} else {existing}
      ensures existing.m == old(existing.m) + subResult.m
    {
      var todo := subResult.m.Keys;
      while todo != {}
        invariant todo <= subResult.m.Keys && subResult.m == old(subResult.m)
        invariant existing.m == old(existing.m) + (map k | k in subResult.m && k !in todo :: subResult.m[k])
        decreases todo
      {
        var k :| k in todo;
        todo := todo - {k};
        existing.m := existing.m[k := subResult.m[k]];
      }
    }

    /** Two objects rendered under one key, the first without an object to render: it is stored as it is, and
        the fields of the second are written into it, whoever owns it. What it reads as stays the same exactly
        when it had these fields already. */
    method OverlayShared(key: string, first: GoMap, second: GoMap, combined: GoMap,
                         ghost fields1: map<string, Tree>, ghost fields2: map<string, Tree>)
      returns (ghost x: Trace)
      requires Ready() && Models(Ref(first), Obj(fields1), known) && Models(Ref(second), Obj(fields2), known)
      requires combined !in known && combined.m == map[]
      requires RenderObject(env, fields1).Store? && RenderObject(env, fields2).Fields?
      modifies combined, first
      ensures combined.m == map[key := Ref(first)] && first.m == old(first.m) + x.sub
      ensures Froze(x.before, old(Snap(known)), x.made)
      ensures ModelsMapIn(x.before, x.sub, RenderObject(env, fields2).fields)
      ensures Models(Ref(first), Obj(fields1), known + x.made) <==>
              fields1 + RenderObject(env, fields2).fields == fields1
    {
      hide RenderObject, Wrote, Models, ModelsMap, ModelsIn, ModelsMapIn, Bases, Applied, Froze;
      var effect;
      ghost var w2, h := RenderObject(env, fields2), Snap(known);
      ModelsSnap(Ref(first), Obj(fields1), known);
      NoBase(combined, key);
      effect, x := ApplyNestedObject(key, first, combined, fields1, map[], {});
      StoredBase(combined, key, first, fields1);
      effect, x := ApplyNestedObject(key, second, combined, fields2, fields1, known);
      OneMerged(combined, key, first, w2, fields1, x, effect);
      MergedTree(h, first, x, fields1, w2.fields);
    }

    lemma NoBase(combined: GoMap, key: string)
      requires combined.m == map[]
      ensures Bases(combined, key, map[], {}) && Existing(combined, key) == {}
    {}

    lemma StoredBase(combined: GoMap, key: string, o: GoMap, fields: map<string, Tree>)
      requires combined.m == map[key := Ref(o)] && Models(Ref(o), Obj(fields), known)
      ensures o in known && Existing(combined, key) == {o} && Bases(combined, key, fields, known)
    {}

    lemma OneMerged(combined: GoMap, key: string, o: GoMap, w: Written, base: map<string, Tree>, x: Trace,
                    effect: Effect)
      requires Applied(w, combined, key, known, base, x, effect) && w.Fields?
      requires x.was == map[key := Ref(o)] && x.target == {o}
      ensures combined.m == map[key := Ref(o)] && o.m == x.content + x.sub && ModelsMapIn(x.before, x.sub, w.fields)
    {
      hide ModelsMapIn, ModelsMap;
    }

    /** What a merge into a map of `known` does to what the map reads as. */
    lemma MergedTree(h: Heap, o: GoMap, x: Trace, fields: map<string, Tree>, fs: map<string, Tree>)
      requires o in known && h.Keys == known && Froze(x.before, h, x.made) && x.made !! known
      requires ModelsIn(h, Ref(o), Obj(fields)) && ModelsMapIn(x.before, x.sub, fs)
      requires o.m == h[o] + x.sub && forall y <- known :: y != o ==> y.m == h[y]
      ensures MergedInto(x.before, Snap(known + x.made), o, x.sub)
      ensures Models(Ref(o), Obj(fields), known + x.made) <==> fields + fs == fields
    {
      hide Models, ModelsIn, ModelsMapIn;
      ModelsInGrows(h, x.before, Ref(o), Obj(fields));
      MergeExactly(x.before, Snap(known + x.made), o, x.sub, fields, fs);
      ModelsSnap(Ref(o), Obj(fields), known + x.made);
    }

    /** Renders the fields of `source`, visited in any order, into the new map `target`. */
    method RenderInto(source: GoMap, target: GoMap, dropIf: bool, ghost fields: map<string, Tree>)
      returns (ghost made: set<GoMap>)
      requires Ready() && Models(Ref(source), Obj(fields), known)
      requires target !in known && target.m == map[]
      modifies target
      ensures fresh(made) && ModelsMap(target.m, RenderFields(env, fields, dropIf), known + made)
      decreases Obj(fields), 5
    {
      hide Rendered, RenderEntry, Wrote, Adding, IsIf;
      made := {};
      var todo := source.m.Keys;
      ghost var done: set<string> := {};
      RenderedAll(env, fields, dropIf);
      while todo != {}
        invariant fresh(made) && todo <= fields.Keys && done == fields.Keys - todo
        invariant ModelsMap(target.m, Rendered(env, fields, dropIf, done), known + made)
        decreases todo
      {
        var k :| k in todo;
        todo := todo - {k};
        RenderedNext(env, fields, dropIf, done, k);
        if !(dropIf && IsIf(k)) {
          made := RenderKey(k, source.m[k], target, fields[k], Rendered(env, fields, dropIf, done), made);
        }
        done := done + {k};
      }
      assert done == fields.Keys;
    }

    /** One key of a map being rendered into a new map that does not hold the key yet. */
    method RenderKey(k: string, v: Value, target: GoMap, ghost t: Tree, ghost part: map<string, Tree>,
                     ghost made: set<GoMap>)
      returns (ghost made': set<GoMap>)
      requires Ready() && Models(v, t, known) && target !in known + made && k !in part
      requires ModelsMap(target.m, part, known + made)
      modifies target
      ensures made <= made' && fresh(made' - made) && target !in made'
      ensures ModelsMap(target.m, Adding(env, part, k, t), known + made')
      decreases t, 4
    {
      made' := made;
      if v.Ref? {
        ghost var before := target.m;
        ghost var more := RenderNewKey(k, v.o, target, t.fields);
        made' := Settle(before, target, k, RenderEntry(env, t), part, made, more);
      } else {
        ModelsGrows(v, t, known, known + made);
        ModelsMapPut(target.m, part, k, v, t, known + made);
        target.m := target.m[k := v];
      }
    }

    /** The rendering of a map under a key that the new map does not hold yet. */
    method RenderNewKey(k: string, val: GoMap, target: GoMap, ghost fields: map<string, Tree>)
      returns (ghost made: set<GoMap>)
      requires Ready() && Models(Ref(val), Obj(fields), known) && target !in known && k !in target.m
      modifies target
      ensures fresh(made) && Wrote(RenderMap(env, fields), old(target.m), target.m, k, known + made)
      ensures RenderMap(env, fields).Fields? ==> k in target.m && target.m[k].Ref? && fresh(target.m[k].o)
      decreases Obj(fields), 3
    {
      hide Wrote, RenderMap, Models, ModelsMap, ModelsMapIn;
      var effect;
      ghost var x;
      effect, x := ApplyMapValue(k, val, target, fields, map[], {});
      made := x.made;
    }

    /** Counts the maps a write has made among those made before. */
    ghost method Settle(before: map<string, Value>, target: GoMap, k: string, w: Written, part: map<string, Tree>,
                        made: set<GoMap>, more: set<GoMap>)
      returns (made': set<GoMap>)
      requires Wrote(w, before, target.m, k, known + more) && ModelsMap(before, part, known + made)
      ensures made' == made + more + (if w.Fields? then {target.m[k].o} else {})
      ensures ModelsMap(target.m, match Alone(w) { case None => part case Some(r) => part[k := r] }, known + made')
    {
      made' := made + more + (if w.Fields? then {target.m[k].o} else {});
      ModelsMapGrows(before, part, known + made, known + made');
      match w
      case Nothing =>
      case Store(t) =>
        ModelsGrows(target.m[k], t, known + more, known + made');
        ModelsMapPut(before, part, k, target.m[k], t, known + made');
      case Fields(fs) =>
        ModelsMapGrows(target.m[k].o.m, fs, known + more, known + made');
        ModelsMapPut(before, part, k, target.m[k], Obj(fs), known + made');
    }

    method ProcessArrayValue(key: string, val: GoMap, result: GoMap, ghost fields: map<string, Tree>)
      returns (ghost made: set<GoMap>)
      requires Ready() && result !in known && Models(Ref(val), Obj(fields), known)
      modifies result
      ensures fresh(made)
      ensures Wrote(RenderArray(env, fields), old(result.m), result.m, key, known + made)
      decreases Obj(fields), 0
    {
      made := {};
      assert known + made == known;
      if "value" !in val.m {
        return;
      }
      var rawArr := val.m["value"];
      assert Models(rawArr, fields["value"], known);
      if !rawArr.VArr? {
        return;
      }
      var processed;
      processed, made := RenderElements(rawArr.items, fields["value"].items);
      result.m := result.m[key := VArr(processed)];
    }

    /** The elements of an array that are objects and whose condition holds, each rendered into a new map. */
    method RenderElements(items: seq<Value>, ghost ts: seq<Tree>)
      returns (processed: seq<Value>, ghost made: set<GoMap>)
      requires Ready() && Models(VArr(items), Arr(ts), known)
      ensures fresh(made) && Models(VArr(processed), Arr(RenderItems(env, ts)), known + made)
      ensures |processed| == KeptCount(env, ts)
      decreases ts, 7
    {
      hide RenderItems, KeptAs, KeptCount;
      processed, made := [], {};
      RenderNoItems(env);
      assert ts[..0] == [];
      for i := 0 to |items|
        invariant fresh(made)
        invariant Models(VArr(processed), Arr(RenderItems(env, ts[..i])), known + made)
      {
        var out, more := RenderElement(items[i], ts[i]);
        JoinArrays(processed, RenderItems(env, ts[..i]), known + made, out, RenderItems(env, [ts[i]]), known + more);
        RenderItemsAppend(env, ts[..i], [ts[i]]);
        assert ts[..i] + [ts[i]] == ts[..i + 1];
        assert known + made + (known + more) == known + (made + more);
        made := made + more;
        processed := processed + out;
      }
      assert ts[..|items|] == ts;
      ArrayInOrder(env, ts);
    }

    /** One element of an array: nothing, or the one map it renders to. It is kept exactly when it is an object whose
        `if` is missing, no text, empty or a condition that holds. */
    method RenderElement(v: Value, ghost t: Tree) returns (out: seq<Value>, ghost made: set<GoMap>)
      requires Ready() && Models(v, t, known)
      ensures fresh(made) && Models(VArr(out), Arr(RenderItems(env, [t])), known + made)
      ensures |out| <= 1 && KeptAs(out, t, known + made)
      ensures out != [] <==>
              t.Obj? && ("if" in t.fields && t.fields["if"].Text? && t.fields["if"].s != "" ==>
                           env.holds(t.fields["if"].s))
      decreases t, 6
    {
      hide RenderFields, KeptAs, RenderItems;
      out, made := [], {};
      ElementRule(env, t);
      KeptNothing(t, known + made);
      ElementEmpty(t, known + made);
      if !v.Ref? {
        return;
      }
      var subMap := v.o;
      var excluded := IsExcluded(subMap, t.fields);
      if excluded {
        return;
      }
      var elemResult := new GoMap();
      made := RenderInto(subMap, elemResult, true, t.fields);
      made := Adopt(elemResult, RenderFields(env, t.fields, true), made);
      out := [Ref(elemResult)];
      ElementAlone(elemResult, t, known + made);
      ReadsKept(out, t, known + made);
    }

    /** The condition of an element: it excludes it only when it is a text, is not empty and does not hold. */
    method IsExcluded(subMap: GoMap, ghost fields: map<string, Tree>) returns (excluded: bool)
      requires Models(Ref(subMap), Obj(fields), known)
      ensures excluded <==> "if" in fields && fields["if"].Text? && fields["if"].s != "" && !env.holds(fields["if"].s)
    {
      excluded := false;
      if "if" in subMap.m {
        var condRaw := subMap.m["if"];
        assert Models(condRaw, fields["if"], known);
        if condRaw.VText? && condRaw.s != "" {
          var holds := env.holds(condRaw.s);
          excluded := !holds;
        }
      }
    }

    /** Counts the map rendered into among those made. */
    ghost method Adopt(o: GoMap, fs: map<string, Tree>, made: set<GoMap>) returns (made': set<GoMap>)
      requires ModelsMap(o.m, fs, known + made)
      ensures made' == made + {o} && Models(Ref(o), Obj(fs), known + made')
    {
      made' := made + {o};
      ModelsMapGrows(o.m, fs, known + made, known + made');
    }

    lemma ElementEmpty(t: Tree, F: set<GoMap>)
      ensures RenderItems(env, [t]) == [] ==> Models(VArr([]), Arr(RenderItems(env, [t])), F)
    {}

    lemma ElementAlone(o: GoMap, t: Tree, F: set<GoMap>)
      requires t.Obj? && Models(Ref(o), Obj(RenderFields(env, t.fields, true)), F)
      requires RenderItems(env, [t]) != []
      ensures Models(VArr([Ref(o)]), Arr(RenderItems(env, [t])), F)
    {
      hide RenderFields;
      assert [t][1..] == [] && RenderItems(env, []) == [];
      assert RenderItems(env, [t]) == [Obj(RenderFields(env, t.fields, true))];
    }

    lemma KeptNothing(t: Tree, F: set<GoMap>)
      ensures KeptAs([], t, F)
    {}

    lemma ReadsKept(out: seq<Value>, t: Tree, F: set<GoMap>)
      requires |out| == 1 && Models(VArr(out), Arr(RenderItems(env, [t])), F) && t.Obj?
      ensures KeptAs(out, t, F)
    {
      hide RenderFields, RenderItems;
      ElementRule(env, t);
      var ts := RenderItems(env, [t]);
      assert Models(out[0], ts[0], F);
    }
  }

  /** What is kept of an element of an array: a map without a key that trims to `if`, in which the plain fields of the
      element read as in the template. */
  ghost predicate KeptAs(out: seq<Value>, t: Tree, F: set<GoMap>)
    reads F, set v | v in out && v.Ref? :: v.o
  {
    out != [] ==>
      && t.Obj? && out[0].Ref?
      && (forall k <- out[0].o.m :: k in t.fields && Trim(k) != "if")
      && (forall k <- t.fields :: Trim(k) != "if" && !t.fields[k].Obj? ==>
            k in out[0].o.m && Models(out[0].o.m[k], t.fields[k], F))
  }

  lemma RenderNoItems(env: Env)
    ensures RenderItems(env, []) == []
  {}

  lemma JoinArrays(a: seq<Value>, s: seq<Tree>, F: set<GoMap>, b: seq<Value>, t: seq<Tree>, G: set<GoMap>)
    requires Models(VArr(a), Arr(s), F) && Models(VArr(b), Arr(t), G)
    ensures Models(VArr(a + b), Arr(s + t), F + G)
  {
    ModelsGrows(VArr(a), Arr(s), F, F + G);
    ModelsGrows(VArr(b), Arr(t), G, F + G);
  }
}
