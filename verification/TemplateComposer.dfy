/** Combining templates over mutable maps. A template may merge into an object that an earlier one stored by
    reference: a map of the instructions, of the item or of a provider's answer. As long as such a merge adds and
    alters no field, everything reads as before and the result is that of the semantics; the rendering is watched for
    the first merge that does, and stops there. */
module TemplateComposer {
  import opened Collections
  import opened GoValues
  import opened TemplateSemantics
  import opened TemplateEngine

  // ---- The combined result in memory ----

  /** `v` holds the slot in the heap `h`: an object made for a key of this result is a map of `tops`, outside `h`. */
  ghost predicate SlotHolds(h: Heap, v: Value, slot: Slot, tops: set<GoMap>)
    reads tops
  {
    if slot.made then
      slot.value.Obj? && v.Ref? && v.o in tops && v.o !in h && ModelsMapIn(h, v.o.m, slot.value.fields)
    else ModelsIn(h, v, slot.value)
  }

  /** The combined result in memory holds `c`; no two of its keys share an object made for one of them. */
  ghost predicate Holds(h: Heap, m: map<string, Value>, c: Combined, tops: set<GoMap>)
    reads tops
  {
    && m.Keys == c.Keys
    && (forall k <- c :: SlotHolds(h, m[k], c[k], tops))
    && (forall k, l :: k in c && l in c && k != l && c[k].made && c[l].made ==> m[k] != m[l])
  }

  lemma SlotKeeps(h: Heap, g: Heap, v: Value, slot: Slot, tops: set<GoMap>, tops': set<GoMap>)
    requires SlotHolds(h, v, slot, tops) && Keeps(h, g) && tops <= tops' && tops !! g.Keys
    ensures SlotHolds(g, v, slot, tops')
  {
    hide Keeps;
    if slot.made {
      KeepsMap(h, g, v.o.m, slot.value.fields);
    } else {
      KeepsValue(h, g, v, slot.value);
    }
  }

  lemma KeepsMap(h: Heap, g: Heap, m: map<string, Value>, fs: map<string, Tree>)
    requires ModelsMapIn(h, m, fs) && Keeps(h, g)
    ensures ModelsMapIn(g, m, fs)
  {
    hide Keeps;
    forall k | k in fs
      ensures ModelsIn(g, m[k], fs[k])
    {
      KeepsValue(h, g, m[k], fs[k]);
    }
  }

  /** In a heap where everything reads as before the same result is held. */
  lemma HoldsKeeps(h: Heap, g: Heap, m: map<string, Value>, c: Combined, tops: set<GoMap>, tops': set<GoMap>)
    requires Holds(h, m, c, tops) && Keeps(h, g) && tops <= tops' && tops !! g.Keys
    ensures Holds(g, m, c, tops')
  {
    hide Keeps, SlotHolds;
    forall k | k in c
      ensures SlotHolds(g, m[k], c[k], tops')
    {
      SlotKeeps(h, g, m[k], c[k], tops, tops');
    }
  }

  /** Replacing one key of the combined result. */
  lemma HoldsPut(h: Heap, m: map<string, Value>, c: Combined, tops: set<GoMap>,
                 k: string, v: Value, slot: Slot, tops': set<GoMap>)
    requires Holds(h, m, c, tops) && tops <= tops' && SlotHolds(h, v, slot, tops')
    requires slot.made ==> v.o !in tops
    ensures Holds(h, m[k := v], c[k := slot], tops')
  {
    forall l | l in c && l != k
      ensures SlotHolds(h, m[l], c[l], tops')
      ensures c[l].made && slot.made ==> m[l] != v
    {
      assert SlotHolds(h, m[l], c[l], tops);
    }
  }

  /** A map in memory is held as an object, and an object as a map. */
  lemma ObjectHeld(h: Heap, v: Value, slot: Slot, tops: set<GoMap>)
    requires SlotHolds(h, v, slot, tops)
    ensures v.Ref? <==> slot.value.Obj?
    ensures v.Ref? ==> if slot.made then v.o in tops && v.o !in h else v.o in h
  {}

  /** The map made for one key is no part of what the other keys hold. */
  lemma OthersApart(h: Heap, m: map<string, Value>, c: Combined, k: string, tops: set<GoMap>)
    requires Holds(h, m, c, tops) && k in c && c[k].made
    ensures m[k].Ref? && c[k].value.Obj? && Holds(h, m - {k}, c - {k}, tops - {m[k].o})
    ensures ModelsMapIn(h, m[k].o.m, c[k].value.fields)
  {
    assert SlotHolds(h, m[k], c[k], tops);
    forall l | l in c && l != k
      ensures SlotHolds(h, m[l], c[l], tops - {m[k].o})
    {
      assert SlotHolds(h, m[l], c[l], tops);
    }
  }

  /** The combined result after the key `k` is written. */
  function PutAt(c: Combined, k: string, w: Written): Combined {
    match Put(At(c, k), w)
    case None => c
    case Some(slot) => c[k := slot]
  }

  /** The combined result when only the keys in `done` of a template have been written. */
  ghost function Partly(env: Env, c: Combined, spec: map<string, Tree>, done: set<string>): Combined {
    ApplySpec(env, c, map k | k in spec && k in done :: spec[k])
  }

  lemma AtApplySpec(env: Env, c: Combined, spec: map<string, Tree>, k: string)
    ensures At(ApplySpec(env, c, spec), k) == Put(At(c, k), SpecWrite(env, spec, k))
  {}

  lemma AtPutAt(c: Combined, k: string, w: Written, l: string)
    ensures At(PutAt(c, k, w), l) == if l == k then Put(At(c, k), w) else At(c, l)
  {}

  lemma SameAt(a: Combined, b: Combined)
    requires forall k :: At(a, k) == At(b, k)
    ensures a == b
  {
    forall k
      ensures k in a <==> k in b
      ensures k in a ==> a[k] == b[k]
    {
      assert At(a, k) == At(b, k);
    }
  }

  lemma PartlyAt(env: Env, c: Combined, spec: map<string, Tree>, done: set<string>, k: string)
    ensures At(Partly(env, c, spec, done), k) == if k in done then Put(At(c, k), SpecWrite(env, spec, k)) else At(c, k)
  {
    hide RenderEntry, ApplySpec;
    AtApplySpec(env, c, map l | l in spec && l in done :: spec[l], k);
  }

  lemma PartlyNext(env: Env, c: Combined, spec: map<string, Tree>, done: set<string>, k: string)
    requires k in spec && k !in done
    ensures At(Partly(env, c, spec, done), k) == At(c, k)
    ensures Partly(env, c, spec, done + {k}) == PutAt(Partly(env, c, spec, done), k, SpecWrite(env, spec, k))
  {
    hide SpecWrite, Partly, Put, PutAt, At;
    var p, q := Partly(env, c, spec, done), Partly(env, c, spec, done + {k});
    PartlyAt(env, c, spec, done, k);
    forall l
      ensures At(q, l) == At(PutAt(p, k, SpecWrite(env, spec, k)), l)
    {
      PartlyAt(env, c, spec, done, l);
      PartlyAt(env, c, spec, done + {k}, l);
      AtPutAt(p, k, SpecWrite(env, spec, k), l);
    }
    SameAt(q, PutAt(p, k, SpecWrite(env, spec, k)));
  }

  lemma PartlyAll(env: Env, c: Combined, spec: map<string, Tree>)
    ensures Partly(env, c, spec, spec.Keys) == ApplySpec(env, c, spec)
    ensures Partly(env, c, spec, {}) == c
  {
    assert (map k | k in spec && k in spec.Keys :: spec[k]) == spec;
    hide RenderEntry, ApplySpec;
    forall l
      ensures At(Partly(env, c, spec, {}), l) == At(c, l)
    {
      PartlyAt(env, c, spec, {}, l);
    }
    SameAt(Partly(env, c, spec, {}), c);
  }

  // ---- What writing one key does ----

  /** What the map under the key was, if there was one and an object met it. */
  ghost predicate Meets(w: Written, c: Combined, k: string, h: Heap, tops: set<GoMap>, x: Trace) {
    if w.Fields? && x.target != {} then
      && k in c && c[k].value.Obj? && k in x.was && x.was[k].Ref? && x.target == {x.was[k].o}
      && (if c[k].made then x.was[k].o in tops && x.was[k].o !in h else x.was[k].o in h)
    else w.Fields? ==> !(k in c && c[k].value.Obj?)
  }

  /** An object has met a map that this rendering did not make for the key. */
  ghost predicate Foreign(w: Written, c: Combined, k: string, x: Trace) {
    w.Fields? && x.target != {} && k in c && !c[k].made
  }

  lemma MeetsQuiet(w: Written, c: Combined, k: string, h: Heap, tops: set<GoMap>, x: Trace)
    requires Meets(w, c, k, h, tops, x)
    ensures QuietPut(At(c, k), w) <==> !(Foreign(w, c, k, x) && BaseOf(c, k) + w.fields != BaseOf(c, k))
    ensures !Foreign(w, c, k, x) ==> SafePut(At(c, k), w)
    ensures SafePut(At(c, k), w) ==> QuietPut(At(c, k), w)
  {
    if k in c && c[k].value.Obj? {
      assert c[k].value.fields + map[] == c[k].value.fields;
    }
  }

  /** The fields of the object under the key, if there is one. */
  function BaseOf(c: Combined, k: string): map<string, Tree> {
    if k in c && c[k].value.Obj? then c[k].value.fields else map[]
  }

  /** What stays of the combined result: everything, or everything but the map made for the key. */
  ghost predicate Left(w: Written, c: Combined, k: string, h: Heap, tops: set<GoMap>,
                       m: map<string, Value>, hit: set<GoMap>, content: map<string, Value>)
    reads tops - hit
  {
    if hit != {} && k in c && c[k].made && c[k].value.Obj? then
      Holds(h, m - {k}, c - {k}, tops - hit) && ModelsMapIn(h, content, c[k].value.fields)
    else
      && hit !! tops && Holds(h, m, c, tops - hit)
      && (hit != {} ==> k in c && k in m && ModelsIn(h, m[k], c[k].value))
  }

  lemma LeftBefore(combined: GoMap, c: Combined, k: string, w: Written, h: Heap, tops: set<GoMap>)
    requires Holds(h, combined.m, c, tops) && tops !! h.Keys && combined !in h.Keys + tops
    requires Snap(h.Keys) == h
    ensures combined !in Existing(combined, k) && Bases(combined, k, BaseOf(c, k), h.Keys)
    ensures Left(w, c, k, h, tops, combined.m, Target(combined, k, w), Content(combined, k))
    ensures Target(combined, k, w) != {} ==> k in c && c[k].value.Obj? && Existing(combined, k) == {combined.m[k].o}
    ensures Target(combined, k, w) != {} ==>
              if c[k].made then combined.m[k].o in tops && combined.m[k].o !in h else combined.m[k].o in h
    ensures Target(combined, k, w) == {} ==> (w.Fields? ==> !(k in c && c[k].value.Obj?))
  {
    hide ModelsIn, ModelsMapIn, Models, ModelsMap;
    assert tops - {} == tops;
    if k in c {
      ObjectHeld(h, combined.m[k], c[k], tops);
      BaseReads(h, combined.m[k], c[k], tops);
      if Target(combined, k, w) != {} {
        if c[k].made {
          OthersApart(h, combined.m, c, k, tops);
        } else {
          assert tops - Target(combined, k, w) == tops;
        }
      }
    }
  }

  lemma BaseReads(h: Heap, v: Value, slot: Slot, tops: set<GoMap>)
    requires SlotHolds(h, v, slot, tops) && h == Snap(h.Keys)
    ensures v.Ref? ==> ModelsMap(v.o.m, slot.value.fields, h.Keys)
  {
    if v.Ref? {
      if slot.made {
        ModelsMapSnap(v.o.m, slot.value.fields, h.Keys);
      } else {
        ModelsSnap(v, slot.value, h.Keys);
      }
    }
  }

  /** What a rendering under the key did, case by case. */
  lemma EffectCases(combined: GoMap, k: string, w: Written, known: set<GoMap>, base: map<string, Tree>,
                    x: Trace, effect: Effect)
    requires Applied(w, combined, k, known, base, x, effect)
    ensures !w.Fields? || x.target == {} ==>
              Wrote(w, x.was, combined.m, k, known + x.made) && !effect.Merged? && (effect.Made? <==> w.Fields?)
    ensures w.Fields? ==> k in combined.m && combined.m[k].Ref?
    ensures effect.Made? ==> w.Fields? && effect.o == combined.m[k].o && effect.o !in known + x.made
    ensures w.Fields? && x.target != {} ==>
              combined.m == x.was && combined.m[k].o.m == x.content + x.sub && ModelsMapIn(x.before, x.sub, w.fields) &&
              effect == Merged(combined.m[k].o, base + w.fields != base)
  {
    hide ModelsMapIn, ModelsMap, Models, ModelsIn;
  }

  /** The heap after the write, over the maps known and made: that just before it, but for a foreign map. */
  lemma HeapAfter(h: Heap, x: Trace, known: set<GoMap>)
    requires h.Keys == known && Froze(x.before, h, x.made) && x.made !! known
    ensures (forall y <- known :: y.m == h[y]) ==> Snap(known + x.made) == x.before
    ensures forall o <- known :: o.m == h[o] + x.sub && (forall y <- known :: y != o ==> y.m == h[y]) ==>
              MergedInto(x.before, Snap(known + x.made), o, x.sub)
    ensures Keeps(h, x.before)
  {
    forall o, t | o in h && ModelsIn(h, Ref(o), t)
      ensures ModelsIn(x.before, Ref(o), t)
    {
      ModelsInGrows(h, x.before, Ref(o), t);
    }
  }

  /** A merge that adds and alters nothing leaves everything reading as before. */
  lemma KeepsMerge(h: Heap, g: Heap, o: GoMap, sub: map<string, Value>,
                   fields: map<string, Tree>, fs: map<string, Tree>)
    requires MergedInto(h, g, o, sub) && ModelsIn(h, Ref(o), Obj(fields)) && ModelsMapIn(h, sub, fs)
    requires fields + fs == fields
    ensures Keeps(h, g)
  {
    forall x, t | x in h && ModelsIn(h, Ref(x), t)
      ensures ModelsIn(g, Ref(x), t)
    {
      MergeSame(h, g, o, sub, fields, fs, Ref(x), t);
    }
  }

  lemma KeepsSame(h: Heap)
    ensures Keeps(h, h)
  {}

  /** A write that went into no foreign map, in the heap `g` afterwards. */
  lemma WroteHolds(h: Heap, g: Heap, after: map<string, Value>, c: Combined, k: string, w: Written, tops: set<GoMap>,
                   x: Trace, tops': set<GoMap>)
    requires Left(w, c, k, h, tops, x.was, {}, x.content) && Keeps(h, g) && tops' !! g.Keys && g == Snap(g.Keys)
    requires Wrote(w, x.was, after, k, g.Keys) && (w.Fields? ==> !(k in c && c[k].value.Obj?))
    requires if w.Fields? then k in after && after[k].Ref? && after[k].o !in tops && tops' == tops + {after[k].o}
             else tops' == tops
    ensures Holds(g, after, PutAt(c, k, w), tops')
  {
    hide Keeps, ModelsIn, ModelsMapIn, Models, ModelsMap, SlotHolds;
    assert tops - {} == tops;
    HoldsKeeps(h, g, x.was, c, tops, tops);
    match w
    case Nothing =>
      assert PutAt(c, k, w) == c;
    case Store(t) =>
      ModelsSnap(after[k], t, g.Keys);
      StoredSlot(g, after[k], t, tops);
      HoldsPut(g, x.was, c, tops, k, after[k], Slot(t, false), tops);
    case Fields(fs) =>
      ModelsMapSnap(after[k].o.m, fs, g.Keys);
      MadeSlot(g, after[k].o, fs, tops');
      HoldsPut(g, x.was, c, tops, k, after[k], Slot(Obj(fs), true), tops');
  }

  lemma StoredSlot(g: Heap, v: Value, t: Tree, tops: set<GoMap>)
    requires ModelsIn(g, v, t)
    ensures SlotHolds(g, v, Slot(t, false), tops)
  {}

  lemma MadeSlot(g: Heap, o: GoMap, fs: map<string, Tree>, tops: set<GoMap>)
    requires o in tops && o !in g && ModelsMapIn(g, o.m, fs)
    ensures SlotHolds(g, Ref(o), Slot(Obj(fs), true), tops)
  {}

  lemma MergeModels(g: Heap, m: map<string, Value>, fs: map<string, Tree>,
                    sub: map<string, Value>, gs: map<string, Tree>)
    requires ModelsMapIn(g, m, fs) && ModelsMapIn(g, sub, gs)
    ensures ModelsMapIn(g, m + sub, fs + gs)
  {}

  /** A merge into the map made for the key. */
  lemma MergedHolds(h: Heap, g: Heap, m: map<string, Value>, c: Combined, k: string, w: Written, tops: set<GoMap>,
                    x: Trace, e: GoMap)
    requires Left(w, c, k, h, tops, m, {e}, x.content) && Keeps(h, g) && Keeps(x.before, g) && tops !! g.Keys
    requires k in c && c[k].made && c[k].value.Obj? && w.Fields? && k in m && m[k] == Ref(e) && e in tops
    requires e.m == x.content + x.sub && ModelsMapIn(x.before, x.sub, w.fields)
    ensures Holds(g, m, PutAt(c, k, w), tops)
  {
    hide SlotHolds, ModelsMapIn, ModelsIn, Holds, Keeps, PutAt;
    var slot := Slot(Obj(c[k].value.fields + w.fields), true);
    MergedAt(c, k, w.fields);
    KeepsMap(h, g, x.content, c[k].value.fields);
    KeepsMap(x.before, g, x.sub, w.fields);
    MergeModels(g, x.content, c[k].value.fields, x.sub, w.fields);
    MadeSlot(g, e, c[k].value.fields + w.fields, tops);
    HoldsKeeps(h, g, m - {k}, c - {k}, tops - {e}, tops - {e});
    HoldsPut(g, m - {k}, c - {k}, tops - {e}, k, Ref(e), slot, tops);
    assert (m - {k})[k := Ref(e)] == m && (c - {k})[k := slot] == c[k := slot];
  }

  lemma MergedAt(c: Combined, k: string, fs: map<string, Tree>)
    requires k in c && c[k].value.Obj?
    ensures PutAt(c, k, Fields(fs)) == c[k := Slot(Obj(c[k].value.fields + fs), c[k].made)]
  {}

  /** A quiet merge into a foreign map leaves the result what it was. */
  lemma QuietAt(c: Combined, k: string, fs: map<string, Tree>)
    requires k in c && c[k].value.Obj? && c[k].value.fields + fs == c[k].value.fields
    ensures PutAt(c, k, Fields(fs)) == c
  {
    MergedAt(c, k, fs);
    assert c[k := c[k]] == c;
  }

  /** The write that ends the rendering: under the key, which held the slot, fields that add or alter something are
      merged into a map this rendering did not make for a key. `x.before` is the heap just before; only that map
      has changed since. */
  ghost predicate Altered(combined: GoMap, k: string, slot: Option<Slot>, w: Written, x: Trace)
    reads combined, x.before.Keys
  {
    && !QuietPut(slot, w)
    && k in combined.m && combined.m[k].Ref? && combined.m[k].o in x.before
    && MergedInto(x.before, Snap(x.before.Keys), combined.m[k].o, x.sub)
    && ModelsIn(x.before, combined.m[k], slot.value.value) && ModelsMapIn(x.before, x.sub, w.fields)
  }

  /** After that write a value reads as before exactly when it does not go through the map. The map itself reads as
      its old content overwritten by the fields, unless one of these goes through it: then it reads as no tree. */
  lemma AfterAltered(combined: GoMap, k: string, slot: Option<Slot>, w: Written, x: Trace, v: Value, t: Tree)
    requires Altered(combined, k, slot, w, x) && ModelsIn(x.before, v, t)
    ensures Models(v, t, x.before.Keys) <==> !Reaches(x.before, v, t, combined.m[k].o)
    ensures !Loops(x.before, combined.m[k].o, x.sub, w.fields) ==>
              Models(combined.m[k], Obj(slot.value.value.fields + w.fields), x.before.Keys)
    ensures Loops(x.before, combined.m[k].o, x.sub, w.fields) ==>
              forall u :: !Models(combined.m[k], u, x.before.Keys)
  {
    hide Models, ModelsIn, ModelsMapIn, Reaches, Loops, MergedInto;
    var o, g, fields := combined.m[k].o, Snap(x.before.Keys), slot.value.value.fields;
    ReadsAfterMerge(x.before, g, o, x.sub, fields, w.fields, v, t);
    MergedReads(x.before, g, o, x.sub, fields, w.fields);
    ModelsSnap(v, t, x.before.Keys);
    forall u
      ensures Models(Ref(o), u, x.before.Keys) <==> ModelsIn(g, Ref(o), u)
    {
      ModelsSnap(Ref(o), u, x.before.Keys);
    }
  }

  // ---- Sharing by reference ----

  /** Every map of `h` is in `g` as it was. */
  ghost predicate Untouched(h: Heap, g: Heap) {
    forall o <- h :: o in g && g[o] == h[o]
  }

  /** The objects of the result that were not made for a key are maps of `h`. */
  ghost predicate Originals(h: Heap, m: map<string, Value>, c: Combined) {
    forall k <- c :: c[k].value.Obj? && !c[k].made ==> k in m && ModelsIn(h, m[k], c[k].value)
  }

  /** No map of `h` has been written so far, and the result shares them. */
  ghost predicate Rooted(h: Heap, m: map<string, Value>, c: Combined, now: Heap) {
    Untouched(h, now) && Originals(h, m, c)
  }

  /** Only the key has been written, and an object stored there is the original, not a copy. */
  ghost predicate Placed(before: map<string, Value>, after: map<string, Value>, k: string, slot: Option<Slot>,
                         w: Written, original: Value) {
    && (forall l <- before :: l != k ==> l in after && after[l] == before[l])
    && (w.Store? && w.value.Obj? ==> k in after && after[k] == original)
    && (w.Nothing? || (w.Fields? && slot.Some? && slot.value.value.Obj?) ==> after == before)
  }

  lemma PlacedOriginals(h: Heap, before: map<string, Value>, after: map<string, Value>, c: Combined, k: string,
                        w: Written, original: Value)
    requires Originals(h, before, c) && Placed(before, after, k, At(c, k), w, original) && QuietPut(At(c, k), w)
    requires w.Store? && w.value.Obj? ==> ModelsIn(h, original, w.value)
    ensures Originals(h, after, PutAt(c, k, w))
  {
    hide ModelsIn;
    var d := PutAt(c, k, w);
    forall l | l in d && d[l].value.Obj? && !d[l].made
      ensures l in after && ModelsIn(h, after[l], d[l].value)
    {
      if l != k {
        assert d[l] == c[l];
      }
    }
  }

  lemma RootedFrozen(h: Heap, m: map<string, Value>, c: Combined, now: Heap, before: Heap, made: set<GoMap>)
    requires Rooted(h, m, c, now) && Froze(before, now, made)
    ensures Rooted(h, m, c, before)
  {
    hide Originals;
  }

  lemma SafeIsQuietPut(slot: Option<Slot>, w: Written)
    ensures SafePut(slot, w) ==> QuietPut(slot, w)
  {
    if w.Fields? && slot.Some? && slot.value.value.Obj? {
      assert slot.value.value.fields + map[] == slot.value.value.fields;
    }
  }

  /** The keys write no field into a foreign map. */
  ghost predicate SafeKeys(env: Env, c: Combined, fields: map<string, Tree>, done: set<string>) {
    forall k <- done :: SafePut(At(c, k), SpecWrite(env, fields, k))
  }

  /** A rendering has stopped in a template, with the keys in `done` written: the key altered a foreign map. Just
      before, in the heap `x.before`, the result held what the semantics gives for these keys, and everything read as
      in the heap `h`. */
  ghost predicate Stopped(env: Env, combined: GoMap, c: Combined, fields: map<string, Tree>, tops: set<GoMap>,
                          h: Heap, key: string, done: set<string>, x: Trace)
    reads combined, tops, x.before.Keys
  {
    && done <= fields.Keys && key in fields && key !in done
    && Altered(combined, key, At(c, key), SpecWrite(env, fields, key), x)
    && Holds(x.before, combined.m, Partly(env, c, fields, done), tops)
    && tops !! x.before.Keys && combined !in x.before.Keys + tops
    && Keeps(h, x.before)
  }

  /** What the other keys read as then: a value stored by reference reads as before exactly when it does not go
      through the map merged into, and so does each field of an object made for a key; a key that shares the map
      itself reads as the object merged into it. */
  lemma OtherKeys(env: Env, combined: GoMap, c: Combined, fields: map<string, Tree>, tops: set<GoMap>,
                  h: Heap, key: string, done: set<string>, x: Trace, l: string)
    requires Stopped(env, combined, c, fields, tops, h, key, done, x) && l in Partly(env, c, fields, done)
    ensures var slot, o := Partly(env, c, fields, done)[l], combined.m[key].o;
            l in combined.m &&
            if slot.made then
              slot.value.Obj? && combined.m[l].Ref? && ModelsMapIn(x.before, combined.m[l].o.m, slot.value.fields) &&
              forall f <- slot.value.fields ::
                Models(combined.m[l].o.m[f], slot.value.fields[f], x.before.Keys) <==>
                !Reaches(x.before, combined.m[l].o.m[f], slot.value.fields[f], o)
            else
              ModelsIn(x.before, combined.m[l], slot.value) &&
              (Models(combined.m[l], slot.value, x.before.Keys) <==>
               !Reaches(x.before, combined.m[l], slot.value, o))
    ensures var w := SpecWrite(env, fields, key);
            combined.m[l] == combined.m[key] && !Loops(x.before, combined.m[key].o, x.sub, w.fields) ==>
              Models(combined.m[l], Obj(c[key].value.fields + w.fields), x.before.Keys)
  {
    hide Models, ModelsIn, Reaches, Loops, Partly, SpecWrite, Altered, Keeps;
    var slot, w := Partly(env, c, fields, done)[l], SpecWrite(env, fields, key);
    AlteredOver(combined, key, At(c, key), w, x);
    assert SlotHolds(x.before, combined.m[l], slot, tops);
    if slot.made {
      forall f | f in slot.value.fields
        ensures Models(combined.m[l].o.m[f], slot.value.fields[f], x.before.Keys) <==>
                !Reaches(x.before, combined.m[l].o.m[f], slot.value.fields[f], combined.m[key].o)
      {
        AfterAltered(combined, key, At(c, key), w, x, combined.m[l].o.m[f], slot.value.fields[f]);
      }
    } else {
      AfterAltered(combined, key, At(c, key), w, x, combined.m[l], slot.value);
    }
  }

  lemma AlteredOver(combined: GoMap, key: string, slot: Option<Slot>, w: Written, x: Trace)
    requires Altered(combined, key, slot, w, x)
    ensures key in combined.m && combined.m[key].Ref? && w.Fields? && slot.Some? && slot.value.value.Obj?
    ensures ModelsMapIn(x.before, x.sub, w.fields)
    ensures !Loops(x.before, combined.m[key].o, x.sub, w.fields) ==>
              Models(combined.m[key], Obj(slot.value.value.fields + w.fields), x.before.Keys)
  {
    hide Models, ModelsIn, ModelsMapIn, Reaches, Loops, MergedInto;
    AfterAltered(combined, key, slot, w, x, combined.m[key], slot.value.value);
  }

  lemma FrozeKeeps(before: Heap, h: Heap, made: set<GoMap>)
    requires Froze(before, h, made)
    ensures Keeps(h, before)
  {
    forall o, t | o in h && ModelsIn(h, Ref(o), t)
      ensures ModelsIn(before, Ref(o), t)
    {
      ModelsInGrows(h, before, Ref(o), t);
    }
  }

  class Composer {
    const r: Rendering

    constructor (r: Rendering)
      ensures this.r == r
    {
      this.r := r;
    }

    /** The combined result in memory holds `c`, in maps of `tops` besides the known ones. */
    ghost predicate InMemory(combined: GoMap, c: Combined, tops: set<GoMap>)
      reads combined, r, r.known, tops
    {
      && Holds(Snap(r.known), combined.m, c, tops)
      && tops !! r.known
      && combined !in r.known + tops
    }

    lemma Parts(combined: GoMap, c: Combined, tops: set<GoMap>)
      requires InMemory(combined, c, tops)
      ensures Holds(Snap(r.known), combined.m, c, tops) && tops !! r.known && combined !in r.known + tops
    {}

    /** What is stored by reference under a key that renders to a whole object. */
    ghost function Source(v: Value, t: Tree): Value {
      if v.Ref? && t.Obj? then r.Original(v.o, t.fields) else v
    }

    /** It reads as the object, where nothing has been written since. */
    lemma SourceReads(root: Heap, spec: GoMap, v: Value, fields: map<string, Tree>, k: string)
      requires Read(root, spec, fields) && k in fields && root[spec][k] == v
      ensures RenderEntry(r.env, fields[k]).Store? && RenderEntry(r.env, fields[k]).value.Obj? ==>
                ModelsIn(root, Source(v, fields[k]), RenderEntry(r.env, fields[k]).value)
    {
      hide RenderMap, Rendering.Original;
      assert ModelsIn(root, v, fields[k]);
      if v.Ref? && RenderEntry(r.env, fields[k]).Store? && RenderEntry(r.env, fields[k]).value.Obj? {
        r.OriginalReads(root, v.o, fields[k].fields);
      }
    }

    /** Writes one key of a template. It is clean unless this adds or alters a field of a map this rendering did not
        make for a key. */
    method PutKey(k: string, v: Value, combined: GoMap, tops: set<GoMap>, ghost t: Tree, ghost c: Combined)
      returns (clean: bool, tops': set<GoMap>, ghost x: Trace)
      requires r.Ready() && Models(v, t, r.known) && InMemory(combined, c, tops)
      modifies r`known, combined, tops, if SafePut(At(c, k), RenderEntry(r.env, t)) then {} else r.known
      ensures tops <= tops' && fresh(tops' - tops) && old(r.known) <= r.known && fresh(r.known - old(r.known))
      ensures clean <==> QuietPut(At(c, k), RenderEntry(r.env, t))
      ensures clean ==> r.Ready() && Keeps(old(Snap(r.known)), Snap(r.known))
      ensures clean ==> InMemory(combined, PutAt(c, k, RenderEntry(r.env, t)), tops')
      ensures clean ==> Placed(old(combined.m), combined.m, k, At(c, k), RenderEntry(r.env, t), Source(v, t))
      ensures !clean ==> combined.m == old(combined.m) && Altered(combined, k, At(c, k), RenderEntry(r.env, t), x)
      ensures !clean ==> Froze(x.before, old(Snap(r.known)), x.made) && fresh(x.made)
      ensures !clean ==> tops' == tops && Holds(x.before, combined.m, c, tops)
      ensures !clean ==> tops !! x.before.Keys && combined !in x.before.Keys + tops
    {
      hide Altered, Keeps;
      tops', clean, x := tops, true, NO_TRACE;
      if v.Ref? {
        clean, tops', x := PutMap(k, v.o, combined, tops, t.fields, c);
      } else {
        ghost var h := Snap(r.known);
        ModelsSnap(v, t, r.known);
        StoredSlot(h, v, t, tops);
        HoldsPut(h, combined.m, c, tops, k, v, Slot(t, false), tops);
        KeepsSame(h);
        combined.m := combined.m[k := v];
      }
    }

    /** Writes one key of a template whose value is a map. */
    method PutMap(k: string, val: GoMap, combined: GoMap, tops: set<GoMap>, ghost fields: map<string, Tree>,
                  ghost c: Combined)
      returns (clean: bool, tops': set<GoMap>, ghost x: Trace)
      requires r.Ready() && Models(Ref(val), Obj(fields), r.known) && InMemory(combined, c, tops)
      modifies r`known, combined, tops, if SafePut(At(c, k), RenderMap(r.env, fields)) then {} else r.known
      ensures tops <= tops' && fresh(tops' - tops) && old(r.known) <= r.known && fresh(r.known - old(r.known))
      ensures clean <==> QuietPut(At(c, k), RenderMap(r.env, fields))
      ensures clean ==> r.Ready() && Keeps(old(Snap(r.known)), Snap(r.known))
      ensures clean ==> InMemory(combined, PutAt(c, k, RenderMap(r.env, fields)), tops')
      ensures clean ==>
                Placed(old(combined.m), combined.m, k, At(c, k), RenderMap(r.env, fields), r.Original(val, fields))
      ensures !clean ==> combined.m == old(combined.m) && Altered(combined, k, At(c, k), RenderMap(r.env, fields), x)
      ensures !clean ==> Froze(x.before, old(Snap(r.known)), x.made) && fresh(x.made)
      ensures !clean ==> tops' == tops && Holds(x.before, combined.m, c, tops)
      ensures !clean ==> tops !! x.before.Keys && combined !in x.before.Keys + tops
    {
      hide RenderMap, PutAt, SafePut, QuietPut, Put, At, Models, ModelsIn, Wrote, Altered, Applied, Froze,
        Holds, ModelsMap, ModelsMapIn, Keeps, Left, Foreign, Meets, Placed, Rendering.Original;
      ghost var h, w := Snap(r.known), RenderMap(r.env, fields);
      r.ReadyIn();
      var effect;
      effect, x := RenderUnder(k, val, combined, tops, fields, c, h);
      clean := !(effect.Merged? && effect.altered && effect.o !in tops);
      tops' := if effect.Made? then tops + {effect.o} else tops;
      WatchQuiet(combined, c, k, w, h, r.known, tops, x, effect);
      if clean {
        KeepsWrite(combined, c, k, w, h, r.known, tops, x, effect);
        HoldsAfter(combined, c, k, w, h, r.known, tops, x, effect, tops');
        PlacedAt(combined, c, k, w, h, r.known, tops, x, effect, r.Original(val, fields));
        r.Enlarge(r.known + x.made, h);
      } else {
        FrozeKeys(x.before, h, x.made);
        AlteredHere(combined, c, k, w, h, r.known, tops, x, effect);
      }
    }

    /** One key of a template; the `if` keys are skipped. `root` is the heap when the rendering began. */
    method ApplyKey(k: string, spec: GoMap, combined: GoMap, tops: set<GoMap>, ghost fields: map<string, Tree>,
                    ghost c: Combined, ghost root: Heap, ghost rooted: bool)
      returns (clean: bool, tops': set<GoMap>, ghost x: Trace)
      requires r.Ready() && Models(Ref(spec), Obj(fields), r.known) && InMemory(combined, c, tops) && k in fields
      requires rooted ==> Rooted(root, combined.m, c, Snap(r.known)) && Read(root, spec, fields)
      modifies r`known, combined, tops, if SafePut(At(c, k), SpecWrite(r.env, fields, k)) then {} else r.known
      ensures tops <= tops' && fresh(tops' - tops) && old(r.known) <= r.known && fresh(r.known - old(r.known))
      ensures clean <==> QuietPut(At(c, k), SpecWrite(r.env, fields, k))
      ensures clean ==> r.Ready() && Keeps(old(Snap(r.known)), Snap(r.known))
      ensures clean ==> InMemory(combined, PutAt(c, k, SpecWrite(r.env, fields, k)), tops')
      ensures !clean ==> Altered(combined, k, At(c, k), SpecWrite(r.env, fields, k), x)
      ensures !clean ==> Holds(x.before, combined.m, c, tops') && Keeps(old(Snap(r.known)), x.before)
      ensures !clean ==> tops' !! x.before.Keys && combined !in x.before.Keys + tops'
      ensures rooted && SafePut(At(c, k), SpecWrite(r.env, fields, k)) ==>
                Rooted(root, combined.m, PutAt(c, k, SpecWrite(r.env, fields, k)), Snap(r.known))
      ensures rooted && !clean ==> Rooted(root, combined.m, c, x.before)
    {
      hide InMemory, RenderEntry, PutAt, SafePut, QuietPut, Altered, Models, Keeps, Holds, Froze, Placed, Rooted, Read;
      clean, tops', x := true, tops, NO_TRACE;
      ghost var now, before := Snap(r.known), combined.m;
      Parts(combined, c, tops);
      SpecRead(spec, fields, r.known);
      if IsIf(k) {
        PutNothingAt(c, k);
        KeepsSame(now);
        return;
      }
      var v := spec.m[k];
      clean, tops', x := PutKey(k, v, combined, tops, fields[k], c);
      SafeIsQuietPut(At(c, k), RenderEntry(r.env, fields[k]));
      if !clean {
        FrozeKeeps(x.before, now, x.made);
        if rooted {
          RootedFrozen(root, combined.m, c, now, x.before, x.made);
        }
      } else if rooted && SafePut(At(c, k), RenderEntry(r.env, fields[k])) {
        assert Untouched(now, Snap(r.known));
        RootedNext(root, now, Snap(r.known), before, combined.m, c, spec, v, fields, k);
      }
    }

    /** Writes the keys of one template, visited in any order, up to the first that adds or alters a field of a map
        this rendering did not make for a key. While no field has been merged into such a map at all, the maps of
        `root` are as they were, and the result shares them. */
    method ApplyTemplateSpec(spec: GoMap, combined: GoMap, tops: set<GoMap>, ghost fields: map<string, Tree>,
                             ghost c: Combined, ghost root: Heap, ghost rooted: bool)
      returns (clean: bool, tops': set<GoMap>, ghost key: string, ghost done: set<string>, ghost x: Trace)
      requires r.Ready() && Models(Ref(spec), Obj(fields), r.known) && InMemory(combined, c, tops)
      requires rooted ==> Rooted(root, combined.m, c, Snap(r.known)) && Read(root, spec, fields)
      modifies r`known, combined, tops, if SafeSpec(r.env, c, fields) then {} else r.known
      ensures tops <= tops' && fresh(tops' - tops) && old(r.known) <= r.known && fresh(r.known - old(r.known))
      ensures clean <==> QuietSpec(r.env, c, fields)
      ensures clean ==> r.Ready() && Keeps(old(Snap(r.known)), Snap(r.known))
      ensures clean ==> InMemory(combined, ApplySpec(r.env, c, fields), tops')
      ensures !clean ==> Stopped(r.env, combined, c, fields, tops', old(Snap(r.known)), key, done, x)
      ensures clean && rooted && SafeSpec(r.env, c, fields) ==>
                Rooted(root, combined.m, ApplySpec(r.env, c, fields), Snap(r.known))
      ensures !clean && rooted && SafeKeys(r.env, c, fields, done) ==>
                Rooted(root, combined.m, Partly(r.env, c, fields, done), x.before)
    {
      hide InMemory, Partly, SpecWrite, ApplySpec, PutAt, SafePut, QuietPut, Altered, Models, Keeps, Holds, Rooted,
        Read, Rendering.Ready, ModelsIn, At;
      clean, tops', key, x := true, tops, "", NO_TRACE;
      var todo := spec.m.Keys;
      done := {};
      ghost var h := Snap(r.known);
      KeepsSame(h);
      PartlyAll(r.env, c, fields);
      ModelsSnap(Ref(spec), Obj(fields), r.known);
      SpecRead(spec, fields, r.known);
      while todo != {}
        invariant todo <= fields.Keys && done == fields.Keys - todo && clean
        invariant tops <= tops' && fresh(tops' - tops) && old(r.known) <= r.known && fresh(r.known - old(r.known))
        invariant InMemory(combined, Partly(r.env, c, fields, done), tops')
        invariant forall l <- done :: QuietPut(At(c, l), SpecWrite(r.env, fields, l))
        invariant r.Ready() && Keeps(h, Snap(r.known))
        invariant rooted && SafeKeys(r.env, c, fields, done) ==>
                    Rooted(root, combined.m, Partly(r.env, c, fields, done), Snap(r.known))
        decreases todo
      {
        var k :| k in todo;
        todo := todo - {k};
        ghost var p, now := Partly(r.env, c, fields, done), Snap(r.known);
        ghost var safe := rooted && SafeKeys(r.env, c, fields, done);
        PartlyNext(r.env, c, fields, done, k);
        KeepsModels(h, Ref(spec), Obj(fields), r.known);
        key := k;
        clean, tops', x := ApplyKey(k, spec, combined, tops', fields, p, root, safe);
        if !clean {
          KeepsTransitive(h, now, x.before);
          return;
        }
        KeepsTransitive(h, now, Snap(r.known));
        done := done + {k};
      }
      assert done == fields.Keys;
    }

    /** The template and the answers read in the heap `root` as they should. */
    ghost predicate Read(root: Heap, spec: GoMap, fields: map<string, Tree>) {
      && ModelsIn(root, Ref(spec), Obj(fields))
      && forall p :: r.env.resolve(p).Resolved? ==> ModelsIn(root, r.ask(p), r.env.resolve(p).value)
    }

    /** A key that writes into no foreign map keeps the result sharing the maps of `root`. */
    lemma RootedNext(root: Heap, now: Heap, next: Heap, before: map<string, Value>, after: map<string, Value>,
                     c: Combined, spec: GoMap, v: Value, fields: map<string, Tree>, k: string)
      requires Rooted(root, before, c, now) && Untouched(now, next) && Read(root, spec, fields) && k in fields
      requires spec in now && k in now[spec] && now[spec][k] == v
      requires Placed(before, after, k, At(c, k), RenderEntry(r.env, fields[k]), Source(v, fields[k]))
      requires QuietPut(At(c, k), RenderEntry(r.env, fields[k]))
      ensures Rooted(root, after, PutAt(c, k, RenderEntry(r.env, fields[k])), next)
    {
      hide RenderEntry, Placed, Originals, PutAt, QuietPut, Rendering.Original;
      assert spec in root;
      SourceReads(root, spec, v, fields, k);
      PlacedOriginals(root, before, after, c, k, RenderEntry(r.env, fields[k]), Source(v, fields[k]));
    }

    /** The rendering under the key, and what it leaves as it was. */
    method RenderUnder(k: string, val: GoMap, combined: GoMap, tops: set<GoMap>, ghost fields: map<string, Tree>,
                       ghost c: Combined, ghost h: Heap)
      returns (effect: Effect, ghost x: Trace)
      requires r.Ready() && Models(Ref(val), Obj(fields), r.known) && InMemory(combined, c, tops) && h == Snap(r.known)
      modifies combined, tops, if SafePut(At(c, k), RenderMap(r.env, fields)) then {} else r.known
      ensures fresh(x.made) && Applied(RenderMap(r.env, fields), combined, k, r.known, BaseOf(c, k), x, effect)
      ensures x.was == old(combined.m) && (effect.Made? ==> fresh(effect.o))
      ensures Froze(x.before, h, x.made) && Meets(RenderMap(r.env, fields), c, k, h, tops, x)
      ensures Left(RenderMap(r.env, fields), c, k, h, tops, x.was,
                   if RenderMap(r.env, fields).Fields? then x.target else {}, x.content)
      ensures KnownAfter(RenderMap(r.env, fields), c, k, h, r.known, x)
      ensures RenderMap(r.env, fields).Store? && RenderMap(r.env, fields).value.Obj? ==>
                k in combined.m && combined.m[k] == r.Original(val, fields)
    {
      hide RenderMap, SafePut, Put, At, Models, ModelsIn, Wrote, Applied, SlotHolds, Holds, ModelsMap, Bases, BaseOf;
      ghost var w := RenderMap(r.env, fields);
      LeftBefore(combined, c, k, w, h, tops);
      SafeTarget(combined, c, k, w, h, tops);
      effect, x := r.ApplyMapValue(k, val, combined, fields, BaseOf(c, k), r.known);
    }
  }

  /** Of the known maps only a foreign one met by an object has changed. */
  ghost predicate KnownAfter(w: Written, c: Combined, k: string, h: Heap, known: set<GoMap>, x: Trace)
    reads known
  {
    if Foreign(w, c, k, x) then
      k in x.was && x.was[k].Ref? && x.was[k].o in known && x.was[k].o in h && x.content == h[x.was[k].o] &&
      forall y <- known :: y != x.was[k].o ==> y in h && y.m == h[y]
    else forall y <- known :: y in h && y.m == h[y]
  }

  lemma SafeTarget(combined: GoMap, c: Combined, k: string, w: Written, h: Heap, tops: set<GoMap>)
    requires Target(combined, k, w) != {} ==> k in c && c[k].value.Obj? && Existing(combined, k) == {combined.m[k].o}
    requires Target(combined, k, w) != {} ==> if c[k].made then combined.m[k].o in tops else combined.m[k].o in h
    ensures if SafePut(At(c, k), w) then Touched(combined, k, w) <= tops else Touched(combined, k, w) <= h.Keys
  {}

  /** What the watch sees is whether the write is quiet. */
  lemma WatchQuiet(combined: GoMap, c: Combined, k: string, w: Written, h: Heap, known: set<GoMap>, tops: set<GoMap>,
                   x: Trace, effect: Effect)
    requires Applied(w, combined, k, known, BaseOf(c, k), x, effect) && Meets(w, c, k, h, tops, x) && tops !! h.Keys
    ensures effect.Merged? && effect.altered && effect.o !in tops <==> !QuietPut(At(c, k), w)
    ensures effect.Made? ==> effect.o !in known + x.made
  {
    hide BaseOf, QuietPut, Wrote, Models, ModelsIn, ModelsMap, ModelsMapIn;
    EffectCases(combined, k, w, known, BaseOf(c, k), x, effect);
    MeetsQuiet(w, c, k, h, tops, x);
  }

  /** After a quiet write everything reads as before. */
  lemma KeepsWrite(combined: GoMap, c: Combined, k: string, w: Written, h: Heap, known: set<GoMap>, tops: set<GoMap>,
                   x: Trace, effect: Effect)
    requires KnownAfter(w, c, k, h, known, x) && Froze(x.before, h, x.made) && h.Keys == known && x.made !! known
    requires Meets(w, c, k, h, tops, x) && QuietPut(At(c, k), w)
    requires Left(w, c, k, h, tops, x.was, if w.Fields? then x.target else {}, x.content)
    requires Applied(w, combined, k, known, BaseOf(c, k), x, effect)
    ensures Keeps(h, Snap(known + x.made)) && Keeps(x.before, Snap(known + x.made))
  {
    hide Keeps, ModelsIn, ModelsMapIn, Models, ModelsMap, QuietPut, Holds, Froze, Applied, Wrote;
    var g := Snap(known + x.made);
    EffectCases(combined, k, w, known, BaseOf(c, k), x, effect);
    HeapAfter(h, x, known);
    KeepsSame(g);
    MeetsQuiet(w, c, k, h, tops, x);
    if Foreign(w, c, k, x) {
      KeepsValue(h, x.before, x.was[k], c[k].value);
      assert c[k].value == Obj(BaseOf(c, k));
      KeepsMerge(x.before, g, x.was[k].o, x.sub, BaseOf(c, k), w.fields);
    }
    KeepsTransitive(h, x.before, g);
  }

  /** After a quiet write the result in memory is that of the semantics. */
  lemma HoldsAfter(combined: GoMap, c: Combined, k: string, w: Written, h: Heap, known: set<GoMap>, tops: set<GoMap>,
                   x: Trace, effect: Effect, tops': set<GoMap>)
    requires Applied(w, combined, k, known, BaseOf(c, k), x, effect) && Meets(w, c, k, h, tops, x)
    requires Left(w, c, k, h, tops, x.was, if w.Fields? then x.target else {}, x.content) && QuietPut(At(c, k), w)
    requires Keeps(h, Snap(known + x.made)) && Keeps(x.before, Snap(known + x.made)) && tops !! known + x.made
    requires tops' == if effect.Made? then tops + {effect.o} else tops
    requires effect.Made? ==> effect.o !in tops
    ensures Holds(Snap(known + x.made), combined.m, PutAt(c, k, w), tops')
  {
    hide Applied, Wrote, Keeps, ModelsIn, ModelsMapIn, Models, ModelsMap, Holds, SlotHolds, PutAt, QuietPut;
    var g := Snap(known + x.made);
    EffectCases(combined, k, w, known, BaseOf(c, k), x, effect);
    MeetsQuiet(w, c, k, h, tops, x);
    if !w.Fields? || x.target == {} {
      WroteHolds(h, g, combined.m, c, k, w, tops, x, tops');
    } else if c[k].made {
      MergedHolds(h, g, combined.m, c, k, w, tops, x, combined.m[k].o);
    } else {
      QuietAt(c, k, w.fields);
      HoldsKeeps(h, g, x.was, c, tops - x.target, tops);
    }
  }

  lemma PlacedAt(combined: GoMap, c: Combined, k: string, w: Written, h: Heap, known: set<GoMap>, tops: set<GoMap>,
                 x: Trace, effect: Effect, original: Value)
    requires Applied(w, combined, k, known, BaseOf(c, k), x, effect) && Meets(w, c, k, h, tops, x)
    requires w.Store? && w.value.Obj? ==> k in combined.m && combined.m[k] == original
    ensures Placed(x.was, combined.m, k, At(c, k), w, original)
  {
    hide Applied, ModelsIn, ModelsMapIn, Models, ModelsMap;
    EffectCases(combined, k, w, known, BaseOf(c, k), x, effect);
  }

  /** What is known of the write that ends the rendering. */
  lemma AlteredHere(combined: GoMap, c: Combined, k: string, w: Written, h: Heap, known: set<GoMap>, tops: set<GoMap>,
                    x: Trace, effect: Effect)
    requires Applied(w, combined, k, known, BaseOf(c, k), x, effect) && Meets(w, c, k, h, tops, x)
    requires Left(w, c, k, h, tops, x.was, if w.Fields? then x.target else {}, x.content) && !QuietPut(At(c, k), w)
    requires KnownAfter(w, c, k, h, known, x) && Froze(x.before, h, x.made) && h.Keys == known
    requires x.made !! known && tops !! known + x.made
    ensures combined.m == x.was && Altered(combined, k, At(c, k), w, x) && Holds(x.before, combined.m, c, tops)
  {
    hide Applied, Wrote, Keeps, ModelsIn, ModelsMapIn, Models, ModelsMap, Holds, SlotHolds, QuietPut, Froze;
    EffectCases(combined, k, w, known, BaseOf(c, k), x, effect);
    MeetsQuiet(w, c, k, h, tops, x);
    HeapAfter(h, x, known);
    FrozeKeys(x.before, h, x.made);
    KeepsValue(h, x.before, x.was[k], c[k].value);
    HoldsKeeps(h, x.before, x.was, c, tops - x.target, tops);
  }

  lemma FrozeKeys(before: Heap, h: Heap, made: set<GoMap>)
    requires Froze(before, h, made)
    ensures before.Keys == h.Keys + made
  {}

  lemma PutNothingAt(c: Combined, k: string)
    ensures PutAt(c, k, Nothing) == c && QuietPut(At(c, k), Nothing)
  {}

  lemma SpecRead(spec: GoMap, fields: map<string, Tree>, F: set<GoMap>)
    requires Models(Ref(spec), Obj(fields), F)
    ensures spec in F && spec.m.Keys == fields.Keys && forall k <- fields :: Models(spec.m[k], fields[k], F)
  {}
}
