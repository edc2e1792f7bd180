/** Two keys that share a map of the item: where the laws of composition, which hold of every quiet list, fail. */
module TemplateSharing {
  import opened Collections
  import opened GoValues
  import opened TemplateSemantics
  import opened TemplateLaws
  import opened TemplateEngine
  import opened TemplateComposer
  import opened TemplateLibrary
  import opened TemplateResults
  import opened TwoTemplates

  /** The item's map, and what it becomes. */
  const ITEM := Obj(map["a" := Number(1)])
  const GROWN := Obj(map["a" := Number(1), "z" := Number(1)])

  /** A key that takes the item's map by reference, and one that renders an object of its own. */
  const PATH := Obj(map["type" := Text("string"), "path" := Text("item.x")])
  const ADDED := Obj(map["z" := Number(1)])
  const OBJECT := Obj(map["value" := ADDED])

  const P := map["k1" := PATH, "k2" := PATH]
  const Q := map["k1" := OBJECT]

  /** The item's map is what the path leads to, and reads as `t`. */
  function EnvOf(t: Tree): Env {
    Env(_ => true, _ => None, path => if path == "item.x" then Resolved(t) else NoAnswer)
  }

  // ---- What the templates write ----

  lemma PathWrite(t: Tree)
    ensures RenderEntry(EnvOf(t), PATH) == Store(t)
  {
    var fields := map["type" := Text("string"), "path" := Text("item.x")];
    assert |"type"| == 4 && |"path"| == 4 && "type"[0] == 't' && "path"[0] == 'p';
    assert RenderMap(EnvOf(t), fields) == RenderString(EnvOf(t), fields);
  }

  lemma ObjectWrite(env: Env)
    ensures RenderEntry(env, OBJECT) == Fields(ADDED.fields)
  {
    var val := map["value" := ADDED];
    assert |"type"| == 4 && |"value"| == 5 && "type" !in val;
    assert RenderEntry(env, Number(1)) == Store(Number(1));
    assert RenderMap(env, val) == RenderObject(env, val) == Fields(RenderFields(env, ADDED.fields, false));
    AddedAsIs(env);
  }

  lemma AddedAsIs(env: Env)
    ensures RenderFields(env, ADDED.fields, false) == ADDED.fields
  {
    assert RenderEntry(env, Number(1)) == Store(Number(1));
  }

  lemma KeyWrites(t: Tree)
    ensures SpecWrite(EnvOf(t), P, "k1") == Store(t) && SpecWrite(EnvOf(t), P, "k2") == Store(t)
    ensures SpecWrite(EnvOf(t), Q, "k1") == Fields(ADDED.fields)
  {
    Trimmed("k1");
    Trimmed("k2");
    WriteOf(EnvOf(t), P, "k1");
    WriteOf(EnvOf(t), P, "k2");
    WriteOf(EnvOf(t), Q, "k1");
    PathWrite(t);
    ObjectWrite(EnvOf(t));
  }

  const ONE := Slot(ITEM, false)

  /** The first template leaves the item's map under both keys. */
  lemma SharedFolds()
    ensures Combine(EnvOf(ITEM), [P]) == map["k1" := ONE, "k2" := ONE]
    ensures !Quiet(EnvOf(ITEM), Selected(EnvOf(ITEM), List(P, Q)))
    ensures At(Adjust(EnvOf(ITEM), List(P, Q)), "k2") == Some(ONE)
  {
    hide SpecWrite, Safe, Quiet, Combine, Selected, SafeSpec, QuietSpec;
    KeyWrites(ITEM);
    SelectedAre(EnvOf(ITEM), P, Q);
    Folded(EnvOf(ITEM), P, Q);
    var c := map["k1" := ONE, "k2" := ONE];
    FirstSpec(c);
    ApplyOne(EnvOf(ITEM), c, "k1", OBJECT);
    AtPutAt(c, "k1", Fields(ADDED.fields), "k2");
    assert "z" in ITEM.fields + ADDED.fields && "z" !in ITEM.fields;
  }

  lemma FirstSpec(c: Combined)
    requires c == map["k1" := ONE, "k2" := ONE]
    ensures ApplySpec(EnvOf(ITEM), map[], P) == c
  {
    hide SpecWrite;
    KeyWrites(ITEM);
    assert P.Keys == {"k1", "k2"};
  }

  // ---- Projection ----

  /** The templates with only the second key. */
  const SOME := map["k2" := PATH]

  lemma SomeKeys()
    ensures RestrictTemplates(List(P, Q), {"k2"}) == List(SOME, map[])
  {
    hide RestrictTemplates, Restrict, Trim;
    var l, r := List(P, Q), RestrictTemplates(List(P, Q), {"k2"});
    Kinds();
    RestrictAt(l, {"k2"}, 0);
    RestrictAt(l, {"k2"}, 1);
    RestrictAt(l, {"k2"}, 2);
    SomeOfEach();
    assert r == [r[0], r[1], r[2]];
  }

  lemma SomeOfEach()
    ensures Restrict(P, {"k2"}) == SOME && Restrict(Q, {"k2"}) == map[]
  {}

  lemma SomeFolds()
    ensures Safe(EnvOf(ITEM), Selected(EnvOf(ITEM), List(SOME, map[])))
    ensures Quiet(EnvOf(ITEM), Selected(EnvOf(ITEM), List(SOME, map[])))
    ensures Plain(Adjust(EnvOf(ITEM), List(SOME, map[]))) == map["k2" := ITEM]
  {
    hide SpecWrite, Safe, Quiet, Combine, Selected;
    SelectedAre(EnvOf(ITEM), SOME, map[]);
    Folded(EnvOf(ITEM), SOME, map[]);
    Trimmed("k2");
    WriteOf(EnvOf(ITEM), SOME, "k2");
    PathWrite(ITEM);
    ApplyOne(EnvOf(ITEM), map[], "k2", PATH);
    var c := map["k2" := ONE];
    NoKeys(EnvOf(ITEM), c);
    assert PutAt(map[], "k2", Store(ITEM)) == c;
  }

  lemma NoKeys(env: Env, c: Combined)
    ensures ApplySpec(env, c, map[]) == c && SafeSpec(env, c, map[]) && QuietSpec(env, c, map[])
  {}

  // ---- The list in memory ----

  lemma PathReads(path: GoMap, F: set<GoMap>)
    requires path in F && path.m == map["type" := VText("string"), "path" := VText("item.x")]
    ensures Models(Ref(path), PATH, F)
  {}

  method BuildPath() returns (path: GoMap)
    ensures fresh(path) && path.m == map["type" := VText("string"), "path" := VText("item.x")]
    ensures "path" in path.m
  {
    path := new GoMap();
    path.m := map["type" := VText("string"), "path" := VText("item.x")];
  }

  lemma KeysRead(spec: GoMap, path: GoMap, F: set<GoMap>)
    requires spec in F && spec.m == map["k1" := Ref(path), "k2" := Ref(path)] && Models(Ref(path), PATH, F)
    ensures Models(Ref(spec), Obj(P), F)
  {}

  /** The second template's spec in memory. */
  method BuildObject() returns (spec: GoMap, ghost made: set<GoMap>)
    ensures fresh(made) && Models(Ref(spec), Obj(Q), made) && forall o <- made :: o.m.Keys != {"a"}
  {
    var added := NewMap("z", VNumber(1));
    var object1 := NewMap("value", Ref(added));
    spec := NewMap("k1", Ref(object1));
    made := {added, object1, spec};
    hide Models;
    LeafReads(1, "", made);
    OneField(added, "z", VNumber(1), Number(1), made);
    OneField(object1, "value", Ref(added), ADDED, made);
    OneField(spec, "k1", Ref(object1), OBJECT, made);
  }

  /** The path in memory, and two templates that use it. */
  method BuildPaths() returns (path: GoMap, spec: GoMap, later: GoMap, ghost made: set<GoMap>)
    ensures fresh(made) && made == {path, spec, later} && forall o <- made :: o.m.Keys != {"a"}
    ensures path.m == map["type" := VText("string"), "path" := VText("item.x")] && later.m == map["k1" := Ref(path)]
    ensures Models(Ref(spec), Obj(P), made)
  {
    hide Models;
    path := BuildPath();
    spec := new GoMap();
    spec.m := map["k1" := Ref(path), "k2" := Ref(path)];
    assert "k1" in spec.m;
    later := NewMap("k1", Ref(path));
    made := {path, spec, later};
    PathReads(path, made);
    KeysRead(spec, path, made);
  }

  /** The map of the item and the templates in memory. No other map has its keys. */
  method BuildParts() returns (item: GoMap, path: GoMap, later: GoMap, spec1: GoMap, spec2: GoMap,
                               ghost made: set<GoMap>)
    ensures fresh(made) && item in made && path in made && later in made && item != path && item != later
    ensures path.m == map["type" := VText("string"), "path" := VText("item.x")] && later.m == map["k1" := Ref(path)]
    ensures Models(Ref(item), ITEM, made) && Models(Ref(spec1), Obj(P), made) && Models(Ref(spec2), Obj(Q), made)
    ensures forall o <- made :: o.m.Keys == {"a"} ==> o == item
  {
    hide Models;
    ghost var made1, made2;
    item := NewMap("a", VNumber(1));
    path, spec1, later, made1 := BuildPaths();
    spec2, made2 := BuildObject();
    made := {item} + made1 + made2;
    LeafReads(1, "", made);
    OneField(item, "a", VNumber(1), Number(1), made);
    ModelsGrows(Ref(spec1), Obj(P), made1, made);
    ModelsGrows(Ref(spec2), Obj(Q), made2, made);
  }

  /** The list in memory. */
  method Build() returns (hs: seq<Held>, item: GoMap, path: GoMap, later: GoMap, ghost known: set<GoMap>)
    ensures fresh(known) && item in known && path in known && later in known && item != path && item != later
    ensures path.m == map["type" := VText("string"), "path" := VText("item.x")] && later.m == map["k1" := Ref(path)]
    ensures Models(Ref(item), ITEM, known) && HoldingAll(hs, List(P, Q), known)
    ensures forall o <- known :: o.m.Keys == {"a"} ==> o == item
  {
    hide Models, HoldingAll;
    var spec1, spec2;
    ghost var made;
    item, path, later, spec1, spec2, made := BuildParts();
    hs, known := BuildList(spec1, spec2, P, Q, made);
    ModelsGrows(Ref(item), ITEM, made, known);
  }

  /** A rendering for which the path leads to the map `item`, which reads as `t`. */
  method NewRendering(item: GoMap, t: Tree, ghost known: set<GoMap>) returns (r: Rendering)
    requires Models(Ref(item), t, known)
    ensures fresh(r) && r.env == EnvOf(t) && r.known == known && r.Ready()
  {
    hide Models;
    r := new Rendering(EnvOf(t), _ => Ref(item), known);
  }

  // ---- Rendering both keys, and one of them ----

  /** Both keys hold the item's map. */
  lemma BothItem(item: GoMap, h: Heap, m: map<string, Value>, before: Heap)
    requires forall o <- h :: h[o].Keys == {"a"} ==> o == item
    requires Rooted(h, m, map["k1" := ONE, "k2" := ONE], before)
    ensures "k1" in m && "k2" in m && m["k1"] == m["k2"] == Ref(item)
  {
    hide ModelsIn;
    var c := map["k1" := ONE, "k2" := ONE];
    assert c["k1"] == ONE && c["k2"] == ONE;
    OnlyOne(item, h, m["k1"]);
    OnlyOne(item, h, m["k2"]);
  }

  /** The merge has gone into it. */
  lemma GrewHere(item: GoMap, combined: GoMap, x: Trace)
    requires Altered(combined, "k1", Some(ONE), Fields(ADDED.fields), x)
    requires "k1" in combined.m && combined.m["k1"] == Ref(item)
    ensures Models(Ref(item), GROWN, x.before.Keys)
    ensures forall o <- x.before :: o != item ==> o.m == x.before[o]
  {
    hide ModelsIn, Models, Altered, Reaches, Loops, ModelsMapIn;
    AlteredParts(item, combined, x);
    NoLoop(x.before, item, x.sub);
    MergedReading(combined, ONE, ADDED.fields, x);
    Sum();
  }

  lemma Sum()
    ensures Obj(ITEM.fields + ADDED.fields) == GROWN
  {}

  lemma MergedReading(combined: GoMap, slot: Slot, fs: map<string, Tree>, x: Trace)
    requires Altered(combined, "k1", Some(slot), Fields(fs), x)
    requires !Loops(x.before, combined.m["k1"].o, x.sub, fs)
    ensures Models(combined.m["k1"], Obj(slot.value.fields + fs), x.before.Keys)
  {
    hide ModelsIn, Models, Reaches, Loops, ModelsMapIn;
    AfterAltered(combined, "k1", Some(slot), Fields(fs), x, combined.m["k1"], slot.value);
  }

  lemma AlteredParts(item: GoMap, combined: GoMap, x: Trace)
    requires Altered(combined, "k1", Some(ONE), Fields(ADDED.fields), x) && combined.m["k1"] == Ref(item)
    ensures ModelsMapIn(x.before, x.sub, ADDED.fields)
    ensures forall o <- x.before :: o != item ==> o.m == x.before[o]
  {
    hide ModelsIn, ModelsMapIn;
  }

  lemma OnlyOne(item: GoMap, h: Heap, v: Value)
    requires (forall o <- h :: h[o].Keys == {"a"} ==> o == item) && ModelsIn(h, v, ITEM)
    ensures v == Ref(item)
  {
    assert h[v.o].Keys == ITEM.fields.Keys == {"a"};
  }

  lemma NoLoop(h: Heap, o: GoMap, sub: map<string, Value>)
    requires ModelsMapIn(h, sub, ADDED.fields)
    ensures !Loops(h, o, sub, ADDED.fields)
  {
    assert ADDED.fields.Keys == {"z"} && ADDED.fields["z"] == Number(1);
  }

  /** Renders both templates. The object of the second is merged into the item's map, which both keys hold: the
      other key reads otherwise too. */
  method RenderWhole(hs: seq<Held>, item: GoMap, ghost known: set<GoMap>)
    returns (whole: GoMap, ghost tops: set<GoMap>, ghost stop: Stop)
    requires Models(Ref(item), ITEM, known) && HoldingAll(hs, List(P, Q), known)
    requires forall o <- known :: o.m.Keys == {"a"} ==> o == item
    modifies known
    ensures fresh(whole) && known <= stop.x.before.Keys && whole !in stop.x.before.Keys
    ensures FirstAlteration(EnvOf(ITEM), List(P, Q), NAMES, whole, tops, old(Snap(known)), stop)
    ensures whole.m == map["k1" := Ref(item), "k2" := Ref(item)]
    ensures Models(Ref(item), GROWN, stop.x.before.Keys)
    ensures forall o <- known :: o != item ==> o.m == old(o.m)
  {
    hide Models, FirstAlteration, Safe, Quiet, Selected, SelectedNames, Combine, HoldingAll, Altered, Rooted;
    ghost var h := Snap(known);
    var clean;
    var r := NewRendering(item, ITEM, known);
    var lib := new TemplateLib(r);
    NamesSelected(EnvOf(ITEM), P, Q);
    SharedFolds();
    whole, clean, tops, stop := lib.AdjustTemplate(hs, List(P, Q));
    WholeAltered(item, whole, tops, h, stop);
  }

  /** What the whole rendering has come to. */
  lemma WholeAltered(item: GoMap, whole: GoMap, tops: set<GoMap>, h: Heap, stop: Stop)
    requires FirstAlteration(EnvOf(ITEM), List(P, Q), NAMES, whole, tops, h, stop)
    requires forall o <- h :: h[o].Keys == {"a"} ==> o == item
    ensures whole.m == map["k1" := Ref(item), "k2" := Ref(item)] && whole !in stop.x.before.Keys
    ensures Models(Ref(item), GROWN, stop.x.before.Keys)
    ensures forall o <- h :: o in stop.x.before && (o != item ==> o.m == h[o])
  {
    hide Models, ModelsIn, FirstAlteration, Combine, Altered, Originals, SpecWrite, EnvOf, List;
    StopsAtSecond(EnvOf(ITEM), P, "k1", OBJECT, whole, tops, h, stop);
    SharedFolds();
    KeyWrites(ITEM);
    BothItem(item, h, whole.m, stop.x.before);
    GrewHere(item, whole, stop.x);
    WholeKeys(whole, tops, h, stop);
  }

  lemma WholeKeys(whole: GoMap, tops: set<GoMap>, h: Heap, stop: Stop)
    requires FirstAlteration(EnvOf(ITEM), List(P, Q), NAMES, whole, tops, h, stop)
    ensures whole.m.Keys == {"k1", "k2"} && whole !in stop.x.before.Keys
  {
    hide SelectedSpecs, IsSelected, SpecWrite, Safe, Quiet, Combine, Altered, Rooted, Keeps, ApplySpec, SlotHolds,
      Selected;
    StopsAtSecond(EnvOf(ITEM), P, "k1", OBJECT, whole, tops, h, stop);
    SpecsSelected(P, Q);
    SharedFolds();
    PartlyAll(EnvOf(ITEM), Combine(EnvOf(ITEM), [P]), Q);
  }

  /** Renders the templates with only the second key: it holds the item's map as it was. */
  method RenderSome(gs: seq<Held>, item: GoMap, ghost known: set<GoMap>)
    returns (some: GoMap, ghost F: set<GoMap>)
    requires Models(Ref(item), ITEM, known) && HoldingAll(gs, RestrictTemplates(List(P, Q), {"k2"}), known)
    ensures Models(Ref(some), Obj(map["k2" := ITEM]), F)
    ensures HoldingAll(gs, RestrictTemplates(List(P, Q), {"k2"}), F)
  {
    hide Models, FirstAlteration, Safe, Quiet, Selected, Combine, HoldingAll;
    SomeKeys();
    SomeFolds();
    var clean;
    ghost var tops, stop;
    var r := NewRendering(item, ITEM, known);
    var lib := new TemplateLib(r);
    some, clean, tops, stop := lib.AdjustTemplate(gs, List(SOME, map[]));
    F := r.known;
  }

  /** The templates with only the second key in memory. */
  method BuildSome(path: GoMap, ghost known: set<GoMap>) returns (gs: seq<Held>, ghost more: set<GoMap>)
    requires path in known && path.m == map["type" := VText("string"), "path" := VText("item.x")]
    ensures known <= more && fresh(more - known) && HoldingAll(gs, RestrictTemplates(List(P, Q), {"k2"}), more)
  {
    hide Models, HoldingAll;
    var spec1 := NewMap("k2", Ref(path));
    var spec2 := new GoMap();
    ghost var F := known + {spec1, spec2};
    PathReads(path, F);
    OneField(spec1, "k2", Ref(path), PATH, F);
    Nothing(spec2, F);
    gs, more := BuildList(spec1, spec2, SOME, map[], F);
    SomeKeys();
  }

  lemma Nothing(spec: GoMap, F: set<GoMap>)
    requires spec in F && spec.m == map[]
    ensures Models(Ref(spec), Obj(map[]), F)
  {}

  /** Projection fails. In the heap `h` the list and the item's map read as given; the second key, rendered together
      with the first, reads as that map with the field of the first key's object. In the heap `g`, where the list with
      only the second key has been rendered, that key reads as the map. The semantics gives the same for both. */
  method SharedKeys()
    returns (hs: seq<Held>, gs: seq<Held>, item: GoMap, some: GoMap, whole: GoMap, ghost g: Heap, ghost h: Heap,
             ghost tops: set<GoMap>, ghost stop: Stop)
    ensures HeldIn(gs, RestrictTemplates(List(P, Q), {"k2"}), g) && ModelsIn(g, Ref(some), Obj(map["k2" := ITEM]))
    ensures HeldIn(hs, List(P, Q), h) && ModelsIn(h, Ref(item), ITEM)
    ensures FirstAlteration(EnvOf(ITEM), List(P, Q), NAMES, whole, tops, h, stop)
    ensures "k2" in whole.m && whole.m["k2"] == Ref(item) && Models(Ref(item), GROWN, stop.x.before.Keys)
    ensures At(Adjust(EnvOf(ITEM), List(P, Q)), "k2") == Some(Slot(ITEM, false)) && ITEM != GROWN
  {
    hide Models, ModelsIn, HoldingAll, HeldIn, FirstAlteration, Adjust, EnvOf, List, RestrictTemplates;
    var path, later;
    ghost var known, more, F;
    hs, item, path, later, known := Build();
    gs, more := BuildSome(path, known);
    ModelsGrows(Ref(item), ITEM, known, more);
    some, F := RenderSome(gs, item, more);
    g, h := Snap(F), Snap(known);
    ModelsSnap(Ref(some), Obj(map["k2" := ITEM]), F);
    ModelsSnap(Ref(item), ITEM, known);
    HeldSnap(gs, RestrictTemplates(List(P, Q), {"k2"}), F);
    HeldSnap(hs, List(P, Q), known);
    whole, tops, stop := RenderWhole(hs, item, known);
    SharedFolds();
    Differ();
  }

  lemma Differ()
    ensures ITEM != GROWN
  {
    assert "z" in GROWN.fields && "z" !in ITEM.fields;
  }

  // ---- Overwriting ----

  /** A third template: it takes the item's map under the first key again. */
  const R := map["k1" := PATH]

  lemma OverwriteFolds(t: Tree, c: Combined)
    ensures ApplySpec(EnvOf(t), c, R) == c["k1" := Slot(t, false)]
    ensures SafeSpec(EnvOf(t), c, R) && QuietSpec(EnvOf(t), c, R)
  {
    hide SpecWrite;
    Trimmed("k1");
    WriteOf(EnvOf(t), R, "k1");
    PathWrite(t);
    ApplyOne(EnvOf(t), c, "k1", PATH);
  }

  /** What the semantics gives for the three templates. */
  lemma ThreeFold(env: Env)
    requires env == EnvOf(ITEM)
    ensures At(Combine(env, [P, Q, R]), "k1") == Some(Slot(ITEM, false))
  {
    hide ApplySpec, Combine, EnvOf;
    assert [P, Q] + [R] == [P, Q, R];
    CombineSnoc(env, [P, Q], R);
    OverwriteFolds(ITEM, Combine(env, [P, Q]));
  }

  const BOTH := map["k1" := Slot(GROWN, false), "k2" := Slot(GROWN, false)]

  /** The result of the first two templates in memory. */
  lemma WholeHolds(m: map<string, Value>, item: GoMap, F: set<GoMap>)
    requires m == map["k1" := Ref(item), "k2" := Ref(item)] && Models(Ref(item), GROWN, F)
    ensures Holds(Snap(F), m, BOTH, {})
  {
    hide Models, ModelsIn;
    ModelsSnap(Ref(item), GROWN, F);
    assert m.Keys == {"k1", "k2"} == BOTH.Keys;
  }

  /** A rendering goes on with one more template, from what a result holds. */
  method GoOn(r: Rendering, content: map<string, Value>, spec: GoMap, ghost fields: map<string, Tree>,
              ghost c: Combined)
    returns (next: GoMap, ghost F: set<GoMap>)
    requires r.Ready() && Holds(Snap(r.known), content, c, {}) && Models(Ref(spec), Obj(fields), r.known)
    requires SafeSpec(r.env, c, fields) && QuietSpec(r.env, c, fields)
    modifies r`known
    ensures fresh(next) && old(r.known) <= F
    ensures Models(Ref(next), Obj(Plain(ApplySpec(r.env, c, fields))), F)
  {
    hide Models, ApplySpec, SafeSpec, QuietSpec, Stopped, Rooted, Keeps, Holds, Plain;
    next := new GoMap();
    next.m := content;
    var composer := new Composer(r);
    var clean, tops;
    ghost var key, done, x;
    clean, tops, key, done, x := composer.ApplyTemplateSpec(spec, next, {}, fields, c, map[], false);
    HoldsReads(next, ApplySpec(r.env, c, fields), r.known, tops);
    F := r.known + tops + {next};
  }

  /** The rendering goes on with the third template, now that the path leads to the altered map. */
  method RenderThird(content: map<string, Value>, item: GoMap, later: GoMap, ghost F: set<GoMap>)
    returns (third: GoMap, ghost G: set<GoMap>)
    requires content == map["k1" := Ref(item), "k2" := Ref(item)]
    requires Models(Ref(item), GROWN, F) && Models(Ref(later), Obj(R), F)
    ensures fresh(third) && F <= G && Models(Ref(third), Obj(Plain(ApplySpec(EnvOf(GROWN), BOTH, R))), G)
  {
    hide Models, ApplySpec, SafeSpec, QuietSpec, Holds, Plain, EnvOf;
    var r := NewRendering(item, GROWN, F);
    WholeHolds(content, item, F);
    OverwriteFolds(GROWN, BOTH);
    third, G := GoOn(r, content, later, R, BOTH);
  }

  lemma ThirdReads(third: GoMap, F: set<GoMap>)
    requires Models(Ref(third), Obj(Plain(ApplySpec(EnvOf(GROWN), BOTH, R))), F)
    ensures "k1" in third.m && Models(third.m["k1"], GROWN, F)
  {
    hide Models, ApplySpec;
    OverwriteFolds(GROWN, BOTH);
    OfFields(third, Plain(BOTH["k1" := Slot(GROWN, false)]), F);
  }

  /** An overwriting does not forget: the first key, overwritten by the path again, still shows the field that an
      earlier template has merged into the item's map. The semantics gives the map without it. */
  method ShowsThrough()
    returns (hs: seq<Held>, item: GoMap, later: GoMap, whole: GoMap, third: GoMap, ghost h: Heap,
             ghost tops: set<GoMap>, ghost stop: Stop, ghost G: set<GoMap>)
    ensures HeldIn(hs, List(P, Q), h) && ModelsIn(h, Ref(item), ITEM)
    ensures FirstAlteration(EnvOf(ITEM), List(P, Q), NAMES, whole, tops, h, stop)
    ensures stop.x.before.Keys <= G && Models(Ref(item), GROWN, G) && Models(Ref(later), Obj(R), G)
    ensures Models(Ref(third), Obj(Plain(ApplySpec(EnvOf(GROWN), BOTH, R))), G)
    ensures "k1" in third.m && Models(third.m["k1"], GROWN, G)
    ensures At(Combine(EnvOf(ITEM), [P, Q, R]), "k1") == Some(Slot(ITEM, false)) && ITEM != GROWN
  {
    hide Models, ModelsIn, HoldingAll, HeldIn, FirstAlteration, Combine, EnvOf, List, ApplySpec, Plain;
    var path;
    ghost var known;
    hs, item, path, later, known := Build();
    h := Snap(known);
    ModelsSnap(Ref(item), ITEM, known);
    HeldSnap(hs, List(P, Q), known);
    whole, tops, stop := RenderWhole(hs, item, known);
    ghost var F := stop.x.before.Keys;
    PathReads(path, F);
    OneField(later, "k1", Ref(path), PATH, F);
    third, G := RenderThird(whole.m, item, later, F);
    ModelsGrows(Ref(item), GROWN, F, G);
    ModelsGrows(Ref(later), Obj(R), F, G);
    ThirdReads(third, G);
    ThreeFold(EnvOf(ITEM));
    Differ();
  }
}
