/** A list of instructions whose second rendering differs from the first: the first alters one of its templates. */
module TemplateRewriting {
  import opened Collections
  import opened GoValues
  import opened TemplateSemantics
  import opened TemplateEngine
  import opened TemplateComposer
  import opened TemplateLibrary
  import opened TwoTemplates

  const INNER := Obj(map["y" := Number(1)])

  /** What the first template holds under its key: an empty object, and once it has been merged into. */
  const EMPTY := Obj(map[])
  const FILLED := Obj(map["value" := INNER])

  const OVERLAY := Obj(map["value" := FILLED])

  /** What the second rendering makes of it: the fields of the value besides the value. */
  const BOTH := Obj(map["y" := Number(1), "value" := INNER])

  /** Both templates render the key `a`. */
  function Instructions(first: Tree): seq<Instruction> {
    List(map["a" := first], map["a" := OVERLAY])
  }

  /** An environment in which no path resolves. */
  const ENV := Env(_ => true, _ => None, _ => NoAnswer)

  // ---- What the templates write ----

  lemma Rendered(env: Env, fields: map<string, Tree>)
    ensures RenderEntry(env, Obj(map["value" := Obj(fields)])) == Fields(RenderFields(env, fields, false))
  {
    hide RenderFields, RenderString, RenderNumber, RenderArray, RenderBool;
    var val := map["value" := Obj(fields)];
    assert |"type"| == 4 && |"value"| == 5 && "type" !in val;
    assert RenderMap(env, val) == RenderObject(env, val) == Fields(RenderFields(env, val["value"].fields, false));
  }

  lemma RenderedAsIs(env: Env, k: string, t: Tree)
    requires RenderEntry(env, t) == Store(t)
    ensures RenderFields(env, map[k := t], false) == map[k := t]
  {
    hide RenderEntry;
  }

  lemma WriteOfA(env: Env, t: Tree)
    ensures SpecWrite(env, map["a" := t], "a") == RenderEntry(env, t)
  {
    hide RenderEntry;
    Trimmed("a");
    WriteOf(env, map["a" := t], "a");
  }

  /** What each template writes to the key `a`. */
  lemma WritesOf(env: Env)
    ensures SpecWrite(env, map["a" := EMPTY], "a") == Store(EMPTY)
    ensures SpecWrite(env, map["a" := FILLED], "a") == Fields(INNER.fields)
    ensures SpecWrite(env, map["a" := OVERLAY], "a") == Fields(FILLED.fields)
  {
    WriteOfA(env, EMPTY);
    WriteOfA(env, FILLED);
    WriteOfA(env, OVERLAY);
    hide SpecWrite;
    assert RenderEntry(env, INNER) == Store(INNER) && RenderEntry(env, EMPTY) == Store(EMPTY);
    Rendered(env, INNER.fields);
    Rendered(env, FILLED.fields);
    hide RenderEntry;
    RenderedAsIs(env, "y", Number(1));
    RenderedAsIs(env, "value", INNER);
  }

  lemma PutOne(c: Combined, w: Written)
    requires c == map[]
    ensures w.Store? ==> PutAt(c, "a", w) == map["a" := Slot(w.value, false)]
    ensures w.Fields? ==> PutAt(c, "a", w) == map["a" := Slot(Obj(w.fields), true)]
  {}

  /** The first list is not quiet. */
  lemma FirstFolds(env: Env)
    ensures Combine(env, [map["a" := EMPTY]]) == map["a" := Slot(EMPTY, false)]
    ensures !Quiet(env, Selected(env, Instructions(EMPTY)))
  {
    hide SpecWrite, SafeSpec, QuietSpec, ApplySpec, Safe, Quiet, Combine, Selected;
    SelectedAre(env, map["a" := EMPTY], map["a" := OVERLAY]);
    Folded(env, map["a" := EMPTY], map["a" := OVERLAY]);
    WritesOf(env);
    ApplyOne(env, map[], "a", EMPTY);
    PutOne(map[], Store(EMPTY));
    ApplyOne(env, map["a" := Slot(EMPTY, false)], "a", OVERLAY);
    assert "value" in EMPTY.fields + FILLED.fields && "value" !in EMPTY.fields;
  }

  /** The list that it has become is safe, and renders to something else. */
  lemma SecondFolds(env: Env)
    ensures Adjust(env, Instructions(FILLED)) == map["a" := Slot(BOTH, true)]
    ensures Safe(env, Selected(env, Instructions(FILLED))) && Quiet(env, Selected(env, Instructions(FILLED)))
  {
    hide SpecWrite, SafeSpec, QuietSpec, ApplySpec, Safe, Quiet, Combine, Selected;
    SelectedAre(env, map["a" := FILLED], map["a" := OVERLAY]);
    Folded(env, map["a" := FILLED], map["a" := OVERLAY]);
    WritesOf(env);
    ApplyOne(env, map[], "a", FILLED);
    PutOne(map[], Fields(INNER.fields));
    ApplyOne(env, map["a" := Slot(INNER, true)], "a", OVERLAY);
    assert Obj(INNER.fields + FILLED.fields) == BOTH;
  }

  // ---- The two renderings in memory ----

  /** No object inside the tree is empty. */
  predicate NoEmpty(t: Tree) {
    match t
    case Obj(fs) => fs.Keys != {} && forall k <- fs :: NoEmpty(fs[k])
    case Arr(items) => forall i :: 0 <= i < |items| ==> NoEmpty(items[i])
    case _ => true
  }

  /** Filling an empty map leaves alone what reads as a tree without empty objects. */
  lemma {:induction false} FillingKeeps(h: Heap, g: Heap, o: GoMap, v: Value, t: Tree)
    requires ModelsIn(h, v, t) && NoEmpty(t) && o in h && h[o] == map[]
    requires forall x <- h :: x in g && (x != o ==> g[x] == h[x])
    ensures ModelsIn(g, v, t)
    decreases t
  {
    match (v, t)
    case (VArr(vs), Arr(ts)) =>
      forall i | 0 <= i < |ts|
        ensures ModelsIn(g, vs[i], ts[i])
      {
        FillingKeeps(h, g, o, vs[i], ts[i]);
      }
    case (Ref(x), Obj(fs)) =>
      assert h[x].Keys == fs.Keys && fs.Keys != {};
      forall k | k in fs
        ensures ModelsIn(g, g[x][k], fs[k])
      {
        FillingKeeps(h, g, o, g[x][k], fs[k]);
      }
    case _ =>
  }

  /** The second template's spec in memory. */
  method BuildOverlay() returns (overlay: GoMap, ghost made: set<GoMap>)
    ensures fresh(made) && overlay in made && (forall x <- made :: x.m.Keys != {})
    ensures Models(Ref(overlay), Obj(map["a" := OVERLAY]), made)
  {
    var inner := NewMap("y", VNumber(1));
    var filled := NewMap("value", Ref(inner));
    var outer := NewMap("value", Ref(filled));
    overlay := NewMap("a", Ref(outer));
    made := {inner, filled, outer, overlay};
    hide Models;
    LeafReads(1, "", made);
    OneField(inner, "y", VNumber(1), Number(1), made);
    OneField(filled, "value", Ref(inner), INNER, made);
    OneField(outer, "value", Ref(filled), FILLED, made);
    OneField(overlay, "a", Ref(outer), OVERLAY, made);
  }

  /** The instructions in memory, with one empty map among theirs. */
  method Build() returns (hs: seq<Held>, empty: GoMap, ghost known: set<GoMap>)
    ensures fresh(known) && empty in known && empty.m == map[]
    ensures forall x <- known :: x.m.Keys == {} ==> x == empty
    ensures |hs| == 3 && hs[1].spec in known && hs[1].spec.m == map["a" := Ref(empty)]
    ensures HoldingAll(hs, Instructions(EMPTY), known)
  {
    hide Models, HoldingAll;
    empty := new GoMap();
    var spec := NewMap("a", Ref(empty));
    var overlay;
    ghost var made;
    overlay, made := BuildOverlay();
    ghost var F := {spec, empty} + made;
    SpecModels(spec, empty, F);
    ModelsGrows(Ref(overlay), Obj(map["a" := OVERLAY]), made, F);
    hs, known := BuildList(spec, overlay, map["a" := EMPTY], map["a" := OVERLAY], F);
  }

  lemma SpecModels(spec: GoMap, empty: GoMap, F: set<GoMap>)
    requires spec in F && empty in F && spec.m == map["a" := Ref(empty)] && empty.m == map[]
    ensures Models(Ref(spec), Obj(map["a" := EMPTY]), F)
  {
    assert Models(Ref(empty), EMPTY, F);
    OneField(spec, "a", Ref(empty), EMPTY, F);
  }

  lemma NoEmptyField(key: string, t: Tree)
    requires NoEmpty(t)
    ensures NoEmpty(Obj(map[key := t]))
  {
    assert key in map[key := t].Keys;
  }

  lemma NoneEmpty()
    ensures forall n :: 0 <= n < 3 ==> NoEmpty(Obj(Instructions(EMPTY)[n].metadata))
    ensures NoEmpty(INNER) && NoEmpty(Obj(Instructions(EMPTY)[0].spec)) && NoEmpty(Obj(Instructions(EMPTY)[2].spec))
  {
    NoEmptyField("y", Number(1));
    NoEmptyField("value", INNER);
    NoEmptyField("value", FILLED);
    NoEmptyField("a", OVERLAY);
    NoEmptyField("templates", Arr([Text("p"), Text("q")]));
    NoEmptyField("template", Obj(map["templates" := Arr([Text("p"), Text("q")])]));
    NoEmptyField("name", Text("v"));
    NoEmptyField("name", Text("p"));
    NoEmptyField("name", Text("q"));
  }

  /** The merge has gone into the one empty map, and left every other map as it was. */
  lemma MergedHere(empty: GoMap, h: Heap, combined: GoMap, x: Trace)
    requires empty in h && h[empty] == map[] && forall o <- h :: h[o].Keys == {} ==> o == empty
    requires Altered(combined, "a", Some(Slot(EMPTY, false)), Fields(FILLED.fields), x)
    requires Rooted(h, combined.m, map["a" := Slot(EMPTY, false)], x.before)
    ensures "a" in combined.m && combined.m["a"] == Ref(empty) && empty in x.before
    ensures forall y <- h :: y in x.before && (y != empty ==> y.m == h[y])
    ensures Models(Ref(empty), FILLED, x.before.Keys)
  {
    hide Models, NoEmpty;
    var o, g := combined.m["a"].o, Snap(x.before.Keys);
    assert ModelsIn(h, Ref(o), EMPTY);
    assert h[o].Keys == EMPTY.fields.Keys == {};
    NoneEmpty();
    FillingKeeps(x.before, g, empty, x.sub["value"], INNER);
    assert g[empty] == x.sub;
    assert ModelsIn(g, Ref(empty), FILLED);
    ModelsSnap(Ref(empty), FILLED, x.before.Keys);
  }

  /** Afterwards the first template holds what was merged into it, and the rest reads as before. */
  lemma Filled(hs: seq<Held>, empty: GoMap, h: Heap, F: set<GoMap>)
    requires HeldIn(hs, Instructions(EMPTY), h) && empty in h && h[empty] == map[]
    requires |hs| == 3 && hs[1].spec in h && h[hs[1].spec] == map["a" := Ref(empty)]
    requires (forall y <- h :: y in F && (y != empty ==> y.m == h[y])) && Models(Ref(empty), FILLED, F)
    ensures HoldingAll(hs, Instructions(FILLED), F)
  {
    hide Models, NoEmpty, ModelsIn;
    var g := Snap(F);
    NoneEmpty();
    assert forall y <- h :: y in g && (y != empty ==> g[y] == h[y]);
    forall n | 0 <= n < 3
      ensures Models(Ref(hs[n].metadata), Obj(Instructions(EMPTY)[n].metadata), F)
      ensures n != 1 ==> Models(Ref(hs[n].spec), Obj(Instructions(EMPTY)[n].spec), F)
    {
      FillingKeeps(h, g, empty, Ref(hs[n].metadata), Obj(Instructions(EMPTY)[n].metadata));
      ModelsSnap(Ref(hs[n].metadata), Obj(Instructions(EMPTY)[n].metadata), F);
      if n != 1 {
        FillingKeeps(h, g, empty, Ref(hs[n].spec), Obj(Instructions(EMPTY)[n].spec));
        ModelsSnap(Ref(hs[n].spec), Obj(Instructions(EMPTY)[n].spec), F);
      }
    }
    assert "a" in h[hs[1].spec] && g[hs[1].spec] == h[hs[1].spec];
    OneField(hs[1].spec, "a", Ref(empty), FILLED, F);
  }

  method NewLib(ghost known: set<GoMap>) returns (lib: TemplateLib)
    ensures fresh(lib) && fresh(lib.r) && lib.r.env == ENV && lib.r.known == known && lib.r.Ready()
  {
    var r := new Rendering(ENV, _ => VNil, known);
    lib := new TemplateLib(r);
  }

  method RenderFirst(hs: seq<Held>, empty: GoMap, ghost known: set<GoMap>)
    returns (first: GoMap, ghost tops: set<GoMap>, ghost stop: Stop)
    requires empty in known && empty.m == map[] && forall x <- known :: x.m.Keys == {} ==> x == empty
    requires |hs| == 3 && hs[1].spec in known && hs[1].spec.m == map["a" := Ref(empty)]
    requires HoldingAll(hs, Instructions(EMPTY), known)
    modifies known
    ensures fresh(first) && fresh(tops)
    ensures FirstAlteration(ENV, Instructions(EMPTY), NAMES, first, tops, old(Snap(known)), stop)
    ensures "a" in first.m && Models(first.m["a"], FILLED, stop.x.before.Keys)
    ensures HoldingAll(hs, Instructions(FILLED), stop.x.before.Keys)
  {
    hide Models, FirstAlteration, Safe, Quiet, Selected, SelectedNames, Combine, HoldingAll, Altered, Rooted;
    ghost var h := Snap(known);
    var clean;
    var lib := NewLib(known);
    NamesSelected(ENV, map["a" := EMPTY], map["a" := OVERLAY]);
    FirstFolds(ENV);
    WritesOf(ENV);
    HeldSnap(hs, Instructions(EMPTY), known);
    first, clean, tops, stop := lib.AdjustTemplate(hs, Instructions(EMPTY));
    StopsAtSecond(ENV, map["a" := EMPTY], "a", OVERLAY, first, tops, h, stop);
    MergedHere(empty, h, first, stop.x);
    Filled(hs, empty, h, stop.x.before.Keys);
  }

  method RenderSecond(hs: seq<Held>, ghost F: set<GoMap>) returns (second: GoMap, ghost G: set<GoMap>)
    requires HoldingAll(hs, Instructions(FILLED), F)
    ensures F <= G && fresh(G - F) && Models(Ref(second), Obj(Plain(Adjust(ENV, Instructions(FILLED)))), G)
    ensures HoldingAll(hs, Instructions(FILLED), G)
  {
    hide Models, FirstAlteration, Safe, Quiet, Selected, SelectedNames, Combine, HoldingAll;
    var lib := NewLib(F);
    SecondFolds(ENV);
    var clean;
    ghost var tops, stop;
    second, clean, tops, stop := lib.AdjustTemplate(hs, Instructions(FILLED));
    G := lib.r.known;
  }

  lemma PlainOne(slot: Slot)
    ensures Plain(map["a" := slot]) == map["a" := slot.value]
  {}

  lemma BothDiffer()
    ensures Plain(Adjust(ENV, Instructions(FILLED))) == map["a" := BOTH] && BOTH != FILLED
  {
    hide Adjust, Instructions;
    SecondFolds(ENV);
    PlainOne(Slot(BOTH, true));
    assert "y" in BOTH.fields && "y" !in FILLED.fields;
  }

  /** Rendering the same instructions twice. In the heap `h` they read as given; the first rendering alters the
      first template, and its answer holds the object that the second template gives. Now the instructions read as
      those whose first template holds that object, and the second answer is what these render to: it has the fields
      of the object's value too. */
  method RenderTwice()
    returns (hs: seq<Held>, first: GoMap, second: GoMap, ghost h: Heap, ghost tops: set<GoMap>, ghost stop: Stop,
             ghost F: set<GoMap>)
    ensures HeldIn(hs, Instructions(EMPTY), h)
    ensures FirstAlteration(ENV, Instructions(EMPTY), NAMES, first, tops, h, stop)
    ensures stop.x.before.Keys <= F && HoldingAll(hs, Instructions(FILLED), F)
    ensures "a" in first.m && Models(first.m["a"], FILLED, F)
    ensures Models(Ref(second), Obj(Plain(Adjust(ENV, Instructions(FILLED)))), F)
    ensures Plain(Adjust(ENV, Instructions(FILLED))) == map["a" := BOTH] && BOTH != FILLED
  {
    hide Models, HoldingAll, FirstAlteration, Adjust, HeldIn, Plain;
    var empty;
    ghost var known;
    hs, empty, known := Build();
    h := Snap(known);
    HeldSnap(hs, Instructions(EMPTY), known);
    first, tops, stop := RenderFirst(hs, empty, known);
    second, F := RenderSecond(hs, stop.x.before.Keys);
    ModelsGrows(first.m["a"], FILLED, stop.x.before.Keys, F);
    BothDiffer();
  }
}
