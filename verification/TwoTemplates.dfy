/** Lists of instructions made of one View and the two templates it lists. */
module TwoTemplates {
  import opened Collections
  import opened GoValues
  import opened TemplateSemantics
  import opened TemplateEngine
  import opened TemplateComposer
  import opened TemplateLibrary

  const VIEW := map["template" := Obj(map["templates" := Arr([Text("p"), Text("q")])])]

  const NAMES := {"p", "q"}

  /** A View that lists two templates, with what these hold. */
  function List(p: map<string, Tree>, q: map<string, Tree>): seq<Instruction> {
    [Instruction("View", map["name" := Text("v")], VIEW, ""),
     Instruction("Template", map["name" := Text("p")], p, ""),
     Instruction("Template", map["name" := Text("q")], q, "")]
  }

  // ---- What is selected ----

  lemma Trimmed(s: string)
    requires s != "" && !IsSpace(s[0]) && !IsSpace(s[|s| - 1])
    ensures Trim(s) == s
  {}

  lemma Kinds()
    ensures Trim("View") == "View" && Trim("Template") == "Template"
  {
    Trimmed("View");
    Trimmed("Template");
  }

  lemma Listed(env: Env)
    ensures ViewNames(env, Instruction("View", map["name" := Text("v")], VIEW, "")) == NAMES
  {
    Kinds();
    var items := [Text("p"), Text("q")];
    assert items[..1] == [Text("p")] && items[..1][..0] == [];
    assert TextsOf([]) == {} && TextsOf(items[..1]) == {"p"} && TextsOf(items) == NAMES;
  }

  lemma NotAView(env: Env, i: Instruction)
    requires i.kind == "Template"
    ensures ViewNames(env, i) == {}
  {
    Kinds();
  }

  lemma NamesSelected(env: Env, p: map<string, Tree>, q: map<string, Tree>)
    ensures SelectedNames(env, List(p, q)) == NAMES
  {
    hide ViewNames;
    var l := List(p, q);
    Listed(env);
    NotAView(env, l[1]);
    NotAView(env, l[2]);
    assert l[..2][..1] == l[..1] && l[..1][..0] == [];
    assert SelectedNames(env, l[..1]) == NAMES && SelectedNames(env, l[..2]) == NAMES;
  }

  lemma WhichSelected(p: map<string, Tree>, q: map<string, Tree>, n: nat)
    requires n < 3
    ensures IsSelected(List(p, q)[n], NAMES) <==> n > 0
  {
    Kinds();
  }

  lemma SpecsSelected(p: map<string, Tree>, q: map<string, Tree>)
    ensures SelectedSpecs(List(p, q)[..1], NAMES) == []
    ensures SelectedSpecs(List(p, q)[..2], NAMES) == [p]
    ensures SelectedSpecs(List(p, q), NAMES) == [p, q]
  {
    hide IsSelected;
    var l := List(p, q);
    assert l[..0] == [] && l[..3] == l;
    WhichSelected(p, q, 0);
    WhichSelected(p, q, 1);
    WhichSelected(p, q, 2);
    SelectedSnoc(l, NAMES, 0);
    SelectedSnoc(l, NAMES, 1);
    SelectedSnoc(l, NAMES, 2);
  }

  lemma SelectedAre(env: Env, p: map<string, Tree>, q: map<string, Tree>)
    ensures Selected(env, List(p, q)) == [p, q]
  {
    hide SelectedNames, SelectedSpecs;
    NamesSelected(env, p, q);
    SpecsSelected(p, q);
  }

  lemma Folded(env: Env, p: map<string, Tree>, q: map<string, Tree>)
    ensures Combine(env, []) == map[] && Combine(env, [p]) == ApplySpec(env, map[], p)
    ensures Combine(env, [p, q]) == ApplySpec(env, Combine(env, [p]), q)
    ensures Safe(env, [p]) && (Safe(env, [p, q]) <==> SafeSpec(env, Combine(env, [p]), q))
    ensures Quiet(env, [p]) && (Quiet(env, [p, q]) <==> QuietSpec(env, Combine(env, [p]), q))
  {
    hide ApplySpec, SpecWrite;
    assert [] + [p] == [p] && [p] + [q] == [p, q];
    CombineSnoc(env, [], p);
    CombineSnoc(env, [p], q);
  }

  /** Writing the one key of a template. */
  lemma ApplyOne(env: Env, c: Combined, key: string, t: Tree)
    ensures SafeSpec(env, c, map[key := t]) <==> SafePut(At(c, key), SpecWrite(env, map[key := t], key))
    ensures QuietSpec(env, c, map[key := t]) <==> QuietPut(At(c, key), SpecWrite(env, map[key := t], key))
    ensures ApplySpec(env, c, map[key := t]) == PutAt(c, key, SpecWrite(env, map[key := t], key))
  {
    hide SpecWrite, Put, SafePut, QuietPut;
    var d, w := ApplySpec(env, c, map[key := t]), SpecWrite(env, map[key := t], key);
    forall k
      ensures At(d, k) == At(PutAt(c, key, w), k)
    {
      AtApplySpec(env, c, map[key := t], k);
      AtPutAt(c, key, w, k);
      NotThere(env, map[key := t], k);
    }
    SameAt(d, PutAt(c, key, w));
  }

  lemma NotThere(env: Env, spec: map<string, Tree>, k: string)
    ensures k !in spec ==> SpecWrite(env, spec, k) == Nothing && forall slot :: Put(slot, Nothing) == slot
  {}

  lemma WriteOf(env: Env, spec: map<string, Tree>, key: string)
    requires key in spec && !IsIf(key)
    ensures SpecWrite(env, spec, key) == RenderEntry(env, spec[key])
  {
    hide RenderEntry;
  }

  /** When the second template has one key a rendering can stop there only; the maps of `h` are as they were. */
  lemma StopsAtSecond(env: Env, p: map<string, Tree>, key: string, t: Tree, combined: GoMap, tops: set<GoMap>,
                      h: Heap, stop: Stop)
    requires FirstAlteration(env, List(p, map[key := t]), NAMES, combined, tops, h, stop)
    ensures stop.at == 2 && stop.key == key && stop.done == {}
    ensures Altered(combined, key, At(Combine(env, [p]), key), SpecWrite(env, map[key := t], key), stop.x)
    ensures Rooted(h, combined.m, Combine(env, [p]), stop.x.before)
  {
    hide SelectedSpecs, IsSelected, SpecWrite, Safe, Quiet, Combine, Altered, Rooted, Holds, Keeps, ApplySpec;
    var q := map[key := t];
    WhichSelected(p, q, stop.at);
    SpecsSelected(p, q);
    Folded(env, p, q);
    if stop.at == 1 {
      AlteredSlot(combined, stop.key, At(map[], stop.key), SpecWrite(env, p, stop.key), stop.x);
      assert false;
    }
    PartlyAll(env, Combine(env, [p]), q);
  }

  lemma AlteredSlot(combined: GoMap, k: string, slot: Option<Slot>, w: Written, x: Trace)
    requires Altered(combined, k, slot, w, x)
    ensures w.Fields? && slot.Some? && slot.value.value.Obj? && !slot.value.made
  {}

  // ---- The instructions in memory ----

  method NewMap(key: string, v: Value) returns (o: GoMap)
    ensures fresh(o) && o.m == map[key := v] && o.m.Keys == {key}
  {
    o := new GoMap();
    o.m := map[key := v];
  }

  /** A map of one field reads as the object of that field. */
  lemma OneField(o: GoMap, key: string, v: Value, t: Tree, F: set<GoMap>)
    requires o in F && o.m == map[key := v] && Models(v, t, F)
    ensures Models(Ref(o), Obj(map[key := t]), F)
  {}

  lemma LeafReads(n: int, s: string, F: set<GoMap>)
    ensures Models(VNumber(n), Number(n), F) && Models(VText(s), Text(s), F)
  {}

  /** The View's spec in memory. */
  method BuildView() returns (view: GoMap, ghost made: set<GoMap>)
    ensures fresh(made) && view in made && Models(Ref(view), Obj(VIEW), made)
    ensures forall x <- made :: x.m.Keys == {"templates"} || x.m.Keys == {"template"}
  {
    var templates := NewMap("templates", VArr([VText("p"), VText("q")]));
    view := NewMap("template", Ref(templates));
    made := {templates, view};
    var names, texts := [VText("p"), VText("q")], [Text("p"), Text("q")];
    assert Models(names[0], texts[0], made) && Models(names[1], texts[1], made);
    OneField(templates, "templates", VArr(names), Arr(texts), made);
    OneField(view, "template", Ref(templates), Obj(map["templates" := Arr(texts)]), made);
  }

  /** An instruction in memory whose spec, in the maps `made`, reads as `fields`. */
  method BuildHeld(kind: string, name: string, spec: GoMap, ghost fields: map<string, Tree>, ghost made: set<GoMap>)
    returns (held: Held, ghost made': set<GoMap>)
    requires Models(Ref(spec), Obj(fields), made)
    ensures made' == made + {held.metadata} && fresh(held.metadata) && held.metadata.m.Keys == {"name"}
    ensures held.spec == spec && Holding(held, Instruction(kind, map["name" := Text(name)], fields, ""), made')
  {
    var metadata := NewMap("name", VText(name));
    made' := made + {metadata};
    held := Held(kind, metadata, spec, "");
    OneField(metadata, "name", VText(name), Text(name), made');
    hide Models;
    ModelsGrows(Ref(spec), Obj(fields), made, made');
  }

  lemma HoldingGrows(held: Held, i: Instruction, F: set<GoMap>, G: set<GoMap>)
    requires Holding(held, i, F) && F <= G
    ensures Holding(held, i, G)
  {
    ModelsGrows(Ref(held.metadata), Obj(i.metadata), F, G);
    ModelsGrows(Ref(held.spec), Obj(i.spec), F, G);
  }

  /** The View in memory. */
  method BuildFirst() returns (v: Held, ghost made: set<GoMap>)
    ensures fresh(made) && Holding(v, Instruction("View", map["name" := Text("v")], VIEW, ""), made)
    ensures forall x <- made :: x.m.Keys == {"templates"} || x.m.Keys == {"template"} || x.m.Keys == {"name"}
  {
    var view;
    view, made := BuildView();
    v, made := BuildHeld("View", "v", view, VIEW, made);
  }

  lemma HoldThree(v: Held, h1: Held, h2: Held, p: map<string, Tree>, q: map<string, Tree>,
                  made0: set<GoMap>, made1: set<GoMap>, made2: set<GoMap>)
    requires Holding(v, List(p, q)[0], made0) && Holding(h1, List(p, q)[1], made1) && Holding(h2, List(p, q)[2], made2)
    ensures HoldingAll([v, h1, h2], List(p, q), made0 + made1 + made2)
  {
    hide Holding;
    HoldingGrows(v, List(p, q)[0], made0, made0 + made1 + made2);
    HoldingGrows(h1, List(p, q)[1], made1, made0 + made1 + made2);
    HoldingGrows(h2, List(p, q)[2], made2, made0 + made1 + made2);
  }

  /** The whole list in memory, from what the templates hold. */
  method BuildList(spec1: GoMap, spec2: GoMap, ghost p: map<string, Tree>, ghost q: map<string, Tree>,
                   ghost F: set<GoMap>)
    returns (hs: seq<Held>, ghost known: set<GoMap>)
    requires Models(Ref(spec1), Obj(p), F) && Models(Ref(spec2), Obj(q), F)
    ensures F <= known && fresh(known - F) && |hs| == 3 && hs[1].spec == spec1 && HoldingAll(hs, List(p, q), known)
    ensures forall x <- known - F :: x.m.Keys == {"templates"} || x.m.Keys == {"template"} || x.m.Keys == {"name"}
  {
    hide Models, Holding, HoldingAll;
    var v, h1, h2;
    ghost var made0, made1, made2;
    v, made0 := BuildFirst();
    h1, made1 := BuildHeld("Template", "p", spec1, p, F);
    h2, made2 := BuildHeld("Template", "q", spec2, q, F);
    known := made0 + made1 + made2;
    hs := [v, h1, h2];
    HoldThree(v, h1, h2, p, q, made0, made1, made2);
  }
}
