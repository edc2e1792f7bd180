/** Rendering a list of instructions for one item: the templates that the applicable Views list, folded in order. */
module TemplateLibrary {
  import opened Collections
  import opened GoValues
  import opened TemplateSemantics
  import opened TemplateEngine
  import opened TemplateComposer

  /** An instruction in memory. */
  datatype Held = Held(kind: string, metadata: GoMap, spec: GoMap, cond: string)

  ghost predicate Holding(h: Held, i: Instruction, F: set<GoMap>)
    reads F
  {
    && h.kind == i.kind && h.cond == i.cond
    && Models(Ref(h.metadata), Obj(i.metadata), F)
    && Models(Ref(h.spec), Obj(i.spec), F)
  }

  ghost predicate HoldingAll(hs: seq<Held>, instructions: seq<Instruction>, F: set<GoMap>)
    reads F
  {
    |hs| == |instructions| && forall i :: 0 <= i < |hs| ==> Holding(hs[i], instructions[i], F)
  }

  /** The same in the heap `h`. */
  ghost predicate HeldIn(hs: seq<Held>, instructions: seq<Instruction>, h: Heap) {
    && |hs| == |instructions|
    && (forall i :: 0 <= i < |hs| ==> hs[i].kind == instructions[i].kind && hs[i].cond == instructions[i].cond)
    && (forall i :: 0 <= i < |hs| ==> ModelsIn(h, Ref(hs[i].metadata), Obj(instructions[i].metadata)))
    && (forall i :: 0 <= i < |hs| ==> ModelsIn(h, Ref(hs[i].spec), Obj(instructions[i].spec)))
  }

  lemma HeldSnap(hs: seq<Held>, instructions: seq<Instruction>, F: set<GoMap>)
    ensures HoldingAll(hs, instructions, F) <==> HeldIn(hs, instructions, Snap(F))
  {
    hide Models, ModelsIn;
    if |hs| == |instructions| {
      forall i | 0 <= i < |hs|
        ensures Models(Ref(hs[i].metadata), Obj(instructions[i].metadata), F) <==>
                ModelsIn(Snap(F), Ref(hs[i].metadata), Obj(instructions[i].metadata))
        ensures Models(Ref(hs[i].spec), Obj(instructions[i].spec), F) <==>
                ModelsIn(Snap(F), Ref(hs[i].spec), Obj(instructions[i].spec))
      {
        ModelsSnap(Ref(hs[i].metadata), Obj(instructions[i].metadata), F);
        ModelsSnap(Ref(hs[i].spec), Obj(instructions[i].spec), F);
      }
      if HoldingAll(hs, instructions, F) {
        forall i | 0 <= i < |hs|
          ensures Holding(hs[i], instructions[i], F)
        {}
      }
      if HeldIn(hs, instructions, Snap(F)) {
        forall i | 0 <= i < |hs|
          ensures Holding(hs[i], instructions[i], F)
        {}
      }
    }
  }

  /** While everything reads as before the instructions do. */
  lemma HeldKeeps(hs: seq<Held>, instructions: seq<Instruction>, h: Heap, F: set<GoMap>)
    requires HeldIn(hs, instructions, h) && Keeps(h, Snap(F))
    ensures HoldingAll(hs, instructions, F)
  {
    hide ModelsIn, Keeps, Models;
    forall i | 0 <= i < |hs|
      ensures ModelsIn(Snap(F), Ref(hs[i].metadata), Obj(instructions[i].metadata))
      ensures ModelsIn(Snap(F), Ref(hs[i].spec), Obj(instructions[i].spec))
    {
      KeepsValue(h, Snap(F), Ref(hs[i].metadata), Obj(instructions[i].metadata));
      KeepsValue(h, Snap(F), Ref(hs[i].spec), Obj(instructions[i].spec));
    }
    HeldSnap(hs, instructions, F);
  }

  /** Where a rendering has stopped: the instruction, the key of its template, the keys written before it, and what
      was merged. */
  datatype Stop = Stop(at: nat, key: string, done: set<string>, x: Trace)

  /** The first alteration of a foreign map: everything selected before the instruction is quiet, and so are the keys
      written before this one. If none of them has merged a field into a foreign map at all, the maps of `h` are as
      they were, and the result shares them. */
  ghost predicate FirstAlteration(env: Env, instructions: seq<Instruction>, names: set<string>, combined: GoMap,
                                  tops: set<GoMap>, h: Heap, stop: Stop)
    reads combined, tops, stop.x.before.Keys
  {
    && stop.at < |instructions| && IsSelected(instructions[stop.at], names)
    && var before, spec := SelectedSpecs(instructions[..stop.at], names), instructions[stop.at].spec;
    && Quiet(env, before)
    && Stopped(env, combined, Combine(env, before), spec, tops, h, stop.key, stop.done, stop.x)
    && (Safe(env, before) && SafeKeys(env, Combine(env, before), spec, stop.done) ==>
          Rooted(h, combined.m, Partly(env, Combine(env, before), spec, stop.done), stop.x.before))
  }

  /** The result as the tree that is marshalled. */
  function Plain(c: Combined): map<string, Tree> {
    map k | k in c :: c[k].value
  }

  lemma HoldsReads(combined: GoMap, c: Combined, F: set<GoMap>, tops: set<GoMap>)
    requires Holds(Snap(F), combined.m, c, tops)
    ensures Models(Ref(combined), Obj(Plain(c)), F + tops + {combined})
  {
    var G := F + tops + {combined};
    forall k | k in c
      ensures Models(combined.m[k], c[k].value, G)
    {
      SlotReads(combined.m[k], c[k], F, tops, G);
    }
  }

  lemma SlotReads(v: Value, slot: Slot, F: set<GoMap>, tops: set<GoMap>, G: set<GoMap>)
    requires SlotHolds(Snap(F), v, slot, tops) && F + tops <= G
    ensures Models(v, slot.value, G)
  {
    if slot.made {
      ModelsMapSnap(v.o.m, slot.value.fields, F);
      ModelsMapGrows(v.o.m, slot.value.fields, F, G);
    } else {
      ModelsSnap(v, slot.value, F);
      ModelsGrows(v, slot.value, F, G);
    }
  }

  lemma KeepsGrows(F: set<GoMap>, G: set<GoMap>)
    requires F <= G
    ensures Keeps(Snap(F), Snap(G))
  {
    forall o, t | o in F && ModelsIn(Snap(F), Ref(o), t)
      ensures ModelsIn(Snap(G), Ref(o), t)
    {
      ModelsInGrows(Snap(F), Snap(G), Ref(o), t);
    }
  }

  class TemplateLib {
    const r: Rendering

    constructor (r: Rendering)
      ensures this.r == r
    {
      this.r := r;
    }

    /** The names listed by the Views that apply. */
    method FindApplicableTemplate(hs: seq<Held>, ghost instructions: seq<Instruction>)
      returns (templateSet: set<string>)
      requires HoldingAll(hs, instructions, r.known)
      ensures templateSet == SelectedNames(r.env, instructions)
    {
      hide ViewNames, Trim;
      templateSet := {};
      for n := 0 to |hs|
        invariant templateSet == SelectedNames(r.env, instructions[..n])
      {
        assert instructions[..n + 1][..n] == instructions[..n];
        var names := NamesOfView(hs[n], instructions[n]);
        templateSet := templateSet + names;
      }
      assert instructions[..|hs|] == instructions;
    }

    method NamesOfView(h: Held, ghost i: Instruction) returns (names: set<string>)
      requires Holding(h, i, r.known)
      ensures names == ViewNames(r.env, i)
    {
      names := {};
      if Trim(h.kind) != "View" {
        return;
      }
      if h.cond != "" {
        var holds := r.env.holds(h.cond);
        if !holds {
          return;
        }
      }
      if "template" in h.spec.m {
        var templateValue := h.spec.m["template"];
        assert Models(templateValue, i.spec["template"], r.known);
        if templateValue.Ref? && "templates" in templateValue.o.m {
          var templatesValue := templateValue.o.m["templates"];
          assert Models(templatesValue, i.spec["template"].fields["templates"], r.known);
          if templatesValue.VArr? {
            names := CollectNames(templatesValue.items, i.spec["template"].fields["templates"].items);
          }
        }
      }
    }

    method CollectNames(items: seq<Value>, ghost ts: seq<Tree>) returns (names: set<string>)
      requires Models(VArr(items), Arr(ts), r.known)
      ensures names == TextsOf(ts)
    {
      names := {};
      for n := 0 to |items|
        invariant names == TextsOf(ts[..n])
      {
        assert ts[..n + 1][..n] == ts[..n];
        assert Models(items[n], ts[n], r.known);
        if items[n].VText? {
          names := names + {items[n].s};
        }
      }
      assert ts[..|items|] == ts;
    }

    /** Folds the selected templates, in order, into a new map. It is clean exactly when no template adds or alters a
        field of an object that an earlier one stored by reference: then everything reads as before, and the result is
        the fold of the semantics. When no template merges a field into such an object at all, no map that was there
        is written. */
    method CombineTemplates(hs: seq<Held>, templateSet: set<string>, ghost instructions: seq<Instruction>)
      returns (combined: GoMap, clean: bool, ghost tops: set<GoMap>, ghost stop: Stop)
      requires r.Ready() && HoldingAll(hs, instructions, r.known)
      modifies r`known, if Safe(r.env, SelectedSpecs(instructions, templateSet)) then {} else r.known
      ensures fresh(combined) && fresh(tops) && old(r.known) <= r.known && fresh(r.known - old(r.known))
      ensures clean == Quiet(r.env, SelectedSpecs(instructions, templateSet))
      ensures clean ==> r.Ready() && Keeps(old(Snap(r.known)), Snap(r.known)) && HoldingAll(hs, instructions, r.known)
      ensures clean ==> tops !! r.known && combined !in r.known + tops
      ensures clean ==> Holds(Snap(r.known), combined.m, Combine(r.env, SelectedSpecs(instructions, templateSet)), tops)
      ensures !clean ==> FirstAlteration(r.env, instructions, templateSet, combined, tops, old(Snap(r.known)), stop)
    {
      hide Composer.InMemory, Trim, NameOf, ApplySpec, SafeSpec, QuietSpec, SelectedSpecs, Combine, Safe, Quiet,
        Stopped, IsSelected, Models, Keeps, Holds, Holding, HeldIn, FirstAlteration, Rooted, SafeKeys, Partly,
        Composer.Read, ModelsIn;
      combined := new GoMap();
      clean, tops, stop := true, {}, Stop(0, "", {}, NO_TRACE);
      var mine: set<GoMap> := {};
      var composer := new Composer(r);
      NothingSelected(composer, instructions, templateSet, combined);
      ghost var h := Snap(r.known);
      KeepsSame(h);
      r.ReadyIn();
      HeldSnap(hs, instructions, r.known);
      for n := 0 to |hs|
        invariant fresh(combined) && fresh(mine) && old(r.known) <= r.known && fresh(r.known - old(r.known)) && clean
        invariant r.Ready() && Keeps(h, Snap(r.known))
        invariant Quiet(r.env, SelectedSpecs(instructions[..n], templateSet)) && composer.r == r
        invariant composer.InMemory(combined, Combine(r.env, SelectedSpecs(instructions[..n], templateSet)), mine)
        invariant Safe(r.env, SelectedSpecs(instructions[..n], templateSet)) ==>
                    Rooted(h, combined.m, Combine(r.env, SelectedSpecs(instructions[..n], templateSet)), Snap(r.known))
      {
        HeldKeeps(hs, instructions, h, r.known);
        OneHeld(hs, instructions, r.known, n);
        OneRead(composer, hs, instructions, h, n);
        SelectedNext(r.env, instructions, templateSet, n);
        ghost var c, now := Combine(r.env, SelectedSpecs(instructions[..n], templateSet)), Snap(r.known);
        ghost var key, done, x := "", {}, NO_TRACE;
        clean, mine, key, done, x :=
          ApplyInstruction(composer, hs[n], templateSet, combined, mine, instructions[n], c, h,
                           Safe(r.env, SelectedSpecs(instructions[..n], templateSet)));
        if !clean {
          tops, stop := mine, Stop(n, key, done, x);
          StoppedSince(r.env, instructions, templateSet, combined, tops, h, now, stop);
          return;
        }
        KeepsTransitive(h, now, Snap(r.known));
      }
      tops := mine;
      assert instructions[..|hs|] == instructions;
      HeldKeeps(hs, instructions, h, r.known);
      composer.Parts(combined, Combine(r.env, SelectedSpecs(instructions, templateSet)), tops);
    }

    /** One instruction: its template is applied if it is selected. */
    method ApplyInstruction(composer: Composer, held: Held, templateSet: set<string>, combined: GoMap, tops: set<GoMap>,
                            ghost i: Instruction, ghost c: Combined, ghost root: Heap, ghost rooted: bool)
      returns (clean: bool, tops': set<GoMap>, ghost key: string, ghost done: set<string>, ghost x: Trace)
      requires composer.r == r && r.Ready() && Holding(held, i, r.known) && composer.InMemory(combined, c, tops)
      requires rooted ==> Rooted(root, combined.m, c, Snap(r.known)) && composer.Read(root, held.spec, i.spec)
      modifies r`known, combined, tops
      modifies if IsSelected(i, templateSet) && !SafeSpec(r.env, c, i.spec) then r.known else {}
      ensures tops <= tops' && fresh(tops' - tops) && old(r.known) <= r.known && fresh(r.known - old(r.known))
      ensures clean <==> (IsSelected(i, templateSet) ==> QuietSpec(r.env, c, i.spec))
      ensures clean ==> r.Ready() && Keeps(old(Snap(r.known)), Snap(r.known))
      ensures clean ==>
                composer.InMemory(combined, if IsSelected(i, templateSet) then ApplySpec(r.env, c, i.spec) else c,
                                  tops')
      ensures !clean ==> Stopped(r.env, combined, c, i.spec, tops', old(Snap(r.known)), key, done, x)
      ensures clean && rooted && (IsSelected(i, templateSet) ==> SafeSpec(r.env, c, i.spec)) ==>
                Rooted(root, combined.m, if IsSelected(i, templateSet) then ApplySpec(r.env, c, i.spec) else c,
                       Snap(r.known))
      ensures !clean && rooted && SafeKeys(r.env, c, i.spec, done) ==>
                Rooted(root, combined.m, Partly(r.env, c, i.spec, done), x.before)
    {
      hide Composer.InMemory, Composer.Read, Trim, NameOf, ApplySpec, SafeSpec, QuietSpec, Stopped, Keeps, SafeKeys,
        Partly, Rooted;
      clean, tops', key, done, x := true, tops, "", {}, NO_TRACE;
      KeepsSame(Snap(r.known));
      if Trim(held.kind) != "Template" {
        return;
      }
      var metaName := MetaName(held, i);
      if metaName in templateSet {
        clean, tops', key, done, x :=
          composer.ApplyTemplateSpec(held.spec, combined, tops, i.spec, c, root, rooted);
      }
    }

    method MetaName(h: Held, ghost i: Instruction) returns (name: string)
      requires Holding(h, i, r.known)
      ensures name == NameOf(i)
    {
      name := "";
      if "name" in h.metadata.m {
        var raw := h.metadata.m["name"];
        assert Models(raw, i.metadata["name"], r.known);
        if raw.VText? {
          name := raw.s;
        }
      }
    }

    /** Renders the instructions for the item. It is clean exactly when no template adds or alters a field of an
        object that an earlier one stored by reference. Then the result, which counts among the known maps from then
        on, reads as the semantics says, and the instructions, the item and the answers read as before. */
    method AdjustTemplate(hs: seq<Held>, ghost instructions: seq<Instruction>)
      returns (combined: GoMap, clean: bool, ghost tops: set<GoMap>, ghost stop: Stop)
      requires r.Ready() && HoldingAll(hs, instructions, r.known)
      modifies r`known, if Safe(r.env, Selected(r.env, instructions)) then {} else r.known
      ensures fresh(combined) && fresh(tops) && old(r.known) <= r.known && fresh(r.known - old(r.known))
      ensures clean == Quiet(r.env, Selected(r.env, instructions))
      ensures clean ==> combined in r.known && Models(Ref(combined), Obj(Plain(Adjust(r.env, instructions))), r.known)
      ensures clean ==> r.Ready() && Keeps(old(Snap(r.known)), Snap(r.known)) && HoldingAll(hs, instructions, r.known)
      ensures !clean ==> FirstAlteration(r.env, instructions, SelectedNames(r.env, instructions), combined, tops,
                                         old(Snap(r.known)), stop)
    {
      hide SelectedSpecs, SelectedNames, Safe, Quiet, Combine, FirstAlteration, Keeps, Models, Holds;
      ghost var h := Snap(r.known);
      r.ReadyIn();
      HeldSnap(hs, instructions, r.known);
      var templateSet := FindApplicableTemplate(hs, instructions);
      combined, clean, tops, stop := CombineTemplates(hs, templateSet, instructions);
      if clean {
        HoldsReads(combined, Adjust(r.env, instructions), r.known, tops);
        ghost var F := r.known;
        ghost var G := F + tops + {combined};
        KeepsGrows(F, G);
        KeepsTransitive(h, Snap(F), Snap(G));
        r.Enlarge(G, h);
        HeldKeeps(hs, instructions, h, r.known);
      }
    }

    /** Renders two lists of instructions, one after the other: when both are clean each result reads as the
        semantics says, also after the other rendering. */
    method AdjustBoth(hs: seq<Held>, gs: seq<Held>, ghost a: seq<Instruction>, ghost b: seq<Instruction>)
      returns (first: GoMap, second: GoMap, clean: bool)
      requires r.Ready() && HoldingAll(hs, a, r.known) && HoldingAll(gs, b, r.known)
      modifies r`known, if Safe(r.env, Selected(r.env, a)) && Safe(r.env, Selected(r.env, b)) then {} else r.known
      ensures clean <==> Quiet(r.env, Selected(r.env, a)) && Quiet(r.env, Selected(r.env, b))
      ensures clean ==> fresh(first) && fresh(second) && first != second && old(r.known) <= r.known
      ensures clean ==> Models(Ref(first), Obj(Plain(Adjust(r.env, a))), r.known)
      ensures clean ==> Models(Ref(second), Obj(Plain(Adjust(r.env, b))), r.known)
    {
      hide Selected, SelectedSpecs, SelectedNames, Safe, Quiet, Combine, Adjust, FirstAlteration, Models, Keeps,
        HoldingAll;
      ghost var tops, stop;
      ghost var h := Snap(r.known);
      HeldSnap(gs, b, r.known);
      first, clean, tops, stop := AdjustTemplate(hs, a);
      second := first;
      if clean {
        HeldKeeps(gs, b, h, r.known);
        ghost var now := Snap(r.known);
        ModelsSnap(Ref(first), Obj(Plain(Adjust(r.env, a))), r.known);
        second, clean, tops, stop := AdjustTemplate(gs, b);
        if clean {
          KeepsModels(now, Ref(first), Obj(Plain(Adjust(r.env, a))), r.known);
        }
      }
    }

    /** Rendering twice: when the first rendering is clean so is the second, and both results read as the same
        tree. */
    method AdjustTwice(hs: seq<Held>, ghost instructions: seq<Instruction>)
      returns (first: GoMap, second: GoMap, clean: bool)
      requires r.Ready() && HoldingAll(hs, instructions, r.known)
      modifies r`known, if Safe(r.env, Selected(r.env, instructions)) then {} else r.known
      ensures clean == Quiet(r.env, Selected(r.env, instructions))
      ensures clean ==> fresh(first) && fresh(second) && first != second
      ensures clean ==> Models(Ref(first), Obj(Plain(Adjust(r.env, instructions))), r.known)
      ensures clean ==> Models(Ref(second), Obj(Plain(Adjust(r.env, instructions))), r.known)
    {
      first, second, clean := AdjustBoth(hs, hs, instructions, instructions);
    }
  }

  /** Whether the template is among those selected. */
  predicate IsSelected(i: Instruction, names: set<string>) {
    Trim(i.kind) == "Template" && NameOf(i) in names
  }

  lemma SelectedSnoc(instructions: seq<Instruction>, names: set<string>, n: nat)
    requires n < |instructions|
    ensures SelectedSpecs(instructions[..n + 1], names) ==
            if IsSelected(instructions[n], names) then SelectedSpecs(instructions[..n], names) + [instructions[n].spec]
            else SelectedSpecs(instructions[..n], names)
  {
    hide Trim, NameOf;
    assert instructions[..n + 1][..n] == instructions[..n];
  }

  lemma NothingSelected(composer: Composer, instructions: seq<Instruction>, names: set<string>, combined: GoMap)
    requires combined.m == map[] && combined !in composer.r.known
    ensures composer.InMemory(combined, Combine(composer.r.env, SelectedSpecs(instructions[..0], names)), {})
    ensures Quiet(composer.r.env, SelectedSpecs(instructions[..0], names))
    ensures Rooted(Snap(composer.r.known), combined.m,
                   Combine(composer.r.env, SelectedSpecs(instructions[..0], names)), Snap(composer.r.known))
  {}

  lemma CombineSnoc(env: Env, specs: seq<map<string, Tree>>, spec: map<string, Tree>)
    ensures Safe(env, specs + [spec]) <==> Safe(env, specs) && SafeSpec(env, Combine(env, specs), spec)
    ensures Quiet(env, specs + [spec]) <==> Quiet(env, specs) && QuietSpec(env, Combine(env, specs), spec)
    ensures Combine(env, specs + [spec]) == ApplySpec(env, Combine(env, specs), spec)
  {
    hide ApplySpec, SafeSpec, QuietSpec;
    assert (specs + [spec])[..|specs|] == specs;
  }

  /** The selection grows by at most one template an instruction, and a part of it is safe or quiet if the whole
      is. */
  lemma SelectedNext(env: Env, instructions: seq<Instruction>, names: set<string>, n: nat)
    requires n < |instructions|
    ensures var i, before := instructions[n], SelectedSpecs(instructions[..n], names);
            var after := SelectedSpecs(instructions[..n + 1], names);
            && (if IsSelected(i, names)
                then Combine(env, after) == ApplySpec(env, Combine(env, before), i.spec) &&
                     (Quiet(env, after) <==> Quiet(env, before) && QuietSpec(env, Combine(env, before), i.spec)) &&
                     (Safe(env, after) <==> Safe(env, before) && SafeSpec(env, Combine(env, before), i.spec)) &&
                     (Safe(env, SelectedSpecs(instructions, names)) ==> SafeSpec(env, Combine(env, before), i.spec))
                else after == before)
            && (Quiet(env, SelectedSpecs(instructions, names)) ==> Quiet(env, after))
  {
    hide ApplySpec, SafeSpec, QuietSpec, SelectedSpecs, IsSelected, Safe, Quiet, Combine;
    ClearPrefix(env, instructions, names, n + 1);
    SelectedSnoc(instructions, names, n);
    if IsSelected(instructions[n], names) {
      CombineSnoc(env, SelectedSpecs(instructions[..n], names), instructions[n].spec);
    }
  }

  lemma {:induction false} ClearPrefix(env: Env, instructions: seq<Instruction>, names: set<string>, n: nat)
    requires n <= |instructions|
    ensures Safe(env, SelectedSpecs(instructions, names)) ==> Safe(env, SelectedSpecs(instructions[..n], names))
    ensures Quiet(env, SelectedSpecs(instructions, names)) ==> Quiet(env, SelectedSpecs(instructions[..n], names))
    decreases |instructions| - n
  {
    hide SafeSpec, QuietSpec, Safe, Quiet, SelectedSpecs, IsSelected;
    if n == |instructions| {
      assert instructions[..n] == instructions;
    } else {
      ClearPrefix(env, instructions, names, n + 1);
      SelectedSnoc(instructions, names, n);
      if IsSelected(instructions[n], names) {
        CombineSnoc(env, SelectedSpecs(instructions[..n], names), instructions[n].spec);
      }
    }
  }

  lemma StoppedSince(env: Env, instructions: seq<Instruction>, names: set<string>, combined: GoMap, tops: set<GoMap>,
                     h: Heap, now: Heap, stop: Stop)
    requires stop.at < |instructions| && IsSelected(instructions[stop.at], names) && Keeps(h, now)
    requires Quiet(env, SelectedSpecs(instructions[..stop.at], names))
    requires Stopped(env, combined, Combine(env, SelectedSpecs(instructions[..stop.at], names)),
                     instructions[stop.at].spec, tops, now, stop.key, stop.done, stop.x)
    requires var before, spec := SelectedSpecs(instructions[..stop.at], names), instructions[stop.at].spec;
             Safe(env, before) && SafeKeys(env, Combine(env, before), spec, stop.done) ==>
               Rooted(h, combined.m, Partly(env, Combine(env, before), spec, stop.done), stop.x.before)
    ensures FirstAlteration(env, instructions, names, combined, tops, h, stop)
  {
    hide Keeps, Holds, Altered, IsSelected, SelectedSpecs, Quiet, Combine, Rooted, Partly, SafeKeys, Safe;
    KeepsTransitive(h, now, stop.x.before);
  }

  lemma OneHeld(hs: seq<Held>, instructions: seq<Instruction>, F: set<GoMap>, n: nat)
    requires HoldingAll(hs, instructions, F) && n < |hs|
    ensures |hs| == |instructions| && Holding(hs[n], instructions[n], F)
  {}

  lemma OneRead(composer: Composer, hs: seq<Held>, instructions: seq<Instruction>, h: Heap, n: nat)
    requires HeldIn(hs, instructions, h) && n < |hs|
    requires forall p :: composer.r.env.resolve(p).Resolved? ==>
               ModelsIn(h, composer.r.ask(p), composer.r.env.resolve(p).value)
    ensures composer.Read(h, hs[n].spec, instructions[n].spec)
  {}

  /** After the first alteration an instruction reads as before exactly when it does not go through the map that was
      merged into. */
  lemma HeldAfter(hs: seq<Held>, instructions: seq<Instruction>, n: nat, env: Env, combined: GoMap, c: Combined,
                  fields: map<string, Tree>, tops: set<GoMap>, h: Heap, key: string, done: set<string>, x: Trace)
    requires HeldIn(hs, instructions, h) && Stopped(env, combined, c, fields, tops, h, key, done, x) && n < |hs|
    ensures ModelsIn(x.before, Ref(hs[n].metadata), Obj(instructions[n].metadata))
    ensures ModelsIn(x.before, Ref(hs[n].spec), Obj(instructions[n].spec))
    ensures Holding(hs[n], instructions[n], x.before.Keys) <==>
            !Reaches(x.before, Ref(hs[n].metadata), Obj(instructions[n].metadata), combined.m[key].o) &&
            !Reaches(x.before, Ref(hs[n].spec), Obj(instructions[n].spec), combined.m[key].o)
  {
    hide Keeps, Holds, Altered, ModelsIn, Models, Reaches;
    var slot, w := At(c, key), SpecWrite(env, fields, key);
    KeepsValue(h, x.before, Ref(hs[n].metadata), Obj(instructions[n].metadata));
    KeepsValue(h, x.before, Ref(hs[n].spec), Obj(instructions[n].spec));
    AfterAltered(combined, key, slot, w, x, Ref(hs[n].metadata), Obj(instructions[n].metadata));
    AfterAltered(combined, key, slot, w, x, Ref(hs[n].spec), Obj(instructions[n].spec));
  }

  /** If nothing was merged into a foreign map before the first alteration, some map that was there reads otherwise
      after it. */
  lemma AlterationSeen(env: Env, instructions: seq<Instruction>, names: set<string>, combined: GoMap,
                       tops: set<GoMap>, h: Heap, stop: Stop)
    requires FirstAlteration(env, instructions, names, combined, tops, h, stop)
    requires var before := SelectedSpecs(instructions[..stop.at], names);
             Safe(env, before) && SafeKeys(env, Combine(env, before), instructions[stop.at].spec, stop.done)
    ensures !Keeps(h, Snap(stop.x.before.Keys))
  {
    hide ModelsIn, Models, Holds, SelectedSpecs, Combine, Safe, SafeKeys, Quiet, IsSelected, SpecWrite, ModelsMapIn,
      Partly, MergedInto;
    var c, spec := Combine(env, SelectedSpecs(instructions[..stop.at], names)), instructions[stop.at].spec;
    var w, o := SpecWrite(env, spec, stop.key), combined.m[stop.key].o;
    PartlyAt(env, c, spec, stop.done, stop.key);
    var t := c[stop.key].value;
    assert ModelsIn(h, Ref(o), t);
    AfterAltered(combined, stop.key, At(c, stop.key), w, stop.x, Ref(o), t);
    OwnReach(h, o, t);
    OwnReach(stop.x.before, o, t);
    ModelsSnap(Ref(o), t, stop.x.before.Keys);
  }

  lemma OwnReach(h: Heap, o: GoMap, t: Tree)
    requires ModelsIn(h, Ref(o), t)
    ensures Reaches(h, Ref(o), t, o) && o in h
  {}
}
