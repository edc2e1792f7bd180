/** What the laws of composition say of results in memory. */
module TemplateResults {
  import opened Collections
  import opened GoValues
  import opened TemplateSemantics
  import opened TemplateLaws
  import opened TemplateRules
  import opened TemplateEngine
  import opened TemplateComposer
  import opened TemplateLibrary

  // ---- One key at a time ----

  /** The value a result holds under a key reads as the fold of what the selected templates write to that key. */
  lemma ReadsByKey(result: GoMap, env: Env, instructions: seq<Instruction>, F: set<GoMap>, k: string)
    requires Models(Ref(result), Obj(Plain(Adjust(env, instructions))), F)
    ensures match PutAll(Writes(env, Selected(env, instructions), k))
            case None => k !in result.m
            case Some(slot) => k in result.m && Models(result.m[k], slot.value, F)
  {
    hide Models, Combine, Writes, PutAll, Selected;
    OfFields(result, Plain(Adjust(env, instructions)), F);
    CombineByKey(env, Selected(env, instructions), k);
  }

  lemma OfFields(result: GoMap, fields: map<string, Tree>, F: set<GoMap>)
    requires Models(Ref(result), Obj(fields), F)
    ensures result in F && result.m.Keys == fields.Keys && forall k <- fields :: Models(result.m[k], fields[k], F)
  {}

  /** A key that templates merge into holds a map; each of its fields reads as what the last template to decide the
      field gives. */
  lemma ReadsByField(result: GoMap, env: Env, instructions: seq<Instruction>, F: set<GoMap>, k: string, f: string)
    requires Models(Ref(result), Obj(Plain(Adjust(env, instructions))), F)
    requires Merges(Writes(env, Selected(env, instructions), k))
    ensures k in result.m && result.m[k].Ref? && result.m[k].o in F
    ensures match Decider(Writes(env, Selected(env, instructions), k), f)
            case None => f !in result.m[k].o.m
            case Some(t) => f in result.m[k].o.m && Models(result.m[k].o.m[f], t, F)
  {
    hide Combine, Writes, PutAll, Selected, Adjust, Decider, Merges;
    var ws := Writes(env, Selected(env, instructions), k);
    ReadsByKey(result, env, instructions, F, k);
    FoldIsSearch(ws);
    OfFields(result.m[k].o, PutAll(ws).value.value.fields, F);
    assert Decider(ws, f) == FieldOf(Some(PutAll(ws).value.value), f);
  }

  /** Every text a result in memory holds, at whatever path, comes from what some selected template holds under the
      key the path starts with: it stands there, is the interpolation of a text there, or is part of the answer to a
      path there. */
  lemma TextsFrom(result: GoMap, env: Env, instructions: seq<Instruction>, F: set<GoMap>, k: string,
                  path: seq<Step>, text: string)
    returns (i: nat)
    requires Models(Ref(result), Obj(Plain(Adjust(env, instructions))), F)
    requires k in result.m && ValueAt(Snap(F), result.m[k], path) == Some(VText(text))
    ensures var specs := Selected(env, instructions);
            i < |specs| && k in specs[i] && From(env, specs[i][k], Text(text))
  {
    hide Models, ModelsIn, Combine, Selected, TreeAt, ValueAt, From;
    OfFields(result, Plain(Adjust(env, instructions)), F);
    var t := Plain(Adjust(env, instructions))[k];
    ModelsSnap(result.m[k], t, F);
    ReadsAtPath(Snap(F), result.m[k], t, path);
    i := ResultFrom(env, Selected(env, instructions), k, path, Text(text));
  }

  // ---- Fewer keys ----

  function RestrictOne(i: Instruction, keys: set<string>): Instruction {
    if Trim(i.kind) == "Template" then i.(spec := Restrict(i.spec, keys)) else i
  }

  /** The same instructions with only some of the keys of every template. */
  function RestrictTemplates(instructions: seq<Instruction>, keys: set<string>): (r: seq<Instruction>)
    ensures |r| == |instructions|
  {
    if instructions == [] then []
    else
      var n := |instructions| - 1;
      RestrictTemplates(instructions[..n], keys) + [RestrictOne(instructions[n], keys)]
  }

  lemma {:induction false} RestrictAt(instructions: seq<Instruction>, keys: set<string>, i: nat)
    requires i < |instructions|
    ensures RestrictTemplates(instructions, keys)[i] == RestrictOne(instructions[i], keys)
  {
    hide RestrictOne;
    if i < |instructions| - 1 {
      RestrictAt(instructions[..|instructions| - 1], keys, i);
    }
  }

  lemma {:induction false} NamesRestrict(env: Env, instructions: seq<Instruction>, keys: set<string>)
    ensures SelectedNames(env, RestrictTemplates(instructions, keys)) == SelectedNames(env, instructions)
  {
    hide Trim, TemplateNames;
    if instructions != [] {
      var n := |instructions| - 1;
      NamesRestrict(env, instructions[..n], keys);
      var l := RestrictTemplates(instructions, keys);
      assert l[..n] == RestrictTemplates(instructions[..n], keys) && l[n] == RestrictOne(instructions[n], keys);
    }
  }

  lemma {:induction false} SpecsRestrict(instructions: seq<Instruction>, names: set<string>, keys: set<string>)
    ensures SelectedSpecs(RestrictTemplates(instructions, keys), names) ==
            RestrictAll(SelectedSpecs(instructions, names), keys)
  {
    hide Trim, Restrict;
    if instructions != [] {
      var n := |instructions| - 1;
      SpecsRestrict(instructions[..n], names, keys);
      var l := RestrictTemplates(instructions, keys);
      assert l[..n] == RestrictTemplates(instructions[..n], keys) && l[n] == RestrictOne(instructions[n], keys);
    }
  }

  lemma SelectedRestrict(env: Env, instructions: seq<Instruction>, keys: set<string>)
    ensures Selected(env, RestrictTemplates(instructions, keys)) == RestrictAll(Selected(env, instructions), keys)
  {
    hide SelectedNames, SelectedSpecs, RestrictTemplates;
    NamesRestrict(env, instructions, keys);
    SpecsRestrict(instructions, SelectedNames(env, instructions), keys);
  }

  /** Renders the instructions, and then the same with only some of the keys of every template. When the first
      rendering is clean so is the second, and its result reads as the first with only those keys. */
  method AdjustKeys(lib: TemplateLib, hs: seq<Held>, gs: seq<Held>, ghost instructions: seq<Instruction>,
                    ghost keys: set<string>)
    returns (first: GoMap, second: GoMap, clean: bool)
    requires lib.r.Ready() && HoldingAll(hs, instructions, lib.r.known)
    requires HoldingAll(gs, RestrictTemplates(instructions, keys), lib.r.known)
    modifies lib.r`known, if Safe(lib.r.env, Selected(lib.r.env, instructions)) then {} else lib.r.known
    ensures clean == Quiet(lib.r.env, Selected(lib.r.env, instructions))
    ensures clean ==> Models(Ref(first), Obj(Plain(Adjust(lib.r.env, instructions))), lib.r.known)
    ensures clean ==> Models(Ref(second), Obj(Restrict(Plain(Adjust(lib.r.env, instructions)), keys)), lib.r.known)
  {
    hide Models, Selected, Combine, Quiet, Safe, RestrictTemplates, HoldingAll, Restrict;
    ghost var env, some := lib.r.env, RestrictTemplates(instructions, keys);
    SelectedRestrict(env, instructions, keys);
    ClearRestrict(env, Selected(env, instructions), keys);
    Projection(env, Selected(env, instructions), keys);
    PlainRestrict(Adjust(env, instructions), keys);
    first, second, clean := lib.AdjustBoth(hs, gs, instructions, some);
  }

  lemma PlainRestrict(c: Combined, keys: set<string>)
    ensures Plain(Restrict(c, keys)) == Restrict(Plain(c), keys)
  {}

  // ---- Overwriting ----

  /** Renders the instructions, and then a list that selects the same templates without the first `n`. When the next
      one overwrites the key and the first rendering is clean, the key reads the same in both results. */
  method AdjustLater(lib: TemplateLib, hs: seq<Held>, gs: seq<Held>, ghost instructions: seq<Instruction>,
                     ghost later: seq<Instruction>, ghost n: nat, k: string)
    returns (first: GoMap, second: GoMap, clean: bool, ghost t: Tree)
    requires lib.r.Ready() && HoldingAll(hs, instructions, lib.r.known) && HoldingAll(gs, later, lib.r.known)
    requires n < |Selected(lib.r.env, instructions)|
    requires Selected(lib.r.env, later) == Selected(lib.r.env, instructions)[n..]
    requires SpecWrite(lib.r.env, Selected(lib.r.env, instructions)[n], k).Store?
    modifies lib.r`known, if Safe(lib.r.env, Selected(lib.r.env, instructions)) then {} else lib.r.known
    ensures clean == Quiet(lib.r.env, Selected(lib.r.env, instructions))
    ensures clean ==> Some(t) == match PutAll(Writes(lib.r.env, Selected(lib.r.env, instructions), k))
                                 case None => None
                                 case Some(slot) => Some(slot.value)
    ensures clean ==> k in first.m && Models(first.m[k], t, lib.r.known)
    ensures clean ==> k in second.m && Models(second.m[k], t, lib.r.known)
  {
    hide Models, Selected, Combine, Quiet, Safe, HoldingAll, Writes, PutAll, SpecWrite;
    ghost var env, specs := lib.r.env, Selected(lib.r.env, instructions);
    t := Nil;
    ClearSuffix(env, specs, n);
    OverwriteDecides(env, specs, n, k);
    CombineByKey(env, specs, k);
    Overwritten(env, specs, n, k);
    first, second, clean := lib.AdjustBoth(hs, gs, instructions, later);
    if clean {
      t := PutAll(Writes(env, specs, k)).value.value;
      OfFields(first, Plain(Adjust(env, instructions)), lib.r.known);
      OfFields(second, Plain(Adjust(env, later)), lib.r.known);
    }
  }

  lemma Overwritten(env: Env, specs: seq<map<string, Tree>>, n: nat, k: string)
    requires n < |specs| && SpecWrite(env, specs[n], k).Store?
    ensures PutAll(Writes(env, specs, k)).Some?
  {
    hide SpecWrite, Writes, PutAll;
    WritesSplit(env, specs, n, k);
    PutSome(Writes(env, specs[..n], k) + [SpecWrite(env, specs[n], k)], Writes(env, specs[n + 1..], k));
  }

  lemma {:induction false} PutSome(before: seq<Written>, after: seq<Written>)
    requires before != [] && before[|before| - 1].Store?
    ensures PutAll(before + after).Some?
  {
    if after == [] {
      assert before + after == before;
    } else {
      assert (before + after)[..|before + after| - 1] == before + after[..|after| - 1];
      PutSome(before, after[..|after| - 1]);
    }
  }
}
