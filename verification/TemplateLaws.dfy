/** Laws of template composition. */
module TemplateLaws {
  import opened Collections
  import opened GoValues
  import opened TemplateSemantics

  // ---- One key at a time ----

  /** What the templates write to the key `k`, in order. */
  function Writes(env: Env, specs: seq<map<string, Tree>>, k: string): seq<Written> {
    if specs == [] then []
    else Writes(env, specs[..|specs| - 1], k) + [SpecWrite(env, specs[|specs| - 1], k)]
  }

  function PutAll(ws: seq<Written>): Option<Slot> {
    if ws == [] then None else Put(PutAll(ws[..|ws| - 1]), ws[|ws| - 1])
  }

  /** The value of a key is the fold of what the templates write to that key: no key affects another. */
  lemma {:induction false} CombineByKey(env: Env, specs: seq<map<string, Tree>>, k: string)
    ensures At(Combine(env, specs), k) == PutAll(Writes(env, specs, k))
    ensures |Writes(env, specs, k)| == |specs|
  {
    if specs != [] {
      var n := |specs| - 1;
      CombineByKey(env, specs[..n], k);
      var ws := Writes(env, specs[..n], k);
      assert (ws + [SpecWrite(env, specs[n], k)])[..n] == ws;
    }
  }

  // ---- Projection ----

  function Restrict<T>(m: map<string, T>, keys: set<string>): map<string, T> {
    map k | k in m && k in keys :: m[k]
  }

  function RestrictAll(specs: seq<map<string, Tree>>, keys: set<string>): (r: seq<map<string, Tree>>)
    ensures |r| == |specs|
    ensures forall i :: 0 <= i < |specs| ==> r[i] == Restrict(specs[i], keys)
  {
    seq(|specs|, i requires 0 <= i < |specs| => Restrict(specs[i], keys))
  }

  /** Rendering the templates with only some of their keys gives the result with only those keys. */
  lemma {:induction false} Projection(env: Env, specs: seq<map<string, Tree>>, keys: set<string>)
    ensures Combine(env, RestrictAll(specs, keys)) == Restrict(Combine(env, specs), keys)
  {
    hide ApplySpec, Restrict;
    if specs == [] {
      assert Restrict<Slot>(map[], keys) == map[] by { RestrictNothing<Slot>(keys); }
    } else {
      var n := |specs| - 1;
      Projection(env, specs[..n], keys);
      assert RestrictAll(specs, keys)[..n] == RestrictAll(specs[..n], keys);
      ProjectSpec(env, Combine(env, specs[..n]), specs[n], keys);
    }
  }

  lemma RestrictNothing<T>(keys: set<string>)
    ensures Restrict<T>(map[], keys) == map[]
  {}

  lemma ProjectSpec(env: Env, c: Combined, spec: map<string, Tree>, keys: set<string>)
    ensures ApplySpec(env, Restrict(c, keys), Restrict(spec, keys)) == Restrict(ApplySpec(env, c, spec), keys)
  {
    hide RenderEntry, IsIf, Put;
    forall k | k in keys
      ensures At(Restrict(c, keys), k) == At(c, k)
      ensures SpecWrite(env, Restrict(spec, keys), k) == SpecWrite(env, spec, k)
    {}
  }

  // ---- Who decides a key ----

  /** Once a template overwrites a key without merging, no earlier template affects it. */
  lemma {:induction false} OverwriteForgets(before: seq<Written>, w: Written, after: seq<Written>)
    requires w.Store?
    ensures PutAll(before + [w] + after) == PutAll([w] + after)
  {
    var ws, vs := before + [w] + after, [w] + after;
    if after == [] {
      assert ws[..|ws| - 1] == before && vs[..|vs| - 1] == [];
    } else {
      var n := |after| - 1;
      OverwriteForgets(before, w, after[..n]);
      assert ws[..|ws| - 1] == before + [w] + after[..n];
      assert vs[..|vs| - 1] == [w] + after[..n];
    }
  }

  /** The value of a field of an object key, found by asking the templates from the last one back: the
      first to contribute the field decides, and one that overwrote the whole key ends the search. */
  function Decider(ws: seq<Written>, field: string): Option<Tree> {
    if ws == [] then None
    else
      match ws[|ws| - 1]
      case Nothing => Decider(ws[..|ws| - 1], field)
      case Store(t) => if t.Obj? && field in t.fields then Some(t.fields[field]) else None
      case Fields(fs) => if field in fs then Some(fs[field]) else Decider(ws[..|ws| - 1], field)
  }

  /** The last write to the whole key. */
  function LastStore(ws: seq<Written>): Option<Tree> {
    if ws == [] then None
    else if ws[|ws| - 1].Store? then Some(ws[|ws| - 1].value)
    else LastStore(ws[..|ws| - 1])
  }

  /** Whether some template merges into the key after it was last overwritten. */
  predicate Merges(ws: seq<Written>) {
    ws != [] && !ws[|ws| - 1].Store? && (ws[|ws| - 1].Fields? || Merges(ws[..|ws| - 1]))
  }

  /** Folding forward agrees with searching backward: a key that nothing merged into holds what was last
      stored, and a merged key holds an object whose fields are each the one its decider gives. */
  lemma {:induction false} FoldIsSearch(ws: seq<Written>)
    ensures !Merges(ws) ==> PutAll(ws) == match LastStore(ws) { case None => None case Some(t) => Some(Slot(t, false)) }
    ensures Merges(ws) ==> PutAll(ws).Some? && PutAll(ws).value.value.Obj?
    ensures Merges(ws) ==> forall f :: Decider(ws, f) == FieldOf(Some(PutAll(ws).value.value), f)
    ensures Merges(ws) ==> (PutAll(ws).value.made <==> !(LastStore(ws).Some? && LastStore(ws).value.Obj?))
  {
    if ws != [] {
      FoldIsSearch(ws[..|ws| - 1]);
      if !Merges(ws[..|ws| - 1]) {
        var earlier := ws[..|ws| - 1];
        forall f
          ensures Decider(earlier, f) == FieldOf(LastStore(earlier), f)
        {
          DeciderOfStore(earlier, f);
        }
      }
    }
  }

  /** The field `f` of an object. */
  function FieldOf(t: Option<Tree>, f: string): Option<Tree> {
    if t.Some? && t.value.Obj? && f in t.value.fields then Some(t.value.fields[f]) else None
  }

  lemma {:induction false} DeciderOfStore(ws: seq<Written>, f: string)
    requires !Merges(ws)
    ensures Decider(ws, f) == FieldOf(LastStore(ws), f)
  {
    if ws != [] && ws[|ws| - 1].Nothing? {
      DeciderOfStore(ws[..|ws| - 1], f);
    }
  }

  // ---- When composing is safe, and when it is quiet ----

  /** No template merges a field into an object that an earlier one stored by reference. */
  predicate NoSharing(ws: seq<Written>) {
    ws == [] ||
    var n := |ws| - 1;
    NoSharing(ws[..n]) &&
    !(ws[n].Fields? && ws[n].fields != map[] && LastStore(ws[..n]).Some? && LastStore(ws[..n]).value.Obj?)
  }

  /** No template adds or alters a field of an object that an earlier one stored by reference. */
  predicate NoChange(ws: seq<Written>) {
    ws == [] ||
    var n := |ws| - 1;
    var last := LastStore(ws[..n]);
    NoChange(ws[..n]) &&
    !(ws[n].Fields? && last.Some? && last.value.Obj? && last.value.fields + ws[n].fields != last.value.fields)
  }

  lemma SafeOneKey(ws: seq<Written>, w: Written)
    ensures SafePut(PutAll(ws), w) <==>
            !(w.Fields? && w.fields != map[] && LastStore(ws).Some? && LastStore(ws).value.Obj?)
  {
    FoldIsSearch(ws);
  }

  /** While nothing changes, a key holds the object that was last stored under it, if it was one. */
  lemma {:induction false} QuietHolds(ws: seq<Written>)
    requires NoChange(ws) && LastStore(ws).Some? && LastStore(ws).value.Obj?
    ensures PutAll(ws) == Some(Slot(LastStore(ws).value, false))
  {
    if !ws[|ws| - 1].Store? {
      QuietHolds(ws[..|ws| - 1]);
    }
  }

  lemma QuietOneKey(ws: seq<Written>, w: Written)
    requires NoChange(ws)
    ensures var last := LastStore(ws);
            QuietPut(PutAll(ws), w) <==>
            !(w.Fields? && last.Some? && last.value.Obj? && last.value.fields + w.fields != last.value.fields)
  {
    if LastStore(ws).Some? && LastStore(ws).value.Obj? {
      QuietHolds(ws);
    } else {
      FoldIsSearch(ws);
    }
  }

  predicate SafeAt(env: Env, c: Combined, spec: map<string, Tree>, k: string) {
    SafePut(At(c, k), SpecWrite(env, spec, k))
  }

  predicate QuietAt(env: Env, c: Combined, spec: map<string, Tree>, k: string) {
    QuietPut(At(c, k), SpecWrite(env, spec, k))
  }

  lemma SafeSpecAll(env: Env, c: Combined, spec: map<string, Tree>)
    ensures SafeSpec(env, c, spec) <==> forall k :: SafeAt(env, c, spec, k)
    ensures QuietSpec(env, c, spec) <==> forall k :: QuietAt(env, c, spec, k)
  {
    hide RenderEntry;
    forall k | k !in spec
      ensures SafeAt(env, c, spec, k) && QuietAt(env, c, spec, k)
    {}
    forall k | k in spec
      ensures SafePut(At(c, k), SpecWrite(env, spec, k)) <==> SafeAt(env, c, spec, k)
      ensures QuietPut(At(c, k), SpecWrite(env, spec, k)) <==> QuietAt(env, c, spec, k)
    {}
  }

  lemma SafeStep(env: Env, specs: seq<map<string, Tree>>, k: string)
    requires specs != []
    ensures var n := |specs| - 1;
            NoSharing(Writes(env, specs, k)) <==>
            NoSharing(Writes(env, specs[..n], k)) && SafeAt(env, Combine(env, specs[..n]), specs[n], k)
    ensures var n := |specs| - 1;
            NoChange(Writes(env, specs, k)) <==>
            NoChange(Writes(env, specs[..n], k)) && QuietAt(env, Combine(env, specs[..n]), specs[n], k)
  {
    hide RenderEntry, SpecWrite, Combine;
    var n := |specs| - 1;
    var ws, w := Writes(env, specs[..n], k), SpecWrite(env, specs[n], k);
    CombineByKey(env, specs[..n], k);
    SafeOneKey(ws, w);
    if NoChange(ws) {
      QuietOneKey(ws, w);
    }
    assert (ws + [w])[..n] == ws;
  }

  /** Every field a rendering merges goes into an object it made exactly when, for every key, no merge of a
      field follows an object stored by reference with no overwriting in between. */
  lemma {:induction false} SafeExactly(env: Env, specs: seq<map<string, Tree>>)
    ensures Safe(env, specs) <==> forall k :: NoSharing(Writes(env, specs, k))
  {
    if specs == [] {
      assert forall k :: NoSharing(Writes(env, specs, k));
    } else {
      hide RenderEntry, IsIf, Combine, SafeSpec, SafeAt;
      var n := |specs| - 1;
      var init := specs[..n];
      SafeExactly(env, init);
      SafeSpecAll(env, Combine(env, init), specs[n]);
      forall k
        ensures NoSharing(Writes(env, specs, k)) <==>
                NoSharing(Writes(env, init, k)) && SafeAt(env, Combine(env, init), specs[n], k)
      {
        SafeStep(env, specs, k);
      }
      if forall k :: NoSharing(Writes(env, specs, k)) {
        forall k
          ensures NoSharing(Writes(env, init, k)) && SafeAt(env, Combine(env, init), specs[n], k)
        {
          assert NoSharing(Writes(env, specs, k));
        }
      } else {
        var k :| !NoSharing(Writes(env, specs, k));
        SafeStep(env, specs, k);
        assert NoSharing(Writes(env, init, k)) ==> !SafeAt(env, Combine(env, init), specs[n], k);
      }
    }
  }

  /** A rendering changes the content of no object it did not make exactly when, for every key, no merge that adds
      or alters a field follows an object stored by reference with no overwriting in between. */
  lemma {:induction false} QuietExactly(env: Env, specs: seq<map<string, Tree>>)
    ensures Quiet(env, specs) <==> forall k :: NoChange(Writes(env, specs, k))
  {
    if specs == [] {
      assert forall k :: NoChange(Writes(env, specs, k));
    } else {
      hide RenderEntry, IsIf, Combine, QuietSpec, QuietAt;
      var n := |specs| - 1;
      var init := specs[..n];
      QuietExactly(env, init);
      SafeSpecAll(env, Combine(env, init), specs[n]);
      forall k
        ensures NoChange(Writes(env, specs, k)) <==>
                NoChange(Writes(env, init, k)) && QuietAt(env, Combine(env, init), specs[n], k)
      {
        SafeStep(env, specs, k);
      }
      if forall k :: NoChange(Writes(env, specs, k)) {
        forall k
          ensures NoChange(Writes(env, init, k)) && QuietAt(env, Combine(env, init), specs[n], k)
        {
          assert NoChange(Writes(env, specs, k));
        }
      } else {
        var k :| !NoChange(Writes(env, specs, k));
        SafeStep(env, specs, k);
        assert NoChange(Writes(env, init, k)) ==> !QuietAt(env, Combine(env, init), specs[n], k);
      }
    }
  }

  /** What merges nothing into a foreign object changes none. */
  lemma {:induction false} SafeIsQuiet(env: Env, specs: seq<map<string, Tree>>)
    requires Safe(env, specs)
    ensures Quiet(env, specs)
  {
    hide SpecWrite, Combine;
    if specs != [] {
      SafeIsQuiet(env, specs[..|specs| - 1]);
    }
  }

  /** Leaving keys out of the templates keeps them safe, and quiet. */
  lemma ClearRestrict(env: Env, specs: seq<map<string, Tree>>, keys: set<string>)
    ensures Safe(env, specs) ==> Safe(env, RestrictAll(specs, keys))
    ensures Quiet(env, specs) ==> Quiet(env, RestrictAll(specs, keys))
  {
    hide Safe, Quiet, NoSharing, NoChange, Writes;
    SafeExactly(env, specs);
    SafeExactly(env, RestrictAll(specs, keys));
    QuietExactly(env, specs);
    QuietExactly(env, RestrictAll(specs, keys));
    forall k
      ensures Safe(env, specs) ==> NoSharing(Writes(env, RestrictAll(specs, keys), k))
      ensures Quiet(env, specs) ==> NoChange(Writes(env, RestrictAll(specs, keys), k))
    {
      assert Safe(env, specs) ==> NoSharing(Writes(env, specs, k));
      assert Quiet(env, specs) ==> NoChange(Writes(env, specs, k));
      if k in keys {
        WritesRestrict(env, specs, keys, k);
      } else {
        WritesNothing(env, specs, keys, k);
      }
    }
  }

  lemma {:induction false} WritesRestrict(env: Env, specs: seq<map<string, Tree>>, keys: set<string>, k: string)
    requires k in keys
    ensures Writes(env, RestrictAll(specs, keys), k) == Writes(env, specs, k)
  {
    hide RenderEntry;
    if specs != [] {
      var n := |specs| - 1;
      WritesRestrict(env, specs[..n], keys, k);
      assert RestrictAll(specs, keys)[..n] == RestrictAll(specs[..n], keys);
    }
  }

  lemma {:induction false} WritesNothing(env: Env, specs: seq<map<string, Tree>>, keys: set<string>, k: string)
    requires k !in keys
    ensures NoSharing(Writes(env, RestrictAll(specs, keys), k))
    ensures NoChange(Writes(env, RestrictAll(specs, keys), k))
  {
    hide RenderEntry;
    if specs != [] {
      var n := |specs| - 1;
      WritesNothing(env, specs[..n], keys, k);
      assert RestrictAll(specs, keys)[..n] == RestrictAll(specs[..n], keys);
      var ws := Writes(env, RestrictAll(specs[..n], keys), k);
      assert (ws + [Nothing])[..|ws|] == ws;
    }
  }

  /** Leaving out the first templates keeps the others safe, and quiet. */
  lemma ClearSuffix(env: Env, specs: seq<map<string, Tree>>, n: nat)
    requires n <= |specs|
    ensures Safe(env, specs) ==> Safe(env, specs[n..])
    ensures Quiet(env, specs) ==> Quiet(env, specs[n..])
  {
    hide Safe, Quiet, NoSharing, NoChange, Writes;
    SafeExactly(env, specs);
    SafeExactly(env, specs[n..]);
    QuietExactly(env, specs);
    QuietExactly(env, specs[n..]);
    forall k
      ensures Safe(env, specs) ==> NoSharing(Writes(env, specs[n..], k))
      ensures Quiet(env, specs) ==> NoChange(Writes(env, specs[n..], k))
    {
      assert Safe(env, specs) ==> NoSharing(Writes(env, specs, k));
      assert Quiet(env, specs) ==> NoChange(Writes(env, specs, k));
      WritesAppend(env, specs[..n], specs[n..], k);
      assert specs[..n] + specs[n..] == specs;
      ClearTail(Writes(env, specs[..n], k), Writes(env, specs[n..], k));
    }
  }

  lemma {:induction false} WritesAppend(env: Env, a: seq<map<string, Tree>>, b: seq<map<string, Tree>>, k: string)
    ensures Writes(env, a + b, k) == Writes(env, a, k) + Writes(env, b, k)
  {
    hide SpecWrite;
    if b == [] {
      assert a + b == a;
    } else {
      var n := |b| - 1;
      assert (a + b)[..|a + b| - 1] == a + b[..n];
      WritesAppend(env, a, b[..n], k);
    }
  }

  lemma {:induction false} ClearTail(before: seq<Written>, after: seq<Written>)
    ensures NoSharing(before + after) ==> NoSharing(after)
    ensures NoChange(before + after) ==> NoChange(after)
  {
    if after != [] {
      var n := |after| - 1;
      assert (before + after)[..|before + after| - 1] == before + after[..n];
      ClearTail(before, after[..n]);
      LastStoreAppend(before, after[..n]);
    }
  }

  lemma {:induction false} LastStoreAppend(before: seq<Written>, after: seq<Written>)
    ensures LastStore(before + after) == if LastStore(after).Some? then LastStore(after) else LastStore(before)
  {
    if after == [] {
      assert before + after == before;
    } else {
      assert (before + after)[..|before + after| - 1] == before + after[..|after| - 1];
      LastStoreAppend(before, after[..|after| - 1]);
    }
  }

  /** Once a template overwrites a key, the templates before it can be left out as far as the key goes. */
  lemma OverwriteDecides(env: Env, specs: seq<map<string, Tree>>, n: nat, k: string)
    requires n < |specs| && SpecWrite(env, specs[n], k).Store?
    ensures At(Combine(env, specs), k) == At(Combine(env, specs[n..]), k)
  {
    hide SpecWrite, Combine, At, Writes, PutAll;
    CombineByKey(env, specs, k);
    CombineByKey(env, specs[n..], k);
    WritesSplit(env, specs, n, k);
    OverwriteForgets(Writes(env, specs[..n], k), SpecWrite(env, specs[n], k), Writes(env, specs[n + 1..], k));
  }

  lemma WritesSplit(env: Env, specs: seq<map<string, Tree>>, n: nat, k: string)
    requires n < |specs|
    ensures var w, rest := SpecWrite(env, specs[n], k), Writes(env, specs[n + 1..], k);
            && Writes(env, specs, k) == Writes(env, specs[..n], k) + [w] + rest
            && Writes(env, specs[n..], k) == [w] + rest
  {
    hide SpecWrite, Writes;
    assert specs == specs[..n] + specs[n..] && specs[n..] == [specs[n]] + specs[n + 1..];
    WritesAppend(env, specs[..n], specs[n..], k);
    WritesAppend(env, [specs[n]], specs[n + 1..], k);
    WritesOne(env, specs[n], k);
    assert forall a: seq<Written>, b: seq<Written>, c: seq<Written> :: a + (b + c) == a + b + c;
  }

  lemma WritesOne(env: Env, spec: map<string, Tree>, k: string)
    ensures Writes(env, [spec], k) == [SpecWrite(env, spec, k)]
  {
    hide SpecWrite;
    assert [spec][..0] == [];
  }

  // ---- Arrays ----

  /** Rendering an array is an order-preserving filter and map: it goes through concatenation. */
  lemma {:induction false} RenderItemsAppend(env: Env, a: seq<Tree>, b: seq<Tree>)
    ensures RenderItems(env, a + b) == RenderItems(env, a) + RenderItems(env, b)
  {
    if a == [] {
      assert a + b == b;
    } else {
      assert (a + b)[1..] == a[1..] + b;
      RenderItemsAppend(env, a[1..], b);
    }
  }

  // ---- Views ----

  predicate IsView(i: Instruction) {
    Trim(i.kind) == "View"
  }

  /** The Template instructions, in order. */
  function TemplatesOf(instructions: seq<Instruction>): seq<Instruction> {
    if instructions == [] then []
    else
      var n := |instructions| - 1;
      TemplatesOf(instructions[..n]) + if Trim(instructions[n].kind) == "Template" then [instructions[n]] else []
  }

  lemma {:induction false} SelectedNamesUnion(env: Env, instructions: seq<Instruction>, name: string)
    ensures name in SelectedNames(env, instructions) <==>
            exists i :: 0 <= i < |instructions| && IsView(instructions[i]) && name in ViewNames(env, instructions[i])
  {
    hide ViewNames, IsView;
    if instructions != [] {
      var n := |instructions| - 1;
      SelectedNamesUnion(env, instructions[..n], name);
      if i :| 0 <= i < n && IsView(instructions[..n][i]) && name in ViewNames(env, instructions[..n][i]) {
        assert instructions[i] == instructions[..n][i];
      }
      if i :| 0 <= i < n && IsView(instructions[i]) && name in ViewNames(env, instructions[i]) {
        assert instructions[i] == instructions[..n][i];
      }
      ViewNamesOfView(env, instructions[n]);
    }
  }

  lemma ViewNamesOfView(env: Env, i: Instruction)
    ensures !IsView(i) ==> ViewNames(env, i) == {}
  {}

  lemma {:induction false} SelectedSpecsOfTemplates(instructions: seq<Instruction>, names: set<string>)
    ensures SelectedSpecs(instructions, names) == SelectedSpecs(TemplatesOf(instructions), names)
  {
    if instructions != [] {
      var n := |instructions| - 1;
      SelectedSpecsOfTemplates(instructions[..n], names);
      var earlier := TemplatesOf(instructions[..n]);
      if Trim(instructions[n].kind) == "Template" {
        assert (earlier + [instructions[n]])[..|earlier|] == earlier;
      } else {
        assert TemplatesOf(instructions) == earlier;
      }
    }
  }

  /** The result depends on the Template instructions, in order, and on which View instructions there are:
      permuting, duplicating or moving Views changes nothing. */
  lemma ViewsAreASet(env: Env, a: seq<Instruction>, b: seq<Instruction>)
    requires TemplatesOf(a) == TemplatesOf(b)
    requires forall v | IsView(v) :: v in a <==> v in b
    ensures Adjust(env, a) == Adjust(env, b)
  {
    hide ViewNames, IsView;
    forall name
      ensures name in SelectedNames(env, a) <==> name in SelectedNames(env, b)
    {
      SelectedNamesUnion(env, a, name);
      SelectedNamesUnion(env, b, name);
      if i :| 0 <= i < |a| && IsView(a[i]) && name in ViewNames(env, a[i]) {
        assert a[i] in b;
      }
      if i :| 0 <= i < |b| && IsView(b[i]) && name in ViewNames(env, b[i]) {
        assert b[i] in a;
      }
    }
    assert SelectedNames(env, a) == SelectedNames(env, b);
    SelectedSpecsOfTemplates(a, SelectedNames(env, a));
    SelectedSpecsOfTemplates(b, SelectedNames(env, b));
  }
}
