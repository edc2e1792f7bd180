/** What each kind of template entry renders to, from its fields and the environment alone. */
module TemplateRules {
  import opened Collections
  import opened GoValues
  import opened TemplateSemantics
  import opened TemplateLaws

  // ---- Trimming ----

  /** Trimming takes spaces off both ends, and all of them. */
  lemma TrimExactly(s: string) returns (before: string, after: string)
    ensures s == before + Trim(s) + after
    ensures forall i :: 0 <= i < |before| ==> IsSpace(before[i])
    ensures forall i :: 0 <= i < |after| ==> IsSpace(after[i])
    ensures Trim(s) != "" ==> !IsSpace(Trim(s)[0]) && !IsSpace(Trim(s)[|Trim(s)| - 1])
  {
    hide IsSpace;
    before := TrimmedLeft(s);
    after := TrimmedRight(TrimLeft(s));
    if Trim(s) != "" {
      assert Trim(s)[0] == TrimLeft(s)[0];
    }
  }

  lemma {:induction false} TrimmedLeft(s: string) returns (before: string)
    ensures s == before + TrimLeft(s) && forall i :: 0 <= i < |before| ==> IsSpace(before[i])
    ensures TrimLeft(s) != "" ==> !IsSpace(TrimLeft(s)[0])
  {
    hide IsSpace;
    before := "";
    if s != "" && IsSpace(s[0]) {
      var rest := TrimmedLeft(s[1..]);
      before := [s[0]] + rest;
    }
  }

  lemma {:induction false} TrimmedRight(s: string) returns (after: string)
    ensures s == TrimRight(s) + after && forall i :: 0 <= i < |after| ==> IsSpace(after[i])
    ensures TrimRight(s) != "" ==> !IsSpace(TrimRight(s)[|TrimRight(s)| - 1])
  {
    hide IsSpace;
    after := "";
    if s != "" && IsSpace(s[|s| - 1]) {
      var rest := TrimmedRight(s[..|s| - 1]);
      after := rest + [s[|s| - 1]];
    }
  }

  // ---- Entries ----

  /** A value that is no object is stored as it is. */
  lemma PlainRule(env: Env, t: Tree)
    requires !t.Obj?
    ensures RenderEntry(env, t) == Store(t)
  {}

  /** A string or a number with a path stores what the path leads to, whatever else it holds: nothing without an
      answer, nil when the path fails. */
  lemma PathRule(env: Env, val: map<string, Tree>)
    requires "type" in val && (val["type"] == Text("string") || val["type"] == Text("number")) && "path" in val
    ensures !val["path"].Text? ==> RenderEntry(env, Obj(val)) == Nothing
    ensures val["path"].Text? ==>
              match env.resolve(val["path"].s)
              case NoAnswer => RenderEntry(env, Obj(val)) == Nothing
              case Unresolved => RenderEntry(env, Obj(val)) == Store(Nil)
              case Resolved(t) => RenderEntry(env, Obj(val)) == Store(t)
  {}

  /** A number without a path writes nothing. */
  lemma NumberRule(env: Env, val: map<string, Tree>)
    requires "type" in val && val["type"] == Text("number") && "path" !in val
    ensures RenderEntry(env, Obj(val)) == Nothing
  {}

  /** A string without a path stores its text interpolated, or as it is when that fails; without a text nothing. */
  lemma StringRule(env: Env, val: map<string, Tree>)
    requires "type" in val && val["type"] == Text("string") && "path" !in val
    ensures "value" !in val || !val["value"].Text? ==> RenderEntry(env, Obj(val)) == Nothing
    ensures "value" in val && val["value"].Text? ==>
              match env.interpolate(val["value"].s)
              case None => RenderEntry(env, Obj(val)) == Store(val["value"])
              case Some(s) => RenderEntry(env, Obj(val)) == Store(Text(s))
  {}

  /** A bool stores its value when that is one. */
  lemma BoolRule(env: Env, val: map<string, Tree>)
    requires "type" in val && val["type"] == Text("bool")
    ensures "value" in val && val["value"].Bool? ==> RenderEntry(env, Obj(val)) == Store(val["value"])
    ensures "value" !in val || !val["value"].Bool? ==> RenderEntry(env, Obj(val)) == Nothing
  {}

  /** An array stores its rendered elements when its value is one. */
  lemma ArrayRule(env: Env, val: map<string, Tree>)
    requires "type" in val && val["type"] == Text("array")
    ensures "value" in val && val["value"].Arr? ==>
              RenderEntry(env, Obj(val)) == Store(Arr(RenderItems(env, val["value"].items)))
    ensures "value" !in val || !val["value"].Arr? ==> RenderEntry(env, Obj(val)) == Nothing
  {
    assert RenderEntry(env, Obj(val)) == RenderMap(env, val) == RenderArray(env, val);
  }

  /** An object, of that type or of none, contributes its rendered fields when its value is an object, and is stored
      as it is when not. */
  lemma ObjectRule(env: Env, val: map<string, Tree>)
    requires "type" !in val || val["type"] == Text("object")
    ensures "value" in val && val["value"].Obj? ==>
              RenderEntry(env, Obj(val)) == Fields(RenderFields(env, val["value"].fields, false))
    ensures "value" !in val || !val["value"].Obj? ==> RenderEntry(env, Obj(val)) == Store(Obj(val))
  {
    assert |"string"| == 6 && |"number"| == 6 && |"array"| == 5 && |"bool"| == 4 && |"object"| == 6;
    assert "string"[0] == 's' && "number"[0] == 'n' && "object"[0] == 'o';
    assert RenderEntry(env, Obj(val)) == RenderMap(env, val) == RenderObject(env, val);
  }

  /** A map of any other type is stored as it is. */
  lemma OtherRule(env: Env, val: map<string, Tree>)
    requires "type" in val
    requires forall s :: val["type"] == Text(s) ==> s !in {"string", "number", "array", "bool", "object"}
    ensures RenderEntry(env, Obj(val)) == Store(Obj(val))
  {}

  /** The fields of a rendered object: those whose entries write something, and in an element of an array none whose
      key trims to `if`. */
  lemma FieldRule(env: Env, fields: map<string, Tree>, dropIf: bool, k: string)
    ensures k in RenderFields(env, fields, dropIf) <==>
            k in fields && !(dropIf && Trim(k) == "if") && !RenderEntry(env, fields[k]).Nothing?
    ensures k in RenderFields(env, fields, dropIf) ==>
              match RenderEntry(env, fields[k])
              case Nothing => false
              case Store(t) => RenderFields(env, fields, dropIf)[k] == t
              case Fields(fs) => RenderFields(env, fields, dropIf)[k] == Obj(fs)
  {
    hide RenderEntry;
  }

  // ---- The elements of an array ----

  /** An element is kept exactly when it is an object whose `if` is missing, no text, empty or a condition that holds.
      What is kept has no key that trims to `if`, and its plain fields as they are. */
  lemma ElementRule(env: Env, t: Tree)
    ensures RenderItems(env, [t]) != [] <==>
            t.Obj? && ("if" in t.fields && t.fields["if"].Text? && t.fields["if"].s != "" ==>
                         env.holds(t.fields["if"].s))
    ensures RenderItems(env, [t]) != [] ==>
              |RenderItems(env, [t])| == 1 && RenderItems(env, [t])[0].Obj? &&
              (forall k <- RenderItems(env, [t])[0].fields :: k in t.fields && Trim(k) != "if") &&
              (forall k <- t.fields :: Trim(k) != "if" && !t.fields[k].Obj? ==>
                 k in RenderItems(env, [t])[0].fields && RenderItems(env, [t])[0].fields[k] == t.fields[k])
  {
    hide RenderFields;
    assert [t][1..] == [] && RenderItems(env, []) == [];
    if t.Obj? {
      forall k
        ensures k in RenderFields(env, t.fields, true) ==> k in t.fields && Trim(k) != "if"
        ensures k in t.fields && Trim(k) != "if" && !t.fields[k].Obj? ==>
                  k in RenderFields(env, t.fields, true) && RenderFields(env, t.fields, true)[k] == t.fields[k]
      {
        FieldRule(env, t.fields, true, k);
        if k in t.fields && !t.fields[k].Obj? {
          PlainRule(env, t.fields[k]);
        }
      }
    }
  }

  /** How many elements are kept. */
  function KeptCount(env: Env, ts: seq<Tree>): nat {
    if ts == [] then 0
    else KeptCount(env, ts[..|ts| - 1]) + |RenderItems(env, [ts[|ts| - 1]])|
  }

  /** The elements kept, each rendered as it is alone, in order. */
  lemma {:induction false} ArrayInOrder(env: Env, ts: seq<Tree>)
    ensures |RenderItems(env, ts)| == KeptCount(env, ts)
    ensures forall i :: 0 <= i < |ts| && RenderItems(env, [ts[i]]) != [] ==>
              KeptCount(env, ts[..i]) < |RenderItems(env, ts)| &&
              RenderItems(env, ts)[KeptCount(env, ts[..i])] == RenderItems(env, [ts[i]])[0]
  {
    hide RenderItems;
    if ts == [] {
      NoItems(env);
    } else {
      var n := |ts| - 1;
      ArrayInOrder(env, ts[..n]);
      ElementRule(env, ts[n]);
      RenderItemsAppend(env, ts[..n], [ts[n]]);
      assert ts[..n] + [ts[n]] == ts;
      forall i | 0 <= i < |ts| && RenderItems(env, [ts[i]]) != []
        ensures KeptCount(env, ts[..i]) < |RenderItems(env, ts)|
        ensures RenderItems(env, ts)[KeptCount(env, ts[..i])] == RenderItems(env, [ts[i]])[0]
      {
        if i < n {
          assert ts[..n][..i] == ts[..i] && ts[..n][i] == ts[i];
        }
      }
    }
  }

  lemma NoItems(env: Env)
    ensures RenderItems(env, []) == []
  {}

  // ---- Templates and Views ----

  /** A key of a template that trims to `if` writes nothing, and so does one it does not hold. */
  lemma KeyRule(env: Env, spec: map<string, Tree>, k: string)
    ensures k in spec && Trim(k) != "if" ==> SpecWrite(env, spec, k) == RenderEntry(env, spec[k])
    ensures k !in spec || Trim(k) == "if" ==> SpecWrite(env, spec, k) == Nothing
  {
    hide RenderEntry;
  }

  /** No result has a key that trims to `if`, and none that no template has. */
  lemma {:induction false} ResultKeys(env: Env, specs: seq<map<string, Tree>>, k: string)
    requires k in Combine(env, specs)
    ensures Trim(k) != "if" && exists i :: 0 <= i < |specs| && k in specs[i]
  {
    hide RenderEntry;
    var n := |specs| - 1;
    var before := Combine(env, specs[..n]);
    KeyRule(env, specs[n], k);
    if k in before {
      ResultKeys(env, specs[..n], k);
      var i :| 0 <= i < n && k in specs[..n][i];
      assert k in specs[i];
    } else {
      assert Put(At(before, k), SpecWrite(env, specs[n], k)).Some?;
      assert k in specs[n];
    }
  }

  /** A name is selected exactly when a View whose condition is empty or holds lists it as a text. */
  lemma SelectedExactly(env: Env, instructions: seq<Instruction>, name: string)
    ensures name in SelectedNames(env, instructions) <==>
            exists i, j ::
              0 <= i < |instructions| && Trim(instructions[i].kind) == "View" &&
              (instructions[i].cond == "" || env.holds(instructions[i].cond)) &&
              "template" in instructions[i].spec && instructions[i].spec["template"].Obj? &&
              "templates" in instructions[i].spec["template"].fields &&
              instructions[i].spec["template"].fields["templates"].Arr? &&
              0 <= j < |instructions[i].spec["template"].fields["templates"].items| &&
              instructions[i].spec["template"].fields["templates"].items[j] == Text(name)
  {
    hide SelectedNames, Trim, TextsOf;
    SelectedNamesUnion(env, instructions, name);
    forall i | 0 <= i < |instructions|
      ensures name in ViewNames(env, instructions[i]) <==>
              (Trim(instructions[i].kind) == "View" &&
               (instructions[i].cond == "" || env.holds(instructions[i].cond)) &&
               "template" in instructions[i].spec && instructions[i].spec["template"].Obj? &&
               "templates" in instructions[i].spec["template"].fields &&
               instructions[i].spec["template"].fields["templates"].Arr? &&
               exists j :: 0 <= j < |instructions[i].spec["template"].fields["templates"].items| &&
                           instructions[i].spec["template"].fields["templates"].items[j] == Text(name))
    {
      var spec := instructions[i].spec;
      if "template" in spec && spec["template"].Obj? && "templates" in spec["template"].fields &&
         spec["template"].fields["templates"].Arr? {
        TextsExactly(spec["template"].fields["templates"].items, name);
      }
    }
  }

  lemma {:induction false} TextsExactly(items: seq<Tree>, s: string)
    ensures s in TextsOf(items) <==> exists j :: 0 <= j < |items| && items[j] == Text(s)
  {
    if items != [] {
      var n := |items| - 1;
      TextsExactly(items[..n], s);
      if j :| 0 <= j < n && items[..n][j] == Text(s) {
        assert items[j] == Text(s);
      }
      if j :| 0 <= j < n && items[j] == Text(s) {
        assert items[..n][j] == Text(s);
      }
    }
  }

  /** The Template instructions whose name, a text in their metadata or else empty, is selected, in order. */
  lemma {:induction false} SelectedInOrder(a: seq<Instruction>, b: seq<Instruction>, names: set<string>)
    ensures SelectedSpecs(a + b, names) == SelectedSpecs(a, names) + SelectedSpecs(b, names)
  {
    hide Trim, NameOf;
    if b == [] {
      assert a + b == a;
    } else {
      var n := |b| - 1;
      assert (a + b)[..|a + b| - 1] == a + b[..n];
      SelectedInOrder(a, b[..n], names);
    }
  }

  lemma SelectedAlone(i: Instruction, names: set<string>)
    ensures SelectedSpecs([i], names) ==
            if Trim(i.kind) == "Template" &&
               ((if "name" in i.metadata && i.metadata["name"].Text? then i.metadata["name"].s else "") in names)
            then [i.spec] else []
  {
    hide Trim;
    assert [i][..0] == [] && SelectedSpecs([], names) == [];
  }

  // ---- Nothing is invented ----

  ghost predicate Contains(t: Tree, x: Tree) {
    exists path :: TreeAt(t, path) == Some(x)
  }

  lemma ContainsItself(t: Tree)
    ensures Contains(t, t)
  {
    assert TreeAt(t, []) == Some(t);
  }

  lemma ContainsField(fs: map<string, Tree>, k: string, x: Tree)
    requires k in fs && Contains(fs[k], x)
    ensures Contains(Obj(fs), x)
  {
    var path :| TreeAt(fs[k], path) == Some(x);
    var longer := [Field(k)] + path;
    assert longer[0] == Field(k) && longer[1..] == path;
    assert TreeAt(Obj(fs), longer) == Some(x);
  }

  lemma ContainsElement(ts: seq<Tree>, i: nat, x: Tree)
    requires i < |ts| && Contains(ts[i], x)
    ensures Contains(Arr(ts), x)
  {
    var path :| TreeAt(ts[i], path) == Some(x);
    var longer := [Element(i)] + path;
    assert longer[0] == Element(i) && longer[1..] == path;
    assert TreeAt(Arr(ts), longer) == Some(x);
  }

  /** A plain value comes from the template: it stands there, or is the interpolation of a text there, or is part of
      the answer to a path there, or the nil of a path there that fails. */
  ghost predicate From(env: Env, t: Tree, x: Tree) {
    || Contains(t, x)
    || (x.Text? && exists s :: Contains(t, Text(s)) && env.interpolate(s) == Some(x.s))
    || (exists p :: Contains(t, Text(p)) && env.resolve(p).Resolved? && Contains(env.resolve(p).value, x))
    || (x.Nil? && exists p :: Contains(t, Text(p)) && env.resolve(p).Unresolved?)
  }

  lemma FromUp(env: Env, inner: Tree, outer: Tree, x: Tree)
    requires From(env, inner, x) && forall y :: Contains(inner, y) ==> Contains(outer, y)
    ensures From(env, outer, x)
  {
    hide Contains;
  }

  lemma FromField(env: Env, fs: map<string, Tree>, k: string, x: Tree)
    requires k in fs && From(env, fs[k], x)
    ensures From(env, Obj(fs), x)
  {
    hide Contains, From;
    forall y | Contains(fs[k], y)
      ensures Contains(Obj(fs), y)
    {
      ContainsField(fs, k, y);
    }
    FromUp(env, fs[k], Obj(fs), x);
  }

  lemma FromElement(env: Env, ts: seq<Tree>, i: nat, x: Tree)
    requires i < |ts| && From(env, ts[i], x)
    ensures From(env, Arr(ts), x)
  {
    hide Contains, From;
    forall y | Contains(ts[i], y)
      ensures Contains(Arr(ts), y)
    {
      ContainsElement(ts, i, y);
    }
    FromUp(env, ts[i], Arr(ts), x);
  }

  /** Every plain value in what an entry renders to comes from the entry. */
  lemma {:induction false} NothingInvented(env: Env, t: Tree, path: seq<Step>, x: Tree)
    requires !x.Obj? && !x.Arr? && Alone(RenderEntry(env, t)).Some?
    requires TreeAt(Alone(RenderEntry(env, t)).value, path) == Some(x)
    ensures From(env, t, x)
    decreases t, 1
  {
    hide RenderEntry, From, TreeAt;
    if !t.Obj? {
      PlainRule(env, t);
      StoredFrom(env, t, path, x);
    } else {
      MapFrom(env, t.fields, path, x);
    }
  }

  lemma StoredFrom(env: Env, t: Tree, path: seq<Step>, x: Tree)
    requires TreeAt(t, path) == Some(x)
    ensures From(env, t, x)
  {
    hide TreeAt;
    assert Contains(t, x);
  }

  lemma AnswerFrom(env: Env, val: map<string, Tree>, path: seq<Step>, x: Tree)
    requires "path" in val && val["path"].Text?
    requires match env.resolve(val["path"].s)
             case NoAnswer => false
             case Unresolved => TreeAt(Nil, path) == Some(x)
             case Resolved(t) => TreeAt(t, path) == Some(x)
    ensures From(env, Obj(val), x)
  {
    ContainsItself(val["path"]);
    ContainsField(val, "path", val["path"]);
    var p := val["path"].s;
    if env.resolve(p).Resolved? {
      assert Contains(env.resolve(p).value, x);
    }
    assert Contains(Obj(val), Text(p));
  }

  lemma InterpolationFrom(env: Env, val: map<string, Tree>, path: seq<Step>, x: Tree)
    requires "value" in val && val["value"].Text?
    requires match env.interpolate(val["value"].s)
             case None => TreeAt(val["value"], path) == Some(x)
             case Some(s) => TreeAt(Text(s), path) == Some(x)
    ensures From(env, Obj(val), x)
  {
    ContainsItself(val["value"]);
    ContainsField(val, "value", val["value"]);
    assert path == [];
  }

  lemma {:induction false} MapFrom(env: Env, val: map<string, Tree>, path: seq<Step>, x: Tree)
    requires !x.Obj? && !x.Arr? && Alone(RenderEntry(env, Obj(val))).Some?
    requires TreeAt(Alone(RenderEntry(env, Obj(val))).value, path) == Some(x)
    ensures From(env, Obj(val), x)
    decreases Obj(val), 0
  {
    hide RenderEntry, From, TreeAt, RenderFields, RenderItems;
    if "type" !in val || val["type"] == Text("object") {
      ObjectRule(env, val);
      if "value" in val && val["value"].Obj? {
        FieldsFrom(env, val["value"].fields, false, path, x);
        FromField(env, val, "value", x);
      } else {
        StoredFrom(env, Obj(val), path, x);
      }
    } else if val["type"] == Text("array") {
      ArrayRule(env, val);
      ItemsFrom(env, val["value"].items, path, x);
      FromField(env, val, "value", x);
    } else if val["type"] == Text("bool") {
      BoolRule(env, val);
      StoredFrom(env, val["value"], path, x);
      FromField(env, val, "value", x);
    } else if val["type"] != Text("string") && val["type"] != Text("number") {
      OtherRule(env, val);
      StoredFrom(env, Obj(val), path, x);
    } else if "path" in val {
      PathRule(env, val);
      AnswerFrom(env, val, path, x);
    } else if val["type"] == Text("number") {
      NumberRule(env, val);
    } else {
      StringRule(env, val);
      InterpolationFrom(env, val, path, x);
    }
  }

  lemma {:induction false} FieldsFrom(env: Env, fields: map<string, Tree>, dropIf: bool, path: seq<Step>, x: Tree)
    requires !x.Obj? && !x.Arr? && TreeAt(Obj(RenderFields(env, fields, dropIf)), path) == Some(x)
    ensures From(env, Obj(fields), x)
    decreases Obj(fields), 2
  {
    hide RenderEntry, From, RenderFields;
    assert path != [] && path[0].Field?;
    var k := path[0].k;
    FieldRule(env, fields, dropIf, k);
    NothingInvented(env, fields[k], path[1..], x);
    FromField(env, fields, k, x);
  }

  lemma {:induction false} ItemsFrom(env: Env, items: seq<Tree>, path: seq<Step>, x: Tree)
    requires !x.Obj? && !x.Arr? && TreeAt(Arr(RenderItems(env, items)), path) == Some(x)
    ensures From(env, Arr(items), x)
    decreases Arr(items), 2
  {
    hide From, RenderFields;
    assert path != [] && path[0].Element?;
    var i := ItemFrom(env, items, path[0].i);
    assert items[i] < Arr(items);
    FieldsFrom(env, items[i].fields, true, path[1..], x);
    FromElement(env, items, i, x);
  }

  /** Each rendered element comes from an element. */
  lemma {:induction false} ItemFrom(env: Env, items: seq<Tree>, n: nat) returns (i: nat)
    requires n < |RenderItems(env, items)|
    ensures i < |items| && items[i].Obj? && RenderItems(env, items)[n] == Obj(RenderFields(env, items[i].fields, true))
  {
    hide RenderFields;
    if items[0].Obj? && !Excluded(env, items[0].fields) {
      if n == 0 {
        i := 0;
      } else {
        i := ItemFrom(env, items[1..], n - 1);
        i := i + 1;
      }
    } else {
      i := ItemFrom(env, items[1..], n);
      i := i + 1;
    }
  }

  /** Every plain value under a key of a result comes from what some template holds under that key. */
  lemma {:induction false} ResultFrom(env: Env, specs: seq<map<string, Tree>>, k: string, path: seq<Step>, x: Tree)
    returns (i: nat)
    requires !x.Obj? && !x.Arr? && k in Combine(env, specs) && TreeAt(Combine(env, specs)[k].value, path) == Some(x)
    ensures i < |specs| && k in specs[i] && From(env, specs[i][k], x)
  {
    hide RenderEntry, From, TreeAt, IsIf;
    var n := |specs| - 1;
    var before, w := At(Combine(env, specs[..n]), k), SpecWrite(env, specs[n], k);
    KeyRule(env, specs[n], k);
    if w.Nothing? || (w.Fields? && before.Some? && before.value.value.Obj? &&
                      TreeAt(before.value.value, path) == Some(x)) {
      i := ResultFrom(env, specs[..n], k, path, x);
    } else {
      i := n;
      if w.Fields? && before.Some? && before.value.value.Obj? {
        MergedAt(before.value.value.fields, w.fields, path, x);
      }
      NothingInvented(env, specs[n][k], path, x);
    }
  }

  lemma MergedAt(a: map<string, Tree>, b: map<string, Tree>, path: seq<Step>, x: Tree)
    requires !x.Obj? && TreeAt(Obj(a + b), path) == Some(x)
    ensures TreeAt(Obj(a), path) == Some(x) || TreeAt(Obj(b), path) == Some(x)
  {}
}
