/** What a list of instructions renders to for one item, as functions on trees. */
module TemplateSemantics {
  import opened Collections
  import opened GoValues

  /** What a path leads to: no answer from a provider, an expression that fails, or a value. */
  datatype Resolution = NoAnswer | Unresolved | Resolved(value: Tree)

  /** The condition, string and path evaluators, for the item being rendered. A condition counts as
      false when it fails. */
  datatype Env = Env(holds: string -> bool, interpolate: string -> Option<string>, resolve: string -> Resolution)

  /** What rendering one key does to the result: nothing, store a value as it is, or contribute the
      fields of an object, to be merged with an object already there. */
  datatype Written = Nothing | Store(value: Tree) | Fields(fields: map<string, Tree>)

  datatype Instruction = Instruction(kind: string, metadata: map<string, Tree>, spec: map<string, Tree>, cond: string)

  predicate IsIf(key: string) {
    Trim(key) == "if"
  }

  /** The value a write leaves under a key that held nothing. */
  function Alone(w: Written): Option<Tree> {
    match w
    case Nothing => None
    case Store(t) => Some(t)
    case Fields(fs) => Some(Obj(fs))
  }

  function RenderPath(env: Env, path: Tree): (w: Written)
    ensures !w.Fields?
  {
    if !path.Text? then Nothing
    else
      match env.resolve(path.s)
      case NoAnswer => Nothing
      case Unresolved => Store(Nil)
      case Resolved(t) => Store(t)
  }

  function RenderString(env: Env, val: map<string, Tree>): (w: Written)
    ensures !w.Fields?
  {
    if "path" in val then RenderPath(env, val["path"])
    else if "value" in val && val["value"].Text? then
      match env.interpolate(val["value"].s)
      case None => Store(val["value"])
      case Some(s) => Store(Text(s))
    else Nothing
  }

  function RenderNumber(env: Env, val: map<string, Tree>): (w: Written)
    ensures !w.Fields?
  {
    if "path" in val then RenderPath(env, val["path"]) else Nothing
  }

  function RenderBool(val: map<string, Tree>): (w: Written)
    ensures !w.Fields? && (w.Store? ==> w.value.Bool?)
  {
    if "value" in val && val["value"].Bool? then Store(val["value"]) else Nothing
  }

  function RenderMap(env: Env, val: map<string, Tree>): Written
    decreases Obj(val), 1
  {
    if "type" !in val then RenderObject(env, val)
    else if val["type"] == Text("string") then RenderString(env, val)
    else if val["type"] == Text("number") then RenderNumber(env, val)
    else if val["type"] == Text("array") then RenderArray(env, val)
    else if val["type"] == Text("bool") then RenderBool(val)
    else if val["type"] == Text("object") then RenderObject(env, val)
    else Store(Obj(val))
  }

  function RenderObject(env: Env, val: map<string, Tree>): Written
    decreases Obj(val), 0
  {
    if "value" in val && val["value"].Obj? then Fields(RenderFields(env, val["value"].fields, false))
    else Store(Obj(val))
  }

  function RenderArray(env: Env, val: map<string, Tree>): (w: Written)
    ensures !w.Fields? && (w.Store? ==> w.value.Arr?)
    decreases Obj(val), 0
  {
    if "value" in val && val["value"].Arr? then Store(Arr(RenderItems(env, val["value"].items))) else Nothing
  }

  function RenderEntry(env: Env, t: Tree): Written
    decreases t, 2
  {
    match t
    case Obj(fs) => RenderMap(env, fs)
    case _ => Store(t)
  }

  /** The fields of a new object; the elements of an array have their `if` fields left out. */
  function RenderFields(env: Env, fields: map<string, Tree>, dropIf: bool): map<string, Tree>
    decreases Obj(fields), 3
  {
    map k | k in fields && !(dropIf && IsIf(k)) && Alone(RenderEntry(env, fields[k])).Some?
      :: Alone(RenderEntry(env, fields[k])).value
  }

  predicate Excluded(env: Env, item: map<string, Tree>) {
    "if" in item && item["if"].Text? && item["if"].s != "" && !env.holds(item["if"].s)
  }

  function RenderItems(env: Env, items: seq<Tree>): seq<Tree>
    decreases items
  {
    if items == [] then []
    else
      var rest := RenderItems(env, items[1..]);
      if items[0].Obj? && !Excluded(env, items[0].fields)
      then [Obj(RenderFields(env, items[0].fields, true))] + rest
      else rest
  }

  // ---- Combining templates ----

  /** A value of the combined result, and whether it is an object this rendering made. */
  datatype Slot = Slot(value: Tree, made: bool)

  type Combined = map<string, Slot>

  function SpecWrite(env: Env, spec: map<string, Tree>, k: string): Written {
    if k in spec && !IsIf(k) then RenderEntry(env, spec[k]) else Nothing
  }

  /** One write to a key: objects merge field by field, anything else replaces what was there. */
  function Put(slot: Option<Slot>, w: Written): Option<Slot> {
    match w
    case Nothing => slot
    case Store(t) => Some(Slot(t, false))
    case Fields(fs) =>
      if slot.Some? && slot.value.value.Obj? then Some(Slot(Obj(slot.value.value.fields + fs), slot.value.made))
      else Some(Slot(Obj(fs), true))
  }

  function At(c: Combined, k: string): Option<Slot> {
    if k in c then Some(c[k]) else None
  }

  function ApplySpec(env: Env, c: Combined, spec: map<string, Tree>): Combined {
    map k | k in c.Keys + spec.Keys && Put(At(c, k), SpecWrite(env, spec, k)).Some?
      :: Put(At(c, k), SpecWrite(env, spec, k)).value
  }

  function Combine(env: Env, specs: seq<map<string, Tree>>): Combined {
    if specs == [] then map[]
    else ApplySpec(env, Combine(env, specs[..|specs| - 1]), specs[|specs| - 1])
  }

  /** Writing `w` to the slot writes no field of an object other than one this rendering made. */
  predicate SafePut(slot: Option<Slot>, w: Written) {
    w.Fields? && w.fields != map[] && slot.Some? && slot.value.value.Obj? ==> slot.value.made
  }

  ghost predicate SafeSpec(env: Env, c: Combined, spec: map<string, Tree>) {
    forall k <- spec :: SafePut(At(c, k), SpecWrite(env, spec, k))
  }

  ghost predicate Safe(env: Env, specs: seq<map<string, Tree>>) {
    specs == [] ||
    var n := |specs| - 1;
    Safe(env, specs[..n]) && SafeSpec(env, Combine(env, specs[..n]), specs[n])
  }

  /** Writing `w` to the slot changes the content of no object other than one this rendering made. */
  predicate QuietPut(slot: Option<Slot>, w: Written) {
    w.Fields? && slot.Some? && slot.value.value.Obj? && !slot.value.made ==>
      slot.value.value.fields + w.fields == slot.value.value.fields
  }

  ghost predicate QuietSpec(env: Env, c: Combined, spec: map<string, Tree>) {
    forall k <- spec :: QuietPut(At(c, k), SpecWrite(env, spec, k))
  }

  ghost predicate Quiet(env: Env, specs: seq<map<string, Tree>>) {
    specs == [] ||
    var n := |specs| - 1;
    Quiet(env, specs[..n]) && QuietSpec(env, Combine(env, specs[..n]), specs[n])
  }

  // ---- Instructions ----

  function ViewNames(env: Env, i: Instruction): set<string> {
    if Trim(i.kind) != "View" || (i.cond != "" && !env.holds(i.cond)) then {}
    else if "template" in i.spec && i.spec["template"].Obj? then TemplateNames(i.spec["template"].fields)
    else {}
  }

  function TemplateNames(fields: map<string, Tree>): set<string> {
    if "templates" in fields && fields["templates"].Arr? then TextsOf(fields["templates"].items) else {}
  }

  function TextsOf(items: seq<Tree>): set<string> {
    if items == [] then {}
    else TextsOf(items[..|items| - 1]) + match items[|items| - 1] { case Text(s) => {s} case _ => {} }
  }

  function SelectedNames(env: Env, instructions: seq<Instruction>): set<string> {
    if instructions == [] then {}
    else SelectedNames(env, instructions[..|instructions| - 1]) + ViewNames(env, instructions[|instructions| - 1])
  }

  function NameOf(i: Instruction): string {
    if "name" in i.metadata && i.metadata["name"].Text? then i.metadata["name"].s else ""
  }

  function SelectedSpecs(instructions: seq<Instruction>, names: set<string>): seq<map<string, Tree>> {
    if instructions == [] then []
    else
      var n := |instructions| - 1;
      var i := instructions[n];
      SelectedSpecs(instructions[..n], names) +
      if Trim(i.kind) == "Template" && NameOf(i) in names then [i.spec] else []
  }

  /** What the selected templates hold, in order. */
  function Selected(env: Env, instructions: seq<Instruction>): seq<map<string, Tree>> {
    SelectedSpecs(instructions, SelectedNames(env, instructions))
  }

  function Adjust(env: Env, instructions: seq<Instruction>): Combined {
    Combine(env, Selected(env, instructions))
  }
}
