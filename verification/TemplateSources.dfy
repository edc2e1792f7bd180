/** What filling the background cache from a directory of template files or from a Mongo collection does, file by file
    and document by document, and the fallback from the second to the first. */
module TemplateSources {
  import opened CacheTypes
  import opened Collections
  import opened BackgroundCache

  type Content(!new)

  /** What the updaters need of their surroundings: the template parser, and the conversion of a
      file stem to a template id. */
  datatype Env = Env(parse: Content -> Option<Value>, id: string -> Key)

  /** A directory entry, with what asking for its modification time and reading it gave. */
  datatype File = File(name: string, isDir: bool, modTime: Option<int>, content: Option<Content>)

  /** A document met by a cursor; `updatedAt` is None for the zero time. */
  datatype Doc = Doc(decodes: bool, id: Key, content: Content, updatedAt: Option<int>)

  datatype Error =
    | StatFailed(file: string)
    | ReadFailed(file: string)
    | ParseFailed
    | DecodeFailed
    | CursorFailed
    | FindFailed
    | ReadDirFailed
    | Cancelled

  /** The content of the cache and the errors gathered. */
  datatype Pass = Pass(view: map<Key, Stamped>, errs: seq<Error>)

  /** The extension of a file name: from its last dot on, or nothing. */
  function Ext(name: string): (e: string)
    ensures |e| <= |name| && e == name[|name| - |e|..]
  {
    if name == "" || name[|name| - 1] == '/' then ""
    else if name[|name| - 1] == '.' then "."
    else
      var e := Ext(name[..|name| - 1]);
      if e == "" then "" else e + [name[|name| - 1]]
  }

  function Stem(name: string): string {
    name[..|name| - |Ext(name)|]
  }

  /** Stores the parsed content, or reports why it cannot. */
  function Load(env: Env, pass: Pass, k: Key, content: Content, stamp: int): Pass {
    match env.parse(content)
    case None => pass.(errs := pass.errs + [ParseFailed])
    case Some(v) => pass.(view := pass.view[k := Stamped(v, stamp)])
  }

  function LoadFile(env: Env, pass: Pass, k: Key, f: File, stamp: int): Pass {
    match f.content
    case None => pass.(errs := pass.errs + [ReadFailed(f.name)])
    case Some(content) => Load(env, pass, k, content, stamp)
  }

  /** One file of a full update; `stamp` is the clock reading taken before the file is read. */
  function FileStep(env: Env, pass: Pass, f: File, stamp: int): Pass {
    var k := env.id(Stem(f.name));
    if f.isDir || Ext(f.name) != ".yaml" then pass
    else if k in pass.view && f.modTime.None? then pass.(errs := pass.errs + [StatFailed(f.name)])
    else if k in pass.view && f.modTime.value < pass.view[k].time then pass
    else LoadFile(env, pass, k, f, stamp)
  }

  function FilePass(env: Env, pass: Pass, files: seq<File>, stamps: seq<int>): Pass
    requires |stamps| == |files|
  {
    if files == [] then pass
    else
      var n := |files| - 1;
      FileStep(env, FilePass(env, pass, files[..n], stamps[..n]), files[n], stamps[n])
  }

  /** One file of an incremental update of the template `id`. */
  function NamedStep(env: Env, pass: Pass, f: File, id: Key, stamp: int): Pass {
    if f.isDir || env.id(Stem(f.name)) != id then pass
    else LoadFile(env, pass, id, f, stamp)
  }

  function NamedPass(env: Env, pass: Pass, files: seq<File>, id: Key, stamps: seq<int>): Pass
    requires |stamps| == |files|
  {
    if files == [] then pass
    else
      var n := |files| - 1;
      NamedStep(env, NamedPass(env, pass, files[..n], id, stamps[..n]), files[n], id, stamps[n])
  }

  /** One document of a full update; `now` stands in for a missing update time. */
  function DocStep(env: Env, pass: Pass, d: Doc, readTime: int, now: int): Pass {
    var updatedAt := if d.updatedAt.None? then now else d.updatedAt.value;
    if !d.decodes then pass.(errs := pass.errs + [DecodeFailed])
    else if d.id in pass.view && updatedAt < pass.view[d.id].time then pass
    else Load(env, pass, d.id, d.content, readTime)
  }

  function DocPass(env: Env, pass: Pass, docs: seq<Doc>, readTime: int, nows: seq<int>): Pass
    requires |nows| == |docs|
  {
    if docs == [] then pass
    else
      var n := |docs| - 1;
      DocStep(env, DocPass(env, pass, docs[..n], readTime, nows[..n]), docs[n], readTime, nows[n])
  }

  /** A whole full update from a cursor, which may fail once its documents are used up. */
  function CursorPass(env: Env, pass: Pass, docs: seq<Doc>, fails: bool, readTime: int, nows: seq<int>): Pass
    requires |nows| == |docs|
  {
    var r := DocPass(env, pass, docs, readTime, nows);
    if fails then r.(errs := r.errs + [CursorFailed]) else r
  }

  /** Successive clock readings, from `start` on. */
  ghost predicate Readings(stamps: seq<int>, start: int, end: int) {
    && start <= end
    && (forall i :: 0 <= i < |stamps| ==> start <= stamps[i] <= end)
    && (forall i, j :: 0 <= i < j < |stamps| ==> stamps[i] <= stamps[j])
  }

  /** A loop over `n` items that stops at the first it finds the context cancelled before gets as far as `done`. */
  ghost predicate StopsAt(n: nat, cancelled: nat -> bool, done: nat) {
    done <= n && (forall i: nat :: i < done ==> !cancelled(i)) && (done < n ==> cancelled(done))
  }

  // ---- A whole update, from both sources ----

  /** What the sources answer during one full update, and before which files the context is cancelled. */
  datatype Answers = Answers(cursor: Option<seq<Doc>>, cursorFails: bool, dir: Option<seq<File>>,
                             cancelled: nat -> bool)

  /** How a full update went: the clock readings at the documents and at the files, what the cache held between
      the two passes, and the errors of each. */
  datatype Course = Course(nows: seq<int>, stamps: seq<int>, middle: map<Key, Stamped>,
                           mongoErrs: seq<Error>, dirErrs: seq<Error>)

  /** The pass over Mongo, whose one stamp is `start`. */
  ghost predicate MongoPart(env: Env, before: map<Key, Stamped>, a: Answers, start: int, end: int, c: Course) {
    match a.cursor
    case None => c.middle == before && c.mongoErrs == [FindFailed]
    case Some(docs) =>
      && |c.nows| == |docs| && Readings(c.nows, start, end)
      && Pass(c.middle, c.mongoErrs) == CursorPass(env, Pass(before, []), docs, a.cursorFails, start, c.nows)
  }

  /** The pass over the directory, made exactly when Mongo has reported an error, on top of what Mongo stored. */
  ghost predicate DirPart(env: Env, after: map<Key, Stamped>, a: Answers, start: int, end: int, c: Course) {
    if c.mongoErrs == [] then after == c.middle && c.dirErrs == []
    else
      match a.dir
      case None => after == c.middle && c.dirErrs == [ReadDirFailed]
      case Some(files) =>
        var n := |c.stamps|;
        && StopsAt(|files|, a.cancelled, n) && Readings(c.stamps, start, end)
        && after == FilePass(env, Pass(c.middle, []), files[..n], c.stamps).view
        && c.dirErrs == if n < |files| then [Cancelled] else FilePass(env, Pass(c.middle, []), files, c.stamps).errs
  }

  /** A full update takes `before` to `after`. */
  ghost predicate Updates(mongo: Env, local: Env, before: map<Key, Stamped>, after: map<Key, Stamped>,
                          start: int, end: int, a: Answers, c: Course)
  {
    start <= end && MongoPart(mongo, before, a, start, end, c) && DirPart(local, after, a, start, end, c)
  }

  /** What an update of one template finds: the Mongo document, or the directory, and the cancellations. */
  datatype Named = Named(found: Option<Content>, dir: Option<seq<File>>, cancelled: nat -> bool)

  /** An update of the template `id` takes `before` to `after`; `stamps` are the clock readings at the files. */
  ghost predicate Increments(mongo: Env, local: Env, before: map<Key, Stamped>, after: map<Key, Stamped>,
                             start: int, end: int, id: Key, a: Named, errs: seq<Error>, stamps: seq<int>)
  {
    && start <= end
    && if a.found.Some? && mongo.parse(a.found.value).Some? then
         after == before[id := Stamped(mongo.parse(a.found.value).value, start)] && errs == []
       else
         var mongoErr := if a.found.None? then FindFailed else ParseFailed;
         match a.dir
         case None => after == before && errs == [mongoErr, ReadDirFailed]
         case Some(files) =>
           var n := |stamps|;
           && StopsAt(|files|, a.cancelled, n) && Readings(stamps, start, end)
           && after == NamedPass(local, Pass(before, []), files[..n], id, stamps).view
           && errs == [mongoErr] + (if n < |files| then [Cancelled]
                                    else NamedPass(local, Pass(before, []), files, id, stamps).errs)
  }
}
