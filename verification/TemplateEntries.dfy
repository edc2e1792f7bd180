/** What an update makes of the entry of one template, whatever else the update meets: errors, other templates, a
    cancellation. */
module TemplateEntries {
  import opened CacheTypes
  import opened Collections
  import opened BackgroundCache
  import opened TemplateSources
  import opened TemplateAges

  /** The key has the entry it had, or none as before. */
  ghost predicate SameAt(before: map<Key, Stamped>, after: map<Key, Stamped>, k: Key) {
    (k in before <==> k in after) && (k in before ==> after[k] == before[k])
  }

  ghost predicate ReplacedAt(after: map<Key, Stamped>, k: Key, v: Value, stamp: int) {
    k in after && after[k] == Stamped(v, stamp)
  }

  /** The content, if there is one, parses. */
  predicate Parses(env: Env, content: Option<Content>) {
    content.Some? && env.parse(content.value).Some?
  }

  /** The error has been added. */
  ghost predicate Reports(before: seq<Error>, after: seq<Error>, e: Error) {
    before <= after && exists n :: |before| <= n < |after| && after[n] == e
  }

  lemma ReportsLonger(before: seq<Error>, after: seq<Error>, later: seq<Error>)
    requires before <= after <= later
    ensures forall e :: Reports(before, after, e) ==> Reports(before, later, e)
  {
    forall e | Reports(before, after, e)
      ensures Reports(before, later, e)
    {
      var n :| |before| <= n < |after| && after[n] == e;
      assert later[n] == e;
    }
  }

  lemma ReportsLast(before: seq<Error>, after: seq<Error>, e: Error)
    requires before <= after
    ensures Reports(before, after + [e], e)
  {
    assert (after + [e])[|after|] == e;
  }

  // ---- The extension of a file name ----

  /** Stem and extension make up the name; the extension is empty, or a dot and then neither dot nor slash; and it is
      empty only when the last part of the name has no dot. */
  lemma ExtExactly(name: string)
    ensures Stem(name) + Ext(name) == name
    ensures Ext(name) != "" ==> Ext(name)[0] == '.' && forall i :: 1 <= i < |Ext(name)| ==> Ext(name)[i] !in "./"
    ensures Ext(name) == "" ==> NoDot(name)
  {
    ExtParts(name);
    if Ext(name) == "" {
      ExtNone(name);
    }
  }

  /** After every dot there is a slash. */
  predicate NoDot(name: string) {
    forall i :: 0 <= i < |name| && name[i] == '.' ==> exists j :: i < j < |name| && name[j] == '/'
  }

  lemma {:induction false} ExtParts(name: string)
    ensures Ext(name) != "" ==> Ext(name)[0] == '.' && forall i :: 1 <= i < |Ext(name)| ==> Ext(name)[i] !in "./"
  {
    if name != "" && name[|name| - 1] != '/' && name[|name| - 1] != '.' {
      ExtParts(name[..|name| - 1]);
    }
  }

  lemma {:induction false} ExtNone(name: string)
    requires Ext(name) == ""
    ensures NoDot(name)
  {
    if name != "" {
      var init, last := name[..|name| - 1], name[|name| - 1];
      if last == '/' {
        assert name[|name| - 1] == '/';
      } else {
        ExtNone(init);
        forall i | 0 <= i < |name| && name[i] == '.'
          ensures exists j :: i < j < |name| && name[j] == '/'
        {
          assert init[i] == '.';
          var j :| i < j < |init| && init[j] == '/';
          assert name[j] == '/';
        }
      }
    }
  }

  // ---- An update of one template ----

  /** A file of an update of the template `id`: the stem names it, whatever the extension. */
  predicate NamedFile(env: Env, f: File, id: Key) {
    !f.isDir && env.id(Stem(f.name)) == id
  }

  /** The last file that names the template and parses decides its entry, whatever was cached. */
  lemma {:induction false} NamedPassEntry(env: Env, pass: Pass, files: seq<File>, id: Key, stamps: seq<int>, i: nat)
    requires |stamps| == |files| && i < |files| && NamedFile(env, files[i], id) && Parses(env, files[i].content)
    requires forall j :: i < j < |files| ==> !(NamedFile(env, files[j], id) && Parses(env, files[j].content))
    ensures NamedPass(env, pass, files, id, stamps).view ==
            pass.view[id := Stamped(env.parse(files[i].content.value).value, stamps[i])]
  {
    hide Stem;
    var n := |files| - 1;
    if i < n {
      NamedPassEntry(env, pass, files[..n], id, stamps[..n], i);
    } else {
      var before := NamedPass(env, pass, files[..n], id, stamps[..n]).view;
      NamedPassOther(env, pass, files[..n], id, stamps[..n]);
      SameButOne(before, pass.view, id, Stamped(env.parse(files[i].content.value).value, stamps[i]));
    }
  }

  lemma SameButOne(a: map<Key, Stamped>, b: map<Key, Stamped>, k: Key, x: Stamped)
    requires a - {k} == b - {k}
    ensures a[k := x] == b[k := x]
  {
    assert forall l :: l != k ==> (l in a <==> l in a - {k}) && (l in b <==> l in b - {k});
    assert forall l :: l in a - {k} ==> a[l] == (a - {k})[l] && b[l] == (b - {k})[l];
  }

  lemma {:induction false} NamedPassOther(env: Env, pass: Pass, files: seq<File>, id: Key, stamps: seq<int>)
    requires |stamps| == |files|
    ensures NamedPass(env, pass, files, id, stamps).view - {id} == pass.view - {id}
  {
    hide Stem;
    if files != [] {
      NamedPassOther(env, pass, files[..|files| - 1], id, stamps[..|files| - 1]);
    }
  }

  /** Without such a file nothing changes. */
  lemma {:induction false} NamedPassNone(env: Env, pass: Pass, files: seq<File>, id: Key, stamps: seq<int>)
    requires |stamps| == |files|
    requires forall j :: 0 <= j < |files| ==> !(NamedFile(env, files[j], id) && Parses(env, files[j].content))
    ensures NamedPass(env, pass, files, id, stamps).view == pass.view
  {
    hide Stem;
    if files != [] {
      NamedPassNone(env, pass, files[..|files| - 1], id, stamps[..|files| - 1]);
    }
  }

  /** No error is reported exactly when every file that names the template parses. */
  lemma {:induction false} NamedPassClean(env: Env, pass: Pass, files: seq<File>, id: Key, stamps: seq<int>)
    requires |stamps| == |files|
    ensures pass.errs <= NamedPass(env, pass, files, id, stamps).errs
    ensures NamedPass(env, pass, files, id, stamps).errs == pass.errs <==>
            forall j :: 0 <= j < |files| && NamedFile(env, files[j], id) ==> Parses(env, files[j].content)
  {
    hide Stem;
    if files != [] {
      var n := |files| - 1;
      NamedPassClean(env, pass, files[..n], id, stamps[..n]);
      if forall j :: 0 <= j < n && NamedFile(env, files[..n][j], id) ==> Parses(env, files[..n][j].content) {
        forall j | 0 <= j < n && NamedFile(env, files[j], id)
          ensures Parses(env, files[j].content)
        {
          assert files[..n][j] == files[j];
        }
      } else {
        var j :| 0 <= j < n && NamedFile(env, files[..n][j], id) && !Parses(env, files[..n][j].content);
        assert files[..n][j] == files[j];
      }
    }
  }

  // ---- A full update ----

  /** The stamp of the entry is later than the last write. */
  predicate UpToDate(view: map<Key, Stamped>, k: Key, writtenAt: int) {
    k in view && writtenAt < view[k].time
  }

  /** What a directory pass makes of the entry of a template with one file, errors or not: it is replaced by the parse
      exactly when the file parses and, if there is an entry, was written no earlier than its stamp; a file that
      cannot be asked, read or parsed is reported and leaves the entry as it was. */
  lemma {:induction false} FilePassDecides(env: Env, pass: Pass, files: seq<File>, stamps: seq<int>, i: nat, k: Key)
    requires |stamps| == |files| && i < |files| && TemplateFile(env, files[i], k)
    requires forall j :: 0 <= j < |files| && j != i ==> !TemplateFile(env, files[j], k)
    ensures var r, f := FilePass(env, pass, files, stamps), files[i];
            && (if k in pass.view && f.modTime.None? then
                  SameAt(pass.view, r.view, k) && Reports(pass.errs, r.errs, StatFailed(f.name))
                else if k in pass.view && UpToDate(pass.view, k, f.modTime.value) then SameAt(pass.view, r.view, k)
                else if f.content.None? then
                  SameAt(pass.view, r.view, k) && Reports(pass.errs, r.errs, ReadFailed(f.name))
                else if env.parse(f.content.value).None? then
                  SameAt(pass.view, r.view, k) && Reports(pass.errs, r.errs, ParseFailed)
                else ReplacedAt(r.view, k, env.parse(f.content.value).value, stamps[i]))
  {
    hide Ext, Stem, Reports;
    var n := |files| - 1;
    var before := FilePass(env, pass, files[..n], stamps[..n]);
    FilePassGrows(env, pass, files[..n], stamps[..n]);
    if i < n {
      FilePassDecides(env, pass, files[..n], stamps[..n], i, k);
      FileStepOther(env, before, files[n], stamps[n], k);
      ReportsLonger(pass.errs, before.errs, FilePass(env, pass, files, stamps).errs);
    } else {
      FilePassOther(env, pass, files[..n], stamps[..n], k);
      ReportsLast(pass.errs, before.errs, StatFailed(files[i].name));
      ReportsLast(pass.errs, before.errs, ReadFailed(files[i].name));
      ReportsLast(pass.errs, before.errs, ParseFailed);
    }
  }

  lemma FileStepOther(env: Env, pass: Pass, f: File, stamp: int, k: Key)
    requires !TemplateFile(env, f, k)
    ensures SameAt(pass.view, FileStep(env, pass, f, stamp).view, k)
    ensures pass.errs <= FileStep(env, pass, f, stamp).errs
  {
    hide Ext, Stem;
  }

  lemma {:induction false} FilePassGrows(env: Env, pass: Pass, files: seq<File>, stamps: seq<int>)
    requires |stamps| == |files|
    ensures pass.errs <= FilePass(env, pass, files, stamps).errs
  {
    hide Ext, Stem;
    if files != [] {
      FilePassGrows(env, pass, files[..|files| - 1], stamps[..|files| - 1]);
    }
  }

  /** What a cursor pass makes of the entry of a document met once, errors or not. */
  lemma {:induction false} DocPassDecides(env: Env, pass: Pass, docs: seq<Doc>, readTime: int, nows: seq<int>, i: nat)
    requires |nows| == |docs| && Alone(docs, i)
    ensures var r, d := DocPass(env, pass, docs, readTime, nows), docs[i];
            var writtenAt := match d.updatedAt { case None => nows[i] case Some(at) => at };
            && (if !d.decodes then SameAt(pass.view, r.view, d.id) && Reports(pass.errs, r.errs, DecodeFailed)
                else if UpToDate(pass.view, d.id, writtenAt) then SameAt(pass.view, r.view, d.id)
                else if env.parse(d.content).None? then
                  SameAt(pass.view, r.view, d.id) && Reports(pass.errs, r.errs, ParseFailed)
                else ReplacedAt(r.view, d.id, env.parse(d.content).value, readTime))
  {
    hide Reports;
    var n := |docs| - 1;
    var before := DocPass(env, pass, docs[..n], readTime, nows[..n]);
    DocPassGrows(env, pass, docs[..n], readTime, nows[..n]);
    if i < n {
      DocPassDecides(env, pass, docs[..n], readTime, nows[..n], i);
      DocStepOther(env, before, docs[n], readTime, nows[n], docs[i].id);
      ReportsLonger(pass.errs, before.errs, DocPass(env, pass, docs, readTime, nows).errs);
    } else {
      DocPassOther(env, pass, docs[..n], readTime, nows[..n], docs[i].id);
      ReportsLast(pass.errs, before.errs, DecodeFailed);
      ReportsLast(pass.errs, before.errs, ParseFailed);
    }
  }

  lemma DocStepOther(env: Env, pass: Pass, d: Doc, readTime: int, now: int, k: Key)
    requires d.id != k
    ensures SameAt(pass.view, DocStep(env, pass, d, readTime, now).view, k)
    ensures pass.errs <= DocStep(env, pass, d, readTime, now).errs
  {}

  lemma {:induction false} DocPassGrows(env: Env, pass: Pass, docs: seq<Doc>, readTime: int, nows: seq<int>)
    requires |nows| == |docs|
    ensures pass.errs <= DocPass(env, pass, docs, readTime, nows).errs
  {
    if docs != [] {
      DocPassGrows(env, pass, docs[..|docs| - 1], readTime, nows[..|docs| - 1]);
    }
  }

  /** The entry of the file's template: replaced by the parse exactly when the file can be asked, read and parsed and
      was written no earlier than the stamp there; untouched otherwise. */
  ghost predicate FileDecides(env: Env, before: map<Key, Stamped>, after: map<Key, Stamped>, f: File, k: Key,
                              stamp: int)
  {
    if (k in before ==> f.modTime.Some? && !UpToDate(before, k, f.modTime.value)) && Parses(env, f.content)
    then ReplacedAt(after, k, env.parse(f.content.value).value, stamp)
    else SameAt(before, after, k)
  }

  /** The same of a document; `now` stands in for a missing date. */
  ghost predicate DocDecides(env: Env, before: map<Key, Stamped>, after: map<Key, Stamped>, d: Doc, stamp: int,
                             now: int)
  {
    if d.decodes && !UpToDate(before, d.id, match d.updatedAt { case None => now case Some(at) => at })
       && env.parse(d.content).Some?
    then ReplacedAt(after, d.id, env.parse(d.content).value, stamp)
    else SameAt(before, after, d.id)
  }

  /** No template file that a directory pass could meet is for the key. */
  ghost predicate NoFile(local: Env, a: Answers, k: Key) {
    a.dir.Some? ==> forall j :: 0 <= j < |a.dir.value| ==> !TemplateFile(local, a.dir.value[j], k)
  }

  ghost predicate NoDoc(a: Answers, k: Key) {
    a.cursor.Some? ==> forall j :: 0 <= j < |a.cursor.value| ==> a.cursor.value[j].id != k
  }

  /** The pass over Mongo leaves a key no document has as it was, and so does the one over the directory a key no
      file is for; the latter is not made when Mongo has reported no error. */
  lemma PartsUntouched(mongo: Env, local: Env, before: map<Key, Stamped>, after: map<Key, Stamped>,
                       start: int, end: int, a: Answers, c: Course, k: Key)
    requires Updates(mongo, local, before, after, start, end, a, c)
    ensures NoDoc(a, k) ==> SameAt(before, c.middle, k)
    ensures c.mongoErrs == [] || NoFile(local, a, k) ==> SameAt(c.middle, after, k)
  {
    hide DocPass, FilePass, TemplateFile;
    if NoDoc(a, k) && a.cursor.Some? {
      DocPassOther(mongo, Pass(before, []), a.cursor.value, start, c.nows, k);
    }
    if NoFile(local, a, k) && a.dir.Some? && c.mongoErrs != [] {
      FilePassOther(local, Pass(c.middle, []), a.dir.value[..|c.stamps|], c.stamps, k);
    }
  }

  /** What the pass over Mongo makes of the template of a document, in the cache between the two passes; with no
      directory pass, or no file for it, that is what the update leaves. */
  lemma UpdateOfDoc(mongo: Env, local: Env, before: map<Key, Stamped>, after: map<Key, Stamped>,
                    start: int, end: int, a: Answers, c: Course, i: nat)
    requires Updates(mongo, local, before, after, start, end, a, c) && a.cursor.Some? && Alone(a.cursor.value, i)
    ensures |c.nows| == |a.cursor.value| && DocDecides(mongo, before, c.middle, a.cursor.value[i], start, c.nows[i])
    ensures c.mongoErrs == [] || NoFile(local, a, a.cursor.value[i].id) ==>
              DocDecides(mongo, before, after, a.cursor.value[i], start, c.nows[i])
  {
    hide DocPass, FilePass, TemplateFile, NoFile, NoDoc;
    PartsUntouched(mongo, local, before, after, start, end, a, c, a.cursor.value[i].id);
    DocPassDecides(mongo, Pass(before, []), a.cursor.value, start, c.nows, i);
  }

  /** What the pass over the directory, made when Mongo has reported an error, makes of the template of a file it comes
      to, on top of what Mongo stored. */
  lemma UpdateOfFile(mongo: Env, local: Env, before: map<Key, Stamped>, after: map<Key, Stamped>,
                     start: int, end: int, a: Answers, c: Course, i: nat, k: Key)
    requires Updates(mongo, local, before, after, start, end, a, c) && c.mongoErrs != [] && a.dir.Some?
    requires i < |c.stamps| && i < |a.dir.value| && TemplateFile(local, a.dir.value[i], k)
    requires forall j :: 0 <= j < |a.dir.value| && j != i ==> !TemplateFile(local, a.dir.value[j], k)
    ensures FileDecides(local, c.middle, after, a.dir.value[i], k, c.stamps[i])
    ensures NoDoc(a, k) ==> FileDecides(local, before, after, a.dir.value[i], k, c.stamps[i])
  {
    hide DocPass, FilePass, TemplateFile, NoFile, NoDoc;
    PartsUntouched(mongo, local, before, after, start, end, a, c, k);
    FilePassDecides(local, Pass(c.middle, []), a.dir.value[..|c.stamps|], c.stamps, i, k);
  }

  /** A cancellation ends the pass over the directory before the file, and is all it reports. */
  lemma UpdateCancelled(mongo: Env, local: Env, before: map<Key, Stamped>, after: map<Key, Stamped>,
                        start: int, end: int, a: Answers, c: Course, i: nat)
    requires Updates(mongo, local, before, after, start, end, a, c) && c.mongoErrs != [] && a.dir.Some?
    requires i < |a.dir.value| && a.cancelled(i)
    ensures |c.stamps| <= i && c.dirErrs == [Cancelled]
  {
    hide MongoPart, FilePass;
  }

  /** When Mongo has reported an error and the directory cannot be listed either, that is reported too, and the cache
      stays as the pass over Mongo left it. */
  lemma UpdateUnlisted(mongo: Env, local: Env, before: map<Key, Stamped>, after: map<Key, Stamped>,
                       start: int, end: int, a: Answers, c: Course)
    requires Updates(mongo, local, before, after, start, end, a, c) && c.mongoErrs != [] && a.dir.None?
    ensures c.dirErrs == [ReadDirFailed] && after == c.middle
    ensures a.cursor.None? ==> c.mongoErrs == [FindFailed] && after == before
  {
    hide DocPass, FilePass;
  }

  // ---- What an update of one template stores ----

  /** The last file that names the template and parses. */
  ghost predicate LastParsing(env: Env, files: seq<File>, id: Key, i: nat) {
    && i < |files| && NamedFile(env, files[i], id) && Parses(env, files[i].content)
    && forall j :: i < j < |files| ==> !(NamedFile(env, files[j], id) && Parses(env, files[j].content))
  }

  /** That file decides the entry, under the clock reading taken before it was read, whatever was cached; without one
      nothing changes. */
  ghost predicate DirGives(env: Env, before: map<Key, Stamped>, after: map<Key, Stamped>, files: seq<File>, id: Key,
                           stamps: seq<int>)
  {
    && |stamps| == |files|
    && (forall i: nat :: LastParsing(env, files, id, i) ==>
          after == before[id := Stamped(env.parse(files[i].content.value).value, stamps[i])])
    && ((forall i: nat :: !LastParsing(env, files, id, i)) ==> after == before)
  }

  /** An update of one template stores the parse of the document, under the stamp from before the query, or else what
      the files give. */
  ghost predicate NamedGives(mongo: Env, local: Env, before: map<Key, Stamped>, after: map<Key, Stamped>,
                             start: int, id: Key, a: Named, stamps: seq<int>)
  {
    if Parses(mongo, a.found) then after == before[id := Stamped(mongo.parse(a.found.value).value, start)]
    else
      match a.dir
      case None => after == before
      case Some(files) => |stamps| <= |files| && DirGives(local, before, after, files[..|stamps|], id, stamps)
  }

  lemma NamedPassGives(env: Env, view: map<Key, Stamped>, files: seq<File>, id: Key, stamps: seq<int>)
    requires |stamps| == |files|
    ensures DirGives(env, view, NamedPass(env, Pass(view, []), files, id, stamps).view, files, id, stamps)
  {
    hide NamedPass, NamedFile;
    var after := NamedPass(env, Pass(view, []), files, id, stamps).view;
    forall i: nat | LastParsing(env, files, id, i)
      ensures after == view[id := Stamped(env.parse(files[i].content.value).value, stamps[i])]
    {
      NamedPassEntry(env, Pass(view, []), files, id, stamps, i);
    }
    if forall i: nat :: !LastParsing(env, files, id, i) {
      NoneParsing(env, files, id, |files|);
      NamedPassNone(env, Pass(view, []), files, id, stamps);
    }
  }

  lemma {:induction false} NoneParsing(env: Env, files: seq<File>, id: Key, m: nat)
    requires m <= |files| && forall i: nat :: !LastParsing(env, files, id, i)
    requires forall j :: m <= j < |files| ==> !(NamedFile(env, files[j], id) && Parses(env, files[j].content))
    ensures forall j :: 0 <= j < |files| ==> !(NamedFile(env, files[j], id) && Parses(env, files[j].content))
    decreases m
  {
    hide NamedFile, Parses;
    if m > 0 {
      assert !LastParsing(env, files, id, m - 1);
      NoneParsing(env, files, id, m - 1);
    }
  }

  /** The update reports one error only, that of Mongo, exactly when every file that names the template parses. */
  lemma IncrementStores(mongo: Env, local: Env, before: map<Key, Stamped>, after: map<Key, Stamped>,
                        start: int, end: int, id: Key, a: Named, errs: seq<Error>, stamps: seq<int>)
    requires Increments(mongo, local, before, after, start, end, id, a, errs, stamps)
    ensures NamedGives(mongo, local, before, after, start, id, a, stamps)
    ensures !Parses(mongo, a.found) && a.dir.Some? && (forall i: nat :: i < |a.dir.value| ==> !a.cancelled(i)) ==>
              |stamps| == |a.dir.value| &&
              (|errs| == 1 <==>
               forall j :: 0 <= j < |stamps| && NamedFile(local, a.dir.value[j], id) ==>
                 Parses(local, a.dir.value[j].content))
  {
    hide NamedPass, NamedFile, DirGives;
    if !Parses(mongo, a.found) && a.dir.Some? {
      var n := |stamps|;
      var files := a.dir.value[..n];
      NamedPassGives(local, before, files, id, stamps);
      NamedPassClean(local, Pass(before, []), files, id, stamps);
      assert n == |a.dir.value| ==> files == a.dir.value;
    }
  }
}
