/** How long a template can be missing from the background cache, and when a live one goes missing. */
module TemplateAges {
  import opened CacheTypes
  import opened Collections
  import opened BackgroundCache
  import opened TemplateSources

  /** `after` keeps every key of `before`; what it changes or adds is stamped at `from` or later. */
  ghost predicate Renews(before: map<Key, Stamped>, after: map<Key, Stamped>, from: int) {
    && (forall k <- before :: k in after)
    && AddedSince(before, after, from)
  }

  lemma RenewsTransitive(a: map<Key, Stamped>, b: map<Key, Stamped>, c: map<Key, Stamped>, from: int)
    requires Renews(a, b, from) && Renews(b, c, from)
    ensures Renews(a, c, from)
  {}

  /** What `after` holds was in `before` or is stamped at `from` or later. */
  ghost predicate AddedSince(before: map<Key, Stamped>, after: map<Key, Stamped>, from: int) {
    forall k <- after :: (k in before && after[k] == before[k]) || after[k].time >= from
  }

  lemma AddedTransitive(a: map<Key, Stamped>, b: map<Key, Stamped>, c: map<Key, Stamped>, from: int, later: int)
    requires AddedSince(a, b, from) && AddedSince(b, c, later) && from <= later
    ensures AddedSince(a, c, from)
  {}

  lemma AddedSame(view: map<Key, Stamped>, from: int)
    ensures AddedSince(view, view, from)
  {}

  lemma {:induction false} FilePassRenews(env: Env, pass: Pass, files: seq<File>, stamps: seq<int>, from: int)
    requires |stamps| == |files| && forall i :: 0 <= i < |stamps| ==> from <= stamps[i]
    ensures Renews(pass.view, FilePass(env, pass, files, stamps).view, from)
    ensures pass.errs <= FilePass(env, pass, files, stamps).errs
  {
    if files != [] {
      var n := |files| - 1;
      FilePassRenews(env, pass, files[..n], stamps[..n], from);
    }
  }

  lemma {:induction false} NamedPassRenews(env: Env, pass: Pass, files: seq<File>, id: Key, stamps: seq<int>, from: int)
    requires |stamps| == |files| && forall i :: 0 <= i < |stamps| ==> from <= stamps[i]
    ensures Renews(pass.view, NamedPass(env, pass, files, id, stamps).view, from)
    ensures NamedPass(env, pass, files, id, stamps).view - {id} == pass.view - {id}
  {
    if files != [] {
      var n := |files| - 1;
      NamedPassRenews(env, pass, files[..n], id, stamps[..n], from);
    }
  }

  lemma {:induction false} DocPassRenews(env: Env, pass: Pass, docs: seq<Doc>, readTime: int, nows: seq<int>, from: int)
    requires |nows| == |docs| && from <= readTime
    ensures Renews(pass.view, DocPass(env, pass, docs, readTime, nows).view, from)
    ensures pass.errs <= DocPass(env, pass, docs, readTime, nows).errs
  {
    if docs != [] {
      var n := |docs| - 1;
      DocPassRenews(env, pass, docs[..n], readTime, nows[..n], from);
    }
  }

  /** An error-free update was error-free before its last file, and that file takes no key away. */
  lemma FilePassClean(env: Env, pass: Pass, files: seq<File>, stamps: seq<int>)
    requires |stamps| == |files| && files != []
    requires FilePass(env, pass, files, stamps).errs == pass.errs
    ensures var n := |files| - 1;
            var before := FilePass(env, pass, files[..n], stamps[..n]);
            before.errs == pass.errs && FilePass(env, pass, files, stamps) == FileStep(env, before, files[n], stamps[n])
  {
    hide Ext, Stem, Renews;
    var n := |files| - 1;
    FilePassRenews(env, pass, files[..n], stamps[..n], LeastOf(stamps));
    assert FilePass(env, pass, files[..n], stamps[..n]).errs <= FilePass(env, pass, files, stamps).errs;
  }

  /** The file is a template file for `k`. */
  predicate TemplateFile(env: Env, f: File, k: Key) {
    !f.isDir && Ext(f.name) == ".yaml" && env.id(Stem(f.name)) == k
  }

  /** After an error-free full update from the directory every template file has its entry. */
  lemma {:induction false} FilePassPresent(env: Env, pass: Pass, files: seq<File>, stamps: seq<int>, i: nat, k: Key)
    requires |stamps| == |files| && i < |files| && TemplateFile(env, files[i], k)
    requires FilePass(env, pass, files, stamps).errs == pass.errs
    ensures k in FilePass(env, pass, files, stamps).view
  {
    hide FilePass, Ext, Stem;
    FilePassClean(env, pass, files, stamps);
    var n := |files| - 1;
    if i < n {
      FilePassPresent(env, pass, files[..n], stamps[..n], i, k);
    }
  }

  /** Some instant before all the given ones. */
  ghost function LeastOf(stamps: seq<int>): (low: int)
    ensures forall i :: 0 <= i < |stamps| ==> low <= stamps[i]
  {
    if stamps == [] then 0
    else
      var low, last := LeastOf(stamps[..|stamps| - 1]), stamps[|stamps| - 1];
      if low <= last then low else last
  }

  /** After an error-free full update from Mongo every document has its entry. */
  lemma {:induction false} DocPassPresent(env: Env, pass: Pass, docs: seq<Doc>, readTime: int, nows: seq<int>, i: nat)
    requires |nows| == |docs| && i < |docs|
    requires DocPass(env, pass, docs, readTime, nows).errs == pass.errs
    ensures docs[i].id in DocPass(env, pass, docs, readTime, nows).view
  {
    var n := |docs| - 1;
    DocPassRenews(env, pass, docs[..n], readTime, nows[..n], readTime);
    if i < n {
      DocPassPresent(env, pass, docs[..n], readTime, nows[..n], i);
    }
  }

  // ---- Two consecutive ticks ----

  /** A key absent when one tick ended, at `previous`, and stamped since if it was added since, is present after
      the next tick when that tick's pass over the directory (made when Mongo has failed) reports no error and
      meets the key, and the clean-up examines it no later than ten times the time to live after `previous`. */
  lemma BoundedGapFiles(env: Env, absent: map<Key, Stamped>, before: map<Key, Stamped>, previous: int, ttl: int,
                        files: seq<File>, stamps: seq<int>, i: nat, k: Key, clock: Key -> int)
    requires k !in absent && Renews(absent, before, previous)
    requires |stamps| == |files| && forall j :: 0 <= j < |stamps| ==> previous <= stamps[j]
    requires i < |files| && TemplateFile(env, files[i], k)
    requires FilePass(env, Pass(before, []), files, stamps).errs == []
    requires clock(k) - previous <= 10 * ttl
    ensures k in Unexpired(FilePass(env, Pass(before, []), files, stamps).view, 10 * ttl, clock)
  {
    FilePassPresent(env, Pass(before, []), files, stamps, i, k);
    FilePassRenews(env, Pass(before, []), files, stamps, previous);
    RenewsTransitive(absent, before, FilePass(env, Pass(before, []), files, stamps).view, previous);
  }

  lemma BoundedGapDocs(env: Env, absent: map<Key, Stamped>, before: map<Key, Stamped>, previous: int, ttl: int,
                       docs: seq<Doc>, readTime: int, nows: seq<int>, i: nat, clock: Key -> int)
    requires i < |docs| && docs[i].id !in absent && Renews(absent, before, previous)
    requires |nows| == |docs| && previous <= readTime
    requires DocPass(env, Pass(before, []), docs, readTime, nows).errs == []
    requires clock(docs[i].id) - previous <= 10 * ttl
    ensures docs[i].id in Unexpired(DocPass(env, Pass(before, []), docs, readTime, nows).view, 10 * ttl, clock)
  {
    DocPassPresent(env, Pass(before, []), docs, readTime, nows, i);
    DocPassRenews(env, Pass(before, []), docs, readTime, nows, previous);
    RenewsTransitive(absent, before, DocPass(env, Pass(before, []), docs, readTime, nows).view, previous);
  }

  // ---- When a live template goes missing ----

  lemma {:induction false} FilePassOther(env: Env, pass: Pass, files: seq<File>, stamps: seq<int>, k: Key)
    requires |stamps| == |files| && forall j :: 0 <= j < |files| ==> !TemplateFile(env, files[j], k)
    ensures k in FilePass(env, pass, files, stamps).view <==> k in pass.view
    ensures k in pass.view ==> FilePass(env, pass, files, stamps).view[k] == pass.view[k]
  {
    if files != [] {
      var n := |files| - 1;
      FilePassOther(env, pass, files[..n], stamps[..n], k);
    }
  }

  /** What a full update makes of the entry of a template with one file: it is kept when the file
      was last written before the stamp, and replaced otherwise. */
  lemma {:induction false} FilePassEntry(env: Env, pass: Pass, files: seq<File>, stamps: seq<int>, i: nat, k: Key)
    requires |stamps| == |files| && i < |files| && TemplateFile(env, files[i], k)
    requires forall j :: 0 <= j < |files| && j != i ==> !TemplateFile(env, files[j], k)
    requires FilePass(env, pass, files, stamps).errs == pass.errs
    ensures var r := FilePass(env, pass, files, stamps).view;
            k in r &&
            if k in pass.view && files[i].modTime.Some? && files[i].modTime.value < pass.view[k].time
            then r[k] == pass.view[k]
            else files[i].content.Some? && env.parse(files[i].content.value).Some? &&
                 r[k] == Stamped(env.parse(files[i].content.value).value, stamps[i])
  {
    hide FilePass, Ext, Stem;
    FilePassClean(env, pass, files, stamps);
    var n := |files| - 1;
    if i < n {
      FilePassEntry(env, pass, files[..n], stamps[..n], i, k);
    } else {
      FilePassOther(env, pass, files[..n], stamps[..n], k);
    }
  }

  /** A template that is in the cache and unchanged in the directory is gone after a tick whose pass over the
      directory reports no error (a tick that Mongo failed) exactly when its stamp, which the update does not
      renew, is over ten times the time to live old. */
  lemma UnchangedVanishes(env: Env, before: map<Key, Stamped>, ttl: int,
                          files: seq<File>, stamps: seq<int>, i: nat, k: Key, clock: Key -> int)
    requires |stamps| == |files| && i < |files| && TemplateFile(env, files[i], k)
    requires forall j :: 0 <= j < |files| && j != i ==> !TemplateFile(env, files[j], k)
    requires FilePass(env, Pass(before, []), files, stamps).errs == []
    requires k in before && files[i].modTime.Some? && files[i].modTime.value < before[k].time
    ensures k !in Unexpired(FilePass(env, Pass(before, []), files, stamps).view, 10 * ttl, clock)
            <==> clock(k) - before[k].time > 10 * ttl
  {
    FilePassEntry(env, Pass(before, []), files, stamps, i, k);
  }

  lemma {:induction false} DocPassOther(env: Env, pass: Pass, docs: seq<Doc>, readTime: int, nows: seq<int>, k: Key)
    requires |nows| == |docs| && forall j :: 0 <= j < |docs| ==> docs[j].id != k
    ensures k in DocPass(env, pass, docs, readTime, nows).view <==> k in pass.view
    ensures k in pass.view ==> DocPass(env, pass, docs, readTime, nows).view[k] == pass.view[k]
  {
    if docs != [] {
      var n := |docs| - 1;
      DocPassOther(env, pass, docs[..n], readTime, nows[..n], k);
    }
  }

  /** The document is dated, and from before the stamp of its entry. */
  predicate Unchanged(d: Doc, view: map<Key, Stamped>) {
    d.id in view && d.updatedAt.Some? && d.updatedAt.value < view[d.id].time
  }

  /** No other document of the list has the id of document `i`. */
  predicate Alone(docs: seq<Doc>, i: nat) {
    i < |docs| && forall j :: 0 <= j < |docs| && j != i ==> docs[j].id != docs[i].id
  }

  /** What a full update makes of the entry of a document, under a stamp from the past: it is kept when the
      document is dated and from before the stamp, and replaced otherwise, so whenever it is not dated. */
  lemma {:induction false} DocPassEntry(env: Env, pass: Pass, docs: seq<Doc>, readTime: int, nows: seq<int>, i: nat)
    requires |nows| == |docs| && Alone(docs, i)
    requires docs[i].id in pass.view ==> pass.view[docs[i].id].time <= nows[i]
    requires DocPass(env, pass, docs, readTime, nows).errs == pass.errs
    ensures var r, k := DocPass(env, pass, docs, readTime, nows).view, docs[i].id;
            k in r &&
            if Unchanged(docs[i], pass.view) then r[k] == pass.view[k]
            else env.parse(docs[i].content).Some? && r[k] == Stamped(env.parse(docs[i].content).value, readTime)
  {
    var n := |docs| - 1;
    DocPassRenews(env, pass, docs[..n], readTime, nows[..n], readTime);
    if i < n {
      DocPassEntry(env, pass, docs[..n], readTime, nows[..n], i);
    } else {
      DocPassOther(env, pass, docs[..n], readTime, nows[..n], docs[i].id);
    }
  }

  /** The stamp of the entry of a document after an update under `readTime`. */
  function StampAfter(d: Doc, before: map<Key, Stamped>, readTime: int): int {
    if Unchanged(d, before) then before[d.id].time else readTime
  }

  /** The template of a document is missing after an error-free tick exactly when the time to live has run out,
      ten times, since its stamp if the document is unchanged, and since the update otherwise. */
  lemma DocVanishes(env: Env, before: map<Key, Stamped>, ttl: int,
                    docs: seq<Doc>, readTime: int, nows: seq<int>, i: nat, clock: Key -> int)
    requires |nows| == |docs| && Alone(docs, i)
    requires docs[i].id in before ==> before[docs[i].id].time <= nows[i]
    requires DocPass(env, Pass(before, []), docs, readTime, nows).errs == []
    ensures var k := docs[i].id;
            k !in Unexpired(DocPass(env, Pass(before, []), docs, readTime, nows).view, 10 * ttl, clock) <==>
            clock(k) - StampAfter(docs[i], before, readTime) > 10 * ttl
  {
    DocPassEntry(env, Pass(before, []), docs, readTime, nows, i);
  }
}
