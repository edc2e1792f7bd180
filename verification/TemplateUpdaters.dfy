/** The updaters: a directory of template files, a Mongo collection, and the fallback from the second to the first. */
module TemplateUpdaters {
  import opened CacheTypes
  import opened Collections
  import opened BackgroundCache
  import opened TemplateSources
  import opened TemplateAges
  import opened TemplateEntries

  class LocalStorage {
    const env: Env

    constructor (env: Env)
      ensures this.env == env
    {
      this.env := env;
    }

    /** Full update from a directory listing, None when the directory cannot be read. `cancelled` says before
        which files the context is found cancelled: the errors gathered so far are then not reported. */
    method UpdateTemplate(cache: SetGetter, dir: Option<seq<File>>, cancelled: nat -> bool, start: int)
      returns (errs: seq<Error>, end: int, ghost done: nat, ghost stamps: seq<int>)
      requires cache.Valid()
      modifies cache`data, cache`pool, cache`view, cache`owned, cache.owned
      ensures cache.Valid() && fresh(cache.owned - old(cache.owned)) && Readings(stamps, start, end)
      ensures dir.None? ==> errs == [ReadDirFailed] && cache.view == old(cache.view)
      ensures dir.Some? ==> done == |stamps| && StopsAt(|dir.value|, cancelled, done)
      ensures dir.Some? ==> cache.view == FilePass(env, Pass(old(cache.view), []), dir.value[..done], stamps).view
      ensures dir.Some? ==> errs == if done < |dir.value| then [Cancelled]
                                    else FilePass(env, Pass(old(cache.view), []), dir.value[..done], stamps).errs
    {
      hide Represents, FileStep, NamedStep;
      errs, end, done, stamps := [], start, 0, [];
      if dir.None? {
        return [ReadDirFailed], end, done, stamps;
      }
      var files := dir.value;
      ghost var pass := Pass(cache.view, []);
      for i := 0 to |files|
        invariant cache.Valid() && fresh(cache.owned - old(cache.owned))
        invariant done == i == |stamps| && Readings(stamps, start, end) && forall j: nat :: j < i ==> !cancelled(j)
        invariant Pass(cache.view, errs) == FilePass(env, pass, files[..i], stamps)
      {
        if cancelled(i) {
          return [Cancelled], end, done, stamps;
        }
        var readTime: int :| readTime >= end;
        errs := UpdateFile(cache, files[i], readTime, errs);
        end := readTime;
        assert files[..i + 1][..i] == files[..i] && (stamps + [readTime])[..i] == stamps;
        stamps, done := stamps + [readTime], i + 1;
      }
      assert files[..|files|] == files;
    }

    /** One file of a full update; returns the errors gathered so far. */
    method UpdateFile(cache: SetGetter, f: File, readTime: int, errs: seq<Error>) returns (errs': seq<Error>)
      requires cache.Valid()
      modifies cache`data, cache`pool, cache`view, cache`owned, cache.owned
      ensures cache.Valid() && fresh(cache.owned - old(cache.owned))
      ensures Pass(cache.view, errs') == FileStep(env, Pass(old(cache.view), errs), f, readTime)
      ensures forall k :: if TemplateFile(env, f, k) then FileDecides(env, old(cache.view), cache.view, f, k, readTime)
                          else SameAt(old(cache.view), cache.view, k)
    {
      errs' := errs;
      if f.isDir || Ext(f.name) != ".yaml" {
        return;
      }
      var k := env.id(Stem(f.name));
      var last := cache.LastUpdated(k);
      if last.Some? {
        if f.modTime.None? {
          return errs + [StatFailed(f.name)];
        }
        if f.modTime.value < last.value {
          return;
        }
      }
      if f.content.None? {
        return errs + [ReadFailed(f.name)];
      }
      match env.parse(f.content.value)
      case None =>
        errs' := errs + [ParseFailed];
      case Some(v) =>
        cache.Set(k, v, readTime);
    }

    /** Incremental update of one template: every file whose stem names it, whatever its extension. */
    method IncrementalUpdateTemplate(cache: SetGetter, dir: Option<seq<File>>, cancelled: nat -> bool, id: Key,
                                     start: int)
      returns (errs: seq<Error>, end: int, ghost done: nat, ghost stamps: seq<int>)
      requires cache.Valid()
      modifies cache`data, cache`pool, cache`view, cache`owned, cache.owned
      ensures cache.Valid() && fresh(cache.owned - old(cache.owned)) && Readings(stamps, start, end)
      ensures dir.None? ==> errs == [ReadDirFailed] && cache.view == old(cache.view)
      ensures dir.Some? ==> done == |stamps| && StopsAt(|dir.value|, cancelled, done)
      ensures dir.Some? ==> cache.view == NamedPass(env, Pass(old(cache.view), []), dir.value[..done], id, stamps).view
      ensures dir.Some? ==> errs == if done < |dir.value| then [Cancelled]
                                    else NamedPass(env, Pass(old(cache.view), []), dir.value[..done], id, stamps).errs
      ensures dir.Some? ==> DirGives(env, old(cache.view), cache.view, dir.value[..done], id, stamps)
    {
      hide Represents, FileStep, NamedStep, DirGives;
      errs, end, done, stamps := [], start, 0, [];
      if dir.None? {
        return [ReadDirFailed], end, done, stamps;
      }
      var files := dir.value;
      ghost var pass := Pass(cache.view, []);
      for i := 0 to |files|
        invariant cache.Valid() && fresh(cache.owned - old(cache.owned))
        invariant done == i == |stamps| && Readings(stamps, start, end) && forall j: nat :: j < i ==> !cancelled(j)
        invariant Pass(cache.view, errs) == NamedPass(env, pass, files[..i], id, stamps)
      {
        if cancelled(i) {
          NamedPassGives(env, pass.view, files[..i], id, stamps);
          return [Cancelled], end, done, stamps;
        }
        var readTime: int :| readTime >= end;
        errs := UpdateNamed(cache, files[i], id, readTime, errs);
        end := readTime;
        assert files[..i + 1][..i] == files[..i] && (stamps + [readTime])[..i] == stamps;
        stamps, done := stamps + [readTime], i + 1;
      }
      assert files[..|files|] == files;
      NamedPassGives(env, pass.view, files, id, stamps);
    }

    /** One file of an incremental update. */
    method UpdateNamed(cache: SetGetter, f: File, id: Key, readTime: int, errs: seq<Error>) returns (errs': seq<Error>)
      requires cache.Valid()
      modifies cache`data, cache`pool, cache`view, cache`owned, cache.owned
      ensures cache.Valid() && fresh(cache.owned - old(cache.owned))
      ensures Pass(cache.view, errs') == NamedStep(env, Pass(old(cache.view), errs), f, id, readTime)
      ensures cache.view == if NamedFile(env, f, id) && Parses(env, f.content)
                            then old(cache.view)[id := Stamped(env.parse(f.content.value).value, readTime)]
                            else old(cache.view)
    {
      errs' := errs;
      if f.isDir || env.id(Stem(f.name)) != id {
        return;
      }
      if f.content.None? {
        return errs + [ReadFailed(f.name)];
      }
      match env.parse(f.content.value)
      case None =>
        errs' := errs + [ParseFailed];
      case Some(v) =>
        cache.Set(id, v, readTime);
    }
  }

  class MongoStorage {
    const env: Env

    constructor (env: Env)
      ensures this.env == env
    {
      this.env := env;
    }

    /** Full update from the cursor of a query, None when the query fails. The one stamp is taken
        before the query is sent. */
    method UpdateTemplate(cache: SetGetter, cursor: Option<seq<Doc>>, cursorFails: bool, readTime: int)
      returns (errs: seq<Error>, end: int, ghost nows: seq<int>)
      requires cache.Valid()
      modifies cache`data, cache`pool, cache`view, cache`owned, cache.owned
      ensures cache.Valid() && fresh(cache.owned - old(cache.owned)) && Readings(nows, readTime, end)
      ensures cursor.None? ==> errs == [FindFailed] && cache.view == old(cache.view)
      ensures cursor.Some? ==> |nows| == |cursor.value|
      ensures cursor.Some? ==> Pass(cache.view, errs) ==
                               CursorPass(env, Pass(old(cache.view), []), cursor.value, cursorFails, readTime, nows)
    {
      hide Represents, DocStep;
      errs, end, nows := [], readTime, [];
      if cursor.None? {
        return [FindFailed], end, nows;
      }
      var docs := cursor.value;
      ghost var pass := Pass(cache.view, []);
      for i := 0 to |docs|
        invariant cache.Valid() && fresh(cache.owned - old(cache.owned))
        invariant i == |nows| && Readings(nows, readTime, end)
        invariant Pass(cache.view, errs) == DocPass(env, pass, docs[..i], readTime, nows)
      {
        var now: int :| now >= end;
        errs := UpdateDoc(cache, docs[i], readTime, now, errs);
        end := now;
        assert docs[..i + 1][..i] == docs[..i] && (nows + [now])[..i] == nows;
        nows := nows + [now];
      }
      assert docs[..|docs|] == docs;
      if cursorFails {
        errs := errs + [CursorFailed];
      }
    }

    /** Incremental update of one template, whatever its stamp; `found` is None when the query gives no
        document. The stamp is taken before the query is sent. */
    method IncrementalUpdateTemplate(cache: SetGetter, id: Key, found: Option<Content>, readTime: int)
      returns (errs: seq<Error>)
      requires cache.Valid()
      modifies cache`data, cache`pool, cache`view, cache`owned, cache.owned
      ensures cache.Valid() && fresh(cache.owned - old(cache.owned))
      ensures errs == if found.None? then [FindFailed] else if env.parse(found.value).None? then [ParseFailed] else []
      ensures cache.view == if errs == [] then old(cache.view)[id := Stamped(env.parse(found.value).value, readTime)]
                            else old(cache.view)
    {
      if found.None? {
        return [FindFailed];
      }
      match env.parse(found.value)
      case None =>
        errs := [ParseFailed];
      case Some(v) =>
        cache.Set(id, v, readTime);
        errs := [];
    }

    /** One document of a full update. */
    method UpdateDoc(cache: SetGetter, d: Doc, readTime: int, now: int, errs: seq<Error>) returns (errs': seq<Error>)
      requires cache.Valid()
      modifies cache`data, cache`pool, cache`view, cache`owned, cache.owned
      ensures cache.Valid() && fresh(cache.owned - old(cache.owned))
      ensures Pass(cache.view, errs') == DocStep(env, Pass(old(cache.view), errs), d, readTime, now)
      ensures DocDecides(env, old(cache.view), cache.view, d, readTime, now)
      ensures forall k :: k != d.id ==> SameAt(old(cache.view), cache.view, k)
    {
      errs' := errs;
      if !d.decodes {
        return errs + [DecodeFailed];
      }
      var updatedAt := if d.updatedAt.None? then now else d.updatedAt.value;
      var last := cache.LastUpdated(d.id);
      if last.Some? && updatedAt < last.value {
        return;
      }
      match env.parse(d.content)
      case None =>
        errs' := errs + [ParseFailed];
      case Some(v) =>
        cache.Set(d.id, v, readTime);
    }
  }

  /** The cache refreshed from Mongo and, only when that reports an error, from the directory too. */
  class Repository {
    const ms: MongoStorage
    const ls: LocalStorage

    constructor (ms: MongoStorage, ls: LocalStorage)
      ensures this.ms == ms && this.ls == ls
    {
      this.ms, this.ls := ms, ls;
    }

    /** A full update. Success in the directory does not clear the errors Mongo reported. */
    method FullUpdate(cache: SetGetter, a: Answers, start: int)
      returns (errs: seq<Error>, end: int, ghost c: Course)
      requires cache.Valid()
      modifies cache`data, cache`pool, cache`view, cache`owned, cache.owned
      ensures cache.Valid() && fresh(cache.owned - old(cache.owned))
      ensures Updates(ms.env, ls.env, old(cache.view), cache.view, start, end, a, c)
      ensures errs == c.mongoErrs + c.dirErrs
    {
      hide Represents, DocPass, FilePass;
      ghost var nows;
      errs, end, nows := ms.UpdateTemplate(cache, a.cursor, a.cursorFails, start);
      c := Course(nows, [], cache.view, errs, []);
      if errs != [] {
        var errs2, end2, done, stamps := ls.UpdateTemplate(cache, a.dir, a.cancelled, end);
        assert a.dir.Some? && done == |a.dir.value| ==> a.dir.value[..done] == a.dir.value;
        c := c.(stamps := stamps, dirErrs := errs2);
        errs, end := errs + errs2, end2;
      }
    }

    /** An incremental update of one template, with the same fallback. */
    method IncrementalUpdate(cache: SetGetter, id: Key, a: Named, start: int)
      returns (errs: seq<Error>, end: int, ghost stamps: seq<int>)
      requires cache.Valid()
      modifies cache`data, cache`pool, cache`view, cache`owned, cache.owned
      ensures cache.Valid() && fresh(cache.owned - old(cache.owned))
      ensures Increments(ms.env, ls.env, old(cache.view), cache.view, start, end, id, a, errs, stamps)
      ensures NamedGives(ms.env, ls.env, old(cache.view), cache.view, start, id, a, stamps)
    {
      hide Represents, NamedPass, NamedGives;
      ghost var was := cache.view;
      errs := ms.IncrementalUpdateTemplate(cache, id, a.found, start);
      end, stamps := start, [];
      if errs != [] {
        var errs2, end2;
        ghost var done;
        errs2, end2, done, stamps := ls.IncrementalUpdateTemplate(cache, a.dir, a.cancelled, id, start);
        assert a.dir.Some? && done == |a.dir.value| ==> a.dir.value[..done] == a.dir.value;
        errs, end := errs + errs2, end2;
      }
      IncrementStores(ms.env, ls.env, was, cache.view, start, end, id, a, errs, stamps);
    }
  }
}
