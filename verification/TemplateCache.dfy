/** The lifecycle of the background cache: the first update, the ticks and the incremental updates. */
module TemplateCache {
  import opened CacheTypes
  import opened Collections
  import opened BackgroundCache
  import opened TemplateSources
  import opened TemplateAges
  import opened TemplateEntries
  import opened TemplateUpdaters

  // ---- What one event does ----

  /** What befalls a cache that has been started. */
  datatype Event =
    | TickEvent(answers: Answers)
    | UpdateEvent(key: Key, named: Named)

  /** What happened at an event: when it started and ended, the errors it reported, and what the cache holds then.
      Of a tick also how its full update went, what it left, and when the clean-up examined each key; of an update
      of one template the clock readings at the files. */
  datatype Record = Record(view: map<Key, Stamped>, start: int, end: int, errs: seq<Error>,
                           course: Course, refreshed: map<Key, Stamped>, cleanUp: int, clock: Key -> int,
                           stamps: seq<int>)

  /** A tick is a full update, then a clean-up, whether or not the update reported errors. */
  ghost predicate Ticks(mongo: Env, local: Env, limit: int, before: map<Key, Stamped>, a: Answers, r: Record) {
    && Updates(mongo, local, before, r.refreshed, r.start, r.cleanUp, a, r.course)
    && r.errs == r.course.mongoErrs + r.course.dirErrs
    && r.cleanUp <= r.end && (forall k :: r.cleanUp <= r.clock(k) <= r.end)
    && r.view == Unexpired(r.refreshed, limit, r.clock)
  }

  ghost predicate Happens(mongo: Env, local: Env, limit: int, before: map<Key, Stamped>, event: Event, r: Record) {
    match event
    case TickEvent(a) => Ticks(mongo, local, limit, before, a, r)
    case UpdateEvent(key, named) =>
      Increments(mongo, local, before, r.view, r.start, r.end, key, named, r.errs, r.stamps)
  }

  /** A run: record `q + 1` is what event `q` made of record `q`, at a later instant. */
  ghost predicate History(mongo: Env, local: Env, limit: int, events: seq<Event>, log: seq<Record>) {
    && |log| == |events| + 1
    && forall q :: 0 <= q < |events| ==>
         log[q].end <= log[q + 1].start && Happens(mongo, local, limit, log[q].view, events[q], log[q + 1])
  }

  lemma HistoryNext(mongo: Env, local: Env, limit: int, events: seq<Event>, log: seq<Record>, event: Event, r: Record)
    requires History(mongo, local, limit, events, log)
    requires log[|events|].end <= r.start && Happens(mongo, local, limit, log[|events|].view, event, r)
    ensures History(mongo, local, limit, events + [event], log + [r])
  {
    hide Happens;
  }

  // ---- Which source an update went through ----

  /** The source a full update went through without error: Mongo, or after it failed the directory. */
  datatype Outcome = FromMongo | FromDirectory | Incomplete

  function OutcomeOf(c: Course): Outcome {
    if c.mongoErrs == [] then FromMongo else if c.dirErrs == [] then FromDirectory else Incomplete
  }

  /** The source gone through without error holds a template `k`. */
  ghost predicate Lists(local: Env, outcome: Outcome, a: Answers, k: Key) {
    match outcome
    case FromMongo => a.cursor.Some? && exists i :: 0 <= i < |a.cursor.value| && a.cursor.value[i].id == k
    case FromDirectory => a.dir.Some? && exists i :: 0 <= i < |a.dir.value| && TemplateFile(local, a.dir.value[i], k)
    case Incomplete => false
  }

  /** The query succeeds, the cursor gives every document, and each decodes and parses. */
  ghost predicate Readable(mongo: Env, a: Answers) {
    a.cursor.Some? && !a.cursorFails &&
    forall i :: 0 <= i < |a.cursor.value| ==> a.cursor.value[i].decodes && mongo.parse(a.cursor.value[i].content).Some?
  }

  /** The directory can be listed, nothing is cancelled, and each template file can be asked, read and parsed. */
  ghost predicate Loadable(local: Env, a: Answers) {
    && a.dir.Some? && (forall i: nat :: i < |a.dir.value| ==> !a.cancelled(i))
    && forall i, k :: 0 <= i < |a.dir.value| && TemplateFile(local, a.dir.value[i], k) ==>
         var f := a.dir.value[i];
         f.modTime.Some? && f.content.Some? && local.parse(f.content.value).Some?
  }

  /** What the sources answer decides which of them an update goes through without error. */
  lemma OutcomeForced(mongo: Env, local: Env, before: map<Key, Stamped>, after: map<Key, Stamped>,
                      start: int, end: int, a: Answers, c: Course)
    requires Updates(mongo, local, before, after, start, end, a, c)
    ensures Readable(mongo, a) ==> OutcomeOf(c) == FromMongo
    ensures a.cursor.None? || a.cursorFails ==> OutcomeOf(c) != FromMongo
    ensures OutcomeOf(c) != FromMongo && Loadable(local, a) ==> OutcomeOf(c) == FromDirectory
  {
    hide DocPass, FilePass, TemplateFile;
    if Readable(mongo, a) {
      ReadableClean(mongo, Pass(before, []), a.cursor.value, start, c.nows);
    }
    if c.mongoErrs != [] && Loadable(local, a) {
      assert |c.stamps| == |a.dir.value|;
      LoadableClean(local, Pass(c.middle, []), a.dir.value, c.stamps);
    }
  }

  lemma {:induction false} ReadableClean(env: Env, pass: Pass, docs: seq<Doc>, readTime: int, nows: seq<int>)
    requires |nows| == |docs| && forall i :: 0 <= i < |docs| ==> docs[i].decodes && env.parse(docs[i].content).Some?
    ensures DocPass(env, pass, docs, readTime, nows).errs == pass.errs
  {
    if docs != [] {
      var n := |docs| - 1;
      ReadableClean(env, pass, docs[..n], readTime, nows[..n]);
    }
  }

  lemma {:induction false} LoadableClean(env: Env, pass: Pass, files: seq<File>, stamps: seq<int>)
    requires |stamps| == |files|
    requires forall i, k :: 0 <= i < |files| && TemplateFile(env, files[i], k) ==>
               files[i].modTime.Some? && files[i].content.Some? && env.parse(files[i].content.value).Some?
    ensures FilePass(env, pass, files, stamps).errs == pass.errs
  {
    hide Ext, Stem;
    if files != [] {
      var n := |files| - 1;
      forall i, k | 0 <= i < n && TemplateFile(env, files[..n][i], k)
        ensures files[i].modTime.Some? && files[i].content.Some? && env.parse(files[i].content.value).Some?
      {
        assert TemplateFile(env, files[i], k);
      }
      LoadableClean(env, pass, files[..n], stamps[..n]);
      var f := files[n];
      assert !f.isDir && Ext(f.name) == ".yaml" ==> TemplateFile(env, f, env.id(Stem(f.name)));
    }
  }

  // ---- What an update and a tick leave ----

  /** The stamp of the entry, if there is one, is from the past. */
  predicate Past(view: map<Key, Stamped>, k: Key, now: int) {
    k in view ==> view[k].time <= now
  }

  /** Every document of the list has its entry, with the stamp the update gives it. */
  ghost predicate Restamps(before: map<Key, Stamped>, after: map<Key, Stamped>, docs: seq<Doc>, readTime: int) {
    forall i :: 0 <= i < |docs| && Alone(docs, i) && Past(before, docs[i].id, readTime) ==>
      docs[i].id in after && after[docs[i].id].time == StampAfter(docs[i], before, readTime)
  }

  /** A document is missing exactly when the stamp the update left it has expired. */
  ghost predicate AgesOut(before: map<Key, Stamped>, after: map<Key, Stamped>, docs: seq<Doc>, now: int,
                          clock: Key -> int, limit: int)
  {
    forall i :: 0 <= i < |docs| && Alone(docs, i) && Past(before, docs[i].id, now) ==>
      (docs[i].id !in after <==> clock(docs[i].id) - StampAfter(docs[i], before, now) > limit)
  }

  lemma RenewsSame(view: map<Key, Stamped>, from: int)
    ensures Renews(view, view, from)
  {}

  /** A pass over a cursor renews the cache, and if it reports no error every document has its entry. */
  lemma CursorPassGives(env: Env, view: map<Key, Stamped>, docs: seq<Doc>, fails: bool, readTime: int, nows: seq<int>)
    requires |nows| == |docs| && forall i :: 0 <= i < |docs| ==> readTime <= nows[i]
    ensures var r := CursorPass(env, Pass(view, []), docs, fails, readTime, nows);
            && Renews(view, r.view, readTime)
            && (r.errs == [] ==> forall i :: 0 <= i < |docs| ==> docs[i].id in r.view)
            && (r.errs == [] ==> Restamps(view, r.view, docs, readTime))
  {
    hide DocPass, Alone;
    DocPassRenews(env, Pass(view, []), docs, readTime, nows, readTime);
    if CursorPass(env, Pass(view, []), docs, fails, readTime, nows).errs == [] {
      forall i | 0 <= i < |docs|
        ensures docs[i].id in DocPass(env, Pass(view, []), docs, readTime, nows).view
      {
        DocPassPresent(env, Pass(view, []), docs, readTime, nows, i);
      }
      forall i | 0 <= i < |docs| && Alone(docs, i) && Past(view, docs[i].id, readTime)
        ensures var r := DocPass(env, Pass(view, []), docs, readTime, nows).view;
                docs[i].id in r && r[docs[i].id].time == StampAfter(docs[i], view, readTime)
      {
        DocPassEntry(env, Pass(view, []), docs, readTime, nows, i);
      }
    }
  }

  /** The same of a pass over a directory. */
  lemma DirPassGives(env: Env, view: map<Key, Stamped>, files: seq<File>, stamps: seq<int>, from: int)
    requires |stamps| == |files| && forall i :: 0 <= i < |stamps| ==> from <= stamps[i]
    ensures var r := FilePass(env, Pass(view, []), files, stamps);
            Renews(view, r.view, from) &&
            (r.errs == [] ==> forall i, k :: 0 <= i < |files| && TemplateFile(env, files[i], k) ==> k in r.view)
  {
    FilePassRenews(env, Pass(view, []), files, stamps, from);
    if FilePass(env, Pass(view, []), files, stamps).errs == [] {
      forall i, k | 0 <= i < |files| && TemplateFile(env, files[i], k)
        ensures k in FilePass(env, Pass(view, []), files, stamps).view
      {
        FilePassPresent(env, Pass(view, []), files, stamps, i, k);
      }
    }
  }

  /** A full update stamps what it changes no earlier than its start, takes nothing away, and leaves an entry for
      every template of the source it went through without error. */
  lemma UpdateGives(mongo: Env, local: Env, before: map<Key, Stamped>, after: map<Key, Stamped>,
                    start: int, end: int, a: Answers, c: Course)
    requires Updates(mongo, local, before, after, start, end, a, c)
    ensures Renews(before, after, start)
    ensures forall k :: Lists(local, OutcomeOf(c), a, k) ==> k in after
    ensures OutcomeOf(c) == FromMongo ==> a.cursor.Some? && Restamps(before, after, a.cursor.value, start)
  {
    hide Renews, CursorPass, FilePass, TemplateFile, Restamps;
    RenewsSame(before, start);
    RenewsSame(c.middle, start);
    if a.cursor.Some? {
      CursorPassGives(mongo, before, a.cursor.value, a.cursorFails, start, c.nows);
    }
    if c.mongoErrs != [] && a.dir.Some? {
      DirPassGives(local, c.middle, a.dir.value[..|c.stamps|], c.stamps, start);
      assert |c.stamps| == |a.dir.value| ==> a.dir.value[..|c.stamps|] == a.dir.value;
    }
    RenewsTransitive(before, c.middle, after, start);
  }

  /** After a tick no entry exceeds the limit at the instant it was examined. A template of the source gone
      through without error is missing only if it was in the cache before, under a stamp older than the limit, or if
      the tick itself took as long. When Mongo reported no error its template is missing exactly when the stamp,
      which the update renews unless the document is dated from before it, is that old when examined. */
  lemma TickGives(mongo: Env, local: Env, limit: int, before: map<Key, Stamped>, a: Answers, r: Record)
    requires Ticks(mongo, local, limit, before, a, r)
    ensures AddedSince(before, r.view, r.start)
    ensures forall k <- r.view :: r.clock(k) - r.view[k].time <= limit
    ensures r.end - r.start <= limit ==>
              forall k :: Lists(local, OutcomeOf(r.course), a, k) ==>
                (k in before ==> r.end - before[k].time <= limit) ==> k in r.view
    ensures OutcomeOf(r.course) == FromMongo ==>
              a.cursor.Some? && AgesOut(before, r.view, a.cursor.value, r.start, r.clock, limit)
  {
    hide Updates, Lists;
    UpdateGives(mongo, local, before, r.refreshed, r.start, r.cleanUp, a, r.course);
  }

  /** An update of one template changes no other, and stamps what it changes no earlier than its start. */
  lemma IncrementGives(mongo: Env, local: Env, before: map<Key, Stamped>, after: map<Key, Stamped>,
                       start: int, end: int, id: Key, a: Named, errs: seq<Error>, stamps: seq<int>)
    requires Increments(mongo, local, before, after, start, end, id, a, errs, stamps)
    ensures Renews(before, after, start) && after - {id} == before - {id}
    ensures errs == [] <==> a.found.Some? && mongo.parse(a.found.value).Some?
  {
    hide NamedPass;
    if errs != [] && a.dir.Some? {
      NamedPassRenews(local, Pass(before, []), a.dir.value[..|stamps|], id, stamps, start);
    }
  }

  // ---- The bounded gap, over any run ----

  lemma EventAdds(mongo: Env, local: Env, limit: int, before: map<Key, Stamped>, event: Event, r: Record)
    requires Happens(mongo, local, limit, before, event, r)
    ensures r.start <= r.end && AddedSince(before, r.view, r.start)
  {
    hide Updates, Increments, Unexpired;
    match event
    case TickEvent(a) =>
      TickGives(mongo, local, limit, before, a, r);
      TickTime(mongo, local, limit, before, a, r);
    case UpdateEvent(key, named) =>
      IncrementGives(mongo, local, before, r.view, r.start, r.end, key, named, r.errs, r.stamps);
      IncrementTime(mongo, local, before, r.view, r.start, r.end, key, named, r.errs, r.stamps);
  }

  lemma TickTime(mongo: Env, local: Env, limit: int, before: map<Key, Stamped>, a: Answers, r: Record)
    requires Ticks(mongo, local, limit, before, a, r)
    ensures r.start <= r.cleanUp <= r.end
  {}

  lemma IncrementTime(mongo: Env, local: Env, before: map<Key, Stamped>, after: map<Key, Stamped>,
                      start: int, end: int, id: Key, a: Named, errs: seq<Error>, stamps: seq<int>)
    requires Increments(mongo, local, before, after, start, end, id, a, errs, stamps)
    ensures start <= end
  {}

  /** What the cache holds after an event was there after any earlier one, or is stamped since. */
  lemma {:induction false} HistoryAdds(mongo: Env, local: Env, limit: int, events: seq<Event>, log: seq<Record>,
                                       p: nat, q: nat)
    requires History(mongo, local, limit, events, log) && p <= q <= |events|
    ensures log[p].end <= log[q].end && AddedSince(log[p].view, log[q].view, log[p].end)
    decreases q
  {
    hide Happens;
    if p == q {
      AddedSame(log[p].view, log[p].end);
    } else {
      HistoryAdds(mongo, local, limit, events, log, p, q - 1);
      EventAdds(mongo, local, limit, log[q - 1].view, events[q - 1], log[q]);
      AddedTransitive(log[p].view, log[q - 1].view, log[q].view, log[p].end, log[q].start);
    }
  }

  /** A template missing after some event, however often entries expire and are replaced on the way, is there after
      every later tick that goes through the source that lists it without error, if that tick ends within the
      limit of the event. */
  lemma BoundedGap(mongo: Env, local: Env, limit: int, events: seq<Event>, log: seq<Record>, p: nat, q: nat, k: Key)
    requires History(mongo, local, limit, events, log) && p <= q < |events| && events[q].TickEvent?
    requires log[q + 1].end - log[p].end <= limit
    requires Lists(local, OutcomeOf(log[q + 1].course), events[q].answers, k) && k !in log[p].view
    ensures k in log[q + 1].view
  {
    hide Ticks, Lists;
    HistoryAdds(mongo, local, limit, events, log, p, q);
    assert Happens(mongo, local, limit, log[q].view, events[q], log[q + 1]);
    TickGives(mongo, local, limit, log[q].view, events[q].answers, log[q + 1]);
  }

  /** The same from the answers of the sources alone: a document of a tick whose query succeeds and whose
      documents all decode and parse. */
  lemma BoundedGapReadable(mongo: Env, local: Env, limit: int, events: seq<Event>, log: seq<Record>,
                           p: nat, q: nat, i: nat)
    requires History(mongo, local, limit, events, log) && p <= q < |events| && events[q].TickEvent?
    requires log[q + 1].end - log[p].end <= limit
    requires Readable(mongo, events[q].answers) && i < |events[q].answers.cursor.value|
    ensures var k := events[q].answers.cursor.value[i].id; k in log[p].view || k in log[q + 1].view
    ensures log[q + 1].errs == []
  {
    hide Updates;
    var a, r := events[q].answers, log[q + 1];
    assert Happens(mongo, local, limit, log[q].view, events[q], r);
    OutcomeForced(mongo, local, log[q].view, r.refreshed, r.start, r.cleanUp, a, r.course);
    NoDirErrs(mongo, local, log[q].view, r.refreshed, r.start, r.cleanUp, a, r.course);
    if a.cursor.value[i].id !in log[p].view {
      BoundedGap(mongo, local, limit, events, log, p, q, a.cursor.value[i].id);
    }
  }

  lemma NoDirErrs(mongo: Env, local: Env, before: map<Key, Stamped>, after: map<Key, Stamped>,
                  start: int, end: int, a: Answers, c: Course)
    requires Updates(mongo, local, before, after, start, end, a, c)
    ensures c.mongoErrs == [] ==> c.dirErrs == []
  {}

  /** In a run an update of one template stores the parse of what the sources give. */
  lemma HistoryStores(mongo: Env, local: Env, limit: int, events: seq<Event>, log: seq<Record>, q: nat)
    requires History(mongo, local, limit, events, log) && q < |events| && events[q].UpdateEvent?
    ensures NamedGives(mongo, local, log[q].view, log[q + 1].view, log[q + 1].start, events[q].key, events[q].named,
                       log[q + 1].stamps)
    ensures log[q + 1].errs == [] <==> Parses(mongo, events[q].named.found)
  {
    hide NamedGives;
    var r := log[q + 1];
    assert Happens(mongo, local, limit, log[q].view, events[q], r);
    var key, named := events[q].key, events[q].named;
    IncrementStores(mongo, local, log[q].view, r.view, r.start, r.end, key, named, r.errs, r.stamps);
  }

  // ---- The cache itself ----

  class Cache {
    const repo: Repository
    const cached: SetGetter
    var ticking: bool

    constructor (repo: Repository, ttl: int)
      ensures cached.Valid() && cached.view == map[] && cached.ttl == ttl && !ticking && this.repo == repo
      ensures fresh(cached) && cached.owned == {}
    {
      this.repo, ticking := repo, false;
      cached := new SetGetter(ttl);
    }

    /** The first full update; the ticks begin only if it reports no error before the caller gives up. */
    method Start(now: int, a: Answers, givenUp: bool) returns (errs: seq<Error>, end: int, ghost c: Course)
      requires cached.Valid() && !ticking
      modifies this`ticking, cached`data, cached`pool, cached`view, cached`owned, cached.owned
      ensures cached.Valid() && fresh(cached.owned - old(cached.owned))
      ensures Updates(repo.ms.env, repo.ls.env, old(cached.view), cached.view, now, end, a, c)
      ensures errs == if givenUp then [Cancelled] else c.mongoErrs + c.dirErrs
      ensures ticking <==> errs == []
      ensures errs == [] ==> forall k :: Lists(repo.ls.env, FromMongo, a, k) ==> k in cached.view
    {
      hide Represents, Updates, Lists;
      errs, end, c := Refresh(now, a);
      if givenUp {
        errs := [Cancelled];
      }
      ticking := errs == [];
    }

    /** A full update: what it changes is stamped at `now` or later, and every template of the source it went
        through without error has its entry. */
    method Refresh(now: int, a: Answers) returns (errs: seq<Error>, end: int, ghost c: Course)
      requires cached.Valid()
      modifies cached`data, cached`pool, cached`view, cached`owned, cached.owned
      ensures cached.Valid() && fresh(cached.owned - old(cached.owned))
      ensures Updates(repo.ms.env, repo.ls.env, old(cached.view), cached.view, now, end, a, c)
      ensures errs == c.mongoErrs + c.dirErrs && (errs == [] <==> OutcomeOf(c) == FromMongo)
      ensures Renews(old(cached.view), cached.view, now)
      ensures forall k :: Lists(repo.ls.env, OutcomeOf(c), a, k) ==> k in cached.view
      ensures OutcomeOf(c) == FromMongo ==>
                a.cursor.Some? && Restamps(old(cached.view), cached.view, a.cursor.value, now)
    {
      hide Represents, Renews, Updates, Lists, Restamps;
      ghost var was := cached.view;
      errs, end, c := repo.FullUpdate(cached, a, now);
      UpdateGives(repo.ms.env, repo.ls.env, was, cached.view, now, end, a, c);
      NoDirErrs(repo.ms.env, repo.ls.env, was, cached.view, now, end, a, c);
    }

    /** An update of one template: it changes no other, stamps what it changes at `now` or later, and stores the parse
        of what the sources give, whatever was cached. */
    method IncrementalUpdate(key: Key, now: int, named: Named)
      returns (errs: seq<Error>, end: int, ghost stamps: seq<int>)
      requires cached.Valid()
      modifies cached`data, cached`pool, cached`view, cached`owned, cached.owned
      ensures cached.Valid() && fresh(cached.owned - old(cached.owned))
      ensures Increments(repo.ms.env, repo.ls.env, old(cached.view), cached.view, now, end, key, named, errs, stamps)
      ensures NamedGives(repo.ms.env, repo.ls.env, old(cached.view), cached.view, now, key, named, stamps)
      ensures Renews(old(cached.view), cached.view, now)
      ensures cached.view - {key} == old(cached.view) - {key}
    {
      hide Represents, Increments, NamedGives;
      ghost var was := cached.view;
      errs, end, stamps := repo.IncrementalUpdate(cached, key, named, now);
      IncrementGives(repo.ms.env, repo.ls.env, was, cached.view, now, end, key, named, errs, stamps);
    }

    /** One tick: a full update, then a clean-up whether or not the update reported errors. */
    method Tick(now: int, a: Answers) returns (errs: seq<Error>, end: int, ghost r: Record)
      requires cached.Valid()
      modifies cached`data, cached`pool, cached`view, cached`owned, cached.owned
      ensures cached.Valid() && fresh(cached.owned - old(cached.owned))
      ensures Ticks(repo.ms.env, repo.ls.env, 10 * cached.ttl, old(cached.view), a, r)
      ensures r.view == cached.view && r.start == now && r.end == end && r.errs == errs
    {
      hide Represents, Updates, Lists, Restamps;
      ghost var c;
      var middle;
      errs, middle, c := Refresh(now, a);
      ghost var refreshed := cached.view;
      var cleaned;
      ghost var clock;
      cleaned, end, clock := cached.CleanUp(middle);
      r := Record(cached.view, now, end, errs, c, refreshed, middle, clock, []);
    }

    /** One event. */
    method Handle(event: Event, now: int) returns (errs: seq<Error>, end: int, ghost r: Record)
      requires cached.Valid()
      modifies cached`data, cached`pool, cached`view, cached`owned, cached.owned
      ensures cached.Valid() && fresh(cached.owned - old(cached.owned))
      ensures Happens(repo.ms.env, repo.ls.env, 10 * cached.ttl, old(cached.view), event, r)
      ensures r.view == cached.view && r.start == now && r.end == end && r.errs == errs
    {
      hide Represents, Ticks, Increments;
      match event {
        case TickEvent(answers) =>
          errs, end, r := Tick(now, answers);
        case UpdateEvent(key, named) =>
          ghost var stamps;
          errs, end, stamps := IncrementalUpdate(key, now, named);
          r := Record(cached.view, now, end, errs, Course([], [], map[], [], []), map[], now, _ => now, stamps);
      }
    }

    /** A whole run: ticks and incremental updates in any order, at any instants. `log` is its history, which starts
        from what the cache holds now, and `errors` what each event reported. */
    method Serve(events: seq<Event>, start: int) returns (errors: seq<seq<Error>>, end: int, ghost log: seq<Record>)
      requires cached.Valid()
      modifies cached`data, cached`pool, cached`view, cached`owned, cached.owned
      ensures cached.Valid() && fresh(cached.owned - old(cached.owned))
      ensures History(repo.ms.env, repo.ls.env, 10 * cached.ttl, events, log)
      ensures |log| == |events| + 1 && log[0].view == old(cached.view) && log[0].end == start
      ensures log[|events|].view == cached.view && log[|events|].end == end
      ensures |errors| == |events| && forall q :: 0 <= q < |events| ==> errors[q] == log[q + 1].errs
    {
      hide Represents, Happens;
      end, errors := start, [];
      log := [Record(cached.view, start, start, [], Course([], [], map[], [], []), map[], start, _ => start, [])];
      for i := 0 to |events|
        invariant cached.Valid() && fresh(cached.owned - old(cached.owned))
        invariant |log| == i + 1 && log[0].view == old(cached.view) && log[0].end == start
        invariant log[i].view == cached.view && log[i].end == end
        invariant History(repo.ms.env, repo.ls.env, 10 * cached.ttl, events[..i], log)
        invariant |errors| == i && forall q :: 0 <= q < i ==> errors[q] == log[q + 1].errs
      {
        var now: int :| now >= end;
        var errs;
        ghost var r;
        errs, end, r := Handle(events[i], now);
        HistoryNext(repo.ms.env, repo.ls.env, 10 * cached.ttl, events[..i], log, events[i], r);
        assert events[..i + 1] == events[..i] + [events[i]];
        log, errors := log + [r], errors + [errs];
      }
      assert events[..|events|] == events;
    }
  }

  /** A cache from its making on: the first update of an empty cache, and after that the whole run. */
  method Live(repo: Repository, ttl: int, now: int, first: Answers, givenUp: bool, events: seq<Event>)
    returns (c: Cache, errs: seq<Error>, errors: seq<seq<Error>>, ghost course: Course, ghost log: seq<Record>)
    ensures fresh(c) && c.cached.Valid() && c.cached.ttl == ttl && c.repo == repo && (c.ticking <==> errs == [])
    ensures errs == if givenUp then [Cancelled] else course.mongoErrs + course.dirErrs
    ensures log != [] && Updates(repo.ms.env, repo.ls.env, map[], log[0].view, now, log[0].end, first, course)
    ensures if errs == [] then
              History(repo.ms.env, repo.ls.env, 10 * ttl, events, log) && log[|events|].view == c.cached.view &&
              |errors| == |events| && forall q :: 0 <= q < |events| ==> errors[q] == log[q + 1].errs
            else log[0].view == c.cached.view && errors == []
  {
    hide Represents, History, Updates, Lists;
    c := new Cache(repo, ttl);
    var end;
    errs, end, course := c.Start(now, first, givenUp);
    errors := [];
    log := [Record(c.cached.view, now, end, errs, course, c.cached.view, end, _ => end, [])];
    if errs == [] {
      errors, end, log := c.Serve(events, end);
    }
  }
}
