/** Source writes, full updates, incremental updates and clean-ups interleaved step by step: what the
    cache holds against what the source holds. Updaters stamp an entry with a clock reading taken
    before they read, and skip an item last written before the stamp they found. */
module RefreshProtocol {
  import opened CacheTypes
  import opened Collections
  import opened BackgroundCache
  import opened TemplateSources
  import opened TemplateAges

  /** A content of an item and when it was written; no content when the item was deleted. */
  datatype Version = Version(content: Option<Content>, at: int)

  /** A cached value, its stamp, and which version of the item it is the parse of. */
  datatype Cached = Cached(value: Value, time: int, version: nat)

  /** An updater at work: the stamp it will use, the versions it has read, and the entries it saw when
      it asked for their stamps. */
  datatype Job = Job(stamp: int, read: map<Key, nat>, seen: map<Key, Cached>)

  datatype State = State(now: int, source: map<Key, seq<Version>>, cache: map<Key, Cached>, jobs: map<nat, Job>)

  datatype Action =
    | Advance(elapsed: nat)
    | Write(key: Key, content: Option<Content>)
    | Stamp(job: nat)             // reads the clock
    | Look(job: nat, key: Key)    // asks the cache when the item was last updated
    | Read(job: nat, key: Key)    // reads the item
    | Store(job: nat, key: Key)   // stores the parse of what it read
    | Expire(key: Key)            // a clean-up removes an entry

  const Initial := State(0, map[], map[], map[])

  function History(s: State, k: Key): seq<Version> {
    if k in s.source then s.source[k] else []
  }

  function JobOf(s: State, j: nat): Job {
    if j in s.jobs then s.jobs[j] else Job(s.now, map[], map[])
  }

  function ParseOf(env: Env, v: Version): Option<Value> {
    match v.content
    case None => None
    case Some(content) => env.parse(content)
  }

  ghost predicate Enabled(env: Env, s: State, a: Action) {
    match a
    case Read(j, k) => j in s.jobs && History(s, k) != []
    case Store(j, k) =>
      && j in s.jobs && k in s.jobs[j].read
      && s.jobs[j].read[k] < |History(s, k)|
      && ParseOf(env, History(s, k)[s.jobs[j].read[k]]).Some?
    case _ => true
  }

  ghost function Next(env: Env, s: State, a: Action): State
    requires Enabled(env, s, a)
  {
    match a
    case Advance(elapsed) => s.(now := s.now + elapsed)
    case Write(k, content) => s.(source := s.source[k := History(s, k) + [Version(content, s.now)]])
    case Stamp(j) => s.(jobs := s.jobs[j := JobOf(s, j).(stamp := s.now, read := map[])])
    case Look(j, k) =>
      var job := JobOf(s, j);
      var seen := if k in s.cache then job.seen[k := s.cache[k]] else job.seen - {k};
      s.(jobs := s.jobs[j := job.(seen := seen)])
    case Read(j, k) => s.(jobs := s.jobs[j := s.jobs[j].(read := s.jobs[j].read[k := |History(s, k)| - 1])])
    case Store(j, k) =>
      var job := s.jobs[j];
      var version := job.read[k];
      s.(cache := s.cache[k := Cached(ParseOf(env, History(s, k)[version]).value, job.stamp, version)])
    case Expire(k) => s.(cache := s.cache - {k})
  }

  /** The run takes the initial state to `s`. */
  ghost predicate Reaches(env: Env, run: seq<Action>, s: State) {
    if run == [] then s == Initial
    else
      var n := |run| - 1;
      exists before :: Reaches(env, run[..n], before) && Enabled(env, before, run[n]) && s == Next(env, before, run[n])
  }

  // ---- The invariant ----

  /** `version` was still current at `t`, or has become current since. */
  ghost predicate CurrentSince(history: seq<Version>, version: nat, t: int) {
    version < |history| && (version + 1 < |history| ==> t <= history[version + 1].at)
  }

  /** The cached value is the parse of a version the source held at an instant no earlier than the stamp. */
  ghost predicate Coherent(env: Env, s: State, k: Key, c: Cached) {
    && CurrentSince(History(s, k), c.version, c.time)
    && ParseOf(env, History(s, k)[c.version]) == Some(c.value)
    && c.time <= s.now
  }

  ghost predicate Ordered(history: seq<Version>, now: int) {
    && (forall i, j :: 0 <= i < j < |history| ==> history[i].at <= history[j].at)
    && (forall i :: 0 <= i < |history| ==> history[i].at <= now)
  }

  ghost predicate JobInv(env: Env, s: State, job: Job) {
    && job.stamp <= s.now
    && (forall k <- job.read :: CurrentSince(History(s, k), job.read[k], job.stamp))
    && (forall k <- job.seen :: Coherent(env, s, k, job.seen[k]))
  }

  ghost predicate Inv(env: Env, s: State) {
    && (forall k <- s.source :: Ordered(s.source[k], s.now))
    && (forall k <- s.cache :: Coherent(env, s, k, s.cache[k]))
    && (forall j <- s.jobs :: JobInv(env, s, s.jobs[j]))
  }

  /** While the source is unchanged, time passing disturbs nothing. */
  lemma Persists(env: Env, s: State, t: State)
    requires Inv(env, s) && t.source == s.source && s.now <= t.now
    ensures forall k <- t.source :: Ordered(t.source[k], t.now)
    ensures forall k <- s.cache :: Coherent(env, t, k, s.cache[k])
    ensures forall j <- s.jobs :: JobInv(env, t, s.jobs[j])
  {
    forall j | j in s.jobs
      ensures JobInv(env, t, s.jobs[j])
    {
      JobPersists(env, s, t, s.jobs[j]);
    }
  }

  /** A step that only gives the job `j` a new state. */
  lemma JobKeeps(env: Env, s: State, j: nat, job: Job)
    requires Inv(env, s) && JobInv(env, s, job)
    ensures Inv(env, s.(jobs := s.jobs[j := job]))
  {
    hide JobInv, Coherent, Ordered;
    var t := s.(jobs := s.jobs[j := job]);
    Persists(env, s, t);
    JobPersists(env, s, t, job);
  }

  lemma JobPersists(env: Env, s: State, t: State, job: Job)
    requires JobInv(env, s, job) && t.source == s.source && s.now <= t.now
    ensures JobInv(env, t, job)
  {
    hide CurrentSince;
    assert forall k <- job.seen :: Coherent(env, s, k, job.seen[k]);
  }

  lemma JobOfKeeps(env: Env, s: State, j: nat)
    requires Inv(env, s)
    ensures JobInv(env, s, JobOf(s, j))
  {}

  lemma ReadKeeps(env: Env, s: State, j: nat, k: Key)
    requires Inv(env, s) && Enabled(env, s, Read(j, k))
    ensures Inv(env, Next(env, s, Read(j, k)))
  {
    hide Coherent, Ordered;
    var job := s.jobs[j];
    assert JobInv(env, s, job);
    assert CurrentSince(History(s, k), |History(s, k)| - 1, job.stamp);
    JobKeeps(env, s, j, job.(read := job.read[k := |History(s, k)| - 1]));
  }

  lemma LookKeeps(env: Env, s: State, j: nat, k: Key)
    requires Inv(env, s)
    ensures Inv(env, Next(env, s, Look(j, k)))
  {
    hide Coherent, Ordered, CurrentSince;
    JobOfKeeps(env, s, j);
    var job := JobOf(s, j);
    JobKeeps(env, s, j, job.(seen := if k in s.cache then job.seen[k := s.cache[k]] else job.seen - {k}));
  }

  lemma StoreKeeps(env: Env, s: State, j: nat, k: Key)
    requires Inv(env, s) && Enabled(env, s, Store(j, k))
    ensures Inv(env, Next(env, s, Store(j, k)))
  {
    hide Ordered;
    var t := Next(env, s, Store(j, k));
    assert JobInv(env, s, s.jobs[j]);
    assert Coherent(env, t, k, t.cache[k]);
    Persists(env, s, t);
  }

  /** Every step keeps the invariant. */
  lemma StepKeeps(env: Env, s: State, a: Action)
    requires Inv(env, s) && Enabled(env, s, a)
    ensures Inv(env, Next(env, s, a))
  {
    hide JobInv, Coherent, Ordered;
    match a {
      case Advance(elapsed) => Persists(env, s, Next(env, s, a));
      case Write(k, content) => WriteKeeps(env, s, k, content);
      case Stamp(j) => StampKeeps(env, s, j);
      case Look(j, k) => LookKeeps(env, s, j, k);
      case Read(j, k) => ReadKeeps(env, s, j, k);
      case Store(j, k) => StoreKeeps(env, s, j, k);
      case Expire(k) => Persists(env, s, Next(env, s, a));
    }
  }

  lemma StampKeeps(env: Env, s: State, j: nat)
    requires Inv(env, s)
    ensures Inv(env, Next(env, s, Stamp(j)))
  {
    hide Coherent, Ordered, CurrentSince;
    JobOfKeeps(env, s, j);
    JobKeeps(env, s, j, JobOf(s, j).(stamp := s.now, read := map[]));
  }

  /** A write dates from now, and stamps from before, so what was current since a stamp still was. */
  lemma WriteKeeps(env: Env, s: State, k: Key, content: Option<Content>)
    requires Inv(env, s)
    ensures Inv(env, Next(env, s, Write(k, content)))
  {
    hide JobInv, Coherent, Ordered, CurrentSince;
    var t := Next(env, s, Write(k, content));
    forall x | x in t.source
      ensures Ordered(t.source[x], t.now)
    {
      OrderedGrows(s, t, x);
    }
    forall x | x in s.cache
      ensures Coherent(env, t, x, s.cache[x])
    {
      CoherentGrows(env, s, t, x, s.cache[x]);
    }
    forall j | j in s.jobs
      ensures JobInv(env, t, s.jobs[j])
    {
      JobGrows(env, s, t, s.jobs[j]);
    }
  }

  /** `t` is `s` with one version more of one item, dated now. */
  ghost predicate Grows(s: State, t: State) {
    && t.now == s.now
    && forall x :: History(t, x) == History(s, x) ||
         (|History(t, x)| == |History(s, x)| + 1 && History(s, x) <= History(t, x) &&
          History(t, x)[|History(s, x)|].at == s.now)
  }

  lemma OrderedGrows(s: State, t: State, x: Key)
    requires Grows(s, t) && Ordered(History(s, x), s.now)
    ensures Ordered(History(t, x), t.now)
  {
    var h, g := History(s, x), History(t, x);
    assert forall i :: 0 <= i < |h| ==> g[i] == h[i];
  }

  lemma CurrentGrows(s: State, t: State, x: Key, version: nat, time: int)
    requires Grows(s, t) && CurrentSince(History(s, x), version, time) && time <= s.now
    ensures CurrentSince(History(t, x), version, time) && History(t, x)[version] == History(s, x)[version]
  {
    var h, g := History(s, x), History(t, x);
    assert forall i :: 0 <= i < |h| ==> g[i] == h[i];
  }

  lemma CoherentGrows(env: Env, s: State, t: State, x: Key, c: Cached)
    requires Grows(s, t) && Coherent(env, s, x, c)
    ensures Coherent(env, t, x, c)
  {
    CurrentGrows(s, t, x, c.version, c.time);
  }

  lemma JobGrows(env: Env, s: State, t: State, job: Job)
    requires Grows(s, t) && JobInv(env, s, job)
    ensures JobInv(env, t, job)
  {
    hide CurrentSince, Coherent;
    forall k | k in job.read
      ensures CurrentSince(History(t, k), job.read[k], job.stamp)
    {
      CurrentGrows(s, t, k, job.read[k], job.stamp);
    }
    forall k | k in job.seen
      ensures Coherent(env, t, k, job.seen[k])
    {
      CoherentGrows(env, s, t, k, job.seen[k]);
    }
  }

  lemma {:induction false} ReachableInv(env: Env, run: seq<Action>, s: State)
    requires Reaches(env, run, s)
    ensures Inv(env, s)
  {
    if run != [] {
      var n := |run| - 1;
      var before :| Reaches(env, run[..n], before) && Enabled(env, before, run[n]) && s == Next(env, before, run[n]);
      ReachableInv(env, run[..n], before);
      StepKeeps(env, before, run[n]);
    }
  }

  // ---- What an updater may conclude ----

  /** In every reachable state each cached value is the parse of content the source held at some
      instant no earlier than the entry's stamp. */
  lemma CacheCoherent(env: Env, run: seq<Action>, s: State, k: Key)
    requires Reaches(env, run, s) && k in s.cache
    ensures exists i :: 0 <= i < |History(s, k)| && ParseOf(env, History(s, k)[i]) == Some(s.cache[k].value) &&
                        (i + 1 < |History(s, k)| ==> s.cache[k].time <= History(s, k)[i + 1].at)
  {
    ReachableInv(env, run, s);
    assert Coherent(env, s, k, s.cache[k]);
    assert ParseOf(env, History(s, k)[s.cache[k].version]) == Some(s.cache[k].value);
  }

  /** A version written after the one a coherent entry holds was written no earlier than its stamp. */
  lemma NewerVersion(env: Env, s: State, k: Key, c: Cached)
    requires Coherent(env, s, k, c) && Ordered(History(s, k), s.now)
    ensures forall r: nat :: c.version < r < |History(s, k)| ==> c.time <= History(s, k)[r].at
  {
    var h := History(s, k);
    forall r: nat | c.version < r < |h|
      ensures c.time <= h[r].at
    {
      assert h[c.version + 1].at <= h[r].at;
    }
  }

  /** What the invariant says of an entry an updater saw. */
  lemma SeenCoherent(env: Env, s: State, j: nat, k: Key)
    requires Inv(env, s) && j in s.jobs && k in s.jobs[j].seen
    ensures Coherent(env, s, k, s.jobs[j].seen[k]) && Ordered(History(s, k), s.now)
  {
    assert JobInv(env, s, s.jobs[j]);
  }

  /** An updater that finds an item last written before the stamp it was given skips it: the value it
      saw then is the parse of what the source holds now, whatever happened in between. */
  lemma SkipIsSafe(env: Env, run: seq<Action>, s: State, j: nat, k: Key)
    requires Reaches(env, run, s) && j in s.jobs && k in s.jobs[j].seen
    requires var h := History(s, k); h != [] && h[|h| - 1].at < s.jobs[j].seen[k].time
    ensures var h := History(s, k); ParseOf(env, h[|h| - 1]) == Some(s.jobs[j].seen[k].value)
  {
    hide Inv, Ordered;
    ReachableInv(env, run, s);
    SeenCoherent(env, s, j, k);
    var h, c := History(s, k), s.jobs[j].seen[k];
    NewerVersion(env, s, k, c);
    assert c.version == |h| - 1;
  }

  /** The same when the updater compares with the write time of a document it read earlier: the value
      it saw is the parse of that version or of a later one. */
  lemma SkipOfReadIsSafe(env: Env, run: seq<Action>, s: State, j: nat, k: Key)
    requires Reaches(env, run, s) && j in s.jobs && k in s.jobs[j].seen && k in s.jobs[j].read
    requires s.jobs[j].read[k] < |History(s, k)|
    requires History(s, k)[s.jobs[j].read[k]].at < s.jobs[j].seen[k].time
    ensures exists i :: s.jobs[j].read[k] <= i < |History(s, k)| &&
                        ParseOf(env, History(s, k)[i]) == Some(s.jobs[j].seen[k].value)
  {
    hide Inv, Ordered, Reaches;
    ReachableInv(env, run, s);
    SeenCoherent(env, s, j, k);
    var c, r := s.jobs[j].seen[k], s.jobs[j].read[k];
    NewerVersion(env, s, k, c);
    assert ParseOf(env, History(s, k)[c.version]) == Some(c.value);
  }

  /** With a comparison that also skips an item written at the very instant of the stamp, a cached value
      could be skipped while the source already holds another one. */
  lemma StrictnessNeeded(env: Env, k: Key, c1: Content, c2: Content) returns (run: seq<Action>, s: State)
    requires env.parse(c1).Some? && env.parse(c2).Some? && env.parse(c1) != env.parse(c2)
    ensures Reaches(env, run, s) && k in s.cache
    ensures var h := History(s, k);
            h != [] && h[|h| - 1].at <= s.cache[k].time && ParseOf(env, h[|h| - 1]) != Some(s.cache[k].value)
  {
    run, s := [], Initial;
    run, s := Extend(env, run, s, Write(k, Some(c1)));
    run, s := Extend(env, run, s, Stamp(0));
    run, s := Extend(env, run, s, Read(0, k));
    run, s := Extend(env, run, s, Write(k, Some(c2)));
    run, s := Extend(env, run, s, Store(0, k));
  }

  /** A store that stamps the entry with the instant of storing, instead of one from before the read. */
  function StoreStampedLate(env: Env, s: State, j: nat, k: Key): State
    requires Enabled(env, s, Store(j, k))
  {
    var version := s.jobs[j].read[k];
    s.(cache := s.cache[k := Cached(ParseOf(env, History(s, k)[version]).value, s.now, version)])
  }

  /** Were an entry stamped when it is stored instead of before it was read, it could be stamped after the
      write that made it stale: an updater that then looks at the stamp skips the item, now and at whatever
      later instant, though the source holds something else. */
  lemma StampFirstNeeded(env: Env, k: Key, c1: Content, c2: Content, wait: nat)
    returns (run: seq<Action>, s: State, stored: State, later: State)
    requires env.parse(c1).Some? && env.parse(c2).Some? && env.parse(c1) != env.parse(c2)
    ensures Reaches(env, run, s) && Enabled(env, s, Store(0, k)) && stored == StoreStampedLate(env, s, 0, k)
    ensures later == Next(env, Next(env, stored, Advance(wait)), Look(1, k))
    ensures 1 in later.jobs && k in later.jobs[1].seen
    ensures var h, seen := History(later, k), later.jobs[1].seen[k];
            h != [] && h[|h| - 1].at < seen.time && ParseOf(env, h[|h| - 1]) != Some(seen.value)
  {
    run, s := [], Initial;
    run, s := Extend(env, run, s, Write(k, Some(c1)));
    run, s := Extend(env, run, s, Stamp(0));
    run, s := Extend(env, run, s, Read(0, k));
    run, s := Extend(env, run, s, Write(k, Some(c2)));
    run, s := Extend(env, run, s, Advance(1));
    stored := StoreStampedLate(env, s, 0, k);
    later := Next(env, Next(env, stored, Advance(wait)), Look(1, k));
  }

  lemma Extend(env: Env, run: seq<Action>, s: State, a: Action) returns (run': seq<Action>, s': State)
    requires Reaches(env, run, s) && Enabled(env, s, a)
    ensures run' == run + [a] && s' == Next(env, s, a) && Reaches(env, run', s')
  {
    run', s' := run + [a], Next(env, s, a);
    assert run'[..|run|] == run;
  }

  // ---- The cache agrees with the source after an undisturbed update ----

  function View(cache: map<Key, Cached>): map<Key, Stamped> {
    map k | k in cache :: Stamped(cache[k].value, cache[k].time)
  }

  /** From any reachable state, however its writes and updates were interleaved: an error-free full
      update of the directory during which nothing is written leaves every template file's entry the
      parse of the file's content. */
  lemma QuietUpdateAgrees(env: Env, run: seq<Action>, s: State, files: seq<File>, stamps: seq<int>, i: nat, k: Key)
    requires Reaches(env, run, s)
    requires |stamps| == |files| && i < |files| && TemplateFile(env, files[i], k)
    requires forall j :: 0 <= j < |files| && j != i ==> !TemplateFile(env, files[j], k)
    requires var h := History(s, k);
             h != [] && files[i].modTime == Some(h[|h| - 1].at) && files[i].content == h[|h| - 1].content
    requires FilePass(env, Pass(View(s.cache), []), files, stamps).errs == []
    ensures var r := FilePass(env, Pass(View(s.cache), []), files, stamps).view;
            k in r && files[i].content.Some? && Some(r[k].value) == env.parse(files[i].content.value)
  {
    hide FilePass, TemplateFile, Reaches, Inv, Ordered;
    FilePassEntry(env, Pass(View(s.cache), []), files, stamps, i, k);
    ReachableInv(env, run, s);
    if k in s.cache {
      CachedCoherent(env, s, k);
      var h, c := History(s, k), s.cache[k];
      NewerVersion(env, s, k, c);
    }
  }

  /** The same of an error-free full update from Mongo, whether or not the document is dated. */
  lemma QuietMongoUpdateAgrees(env: Env, run: seq<Action>, s: State, docs: seq<Doc>, readTime: int, nows: seq<int>,
                               i: nat)
    requires Reaches(env, run, s)
    requires |nows| == |docs| && Alone(docs, i) && s.now <= nows[i]
    requires var h := History(s, docs[i].id);
             h != [] && Some(docs[i].content) == h[|h| - 1].content && docs[i].updatedAt in {None, Some(h[|h| - 1].at)}
    requires DocPass(env, Pass(View(s.cache), []), docs, readTime, nows).errs == []
    ensures var r := DocPass(env, Pass(View(s.cache), []), docs, readTime, nows).view;
            docs[i].id in r && Some(r[docs[i].id].value) == env.parse(docs[i].content)
  {
    hide DocPass, Reaches, Inv, Ordered;
    var k := docs[i].id;
    ReachableInv(env, run, s);
    if k in s.cache {
      CachedCoherent(env, s, k);
      NewerVersion(env, s, k, s.cache[k]);
    }
    DocPassEntry(env, Pass(View(s.cache), []), docs, readTime, nows, i);
  }

  lemma CachedCoherent(env: Env, s: State, k: Key)
    requires Inv(env, s) && k in s.cache
    ensures Coherent(env, s, k, s.cache[k]) && Ordered(History(s, k), s.now)
  {}
}
