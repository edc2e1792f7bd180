/** The passes and clean-ups of the code are runs of the refresh protocol: what is proved of every run, however steps
    of others come in between, holds of them. */
module RefreshRuns {
  import opened CacheTypes
  import opened Collections
  import opened BackgroundCache
  import opened TemplateSources
  import opened TemplateAges
  import opened TemplateEntries
  import opened RefreshProtocol

  /** Asking for the file's modification time and reading it give what the source holds now. */
  ghost predicate Reflects(s: State, f: File, k: Key) {
    var h := History(s, k);
    h != [] && f.modTime == Some(h[|h| - 1].at) && f.content == h[|h| - 1].content
  }

  lemma JobSteps(env: Env, s: State, j: nat, k: Key, stamp: int)
    requires stamp >= s.now && History(s, k) != []
    ensures var looked := Next(env, s, Look(j, k));
            var waited := Next(env, looked, Advance(stamp - s.now));
            var stamped := Next(env, waited, Stamp(j));
            Enabled(env, stamped, Read(j, k)) &&
            var read := Next(env, stamped, Read(j, k));
            && read.now == stamp && read.source == s.source && read.cache == s.cache
            && j in read.jobs && read.jobs[j].stamp == stamp && k in read.jobs[j].read
            && read.jobs[j].read[k] == |History(s, k)| - 1
  {}

  /** An updater that asks, reads the clock, reads the file and stores its parse, unless the file is up to date or
      does not parse, does what one step of a directory pass does. */
  lemma FileStepIsRun(env: Env, run: seq<Action>, s: State, f: File, k: Key, stamp: int, j: nat)
    returns (run': seq<Action>, s': State)
    requires Reaches(env, run, s) && stamp >= s.now && TemplateFile(env, f, k) && Reflects(s, f, k)
    ensures Reaches(env, run', s') && run <= run' && s'.now == stamp && s'.source == s.source
    ensures forall errs :: View(s'.cache) == FileStep(env, Pass(View(s.cache), errs), f, stamp).view
  {
    hide Reaches, Ext, Stem;
    JobSteps(env, s, j, k, stamp);
    run', s' := Extend(env, run, s, Look(j, k));
    run', s' := Extend(env, run', s', Advance(stamp - s.now));
    run', s' := Extend(env, run', s', Stamp(j));
    run', s' := Extend(env, run', s', Read(j, k));
    if !UpToDate(View(s.cache), k, f.modTime.value) && Parses(env, f.content) {
      run', s' := Extend(env, run', s', Store(j, k));
      StoredView(s.cache, k, s'.cache[k]);
    }
  }

  lemma StoredView(cache: map<Key, Cached>, k: Key, c: Cached)
    ensures View(cache[k := c]) == View(cache)[k := Stamped(c.value, c.time)]
  {}

  /** A whole directory pass, while the source is undisturbed, whether or not it reports errors. */
  lemma {:induction false} FilePassIsRun(env: Env, run: seq<Action>, s: State, files: seq<File>, stamps: seq<int>,
                                         end: int, j: nat)
    returns (run': seq<Action>, s': State)
    requires Reaches(env, run, s) && |stamps| == |files| && Readings(stamps, s.now, end)
    requires forall i, k :: 0 <= i < |files| && TemplateFile(env, files[i], k) ==> Reflects(s, files[i], k)
    ensures Reaches(env, run', s') && run <= run' && s'.source == s.source && s.now <= s'.now <= end
    ensures View(s'.cache) == FilePass(env, Pass(View(s.cache), []), files, stamps).view
  {
    hide Reaches, TemplateFile, FileStep, Reflects;
    if files == [] {
      run', s' := run, s;
    } else {
      var n := |files| - 1;
      forall i, k | 0 <= i < n && TemplateFile(env, files[..n][i], k)
        ensures Reflects(s, files[..n][i], k)
      {
        assert TemplateFile(env, files[i], k);
      }
      ReadingsPrefix(stamps, s.now, end);
      run', s' := FilePassIsRun(env, run, s, files[..n], stamps[..n], stamps[n], j);
      var pass := FilePass(env, Pass(View(s.cache), []), files[..n], stamps[..n]);
      var k := env.id(Stem(files[n].name));
      if TemplateFile(env, files[n], k) {
        SameSource(s, s', files[n], k);
        var before := s';
        var longer;
        longer, s' := FileStepIsRun(env, run', s', files[n], k, stamps[n], j);
        assert FileStep(env, Pass(View(before.cache), pass.errs), files[n], stamps[n]).view == View(s'.cache);
        PrefixTransitive(run, run', longer);
        run' := longer;
      } else {
        NoStep(env, pass, files[n], stamps[n], k);
        var longer;
        var wait := stamps[n] - s'.now;
        longer, s' := Extend(env, run', s', Advance(wait));
        PrefixTransitive(run, run', longer);
        run' := longer;
      }
    }
  }

  lemma PrefixTransitive(a: seq<Action>, b: seq<Action>, c: seq<Action>)
    requires a <= b <= c
    ensures a <= c
  {}

  lemma ReadingsPrefix(stamps: seq<int>, start: int, end: int)
    requires Readings(stamps, start, end) && stamps != []
    ensures Readings(stamps[..|stamps| - 1], start, stamps[|stamps| - 1]) && start <= stamps[|stamps| - 1] <= end
  {}

  lemma SameSource(s: State, t: State, f: File, k: Key)
    requires t.source == s.source && Reflects(s, f, k)
    ensures Reflects(t, f, k)
  {}

  lemma NoStep(env: Env, pass: Pass, f: File, stamp: int, k: Key)
    requires k == env.id(Stem(f.name)) && !TemplateFile(env, f, k)
    ensures FileStep(env, pass, f, stamp) == pass
  {
    hide Ext, Stem;
  }

  /** An updater that has read a document, of whatever version, under its stamp, and then asks and stores, does what
      one step of a cursor pass does. */
  lemma DocStepIsRun(env: Env, run: seq<Action>, s: State, d: Doc, now: int, j: nat)
    returns (run': seq<Action>, s': State)
    requires Reaches(env, run, s) && s.now <= now && d.decodes && j in s.jobs && d.id in s.jobs[j].read
    requires var h := History(s, d.id);
             s.jobs[j].read[d.id] < |h| && h[s.jobs[j].read[d.id]].content == Some(d.content)
    ensures Reaches(env, run', s') && run <= run' && s'.now == now && s'.source == s.source
    ensures forall errs ::
              View(s'.cache) == DocStep(env, Pass(View(s.cache), errs), d, s.jobs[j].stamp, now).view
  {
    hide Reaches;
    run', s' := Extend(env, run, s, Look(j, d.id));
    run', s' := Extend(env, run', s', Advance(now - s.now));
    if !UpToDate(View(s.cache), d.id, match d.updatedAt { case None => now case Some(at) => at })
       && env.parse(d.content).Some? {
      run', s' := Extend(env, run', s', Store(j, d.id));
      StoredView(s.cache, d.id, s'.cache[d.id]);
    }
  }

  /** A clean-up is a run of expiries: any set of entries can go. */
  lemma {:induction false} ExpireAll(env: Env, run: seq<Action>, s: State, gone: set<Key>)
    returns (run': seq<Action>, s': State)
    requires Reaches(env, run, s)
    ensures Reaches(env, run', s') && run <= run' && s'.now == s.now && s'.source == s.source && s'.jobs == s.jobs
    ensures s'.cache == s.cache - gone
    decreases gone
  {
    hide Reaches;
    if gone == {} {
      run', s' := run, s;
      assert s.cache - gone == s.cache;
    } else {
      var k :| k in gone;
      run', s' := Extend(env, run, s, Expire(k));
      var longer;
      longer, s' := ExpireAll(env, run', s', gone - {k});
      PrefixTransitive(run, run', longer);
      run' := longer;
      assert s.cache - {k} - (gone - {k}) == s.cache - gone;
    }
  }

  /** What the clean-up of the cache leaves, at whatever instants it examines the keys. */
  lemma CleanUpIsRun(env: Env, run: seq<Action>, s: State, limit: int, clock: Key -> int, end: int)
    returns (run': seq<Action>, s': State)
    requires Reaches(env, run, s) && s.now <= end
    ensures Reaches(env, run', s') && run <= run' && s'.now == end && s'.source == s.source
    ensures View(s'.cache) == Unexpired(View(s.cache), limit, clock)
  {
    hide Reaches;
    var gone := set k | k in s.cache && clock(k) - s.cache[k].time > limit;
    run', s' := ExpireAll(env, run, s, gone);
    var longer;
    longer, s' := Extend(env, run', s', Advance(end - s.now));
    PrefixTransitive(run, run', longer);
    run' := longer;
  }

  /** The value is the parse of content that the source held no earlier than its stamp. */
  ghost predicate HeldSince(env: Env, s: State, k: Key, x: Stamped) {
    exists i :: 0 <= i < |History(s, k)| && ParseOf(env, History(s, k)[i]) == Some(x.value) &&
                (i + 1 < |History(s, k)| ==> x.time <= History(s, k)[i + 1].at)
  }

  lemma CachedHeld(env: Env, run: seq<Action>, s: State, k: Key)
    requires Reaches(env, run, s) && k in s.cache
    ensures HeldSince(env, s, k, View(s.cache)[k])
  {
    hide Reaches;
    CacheCoherent(env, run, s, k);
  }

  /** So, from any state however it was reached, after a directory pass and a clean-up every entry is such a value. */
  lemma TickIsCoherent(env: Env, run: seq<Action>, s: State, files: seq<File>, stamps: seq<int>, middle: int,
                       limit: int, clock: Key -> int, end: int, k: Key)
    requires Reaches(env, run, s) && |stamps| == |files| && Readings(stamps, s.now, middle) && middle <= end
    requires forall i, l :: 0 <= i < |files| && TemplateFile(env, files[i], l) ==> Reflects(s, files[i], l)
    ensures var r := Unexpired(FilePass(env, Pass(View(s.cache), []), files, stamps).view, limit, clock);
            k in r ==> HeldSince(env, s, k, r[k])
  {
    hide Reaches, FilePass, TemplateFile, Reflects, HeldSince, Readings, Unexpired;
    var run', t := FilePassIsRun(env, run, s, files, stamps, middle, 0);
    var run'', u := CleanUpIsRun(env, run', t, limit, clock, end);
    if k in u.cache {
      CachedHeld(env, run'', u, k);
      HeldSame(env, s, u, k, View(u.cache)[k]);
    }
  }

  lemma HeldSame(env: Env, s: State, t: State, k: Key, x: Stamped)
    requires HeldSince(env, t, k, x) && t.source == s.source
    ensures HeldSince(env, s, k, x)
  {
    assert History(s, k) == History(t, k);
    var i :| 0 <= i < |History(t, k)| && ParseOf(env, History(t, k)[i]) == Some(x.value) &&
             (i + 1 < |History(t, k)| ==> x.time <= History(t, k)[i + 1].at);
    assert ParseOf(env, History(s, k)[i]) == Some(x.value);
  }
}
