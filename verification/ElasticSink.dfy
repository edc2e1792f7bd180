/** The log sink step by step: writers, the worker that moves entries from the queue to the bulk buffer,
    flushes by the worker and by callers of Sync, and shutdown. */
module ElasticSink {
  import opened Collections

  type Entry(!new)
  type Doc(!new)

  const BULK_SIZE := 100

  /** Where the worker is: in its main loop, about to flush or flushing, emptying the queue, in its last
      flush, or gone. */
  datatype Phase = Running | Flushing | Draining | LastFlush | Exited

  /** A bulk request on its way, under the mutex: who sent it and the actions it carries. */
  datatype Flight = Flight(byWorker: bool, batch: seq<Doc>)

  datatype State = State(
    queue: seq<Entry>, capacity: nat, bulk: seq<Doc>, flight: Option<Flight>, phase: Phase,
    done: bool, closed: bool, crashed: bool,
    // what has happened so far
    accepted: seq<Entry>,        // entries writers were told are accepted, in order
    added: seq<Doc>,             // documents put into the buffer, in order
    sent: seq<seq<Doc>>,         // batches of successful requests, in order
    lost: nat,                   // documents dropped from the buffer without having been in a request
    acceptedAtDone: nat,         // how many entries had been accepted when `done` closed
    drained: nat)                // documents added while draining

  datatype Action =
    | Write(entry: Entry)        // the writer is told the entry is accepted
    | Refuse(entry: Entry)       // the writer is told the sink is closed
    | WriteClosed(entry: Entry)  // the writer sends to the closed queue: the program panics
    | Take                       // the worker takes an entry from the queue
    | Tick                       // the ticker fires in the main loop
    | NoticeDone                 // the worker sees that `done` is closed
    | DrainEnd                   // the worker finds the queue empty
    | BeginFlush(byWorker: bool) // takes the mutex
    | EndFlush(success: bool)    // the request returns, the mutex is released
    | CloseDone
    | CloseEntries

  function Initial(capacity: nat): State {
    State([], capacity, [], None, Running, false, false, false, [], [], [], 0, 0, 0)
  }

  /** A queue without room of its own takes an entry only into the hands of the worker, who then adds it
      before it does anything else. */
  predicate HasRoom(s: State) {
    if s.capacity == 0 then s.queue == [] && s.phase.Running? else |s.queue| < s.capacity
  }

  predicate EmptyHanded(s: State) {
    s.capacity == 0 ==> s.queue == []
  }

  ghost predicate Enabled(s: State, a: Action) {
    && !s.crashed
    && match a
       case Write(_) => HasRoom(s) && !s.closed
       case Refuse(_) => s.done
       case WriteClosed(_) => s.closed
       case Take => s.queue != [] && (s.phase.Running? || s.phase.Draining?)
       case Tick => s.phase.Running? && EmptyHanded(s)
       case NoticeDone => s.phase.Running? && s.done && EmptyHanded(s)
       case DrainEnd => s.phase.Draining? && s.queue == []
       case BeginFlush(byWorker) => s.flight.None? && (byWorker ==> s.phase.Flushing? || s.phase.LastFlush?)
       case EndFlush(_) => s.flight.Some?
       case CloseDone => !s.done
       case CloseEntries => s.done && s.phase.Exited?
  }

  /** The worker after its flush. */
  function AfterFlush(p: Phase): Phase {
    if p.LastFlush? then Exited else if p.Flushing? then Running else p
  }

  function AddDoc(s: State, doc: Doc): State {
    var t := s.(bulk := s.bulk + [doc], added := s.added + [doc]);
    if s.phase.Draining? then t.(drained := s.drained + 1)
    else if |t.bulk| >= BULK_SIZE then t.(phase := Flushing)
    else t
  }

  function Next(parse: Entry -> Option<Doc>, s: State, a: Action): State
    requires a.Take? ==> s.queue != []
    requires a.EndFlush? ==> s.flight.Some?
  {
    match a
    case Write(e) => s.(queue := s.queue + [e], accepted := s.accepted + [e])
    case Refuse(_) => s
    case WriteClosed(_) => s.(crashed := true)
    case Take =>
      var rest := s.(queue := s.queue[1..]);
      (match parse(s.queue[0])
       case None => rest
       case Some(doc) => AddDoc(rest, doc))
    case Tick => if |s.bulk| > 0 then s.(phase := Flushing) else s
    case NoticeDone => s.(phase := Draining)
    case DrainEnd => s.(phase := LastFlush)
    case BeginFlush(byWorker) =>
      if s.bulk != [] then s.(flight := Some(Flight(byWorker, s.bulk)))
      else if byWorker then s.(phase := AfterFlush(s.phase))
      else s
    case EndFlush(success) =>
      var f := s.flight.value;
      var t := s.(flight := None, phase := if f.byWorker then AfterFlush(s.phase) else s.phase);
      // a successful request resets the buffer, whatever it holds by then
      var dropped := if |s.bulk| >= |f.batch| then |s.bulk| - |f.batch| else 0;
      if success then t.(bulk := [], sent := s.sent + [f.batch], lost := s.lost + dropped)
      else t
    case CloseDone => s.(done := true, acceptedAtDone := |s.accepted|)
    case CloseEntries => s.(closed := true)
  }

  /** The run takes a new sink to `s`. */
  ghost predicate Reaches(parse: Entry -> Option<Doc>, capacity: nat, run: seq<Action>, s: State) {
    if run == [] then s == Initial(capacity)
    else
      var n := |run| - 1;
      exists before ::
        Reaches(parse, capacity, run[..n], before) && Enabled(before, run[n]) && s == Next(parse, before, run[n])
  }

  function ParseAll(parse: Entry -> Option<Doc>, entries: seq<Entry>): seq<Doc> {
    if entries == [] then []
    else
      var n := |entries| - 1;
      ParseAll(parse, entries[..n]) + match parse(entries[n]) { case None => [] case Some(doc) => [doc] }
  }

  function Flat(batches: seq<seq<Doc>>): seq<Doc> {
    if batches == [] then [] else Flat(batches[..|batches| - 1]) + batches[|batches| - 1]
  }

  // ---- The invariant ----

  ghost predicate Inv(parse: Entry -> Option<Doc>, s: State) {
    && |s.queue| <= |s.accepted|
    && s.queue == s.accepted[|s.accepted| - |s.queue|..]
    && s.added == ParseAll(parse, s.accepted[..|s.accepted| - |s.queue|])
    && Within(Flat(s.sent) + s.bulk, s.added)
    && |Flat(s.sent)| + |s.bulk| + s.lost == |s.added|
    && (s.flight.Some? ==> s.flight.value.batch <= s.bulk)
    && (s.flight.Some? && s.flight.value.byWorker ==>
          s.flight.value.batch == s.bulk && (s.phase.Flushing? || s.phase.LastFlush?))
    && s.acceptedAtDone <= |s.accepted|
    && (s.phase.LastFlush? || s.phase.Exited? ==> s.done && s.acceptedAtDone <= |s.accepted| - |s.queue|)
    && (s.phase.Draining? ==> s.done)
  }

  lemma {:induction false} ParseAllAppend(parse: Entry -> Option<Doc>, a: seq<Entry>, b: seq<Entry>)
    ensures ParseAll(parse, a + b) == ParseAll(parse, a) + ParseAll(parse, b)
  {
    if b == [] {
      assert a + b == a;
    } else {
      assert (a + b)[..|a + b| - 1] == a + b[..|b| - 1];
      ParseAllAppend(parse, a, b[..|b| - 1]);
    }
  }

  lemma ParseAllNext(parse: Entry -> Option<Doc>, entries: seq<Entry>, n: nat)
    requires n < |entries|
    ensures ParseAll(parse, entries[..n + 1]) ==
            ParseAll(parse, entries[..n]) + match parse(entries[n]) { case None => [] case Some(doc) => [doc] }
  {
    assert entries[..n + 1][..n] == entries[..n];
  }

  lemma AddKeeps(a: seq<Doc>, bulk: seq<Doc>, added: seq<Doc>, doc: Doc)
    requires Within(a + bulk, added)
    ensures Within(a + (bulk + [doc]), added + [doc])
  {
    assert a + (bulk + [doc]) == a + bulk + [doc];
    WithinAppend(a + bulk, added, doc);
  }

  lemma TakeKeeps(parse: Entry -> Option<Doc>, s: State)
    requires Inv(parse, s) && Enabled(s, Take)
    ensures Inv(parse, Next(parse, s, Take))
  {
    hide Within, Flat, ParseAll;
    var n := |s.accepted| - |s.queue|;
    assert s.accepted[n] == s.queue[0];
    ParseAllNext(parse, s.accepted, n);
    match parse(s.queue[0])
    case None =>
    case Some(doc) => AddKeeps(Flat(s.sent), s.bulk, s.added, doc);
  }

  lemma WriteKeeps(parse: Entry -> Option<Doc>, s: State, e: Entry)
    requires Inv(parse, s)
    ensures Inv(parse, Next(parse, s, Write(e)))
  {
    hide Within, Flat, ParseAll;
    var t := Next(parse, s, Write(e));
    var n := |s.accepted| - |s.queue|;
    assert t.accepted[..n] == s.accepted[..n] && t.accepted[n..] == s.accepted[n..] + [e];
  }

  lemma FlatNext(batches: seq<seq<Doc>>, batch: seq<Doc>)
    ensures Flat(batches + [batch]) == Flat(batches) + batch
  {
    assert (batches + [batch])[..|batches|] == batches;
  }

  lemma EndFlushKeeps(parse: Entry -> Option<Doc>, s: State, success: bool)
    requires Inv(parse, s) && Enabled(s, EndFlush(success))
    ensures Inv(parse, Next(parse, s, EndFlush(success)))
  {
    hide Within, ParseAll, Flat;
    if success {
      var f, t := s.flight.value, Next(parse, s, EndFlush(success));
      FlatNext(s.sent, f.batch);
      var rest := s.bulk[|f.batch|..];
      assert Flat(s.sent) + s.bulk == Flat(t.sent) + t.bulk + rest;
      WithinPrefix(Flat(t.sent) + t.bulk, rest, s.added);
    }
  }

  /** Every step of writers, worker, callers of Sync and shutdown keeps the invariant. */
  lemma StepKeeps(parse: Entry -> Option<Doc>, s: State, a: Action)
    requires Inv(parse, s) && Enabled(s, a)
    ensures Inv(parse, Next(parse, s, a))
  {
    match a {
      case Write(e) => WriteKeeps(parse, s, e);
      case Take => TakeKeeps(parse, s);
      case EndFlush(success) => EndFlushKeeps(parse, s, success);
      case _ =>
    }
  }

  lemma {:induction false} ReachableInv(parse: Entry -> Option<Doc>, capacity: nat, run: seq<Action>, s: State)
    requires Reaches(parse, capacity, run, s)
    ensures Inv(parse, s)
  {
    hide Inv;
    if run == [] {
      InitialInv(parse, capacity);
    } else {
      var n := |run| - 1;
      var before :|
        Reaches(parse, capacity, run[..n], before) && Enabled(before, run[n]) && s == Next(parse, before, run[n]);
      ReachableInv(parse, capacity, run[..n], before);
      StepKeeps(parse, before, run[n]);
    }
  }

  lemma InitialInv(parse: Entry -> Option<Doc>, capacity: nat)
    ensures Inv(parse, Initial(capacity))
  {
    var s := Initial(capacity);
    assert s.accepted[0..] == [] && s.accepted[..0] == [];
    assert ParseAll(parse, []) == [] && Flat(s.sent) + s.bulk == [];
  }

  // ---- Conservation and order ----

  /** What was sent, what is buffered and what is queued, in that order. */
  function Held(parse: Entry -> Option<Doc>, s: State): seq<Doc> {
    Flat(s.sent) + s.bulk + ParseAll(parse, s.queue)
  }

  /** In every reachable state nothing is invented, duplicated or reordered, and nothing is missing
      exactly when no document has been dropped from the buffer unsent. */
  lemma Conservation(parse: Entry -> Option<Doc>, capacity: nat, run: seq<Action>, s: State)
    requires Reaches(parse, capacity, run, s)
    ensures Held(parse, s) == ParseAll(parse, s.accepted) <==> s.lost == 0
    ensures |Held(parse, s)| + s.lost == |ParseAll(parse, s.accepted)|
    ensures Within(Flat(s.sent) + s.bulk, s.added) && ParseAll(parse, s.accepted) == s.added + ParseAll(parse, s.queue)
  {
    hide Reaches, Within, Flat, ParseAll;
    ReachableInv(parse, capacity, run, s);
    var n := |s.accepted| - |s.queue|;
    assert s.accepted == s.accepted[..n] + s.queue;
    ParseAllAppend(parse, s.accepted[..n], s.queue);
    WithinWhole(Flat(s.sent) + s.bulk, s.added);
  }

  // ---- When documents are lost, read off the actions of the run ----

  /** The entries the run's writers were told are accepted. */
  function Written(run: seq<Action>): seq<Entry> {
    if run == [] then []
    else
      var n := |run| - 1;
      Written(run[..n]) + if run[n].Write? then [run[n].entry] else []
  }

  /** How many entries the run takes from the queue. */
  function Taken(run: seq<Action>): nat {
    if run == [] then 0
    else
      var n := |run| - 1;
      Taken(run[..n]) + if run[n].Take? then 1 else 0
  }

  /** Action `j` takes an entry that parses: the n-th taken is the n-th written. */
  predicate PutsDoc(parse: Entry -> Option<Doc>, run: seq<Action>, j: nat) {
    && j < |run| && run[j].Take?
    && Taken(run[..j]) < |Written(run[..j])|
    && parse(Written(run[..j])[Taken(run[..j])]).Some?
  }

  /** How many documents the run leaves in the buffer: those put there since a request last succeeded. */
  function Buffered(parse: Entry -> Option<Doc>, run: seq<Action>): nat {
    if run == [] then 0
    else
      var n := |run| - 1;
      if run[n] == EndFlush(true) then 0
      else Buffered(parse, run[..n]) + if PutsDoc(parse, run, n) then 1 else 0
  }

  /** Action `i` is a Sync that finds something to send, and no request has returned between it and `k`. */
  predicate SyncUnderWay(parse: Entry -> Option<Doc>, run: seq<Action>, i: nat, k: nat) {
    && i < k <= |run|
    && run[i] == BeginFlush(false) && Buffered(parse, run[..i]) > 0
    && forall m :: i < m < k ==> !run[m].EndFlush?
  }

  /** Between the start of a Sync's request, at `i`, and its success, at `k`, the worker puts a document
      into the buffer, at `j`. */
  predicate Overtakes(parse: Entry -> Option<Doc>, run: seq<Action>, i: nat, j: nat, k: nat) {
    && i < j < k < |run|
    && SyncUnderWay(parse, run, i, k) && run[k] == EndFlush(true)
    && PutsDoc(parse, run, j)
  }

  /** What the actions say of the state they lead to. */
  lemma {:induction false} RunSays(parse: Entry -> Option<Doc>, capacity: nat, run: seq<Action>, s: State)
    requires Reaches(parse, capacity, run, s)
    ensures Says(parse, run, s)
  {
    if run != [] {
      hide Says;
      var n := |run| - 1;
      var before :|
        Reaches(parse, capacity, run[..n], before) && Enabled(before, run[n]) && s == Next(parse, before, run[n]);
      RunSays(parse, capacity, run[..n], before);
      SaysStep(parse, run, n, before);
    }
  }

  ghost predicate Says(parse: Entry -> Option<Doc>, run: seq<Action>, s: State) {
    && Written(run) == s.accepted
    && Taken(run) + |s.queue| == |s.accepted|
    && s.queue == s.accepted[Taken(run)..]
    && Buffered(parse, run) == |s.bulk|
  }

  lemma SaysStep(parse: Entry -> Option<Doc>, run: seq<Action>, n: nat, s: State)
    requires n == |run| - 1 && Says(parse, run[..n], s) && Enabled(s, run[n])
    ensures Says(parse, run, Next(parse, s, run[n]))
    ensures PutsDoc(parse, run, n) <==> run[n].Take? && parse(s.queue[0]).Some?
  {
    match run[n] {
      case Write(e) => SaysWrite(parse, run, n, s);
      case Take => SaysTake(parse, run, n, s);
      case _ =>
        assert Written(run) == Written(run[..n]);
        NotTake(parse, run, n);
    }
  }

  lemma SaysWrite(parse: Entry -> Option<Doc>, run: seq<Action>, n: nat, s: State)
    requires n == |run| - 1 && Says(parse, run[..n], s) && run[n].Write?
    ensures Says(parse, run, Next(parse, s, run[n])) && !PutsDoc(parse, run, n)
  {
    hide PutsDoc;
    var e := run[n].entry;
    assert Written(run) == s.accepted + [e];
    assert (s.accepted + [e])[Taken(run)..] == s.queue + [e];
    NotTake(parse, run, n);
  }

  lemma NotTake(parse: Entry -> Option<Doc>, run: seq<Action>, n: nat)
    requires n < |run| && !run[n].Take?
    ensures !PutsDoc(parse, run, n)
  {}

  lemma SaysTake(parse: Entry -> Option<Doc>, run: seq<Action>, n: nat, s: State)
    requires n == |run| - 1 && Says(parse, run[..n], s) && run[n].Take? && s.queue != []
    ensures Says(parse, run, Next(parse, s, run[n]))
    ensures PutsDoc(parse, run, n) <==> parse(s.queue[0]).Some?
  {
    assert Written(run) == s.accepted;
    assert s.accepted[Taken(run[..n])] == s.queue[0];
    assert s.accepted[Taken(run)..] == s.queue[1..];
  }

  /** A part of the run sees its own actions alone. */
  lemma PrefixSays(parse: Entry -> Option<Doc>, run: seq<Action>, n: nat)
    requires n <= |run|
    ensures forall j :: 0 <= j < n ==> (PutsDoc(parse, run[..n], j) <==> PutsDoc(parse, run, j))
    ensures forall i, k :: 0 <= i < k <= n ==> (SyncUnderWay(parse, run[..n], i, k) <==> SyncUnderWay(parse, run, i, k))
  {
    hide Buffered, Taken, Written;
    forall j | 0 <= j < n
      ensures run[..n][..j] == run[..j]
    {}
  }

  ghost predicate UnderWay(parse: Entry -> Option<Doc>, run: seq<Action>) {
    exists i: nat :: SyncUnderWay(parse, run, i, |run|)
  }

  ghost predicate Gained(parse: Entry -> Option<Doc>, run: seq<Action>) {
    exists i: nat, j: nat :: SyncUnderWay(parse, run, i, |run|) && i < j && PutsDoc(parse, run, j)
  }

  lemma UnderWayStep(parse: Entry -> Option<Doc>, run: seq<Action>, n: nat)
    requires n == |run| - 1
    ensures UnderWay(parse, run) <==>
            (run[n] == BeginFlush(false) && Buffered(parse, run[..n]) > 0) ||
            (UnderWay(parse, run[..n]) && !run[n].EndFlush?)
  {
    hide Buffered, PutsDoc;
    PrefixSays(parse, run, n);
    if UnderWay(parse, run) {
      var i: nat :| SyncUnderWay(parse, run, i, |run|);
      if i < n {
        assert SyncUnderWay(parse, run[..n], i, n);
      }
    }
    if UnderWay(parse, run[..n]) && !run[n].EndFlush? {
      var i: nat :| SyncUnderWay(parse, run[..n], i, n);
      assert SyncUnderWay(parse, run, i, |run|);
    }
    if run[n] == BeginFlush(false) && Buffered(parse, run[..n]) > 0 {
      assert SyncUnderWay(parse, run, n, |run|);
    }
  }

  lemma GainedStep(parse: Entry -> Option<Doc>, run: seq<Action>, n: nat)
    requires n == |run| - 1
    ensures Gained(parse, run) <==>
            (PutsDoc(parse, run, n) && UnderWay(parse, run[..n])) || (Gained(parse, run[..n]) && !run[n].EndFlush?)
  {
    hide Buffered;
    PrefixSays(parse, run, n);
    if Gained(parse, run) {
      var i: nat, j: nat :| SyncUnderWay(parse, run, i, |run|) && i < j && PutsDoc(parse, run, j);
      assert SyncUnderWay(parse, run[..n], i, n);
      assert j < n ==> PutsDoc(parse, run[..n], j);
    }
    if PutsDoc(parse, run, n) && UnderWay(parse, run[..n]) {
      var i: nat :| SyncUnderWay(parse, run[..n], i, n);
      assert SyncUnderWay(parse, run, i, |run|);
    }
    if Gained(parse, run[..n]) && !run[n].EndFlush? {
      var i: nat, j: nat :| SyncUnderWay(parse, run[..n], i, n) && i < j && PutsDoc(parse, run[..n], j);
      assert SyncUnderWay(parse, run, i, |run|) && PutsDoc(parse, run, j);
    }
  }

  /** The request of a Sync is on its way exactly when the actions show one under way, and what the buffer
      holds beyond the request was put there since. */
  lemma {:induction false} FlightExactly(parse: Entry -> Option<Doc>, capacity: nat, run: seq<Action>, s: State)
    requires Reaches(parse, capacity, run, s)
    ensures s.flight.Some? && !s.flight.value.byWorker <==> UnderWay(parse, run)
    ensures s.flight.Some? && |s.bulk| > |s.flight.value.batch| <==> Gained(parse, run)
  {
    hide UnderWay, Gained, Buffered;
    if run == [] {
      NoneUnderWay(parse);
    } else {
      var n := |run| - 1;
      var before :|
        Reaches(parse, capacity, run[..n], before) && Enabled(before, run[n]) && s == Next(parse, before, run[n]);
      FlightExactly(parse, capacity, run[..n], before);
      FlightStep(parse, capacity, run, n, before);
    }
  }

  lemma NoneUnderWay(parse: Entry -> Option<Doc>)
    ensures !UnderWay(parse, []) && !Gained(parse, [])
  {}

  lemma FlightStep(parse: Entry -> Option<Doc>, capacity: nat, run: seq<Action>, n: nat, s: State)
    requires n == |run| - 1 && Reaches(parse, capacity, run[..n], s) && Enabled(s, run[n])
    requires s.flight.Some? && !s.flight.value.byWorker <==> UnderWay(parse, run[..n])
    requires s.flight.Some? && |s.bulk| > |s.flight.value.batch| <==> Gained(parse, run[..n])
    ensures var t := Next(parse, s, run[n]);
            && (t.flight.Some? && !t.flight.value.byWorker <==> UnderWay(parse, run))
            && (t.flight.Some? && |t.bulk| > |t.flight.value.batch| <==> Gained(parse, run))
  {
    hide UnderWay, Gained, Buffered, Taken, Written, Within, Flat, ParseAll, Reaches;
    ReachableInv(parse, capacity, run[..n], s);
    RunSays(parse, capacity, run[..n], s);
    UnderWayStep(parse, run, n);
    GainedStep(parse, run, n);
  }

  ghost predicate Overtaken(parse: Entry -> Option<Doc>, run: seq<Action>) {
    exists i: nat, j: nat, k: nat :: Overtakes(parse, run, i, j, k)
  }

  lemma OvertakenStep(parse: Entry -> Option<Doc>, run: seq<Action>, n: nat)
    requires n == |run| - 1
    ensures Overtaken(parse, run) <==>
            Overtaken(parse, run[..n]) || (run[n] == EndFlush(true) && Gained(parse, run[..n]))
  {
    hide Buffered, PutsDoc, SyncUnderWay;
    PrefixSays(parse, run, n);
    if Overtaken(parse, run) {
      var i: nat, j: nat, k: nat :| Overtakes(parse, run, i, j, k);
      if k < n {
        assert Overtakes(parse, run[..n], i, j, k);
      } else {
        assert SyncUnderWay(parse, run[..n], i, n) && PutsDoc(parse, run[..n], j);
      }
    }
    if Overtaken(parse, run[..n]) {
      var i: nat, j: nat, k: nat :| Overtakes(parse, run[..n], i, j, k);
      assert Overtakes(parse, run, i, j, k);
    }
    if run[n] == EndFlush(true) && Gained(parse, run[..n]) {
      var i: nat, j: nat :| SyncUnderWay(parse, run[..n], i, n) && i < j && PutsDoc(parse, run[..n], j);
      PutsInside(parse, run[..n], j);
      assert Overtakes(parse, run, i, j, n);
    }
  }

  lemma PutsInside(parse: Entry -> Option<Doc>, run: seq<Action>, j: nat)
    requires PutsDoc(parse, run, j)
    ensures j < |run|
  {}

  /** Documents go missing exactly when the worker takes an entry that parses between a Sync that found
      something to send and the success of its request: the mutex covers the request but not the adding. */
  lemma {:induction false} LostExactly(parse: Entry -> Option<Doc>, capacity: nat, run: seq<Action>, s: State)
    requires Reaches(parse, capacity, run, s)
    ensures s.lost > 0 <==> exists i: nat, j: nat, k: nat :: Overtakes(parse, run, i, j, k)
  {
    hide Overtakes, Gained, UnderWay;
    if run == [] {
      NoneOvertaken(parse);
    } else {
      var n := |run| - 1;
      var before :|
        Reaches(parse, capacity, run[..n], before) && Enabled(before, run[n]) && s == Next(parse, before, run[n]);
      LostExactly(parse, capacity, run[..n], before);
      ReachableInv(parse, capacity, run[..n], before);
      FlightExactly(parse, capacity, run[..n], before);
      OvertakenStep(parse, run, n);
      LostStep(parse, before, run[n]);
    }
  }

  lemma NoneOvertaken(parse: Entry -> Option<Doc>)
    ensures !Overtaken(parse, [])
  {}

  lemma LostStep(parse: Entry -> Option<Doc>, s: State, a: Action)
    requires Inv(parse, s) && Enabled(s, a)
    ensures Next(parse, s, a).lost > 0 <==> s.lost > 0 || (a == EndFlush(true) && |s.bulk| > |s.flight.value.batch|)
  {
    hide Within, Flat, ParseAll;
  }

  lemma WorkerStep(parse: Entry -> Option<Doc>, s: State, a: Action)
    requires Inv(parse, s) && Enabled(s, a) && a != BeginFlush(false)
    requires s.lost == 0 && (s.flight.Some? ==> s.flight.value.byWorker)
    ensures var t := Next(parse, s, a); t.lost == 0 && (t.flight.Some? ==> t.flight.value.byWorker)
  {
    hide Within, Flat, ParseAll;
  }

  lemma {:induction false} OnlyWorker(parse: Entry -> Option<Doc>, capacity: nat, run: seq<Action>, s: State)
    requires Reaches(parse, capacity, run, s)
    requires forall i :: 0 <= i < |run| ==> run[i] != BeginFlush(false)
    ensures s.lost == 0 && (s.flight.Some? ==> s.flight.value.byWorker)
  {
    hide Inv, Next;
    if run != [] {
      var n := |run| - 1;
      var before :|
        Reaches(parse, capacity, run[..n], before) && Enabled(before, run[n]) && s == Next(parse, before, run[n]);
      OnlyWorker(parse, capacity, run[..n], before);
      ReachableInv(parse, capacity, run[..n], before);
      WorkerStep(parse, before, run[n]);
    }
  }

  /** While only the worker flushes, everything accepted is, in order, sent, buffered or queued. */
  lemma WorkerLosesNothing(parse: Entry -> Option<Doc>, capacity: nat, run: seq<Action>, s: State)
    requires Reaches(parse, capacity, run, s)
    requires forall i :: 0 <= i < |run| ==> run[i] != BeginFlush(false)
    ensures Held(parse, s) == ParseAll(parse, s.accepted)
  {
    hide Reaches, Held, ParseAll;
    OnlyWorker(parse, capacity, run, s);
    Conservation(parse, capacity, run, s);
  }

  /** With a Sync on its way the worker's additions can be dropped: of two entries accepted, the second
      ends up in no batch, not buffered and not queued. */
  lemma SyncCanLose(parse: Entry -> Option<Doc>, e: Entry) returns (run: seq<Action>, s: State)
    requires parse(e).Some?
    ensures Reaches(parse, 2, run, s) && s.lost == 1 && s.queue == [] && s.bulk == []
  {
    run, s := [], Initial(2);
    run, s := Extend(parse, 2, run, s, Write(e));
    run, s := Extend(parse, 2, run, s, Take);
    run, s := Extend(parse, 2, run, s, BeginFlush(false));
    run, s := Extend(parse, 2, run, s, Write(e));
    run, s := Extend(parse, 2, run, s, Take);
    run, s := Extend(parse, 2, run, s, EndFlush(true));
  }

  lemma Extend(parse: Entry -> Option<Doc>, capacity: nat, run: seq<Action>, s: State, a: Action)
    returns (run': seq<Action>, s': State)
    requires Reaches(parse, capacity, run, s) && Enabled(s, a)
    ensures run' == run + [a] && s' == Next(parse, s, a) && Reaches(parse, capacity, run', s')
  {
    run', s' := run + [a], Next(parse, s, a);
    assert run'[..|run|] == run;
  }

  // ---- What else the actions say ----

  /** How many requests have succeeded. */
  function Succeeded(run: seq<Action>): nat {
    if run == [] then 0 else Succeeded(run[..|run| - 1]) + if run[|run| - 1] == EndFlush(true) then 1 else 0
  }

  /** How many documents have been put into the buffer since the worker noticed the end. */
  function PutSinceNotice(parse: Entry -> Option<Doc>, run: seq<Action>): nat {
    if run == [] then 0
    else
      var n := |run| - 1;
      PutSinceNotice(parse, run[..n]) +
      if PutsDoc(parse, run, n) && exists m :: 0 <= m < n && run[m].NoticeDone? then 1 else 0
  }

  ghost predicate Counts(parse: Entry -> Option<Doc>, capacity: nat, run: seq<Action>, s: State) {
    && |s.sent| == Succeeded(run) && s.drained == PutSinceNotice(parse, run)
    && s.capacity == capacity && |s.queue| <= (if capacity == 0 then 1 else capacity)
    && (s.phase.Running? || s.phase.Flushing? <==> forall m :: 0 <= m < |run| ==> !run[m].NoticeDone?)
    && (s.done <==> exists m :: 0 <= m < |run| && run[m] == CloseDone)
  }

  lemma NoticedBy(run: seq<Action>, n: nat)
    requires n == |run| - 1
    ensures (forall m :: 0 <= m < |run| ==> !run[m].NoticeDone?) <==>
            (forall m :: 0 <= m < n ==> !run[..n][m].NoticeDone?) && !run[n].NoticeDone?
    ensures (exists m :: 0 <= m < n && run[m].NoticeDone?) <==> (exists m :: 0 <= m < n && run[..n][m].NoticeDone?)
    ensures (exists m :: 0 <= m < |run| && run[m] == CloseDone) <==>
            (exists m :: 0 <= m < n && run[..n][m] == CloseDone) || run[n] == CloseDone
  {
    assert forall m :: 0 <= m < n ==> run[..n][m] == run[m];
  }

  lemma CountsStep(parse: Entry -> Option<Doc>, capacity: nat, run: seq<Action>, n: nat, s: State)
    requires n == |run| - 1 && Counts(parse, capacity, run[..n], s) && Says(parse, run[..n], s) && Enabled(s, run[n])
    requires Inv(parse, s)
    ensures Counts(parse, capacity, run, Next(parse, s, run[n]))
  {
    hide Says, PutsDoc, Within, Flat, ParseAll;
    NoticedBy(run, n);
    SaysStep(parse, run, n, s);
  }

  /** The queue never holds more than its capacity, or one entry that the worker has in hand; as many batches have been
      sent as requests have succeeded; documents count as drained when they are put into the buffer after the worker
      has noticed the end; and the sink is done once it has been closed. */
  lemma {:induction false} RunCounts(parse: Entry -> Option<Doc>, capacity: nat, run: seq<Action>, s: State)
    requires Reaches(parse, capacity, run, s)
    ensures Counts(parse, capacity, run, s)
  {
    if run != [] {
      hide Counts, Next;
      var n := |run| - 1;
      var before :|
        Reaches(parse, capacity, run[..n], before) && Enabled(before, run[n]) && s == Next(parse, before, run[n]);
      RunCounts(parse, capacity, run[..n], before);
      RunSays(parse, capacity, run[..n], before);
      ReachableInv(parse, capacity, run[..n], before);
      CountsStep(parse, capacity, run, n, before);
    }
  }

  /** A queue without room of its own: an entry in it is in the hands of the worker, in its main loop, who does nothing
      before taking it. */
  lemma {:induction false} HandedOver(parse: Entry -> Option<Doc>, run: seq<Action>, s: State)
    requires Reaches(parse, 0, run, s) && s.queue != []
    ensures |s.queue| == 1 && s.phase.Running?
    ensures forall a :: Enabled(s, a) ==>
              !a.Tick? && !a.NoticeDone? && !a.DrainEnd? && a != BeginFlush(true) && !a.Write?
  {
    hide Next;
    var n := |run| - 1;
    var before :|
      Reaches(parse, 0, run[..n], before) && Enabled(before, run[n]) && s == Next(parse, before, run[n]);
    RunCounts(parse, 0, run[..n], before);
    RunCounts(parse, 0, run, s);
    ReachableInv(parse, 0, run[..n], before);
    if before.queue != [] {
      HandedOver(parse, run[..n], before);
    }
    HandStep(parse, before, run[n]);
  }

  lemma HandStep(parse: Entry -> Option<Doc>, s: State, a: Action)
    requires Enabled(s, a) && s.capacity == 0 && Next(parse, s, a).queue != [] && Inv(parse, s)
    requires s.queue != [] ==> |s.queue| == 1 && s.phase.Running?
    ensures |Next(parse, s, a).queue| == 1 && Next(parse, s, a).phase.Running? && Next(parse, s, a).capacity == 0
  {
    hide Within, Flat, ParseAll;
  }

  /** A writer is turned away only after the sink has been closed. */
  lemma RefusedWhenClosed(parse: Entry -> Option<Doc>, capacity: nat, run: seq<Action>, s: State, e: Entry)
    requires Reaches(parse, capacity, run, s) && Enabled(s, Refuse(e))
    ensures exists m :: 0 <= m < |run| && run[m] == CloseDone
  {
    hide Reaches;
    RunCounts(parse, capacity, run, s);
  }

  // ---- Shutdown ----

  /** When the worker has gone, every entry accepted before `done` closed has left the queue. */
  lemma ShutdownDrains(parse: Entry -> Option<Doc>, capacity: nat, run: seq<Action>, s: State)
    requires Reaches(parse, capacity, run, s) && s.phase.Exited?
    ensures s.done && s.acceptedAtDone <= |s.accepted| - |s.queue|
    ensures ParseAll(parse, s.accepted[..s.acceptedAtDone]) <= s.added
  {
    hide Within, Flat;
    ReachableInv(parse, capacity, run, s);
    var n := |s.accepted| - |s.queue|;
    assert s.accepted[..n] == s.accepted[..s.acceptedAtDone] + s.accepted[s.acceptedAtDone..n];
    ParseAllAppend(parse, s.accepted[..s.acceptedAtDone], s.accepted[s.acceptedAtDone..n]);
  }

  /** When no request fails the worker leaves nothing in the buffer. */
  lemma {:induction false} ExitedEmpty(parse: Entry -> Option<Doc>, capacity: nat, run: seq<Action>, s: State)
    requires Reaches(parse, capacity, run, s) && s.phase.Exited?
    requires forall i :: 0 <= i < |run| ==> run[i] != EndFlush(false)
    ensures s.bulk == []
  {
    hide Next, Inv;
    var n := |run| - 1;
    var before :|
      Reaches(parse, capacity, run[..n], before) && Enabled(before, run[n]) && s == Next(parse, before, run[n]);
    ReachableInv(parse, capacity, run[..n], before);
    ExitedStep(parse, before, run[n]);
    if before.phase.Exited? {
      ExitedEmpty(parse, capacity, run[..n], before);
    }
  }

  lemma ExitedStep(parse: Entry -> Option<Doc>, s: State, a: Action)
    requires Inv(parse, s) && Enabled(s, a) && a != EndFlush(false) && Next(parse, s, a).phase.Exited?
    ensures Next(parse, s, a).bulk == [] || (s.phase.Exited? && Next(parse, s, a).bulk == s.bulk)
  {
    hide Within, Flat, ParseAll;
  }

  /** When no request fails, everything put into the buffer has been sent by the time the worker has gone, but for
      what an overtaken Sync has dropped; without a Sync every entry accepted before `done` closed, if it parses,
      has been sent, in order. */
  lemma ShutdownSends(parse: Entry -> Option<Doc>, capacity: nat, run: seq<Action>, s: State)
    requires Reaches(parse, capacity, run, s) && s.phase.Exited?
    requires forall i :: 0 <= i < |run| ==> run[i] != EndFlush(false)
    ensures s.bulk == [] && |Flat(s.sent)| + s.lost == |s.added| && s.acceptedAtDone <= |s.accepted|
    ensures (forall i :: 0 <= i < |run| ==> run[i] != BeginFlush(false)) ==>
              Flat(s.sent) == s.added && ParseAll(parse, s.accepted[..s.acceptedAtDone]) <= Flat(s.sent)
  {
    hide Reaches, Within, Flat, ParseAll, Next;
    ExitedEmpty(parse, capacity, run, s);
    ReachableInv(parse, capacity, run, s);
    ShutdownDrains(parse, capacity, run, s);
    if forall i :: 0 <= i < |run| ==> run[i] != BeginFlush(false) {
      OnlyWorker(parse, capacity, run, s);
      assert Flat(s.sent) + s.bulk == Flat(s.sent);
      WithinWhole(Flat(s.sent), s.added);
    }
  }

  /** Which entries were accepted before `done` closed, on the actions of the run. */
  lemma {:induction false} DoneSays(parse: Entry -> Option<Doc>, capacity: nat, run: seq<Action>, s: State, i: nat)
    requires Reaches(parse, capacity, run, s) && i < |run| && run[i] == CloseDone
    ensures s.done && Written(run[..i]) <= s.accepted && s.acceptedAtDone == |Written(run[..i])|
  {
    hide Next, Written;
    var n := |run| - 1;
    var before :|
      Reaches(parse, capacity, run[..n], before) && Enabled(before, run[n]) && s == Next(parse, before, run[n]);
    RunSays(parse, capacity, run[..n], before);
    DoneStep(parse, before, run[n]);
    if i < n {
      assert run[..n][..i] == run[..i];
      DoneSays(parse, capacity, run[..n], before, i);
    }
  }

  lemma DoneStep(parse: Entry -> Option<Doc>, s: State, a: Action)
    requires Enabled(s, a)
    ensures var t := Next(parse, s, a);
            && s.accepted <= t.accepted
            && (a == CloseDone ==> t.done && t.acceptedAtDone == |s.accepted|)
            && (s.done ==> t.done && t.acceptedAtDone == s.acceptedAtDone)
  {}

  /** Without a failing request and without a Sync: what writers were told is accepted before the sink was closed has
      been sent, in order, by the time the worker has gone. */
  lemma AcceptedIsSent(parse: Entry -> Option<Doc>, capacity: nat, run: seq<Action>, s: State, i: nat)
    requires Reaches(parse, capacity, run, s) && s.phase.Exited? && i < |run| && run[i] == CloseDone
    requires forall m :: 0 <= m < |run| ==> run[m] != EndFlush(false) && run[m] != BeginFlush(false)
    ensures ParseAll(parse, Written(run[..i])) <= Flat(s.sent)
  {
    hide Reaches, Flat, ParseAll, Written;
    DoneSays(parse, capacity, run, s, i);
    ShutdownSends(parse, capacity, run, s);
    assert s.accepted[..s.acceptedAtDone] == Written(run[..i]);
  }

  /** The worker's request begins at `i`: there is something to send, and nothing has been taken or has returned
      since. */
  predicate Requesting(parse: Entry -> Option<Doc>, run: seq<Action>, i: nat, k: nat) {
    && i < k <= |run| && run[i] == BeginFlush(true) && Buffered(parse, run[..i]) > 0
    && forall m :: i < m < k ==> !run[m].EndFlush? && !run[m].Take?
  }

  /** A request of the worker begins at `i` and fails at `k`, and nothing is taken from the queue after that. */
  predicate LastTry(parse: Entry -> Option<Doc>, run: seq<Action>, i: nat, k: nat) {
    && k < |run| && Requesting(parse, run, i, k) && run[k] == EndFlush(false)
    && forall m :: k < m < |run| ==> !run[m].Take?
  }

  lemma RequestingLonger(parse: Entry -> Option<Doc>, run: seq<Action>, n: nat, i: nat)
    requires n == |run| - 1
    ensures i < n && Requesting(parse, run[..n], i, n) ==>
              Requesting(parse, run, i, n) &&
              (!run[n].EndFlush? && !run[n].Take? ==> Requesting(parse, run, i, |run|))
    ensures forall k: nat :: LastTry(parse, run[..n], i, k) && !run[n].Take? ==> LastTry(parse, run, i, k)
  {
    hide Buffered;
    assert forall j :: 0 <= j <= n ==> run[..n][..j] == run[..j];
  }

  ghost predicate Trying(parse: Entry -> Option<Doc>, run: seq<Action>, s: State) {
    && (s.phase.LastFlush? && s.flight.Some? && s.flight.value.byWorker ==>
          exists i: nat :: Requesting(parse, run, i, |run|))
    && (s.phase.Exited? && s.bulk != [] ==> exists i: nat, k: nat :: LastTry(parse, run, i, k))
  }

  lemma TryingStep(parse: Entry -> Option<Doc>, capacity: nat, run: seq<Action>, n: nat, s: State)
    requires n == |run| - 1 && Reaches(parse, capacity, run[..n], s) && Enabled(s, run[n])
    requires Trying(parse, run[..n], s)
    ensures Trying(parse, run, Next(parse, s, run[n]))
  {
    hide Buffered, Reaches, Within, Flat, ParseAll, Requesting, LastTry;
    ReachableInv(parse, capacity, run[..n], s);
    RunSays(parse, capacity, run[..n], s);
    RequestStarts(parse, run, n);
    var t := Next(parse, s, run[n]);
    if s.phase.LastFlush? && s.flight.Some? && s.flight.value.byWorker {
      var i: nat :| Requesting(parse, run[..n], i, n);
      RequestInside(parse, run[..n], i, n);
      RequestingLonger(parse, run, n, i);
      if run[n] == EndFlush(false) {
        LastTryEnds(parse, run, i, n);
      }
    } else if s.phase.Exited? && s.bulk != [] {
      var i: nat, k: nat :| LastTry(parse, run[..n], i, k);
      RequestingLonger(parse, run, n, i);
    }
  }

  lemma RequestStarts(parse: Entry -> Option<Doc>, run: seq<Action>, n: nat)
    requires n == |run| - 1
    ensures run[n] == BeginFlush(true) && Buffered(parse, run[..n]) > 0 ==> Requesting(parse, run, n, |run|)
  {}

  lemma RequestInside(parse: Entry -> Option<Doc>, run: seq<Action>, i: nat, k: nat)
    requires Requesting(parse, run, i, k)
    ensures i < k
  {}

  lemma LastTryEnds(parse: Entry -> Option<Doc>, run: seq<Action>, i: nat, n: nat)
    requires n == |run| - 1 && Requesting(parse, run, i, n) && run[n] == EndFlush(false)
    ensures LastTry(parse, run, i, n)
  {}

  lemma {:induction false} ReachableTrying(parse: Entry -> Option<Doc>, capacity: nat, run: seq<Action>, s: State)
    requires Reaches(parse, capacity, run, s)
    ensures Trying(parse, run, s)
  {
    if run != [] {
      hide Trying, Next;
      var n := |run| - 1;
      var before :|
        Reaches(parse, capacity, run[..n], before) && Enabled(before, run[n]) && s == Next(parse, before, run[n]);
      ReachableTrying(parse, capacity, run[..n], before);
      TryingStep(parse, capacity, run, n, before);
    }
  }

  /** A worker that has gone and left documents in the buffer has tried to send them: its last request failed. */
  lemma ExitTried(parse: Entry -> Option<Doc>, capacity: nat, run: seq<Action>, s: State)
    requires Reaches(parse, capacity, run, s) && s.phase.Exited? && s.bulk != []
    ensures exists i: nat, k: nat :: LastTry(parse, run, i, k)
  {
    hide Reaches, LastTry;
    ReachableTrying(parse, capacity, run, s);
  }

  // ---- When the worker must flush ----

  /** Action `i` makes a flush due: the ticker finds documents in the buffer, or, before the worker has noticed the
      end, a document makes a hundred of them. */
  predicate MakesDue(parse: Entry -> Option<Doc>, run: seq<Action>, i: nat) {
    i < |run| &&
    ((run[i].Tick? && Buffered(parse, run[..i]) > 0) ||
     (PutsDoc(parse, run, i) && Buffered(parse, run[..i]) + 1 >= 100 &&
      forall m :: 0 <= m < i ==> !run[m].NoticeDone?))
  }

  lemma {:induction false} NotNoticed(parse: Entry -> Option<Doc>, capacity: nat, run: seq<Action>, s: State)
    requires Reaches(parse, capacity, run, s) && forall m :: 0 <= m < |run| ==> !run[m].NoticeDone?
    ensures s.phase.Running? || s.phase.Flushing?
  {
    hide Next;
    if run != [] {
      var n := |run| - 1;
      var before :|
        Reaches(parse, capacity, run[..n], before) && Enabled(before, run[n]) && s == Next(parse, before, run[n]);
      NotNoticed(parse, capacity, run[..n], before);
      NoticeStep(parse, before, run[n]);
    }
  }

  lemma NoticeStep(parse: Entry -> Option<Doc>, s: State, a: Action)
    requires Enabled(s, a) && !a.NoticeDone? && (s.phase.Running? || s.phase.Flushing?)
    ensures Next(parse, s, a).phase.Running? || Next(parse, s, a).phase.Flushing?
  {}

  /** Once a flush is due, and until the worker begins one, it does nothing else. */
  lemma {:induction false} DueWaits(parse: Entry -> Option<Doc>, capacity: nat, run: seq<Action>, s: State, i: nat)
    requires Reaches(parse, capacity, run, s) && MakesDue(parse, run, i)
    requires forall m :: i < m < |run| ==> run[m] != BeginFlush(true)
    ensures s.phase.Flushing? && (s.flight.Some? ==> !s.flight.value.byWorker)
  {
    hide Buffered, Within, Flat, ParseAll;
    var n := |run| - 1;
    var before :|
      Reaches(parse, capacity, run[..n], before) && Enabled(before, run[n]) && s == Next(parse, before, run[n]);
    ReachableInv(parse, capacity, run[..n], before);
    RunSays(parse, capacity, run[..n], before);
    if i == n {
      DueNow(parse, capacity, run, n, before);
    } else {
      DuePrefix(parse, run, n, i);
      DueWaits(parse, capacity, run[..n], before, i);
    }
  }

  lemma DuePrefix(parse: Entry -> Option<Doc>, run: seq<Action>, n: nat, i: nat)
    requires i < n <= |run| && MakesDue(parse, run, i)
    ensures MakesDue(parse, run[..n], i)
  {
    hide Buffered, PutsDoc;
    PrefixSays(parse, run, n);
    assert run[..n][..i] == run[..i];
  }

  lemma DueNow(parse: Entry -> Option<Doc>, capacity: nat, run: seq<Action>, n: nat, s: State)
    requires n == |run| - 1 && Reaches(parse, capacity, run[..n], s) && Enabled(s, run[n]) && Inv(parse, s)
    requires MakesDue(parse, run, n) && Says(parse, run[..n], s)
    ensures var t := Next(parse, s, run[n]); t.phase.Flushing? && (t.flight.Some? ==> !t.flight.value.byWorker)
  {
    hide Buffered, Within, Flat, ParseAll, Reaches;
    if run[n].Take? {
      NotNoticed(parse, capacity, run[..n], s);
      SaysTake(parse, run, n, s);
    }
  }

  /** When the ticker finds documents in the buffer, or the buffer is full, the worker begins a flush before it takes
      another entry. */
  lemma FlushBeforeTake(parse: Entry -> Option<Doc>, capacity: nat, run: seq<Action>, s: State, i: nat)
    requires Reaches(parse, capacity, run, s) && MakesDue(parse, run, i) && Enabled(s, Take)
    ensures exists m :: i < m < |run| && run[m] == BeginFlush(true)
  {
    hide Reaches, MakesDue;
    if forall m :: i < m < |run| ==> run[m] != BeginFlush(true) {
      DueWaits(parse, capacity, run, s, i);
    }
  }

  /** The worker flushes for no other reason: one has made it due since it last took an entry. */
  ghost predicate Due(parse: Entry -> Option<Doc>, run: seq<Action>) {
    exists i: nat :: MakesDue(parse, run, i) && forall m :: i < m < |run| ==> !run[m].Take?
  }

  lemma DueStays(parse: Entry -> Option<Doc>, run: seq<Action>, n: nat)
    requires n == |run| - 1 && Due(parse, run[..n]) && !run[n].Take?
    ensures Due(parse, run)
  {
    hide Buffered, PutsDoc;
    var i: nat :| MakesDue(parse, run[..n], i) && forall m :: i < m < n ==> !run[..n][m].Take?;
    PrefixSays(parse, run, n);
    assert run[..n][..i] == run[..i] && forall m :: 0 <= m < n ==> run[..n][m] == run[m];
    assert MakesDue(parse, run, i);
  }

  lemma DueStarts(parse: Entry -> Option<Doc>, run: seq<Action>, n: nat)
    requires n == |run| - 1 && MakesDue(parse, run, n)
    ensures Due(parse, run)
  {}

  /** What is under way in the main loop is a flush that was due. */
  lemma {:induction false} FlushesWhenDue(parse: Entry -> Option<Doc>, capacity: nat, run: seq<Action>, s: State)
    requires Reaches(parse, capacity, run, s) && s.phase.Flushing?
    ensures Due(parse, run)
  {
    hide Due, Next;
    var n := |run| - 1;
    var before :|
      Reaches(parse, capacity, run[..n], before) && Enabled(before, run[n]) && s == Next(parse, before, run[n]);
    RunSays(parse, capacity, run[..n], before);
    RunCounts(parse, capacity, run[..n], before);
    FlushingStep(parse, capacity, run, n, before);
    if before.phase.Flushing? {
      FlushesWhenDue(parse, capacity, run[..n], before);
      DueStays(parse, run, n);
    } else {
      DueStarts(parse, run, n);
    }
  }

  lemma FlushingStep(parse: Entry -> Option<Doc>, capacity: nat, run: seq<Action>, n: nat, s: State)
    requires n == |run| - 1 && Says(parse, run[..n], s) && Counts(parse, capacity, run[..n], s) && Enabled(s, run[n])
    requires Next(parse, s, run[n]).phase.Flushing?
    ensures if s.phase.Flushing? then !run[n].Take? else MakesDue(parse, run, n)
  {
    hide Buffered, Taken, Written, PutsDoc, PutSinceNotice, Succeeded;
    if s.phase.Running? {
      NoticedBefore(parse, capacity, run, n, s);
    }
    if run[n].Take? {
      hide Counts;
      SaysTake(parse, run, n, s);
    }
  }

  lemma NoticedBefore(parse: Entry -> Option<Doc>, capacity: nat, run: seq<Action>, n: nat, s: State)
    requires n == |run| - 1 && Counts(parse, capacity, run[..n], s) && s.phase.Running?
    ensures forall m :: 0 <= m < n ==> !run[m].NoticeDone?
  {
    assert forall m :: 0 <= m < n ==> run[..n][m] == run[m];
  }

  /** A write panics only once the queue is closed, when the sink is done and the worker gone. */
  lemma {:induction false} CrashOnlyClosed(parse: Entry -> Option<Doc>, capacity: nat, run: seq<Action>, s: State)
    requires Reaches(parse, capacity, run, s)
    ensures s.crashed ==> s.closed
    ensures s.closed ==> s.done && s.phase.Exited?
  {
    hide Next;
    if run != [] {
      var n := |run| - 1;
      var before :|
        Reaches(parse, capacity, run[..n], before) && Enabled(before, run[n]) && s == Next(parse, before, run[n]);
      CrashOnlyClosed(parse, capacity, run[..n], before);
      CrashStep(parse, before, run[n]);
    }
  }

  lemma CrashStep(parse: Entry -> Option<Doc>, s: State, a: Action)
    requires Enabled(s, a) && (s.crashed ==> s.closed) && (s.closed ==> s.done && s.phase.Exited?)
    ensures var t := Next(parse, s, a); (t.crashed ==> t.closed) && (t.closed ==> t.done && t.phase.Exited?)
  {}

  /** A writer can be told its entry is accepted when the worker has gone: the entry stays in the queue for good,
      and a write to the queue, once closed, can panic. */
  lemma ShutdownCanStrand(parse: Entry -> Option<Doc>, e: Entry) returns (run: seq<Action>, s: State)
    ensures Reaches(parse, 2, run, s) && s.crashed && s.accepted == s.queue == [e]
  {
    run, s := [], Initial(2);
    run, s := Extend(parse, 2, run, s, CloseDone);
    run, s := Extend(parse, 2, run, s, NoticeDone);
    run, s := Extend(parse, 2, run, s, DrainEnd);
    run, s := Extend(parse, 2, run, s, BeginFlush(true));
    run, s := Extend(parse, 2, run, s, Write(e));
    run, s := Extend(parse, 2, run, s, CloseEntries);
    run, s := Extend(parse, 2, run, s, WriteClosed(e));
  }

  // ---- Batch bounds ----

  /** The largest batch: a full buffer, or what was short of one plus what draining added. */
  function Limit(s: State): nat {
    if s.drained == 0 then BULK_SIZE else BULK_SIZE - 1 + s.drained
  }

  ghost predicate Bounded(s: State) {
    && (s.phase.Running? || s.phase.Flushing? ==> s.drained == 0)
    && |s.bulk| <= (if s.phase.Flushing? then BULK_SIZE else BULK_SIZE - 1 + s.drained)
    && (s.flight.Some? ==> |s.flight.value.batch| <= |s.bulk|)
    && (forall i :: 0 <= i < |s.sent| ==> |s.sent[i]| <= Limit(s))
  }

  lemma BoundedStep(parse: Entry -> Option<Doc>, s: State, a: Action)
    requires Bounded(s) && Inv(parse, s) && Enabled(s, a) && a != EndFlush(false)
    ensures Bounded(Next(parse, s, a))
  {
    hide Within, Flat, ParseAll;
  }

  /** With every request succeeding: between two turns of the main loop fewer than a hundred documents are
      buffered, no batch sent before draining has more than a hundred, and none sent since has more than
      ninety-nine and what draining has added. */
  lemma {:induction false} BatchBounds(parse: Entry -> Option<Doc>, capacity: nat, run: seq<Action>, s: State)
    requires Reaches(parse, capacity, run, s)
    requires forall i :: 0 <= i < |run| ==> run[i] != EndFlush(false)
    ensures Bounded(s)
  {
    if run != [] {
      var n := |run| - 1;
      var before :|
        Reaches(parse, capacity, run[..n], before) && Enabled(before, run[n]) && s == Next(parse, before, run[n]);
      BatchBounds(parse, capacity, run[..n], before);
      ReachableInv(parse, capacity, run[..n], before);
      BoundedStep(parse, before, run[n]);
    }
  }
}
