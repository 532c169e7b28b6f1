/** Attempts at a load run over its durable directory: any write may fail before or after it takes
    effect, power may be cut at any write, and the run is resumed any number of times
    (main in benchmarks/openai_load.py). Each atomic file write is one step. */
module LoadRun {
  import opened Text
  import opened LoadPlan
  import opened LoadEvidence

  // ---------------------------------------------------------------- what every disk satisfies

  // The published result describes waves that are all on disk and qualify.
  predicate Published(p: Plan, waves: map<string, WaveDoc>, r: ResultDoc)
    requires Warmup in p.cache && Measured in p.cache
  {
    && r.identity == p.identity && r.passed
    && waves.Keys == p.byPath.Keys
    && |r.outputsEqual| == |p.tasks|
    && forall k :: 0 <= k < |p.tasks| ==> TaskPublished(p, p.tasks[k], waves, r.outputsEqual[k])
  }

  predicate TaskPublished(p: Plan, t: Task, waves: map<string, WaveDoc>, flag: bool)
    requires Warmup in p.cache && Measured in p.cache
  {
    Qualified(p, t, waves) && flag == PairwiseEqual(Docs(TaskWaves(t), waves))
  }

  predicate FilesOk(p: Plan, d: Disk)
    requires Warmup in p.cache && Measured in p.cache
  {
    && WavesExpected(p, d.waves)
    && (forall n :: n in d.failures ==> FailureFits(p.identity, n, d.failures[n]))
    && (d.checksum.Some? ==> d.results.Some? && d.checksum.value == OfResult(d.results.value))
    && (d.results.Some? ==> Published(p, d.waves, d.results.value))
  }

  predicate UpTo(d: Disk, n: nat) {
    (forall m :: m in d.attempts ==> m <= n) && (forall m :: m in d.failures ==> m <= n)
  }

  // A state that may be in memory or in state.json while the evidence on disk is that of `d`.
  predicate StateOk(p: Plan, d: Disk, st: State) {
    && st.identity == p.identity
    && st.tasks.Keys == p.Names()
    && RowsMatch(st.completed, d.waves)
    && FailureRowsMatch(st.failures, d.failures)
    && UpTo(d, st.resumeCount)
    && (d.results.Some? ==>
          Paths(st.completed) == d.waves.Keys && TasksComplete(st) && d.results.value.resumeCount == st.resumeCount)
    && (st.resultsSha.Some? ==> d.results.Some? && st.resultsSha.value == OfResult(d.results.value))
    && (st.status == Complete ==>
          st.resultsSha.Some? && d.checksum.Some? && st.error.None? && Numbers(st.failures) == d.failures.Keys)
  }

  predicate TasksComplete(st: State) { forall name :: name in st.tasks ==> st.tasks[name] == Complete }

  ghost predicate DiskOk(p: Plan, d: Disk) {
    p.Ok() && FilesOk(p, d) && StateOk(p, d, d.state)
  }

  // Nothing written is ever rewritten or removed, and a new attempt number is above all earlier ones.
  predicate Extends(d: Disk, e: Disk) {
    && (forall path :: path in d.waves ==> path in e.waves && e.waves[path] == d.waves[path])
    && (forall n :: n in d.failures ==> n in e.failures && e.failures[n] == d.failures[n])
    && d.attempts <= e.attempts
    && (d.results.Some? ==> e.results == d.results)
    && (d.checksum.Some? ==> e.checksum == d.checksum)
    && (forall n :: n in e.attempts && n !in d.attempts ==> Above(d, n))
  }

  predicate Above(d: Disk, n: nat) {
    (forall m :: m in d.attempts ==> m < n) && (forall m :: m in d.failures ==> m < n)
  }

  ghost predicate HistoryOk(p: Plan, h: seq<Disk>) {
    && (forall i :: 0 <= i < |h| ==> DiskOk(p, h[i]))
    && (forall i, j :: 0 <= i <= j < |h| ==> Extends(h[i], h[j]))
  }

  lemma ExtendsTransitive(d: Disk, e: Disk, f: Disk)
    requires Extends(d, e) && Extends(e, f)
    ensures Extends(d, f)
  {
    forall n | n in f.attempts && n !in d.attempts ensures Above(d, n) {
      if n !in e.attempts { assert Above(e, n); }
    }
  }

  lemma HistoryGrows(p: Plan, h: seq<Disk>, d: Disk)
    requires HistoryOk(p, h) && h != [] && DiskOk(p, d) && Extends(h[|h| - 1], d)
    ensures HistoryOk(p, h + [d])
  {
    hide DiskOk, Extends;
    var g := h + [d];
    SelfExtends(d);
    forall i, j | 0 <= i <= j < |g| ensures Extends(g[i], g[j]) {
      if j == |h| && i < |h| {
        assert Extends(h[i], h[|h| - 1]);
        ExtendsTransitive(h[i], h[|h| - 1], d);
      }
    }
  }

  lemma SelfExtends(d: Disk)
    ensures Extends(d, d)
  {
  }

  // ---------------------------------------------------------------- every step keeps it

  lemma SaveStep(p: Plan, d: Disk, st: State)
    requires DiskOk(p, d) && StateOk(p, d, st)
    ensures DiskOk(p, d.(state := st)) && Extends(d, d.(state := st))
  {
    hide Published, WavesExpected, RowsMatch, FailureRowsMatch, Paths, Numbers, Plan.Ok;
  }

  lemma WaveStep(p: Plan, d: Disk, st: State, path: string, doc: WaveDoc)
    requires DiskOk(p, d) && StateOk(p, d, st)
    requires path !in d.waves && path in p.byPath && DocValid(p.byPath[path], doc) && d.results.None?
    ensures var e := d.(waves := d.waves[path := doc]); DiskOk(p, e) && Extends(d, e) && StateOk(p, e, st)
  {
    hide Published, DocValid, FailureRowsMatch, Paths, Numbers, Plan.Ok;
  }

  lemma RowStep(p: Plan, d: Disk, st: State, path: string)
    requires StateOk(p, d, st) && path in d.waves && path !in Paths(st.completed) && d.results.None?
    ensures var row := WaveRow(path, OfWave(d.waves[path]));
      && StateOk(p, d, st.(completed := st.completed + [row]))
      && Paths(st.completed + [row]) == Paths(st.completed) + {path}
  {
    RowsGrow(st.completed, WaveRow(path, OfWave(d.waves[path])), d.waves);
    hide RowsMatch, FailureRowsMatch, Paths, Numbers;
  }

  lemma AttemptStep(p: Plan, d: Disk, st: State)
    requires DiskOk(p, d) && StateOk(p, d, st) && d.state.resumeCount == st.resumeCount && Above(d, st.resumeCount)
    ensures var e := d.(attempts := d.attempts + {st.resumeCount}); DiskOk(p, e) && Extends(d, e) && StateOk(p, e, st)
  {
    hide Published, WavesExpected, RowsMatch, FailureRowsMatch, Paths, Numbers, Plan.Ok;
  }

  lemma FailureStep(p: Plan, d: Disk, doc: FailureDoc)
    requires DiskOk(p, d) && doc.attempt == d.state.resumeCount && doc.attempt !in d.failures
    requires doc.identity == p.identity && d.state.status != Complete
    ensures var e := d.(failures := d.failures[doc.attempt := doc]); DiskOk(p, e) && Extends(d, e)
  {
    hide Published, WavesExpected, RowsMatch, Paths, Numbers, Plan.Ok;
  }

  lemma FailureRowStep(p: Plan, d: Disk, st: State, n: nat)
    requires StateOk(p, d, st) && n in d.failures && n !in Numbers(st.failures) && st.status != Complete
    ensures StateOk(p, d, st.(failures := st.failures + [FailureRow(n, OfFailure(d.failures[n]))]))
  {
    FailureRowsGrow(st.failures, FailureRow(n, OfFailure(d.failures[n])), d.failures);
    hide RowsMatch, FailureRowsMatch, Paths, Numbers;
  }

  lemma ResultStep(p: Plan, d: Disk, r: ResultDoc)
    requires DiskOk(p, d) && d.results.None? && Paths(d.state.completed) == d.waves.Keys && Published(p, d.waves, r)
    requires TasksComplete(d.state) && r.resumeCount == d.state.resumeCount
    ensures var e := d.(results := Some(r)); DiskOk(p, e) && Extends(d, e)
  {
    hide Published, WavesExpected, RowsMatch, FailureRowsMatch, Paths, Numbers, Plan.Ok;
  }

  lemma ChecksumStep(p: Plan, d: Disk)
    requires DiskOk(p, d) && d.results.Some? && d.checksum.None?
    ensures var e := d.(checksum := Some(OfResult(d.results.value))); DiskOk(p, e) && Extends(d, e)
  {
    hide Published, WavesExpected, RowsMatch, FailureRowsMatch, Paths, Numbers, Plan.Ok;
  }

  // "complete" in state.json means what the run is for.
  lemma CompleteMeansQualified(p: Plan, d: Disk)
    requires DiskOk(p, d) && d.state.status == Complete
    ensures d.results.Some? && d.checksum == Some(OfResult(d.results.value)) && d.state.resultsSha == d.checksum
    ensures d.results.value.identity == p.identity && d.results.value.passed
    ensures d.results.value.resumeCount == d.state.resumeCount
    ensures d.state.tasks.Keys == p.Names() && TasksComplete(d.state)
    ensures forall w :: w in p.expected ==> w.Path() in d.waves && w.Path() in Paths(d.state.completed)
    ensures forall t, v, w :: t in p.tasks && t.equality && v in TaskWaves(t) && w in TaskWaves(t) ==>
      v.Path() in d.waves && w.Path() in d.waves && Agree(d.waves[v.Path()], d.waves[w.Path()])
  {
    assert p.Ok() && p.byPath.Keys == d.waves.Keys == Paths(d.state.completed);
    forall t, v, w | t in p.tasks && t.equality && v in TaskWaves(t) && w in TaskWaves(t)
      ensures v.Path() in d.waves && w.Path() in d.waves && Agree(d.waves[v.Path()], d.waves[w.Path()])
    {
      var k :| 0 <= k < |p.tasks| && p.tasks[k] == t;
      assert Qualified(p, t, d.waves);
      AnyTwoAgree(t, d.waves, v, w);
    }
  }

  lemma AnyTwoAgree(t: Task, waves: map<string, WaveDoc>, v: Wave, w: Wave)
    requires Recorded(TaskWaves(t), waves) && PairwiseEqual(Docs(TaskWaves(t), waves))
    requires v in TaskWaves(t) && w in TaskWaves(t)
    ensures v.Path() in waves && w.Path() in waves && Agree(waves[v.Path()], waves[w.Path()])
  {
    hide Wave.Path, Agree, TaskWaves;
    var i :| 0 <= i < |TaskWaves(t)| && TaskWaves(t)[i] == v;
    var j :| 0 <= j < |TaskWaves(t)| && TaskWaves(t)[j] == w;
    var docs := Docs(TaskWaves(t), waves);
    assert Agree(docs[i], docs[j]);
  }

  // ---------------------------------------------------------------- attempts

  function InitialState(p: Plan): State {
    State(p.identity, Pending, [], map name | name in p.Names() :: Pending, 0, [], None, None)
  }

  function InitialDisk(p: Plan): Disk { Disk(InitialState(p), map[], map[], {}, None, None) }

  lemma InitialOk(p: Plan)
    requires p.Ok()
    ensures DiskOk(p, InitialDisk(p)) && HistoryOk(p, [InitialDisk(p)])
  {
    hide DiskOk, Extends;
    InitialDiskOk(p);
    SelfExtends(InitialDisk(p));
  }

  lemma InitialDiskOk(p: Plan)
    requires p.Ok()
    ensures DiskOk(p, InitialDisk(p))
  {
    hide Published, NamesOk, ByPath, ExpectedWaves, Paths, Numbers;
  }

  // The memory of an attempt from the creation of its directory on.
  predicate InAttempt(p: Plan, d: Disk, st: State, n: nat) {
    && StateOk(p, d, st)
    && st.resumeCount == n && d.state.resumeCount == n
    && n in d.attempts && n !in d.failures
  }

  // The rows after `before` are those of these waves, in this order.
  predicate Appended(before: seq<WaveRow>, rows: seq<WaveRow>, ws: seq<Wave>) {
    && before <= rows && |rows| == |before| + |ws|
    && forall k :: 0 <= k < |ws| ==> rows[|before| + k].path == ws[k].Path()
  }

  // The same, for some first ones of these waves.
  predicate AppendedSome(before: seq<WaveRow>, rows: seq<WaveRow>, ws: seq<Wave>) {
    |before| <= |rows| <= |before| + |ws| && Appended(before, rows, ws[..|rows| - |before|])
  }

  // The memory of an attempt that is still collecting waves.
  predicate Collecting(p: Plan, d: Disk, st: State, n: nat) {
    && InAttempt(p, d, st, n)
    && Paths(st.completed) == d.waves.Keys
    && Numbers(st.failures) == d.failures.Keys
    && d.results.None? && d.checksum.None?
    && st.status == Running && st.error.None?
  }

  predicate AllQualified(p: Plan, waves: map<string, WaveDoc>)
    requires Warmup in p.cache && Measured in p.cache
  {
    forall k :: 0 <= k < |p.tasks| ==> Qualified(p, p.tasks[k], waves)
  }

  // task_results over all tasks: None where some task does not qualify.
  method QualifyTasks(p: Plan, waves: map<string, WaveDoc>) returns (flags: Option<seq<bool>>)
    requires p.Ok()
    ensures flags.Some? <==> AllQualified(p, waves)
    ensures flags.Some? ==>
      && |flags.value| == |p.tasks|
      && forall k :: 0 <= k < |p.tasks| ==> TaskPublished(p, p.tasks[k], waves, flags.value[k])
  {
    hide Qualified, PairwiseEqual, TaskWaves, NamesOk, ByPath, ExpectedWaves;
    var all: seq<bool> := [];
    for k := 0 to |p.tasks|
      invariant |all| == k
      invariant forall i :: 0 <= i < k ==> TaskPublished(p, p.tasks[i], waves, all[i])
    {
      var flag := TaskResults(p, p.tasks[k], waves);
      if flag.None? { return None; }
      all := all + [flag.value];
    }
    return Some(all);
  }

  predicate NameableAttempts(d: Disk) { forall n :: n in d.attempts ==> n < NAMEABLE }

  // Done, raised before or after taking effect, or cut off by a crash before or after it.
  datatype Fate = Done | RaisedBefore | RaisedAfter | CutBefore | CutAfter
  datatype Outcome = Ok | Refused | Raised | Cut
  datatype Exit = Passed | AlreadyComplete | NotAccepted | AttemptFailed | Crashed

  class Runner {
    const plan: Plan
    var disk: Disk
    // Whether the output directory has been used by an attempt.
    var started: bool
    // Every content the disk has had.
    ghost var history: seq<Disk>
    // How many steps have failed or been cut off.
    ghost var faults: nat

    ghost predicate Valid()
      reads `disk, `history
    {
      plan.Ok() && HistoryOk(plan, history) && history != [] && history[|history| - 1] == disk
    }

    constructor (p: Plan)
      requires p.Ok()
      ensures Valid() && plan == p && !started && disk == InitialDisk(p)
    {
      InitialOk(p);
      plan, disk, started, history, faults := p, InitialDisk(p), false, [InitialDisk(p)], 0;
    }

    // ------------------------------------------------------------ single steps

    method Write(next: Disk) returns (o: Outcome)
      requires Valid() && DiskOk(plan, next) && Extends(disk, next)
      modifies `disk, `history, `faults
      ensures Valid() && old(history) <= history
      ensures o in {Ok, Raised, Cut}
      ensures o == Ok ==> disk == next && faults == old(faults)
      ensures o != Ok ==> (disk == next || disk == old(disk)) && faults > old(faults)
    {
      hide HistoryOk, DiskOk, Extends, Plan.Ok;
      var fate: Fate := *;
      if fate in {Done, RaisedAfter, CutAfter} {
        HistoryGrows(plan, history, next);
        disk := next;
        history := history + [next];
      }
      if fate != Done { faults := faults + 1; }
      return if fate == Done then Ok else if fate in {RaisedBefore, RaisedAfter} then Raised else Cut;
    }

    method Save(st: State) returns (o: Outcome)
      requires Valid() && StateOk(plan, disk, st)
      modifies `disk, `history, `faults
      ensures Valid() && old(history) <= history
      ensures o in {Ok, Raised, Cut}
      ensures disk == old(disk).(state := disk.state)
      ensures o == Ok ==> disk.state == st && faults == old(faults)
      ensures o != Ok ==> (disk.state == st || disk.state == old(disk).state) && faults > old(faults)
    {
      CurrentOk();
      SaveStep(plan, disk, st);
      hide HistoryOk, DiskOk, Extends, Plan.Ok, StateOk;
      o := Write(disk.(state := st));
    }

    // Any step that touches no modelled file: an inspection, a preflight, the telemetry monitor.
    method Act() returns (o: Outcome)
      modifies `faults
      ensures o in {Ok, Raised, Cut}
      ensures if o == Ok then faults == old(faults) else faults > old(faults)
    {
      var fate: Fate := *;
      if fate != Done { faults := faults + 1; }
      return if fate == Done then Ok else if fate in {RaisedBefore, RaisedAfter} then Raised else Cut;
    }

    // run_cell returns one row for each fixture of the cell, or raises.
    method RunCell(w: Wave) returns (o: Outcome, r: CellResult)
      modifies `faults
      ensures o in {Ok, Raised, Cut}
      ensures o == Ok ==> ResultFits(w, r)
      ensures if o == Ok then faults == old(faults) else faults > old(faults)
    {
      var requests: seq<Request> := *;
      r := CellResult(w.cell, w.phase, w.streams, requests);
      o := Act();
      if o == Ok && |requests| != w.streams {
        faults := faults + 1;
        o := Raised;
      }
    }

    lemma CurrentOk()
      requires Valid()
      ensures DiskOk(plan, disk)
    {
      assert DiskOk(plan, history[|history| - 1]);
    }

    // ------------------------------------------------------------ reconciliation

    method ReconcileWaves(saved: State) returns (o: Outcome, st: State)
      requires Valid() && disk.state == saved
      modifies `disk, `history, `faults
      ensures Valid() && old(history) <= history
      ensures o in {Ok, Raised, Cut}
      ensures disk == old(disk).(state := disk.state)
      ensures o == Ok ==>
        && disk.state == st && st == saved.(completed := st.completed)
        && Paths(st.completed) == disk.waves.Keys
      ensures if o == Ok then faults == old(faults) else faults > old(faults)
      ensures Paths(saved.completed) == disk.waves.Keys ==> o == Ok && st == saved && disk == old(disk)
    {
      hide *;
      CurrentOk();
      WavesAccepted(plan, disk);
      st := saved;
      var rows := ReconcileRows(plan, saved.completed, disk.waves);
      if rows.None? { return Refused, st; }
      if Paths(saved.completed) == disk.waves.Keys {
        NoOrphans(saved.completed, rows.value, disk.waves);
      }
      if rows.value == saved.completed { return Ok, st; }
      RowsStep(plan, disk, rows.value);
      st := saved.(completed := rows.value);
      o := Save(st);
    }

    // Refuses only a failure whose number has outgrown its four-digit name.
    method ReconcileFailures(saved: State) returns (o: Outcome, st: State)
      requires Valid() && disk.state == saved
      modifies `disk, `history, `faults
      ensures Valid() && old(history) <= history
      ensures disk == old(disk).(state := disk.state)
      ensures o == Refused ==> disk == old(disk) && !Nameable(disk.failures)
      ensures o == Ok ==>
        && disk.state == st && st == saved.(failures := st.failures)
        && Numbers(st.failures) == disk.failures.Keys && Nameable(disk.failures)
      ensures if o in {Ok, Refused} then faults == old(faults) else faults > old(faults)
      ensures Numbers(saved.failures) == disk.failures.Keys ==>
        o in {Ok, Refused} && disk == old(disk)
    {
      hide *;
      CurrentOk();
      FailuresAccepted(plan, disk);
      st := saved;
      var rows := ReconcileFailureRows(saved.identity, saved.failures, disk.failures);
      if rows.None? { return Refused, st; }
      if Numbers(saved.failures) == disk.failures.Keys {
        NoOrphanFailures(saved.failures, rows.value, disk.failures);
      }
      if rows.value == saved.failures { return Ok, st; }
      FailureRowsStep(plan, disk, rows.value);
      st := saved.(failures := rows.value);
      o := Save(st);
    }

    // Finishes a run whose result was written but whose state was not; never refuses one.
    method ReconcileResults(saved: State) returns (o: Outcome, finalized: bool, st: State)
      requires Valid() && disk.state == saved
      requires Paths(saved.completed) == disk.waves.Keys && Numbers(saved.failures) == disk.failures.Keys
      modifies `disk, `history, `faults
      ensures Valid() && old(history) <= history
      ensures o in {Ok, Raised, Cut}
      ensures if o == Ok then faults == old(faults) else faults > old(faults)
      ensures o == Ok && finalized ==> disk.state.status == Complete
      ensures o == Ok && !finalized ==> disk == old(disk) && st == saved && disk.results.None? && disk.checksum.None?
      ensures saved.status == Complete ==> disk == old(disk) && (o == Ok ==> finalized)
      ensures old(disk.results.None? && disk.checksum.None?) ==> o == Ok && !finalized
      ensures (disk.waves, disk.failures, disk.attempts) == old((disk.waves, disk.failures, disk.attempts))
    {
      CurrentOk();
      ResultFacts(plan, disk);
      hide HistoryOk, DiskOk, StateOk, Extends, Paths, Numbers, Plan.Ok;
      st, finalized := saved, false;
      if disk.results.None? && disk.checksum.None? {
        if st.status == Complete { return Refused, finalized, st; }
        return Ok, finalized, st;
      }
      if disk.results.None? { return Refused, finalized, st; }
      var doc := disk.results.value;
      if doc.identity != st.identity || !doc.passed { return Refused, finalized, st; }
      if disk.checksum.Some? {
        if disk.checksum.value != OfResult(doc) { return Refused, finalized, st; }
      } else {
        ChecksumStep(plan, disk);
        o := Write(disk.(checksum := Some(OfResult(doc))));
        if o != Ok { return; }
      }
      if st.resultsSha.Some? && st.resultsSha.value != OfResult(doc) { return Refused, finalized, st; }
      finalized := true;
      CurrentOk();
      CompleteStep(plan, disk);
      st := st.(status := Complete, resultsSha := Some(OfResult(doc)), error := None);
      o := Save(st);
    }

    // ------------------------------------------------------------ one attempt

    // Writes the wave file, then records it in memory, then in state.json.
    method RecordWave(w: Wave, result: CellResult, before: State, n: nat) returns (o: Outcome, st: State)
      requires Valid() && Collecting(plan, disk, before, n)
      requires w in plan.expected && w.Path() !in disk.waves && ResultFits(w, result)
      modifies `disk, `history, `faults
      ensures Valid() && old(history) <= history
      ensures o in {Ok, Raised, Cut}
      ensures if o == Ok then faults == old(faults) else faults > old(faults)
      ensures o == Raised ==> InAttempt(plan, disk, st, n)
      ensures o == Ok ==>
        && Collecting(plan, disk, st, n)
        && disk.waves.Keys == old(disk.waves.Keys) + {w.Path()}
      ensures o == Ok ==> w.Path() in disk.waves && disk.waves[w.Path()].result == result
      ensures st == before || (st == before.(completed := st.completed) && Appended(before.completed, st.completed, [w]))
      ensures o == Ok ==> Appended(before.completed, st.completed, [w])
    {
      hide HistoryOk, Wave.Path, DocValid, StateOk, DiskOk, Extends, Plan.Ok;
      var path := w.Path();
      ExpectedFile(plan, w);
      var capturedAt: nat := *;
      var doc := WaveDoc(w.task, w.phase, w.index, capturedAt, result);
      Fits(w, doc);
      CurrentOk();
      WaveStep(plan, disk, before, path, doc);
      st := before;
      o := Write(disk.(waves := disk.waves[path := doc]));
      if o != Ok { return; }
      RowStep(plan, disk, st, path);
      st := st.(completed := st.completed + [WaveRow(path, OfWave(doc))]);
      ghost var written := disk;
      o := Save(st);
      StateOkAnyway(plan, written, st, disk.state);
    }

    method CollectWave(w: Wave, before: State, n: nat) returns (o: Outcome, st: State)
      requires Valid() && Collecting(plan, disk, before, n)
      requires w in plan.expected && w.Path() !in disk.waves
      modifies `disk, `history, `faults
      ensures Valid() && old(history) <= history
      ensures o in {Ok, Raised, Cut}
      ensures if o == Ok then faults == old(faults) else faults > old(faults)
      ensures o == Raised ==> InAttempt(plan, disk, st, n)
      ensures o == Ok ==>
        && Collecting(plan, disk, st, n)
        && disk.waves.Keys == old(disk.waves.Keys) + {w.Path()}
      ensures st.tasks == before.tasks[w.task := Running]
      ensures st.completed == before.completed || Appended(before.completed, st.completed, [w])
      ensures o == Ok ==> Appended(before.completed, st.completed, [w])
    {
      hide HistoryOk, Wave.Path, DocValid, StateOk, DiskOk, Extends, Plan.Ok, Paths, Numbers;
      ExpectedFile(plan, w);
      st := before.(tasks := before.tasks[w.task := Running]);
      MarkRunning(plan, disk, before, w.task);
      o := Save(st);
      StateSaved(plan, old(disk), before, st, disk.state, n);
      if o != Ok { return; }
      o := Act();
      if o != Ok { return; }
      var result;
      o, result := RunCell(w);
      if o != Ok { return; }
      o := Act();
      if o != Ok { return; }
      o, st := RecordWave(w, result, st, n);
      if o != Ok { return; }
      o := Act();
    }

    // The loop over the expected waves.
    method CollectMissing(before: State, n: nat) returns (o: Outcome, st: State)
      requires Valid() && Collecting(plan, disk, before, n)
      modifies `disk, `history, `faults
      ensures Valid() && old(history) <= history
      ensures o in {Ok, Raised, Cut}
      ensures if o == Ok then faults == old(faults) else faults > old(faults)
      ensures o == Raised ==> InAttempt(plan, disk, st, n)
      ensures o == Ok ==> Collecting(plan, disk, st, n)
      ensures o == Ok ==> forall k :: 0 <= k < |plan.expected| ==> plan.expected[k].Path() in disk.waves
      ensures AppendedSome(before.completed, st.completed, Missing(plan.expected, old(disk.waves.Keys)))
      ensures o == Ok ==> Appended(before.completed, st.completed, Missing(plan.expected, old(disk.waves.Keys)))
    {
      hide HistoryOk, Wave.Path, StateOk, DiskOk, Plan.Ok, Missing, Appended, AppendedSome, Paths, Numbers;
      ghost var have := disk.waves.Keys;
      st := before;
      NothingMissing(before.completed, plan.expected, have);
      for i := 0 to |plan.expected|
        invariant Valid() && old(history) <= history && faults == old(faults)
        invariant Collecting(plan, disk, st, n)
        invariant disk.waves.Keys == have + set k | 0 <= k < i :: plan.expected[k].Path()
        invariant Appended(before.completed, st.completed, Missing(plan.expected[..i], have))
      {
        var w := plan.expected[i];
        NotYetCollected(plan, i);
        MissingStep(before.completed, st.completed, plan.expected, have, i);
        if w.Path() !in Paths(st.completed) {
          ghost var rows := st.completed;
          o, st := CollectWave(w, st, n);
          OneMoreRow(before.completed, rows, st.completed, plan.expected, have, i);
          if o != Ok { return; }
        }
      }
      assert plan.expected[..|plan.expected|] == plan.expected;
      AllOfThem(before.completed, st.completed, Missing(plan.expected, have));
      o := Ok;
    }

    // The run loop: collects exactly the expected waves that have no file yet, in the order of the run.
    method CollectWaves(before: State, n: nat) returns (o: Outcome, st: State)
      requires Valid() && Collecting(plan, disk, before, n)
      modifies `disk, `history, `faults
      ensures Valid() && old(history) <= history
      ensures o in {Ok, Raised, Cut}
      ensures if o == Ok then faults == old(faults) else faults > old(faults)
      ensures o == Raised ==> InAttempt(plan, disk, st, n)
      ensures o == Ok ==>
        && Collecting(plan, disk, st, n) && disk.state == st && TasksComplete(st)
        && disk.waves.Keys == plan.byPath.Keys
      ensures var missing := Missing(plan.expected, old(disk.waves.Keys));
        && InPlanOrder(plan.tasks, missing)
        && (forall w :: w in missing <==> Declared(plan.tasks, w) && w.Path() !in old(disk.waves.Keys))
        && AppendedSome(before.completed, st.completed, missing)
        && (o == Ok ==> Appended(before.completed, st.completed, missing))
    {
      hide HistoryOk, Wave.Path, StateOk, DiskOk, Plan.Ok, Missing, Appended, AppendedSome, InPlanOrder, Declared, Paths, Numbers;
      assert plan.expected == ExpectedWaves(plan.tasks) by { PlanFacts(plan); }
      MissingInOrder(plan.tasks, disk.waves.Keys);
      o, st := CollectMissing(before, n);
      if o != Ok { return; }
      CurrentOk();
      AllCollected(plan, disk);
      var last := st;
      st := last.(tasks := map name | name in plan.Names() :: Complete);
      ghost var d := disk;
      TasksChange(plan, disk, last, st);
      o := Save(st);
      StateSaved(plan, d, last, st, disk.state, n);
    }

    // task_results for every task, then the attempt directories, then result and checksum.
    method Finish(before: State, n: nat) returns (o: Outcome, st: State)
      requires Valid() && Collecting(plan, disk, before, n) && disk.state == before
      requires disk.waves.Keys == plan.byPath.Keys && TasksComplete(before)
      modifies `disk, `history, `faults
      ensures Valid() && old(history) <= history
      ensures o in {Ok, Raised, Cut}
      ensures o == Raised ==> InAttempt(plan, disk, st, n)
      ensures o == Ok ==> disk.state.status == Complete && faults == old(faults)
      ensures faults >= old(faults) && (o == Cut ==> faults > old(faults))
      ensures plan.Ok() && (o == Raised && faults == old(faults) ==> !AllQualified(plan, disk.waves) || !NameableAttempts(disk))
    {
      hide HistoryOk, StateOk, DiskOk, Extends, Paths, Numbers, TaskPublished, AllQualified, NamesOk, ByPath, ExpectedWaves;
      st := before;
      var flags := QualifyTasks(plan, disk.waves);
      if flags.None? { return Raised, st; }
      if exists m :: m in disk.attempts && m >= NAMEABLE { return Raised, st; }
      if disk.results.Some? || disk.checksum.Some? { return Refused, st; }
      CurrentOk();
      var doc := ResultDoc(st.identity, true, flags.value, st.resumeCount);
      ResultFacts(plan, disk);
      assert Published(plan, disk.waves, doc);
      ResultStep(plan, disk, doc);
      o, st := Publish(doc, st, n);
    }

    method Publish(doc: ResultDoc, before: State, n: nat) returns (o: Outcome, st: State)
      requires Valid() && Collecting(plan, disk, before, n) && disk.state == before
      requires DiskOk(plan, disk.(results := Some(doc))) && Extends(disk, disk.(results := Some(doc)))
      modifies `disk, `history, `faults
      ensures Valid() && old(history) <= history
      ensures o in {Ok, Raised, Cut}
      ensures o == Raised ==> InAttempt(plan, disk, st, n)
      ensures o == Ok ==> disk.state.status == Complete && faults == old(faults)
      ensures o != Ok ==> faults > old(faults)
    {
      hide HistoryOk, DiskOk, StateOk, Extends, Plan.Ok, Paths;
      st := before;
      o := Write(disk.(results := Some(doc)));
      CurrentOk();
      CurrentState(plan, disk);
      if o != Ok { return; }
      ChecksumStep(plan, disk);
      o := Write(disk.(checksum := Some(OfResult(doc))));
      CurrentOk();
      CurrentState(plan, disk);
      if o != Ok { return; }
      CompleteStep(plan, disk);
      st := st.(status := Complete, resultsSha := Some(OfResult(doc)));
      ghost var written := disk;
      o := Save(st);
      StateOkAnyway(plan, written, st, disk.state);
    }

    // The failure is saved in state.json, then in its own file, then in the failure history.
    method Fail(before: State, n: nat, error: string) returns (exit: Exit)
      requires Valid() && InAttempt(plan, disk, before, n)
      modifies `disk, `history, `faults
      ensures Valid() && old(history) <= history
      ensures exit in {AttemptFailed, Crashed}
      ensures (disk.waves, disk.attempts, disk.results) == old((disk.waves, disk.attempts, disk.results))
      ensures faults >= old(faults) && (exit == Crashed ==> faults > old(faults))
      ensures faults == old(faults) ==> FailureRecorded(disk)
    {
      hide HistoryOk, DiskOk, Extends, Plan.Ok, Paths, RowsMatch;
      var st := before.(status := Failed, error := Some(error));
      var o := Save(st);
      if o != Ok { return if o == Raised then AttemptFailed else Crashed; }
      if n in disk.failures { return NotAccepted; }
      var capturedAt: nat := *;
      var doc := FailureDoc(st.identity, n, capturedAt, error);
      CurrentOk();
      FailureStep(plan, disk, doc);
      o := Write(disk.(failures := disk.failures[n := doc]));
      if o != Ok { return if o == Raised then AttemptFailed else Crashed; }
      CurrentOk();
      CurrentState(plan, disk);
      FailureRowStep(plan, disk, st, n);
      st := st.(failures := st.failures + [FailureRow(n, OfFailure(doc))]);
      assert st.failures[|st.failures| - 1].attempt in Numbers(st.failures);
      o := Save(st);
      return if o == Cut then Crashed else AttemptFailed;
    }

    // Everything a resume checks before it runs: accepted in every valid state but for the digits of
    // a failure number, and without effect on evidence that is already recorded.
    method Reconcile() returns (o: Outcome, finalized: bool, st: State)
      requires Valid()
      modifies `disk, `history, `faults
      ensures Valid() && old(history) <= history
      ensures (disk.waves, disk.failures, disk.attempts) == old((disk.waves, disk.failures, disk.attempts))
      ensures o == Refused ==> !Nameable(disk.failures)
      ensures if o in {Ok, Refused} then faults == old(faults) else faults > old(faults)
      ensures o == Ok ==> Nameable(disk.failures)
      ensures o == Ok && finalized ==> disk.state.status == Complete
      ensures o == Ok && !finalized ==>
        && Reconciled(disk) && disk.state == st && st.status != Complete
        && st.resumeCount == old(disk.state.resumeCount)
      ensures old(disk.state.status) == Complete ==> disk == old(disk) && (o == Ok ==> finalized)
      ensures old(Reconciled(disk)) ==> disk == old(disk)
    {
      CurrentOk();
      CompleteRows(plan, disk);
      hide HistoryOk, DiskOk, Plan.Ok, Paths, Numbers;
      finalized := false;
      o, st := ReconcileWaves(disk.state);
      if o != Ok { return; }
      o, st := ReconcileFailures(st);
      if o != Ok { return; }
      o, finalized, st := ReconcileResults(st);
    }

    // Numbers the attempt, saves that it runs and creates its directory; never finds one there.
    method Begin(resume: bool, reconciled: State) returns (o: Outcome, st: State)
      requires Valid() && disk.state == reconciled && Reconciled(disk) && reconciled.status != Complete
      requires !resume ==> disk == InitialDisk(plan)
      modifies `disk, `history, `faults
      ensures Valid() && old(history) <= history
      ensures o in {Ok, Raised, Cut}
      ensures if o == Ok then faults == old(faults) else faults > old(faults)
      ensures disk.failures == old(disk.failures)
      ensures o == Ok ==>
        && Collecting(plan, disk, st, st.resumeCount)
        && st.resumeCount == reconciled.resumeCount + (if resume then 1 else 0)
    {
      hide *;
      CurrentOk();
      st := RunState(reconciled, resume);
      BeginStep(plan, disk, resume, st);
      o := Save(st);
      if o != Ok { return; }
      var n := st.resumeCount;
      if n in disk.attempts { return Refused, st; }
      o := Write(disk.(attempts := disk.attempts + {n}));
      if o != Ok { return; }
      o := Act();
    }

    ghost predicate Ready()
      reads this
    {
      Valid() && (!started ==> disk == InitialDisk(plan))
    }

    // One invocation of main: a first run in a new directory, or a resume of an existing one.
    method Attempt(resume: bool) returns (exit: Exit)
      requires Ready()
      modifies this
      ensures Ready() && old(history) <= history
      // A directory is used once without --resume and only with it afterwards.
      ensures old(started) != resume ==> exit == NotAccepted && disk == old(disk)
      // A resume is accepted exactly while failure numbers fit their names.
      ensures old(started) == resume && exit == NotAccepted ==> !Nameable(old(disk.failures))
      ensures old(started) == resume && !Nameable(old(disk.failures)) ==>
        exit !in {Passed, AlreadyComplete} && (faults == old(faults) ==> exit == NotAccepted)
      // Success is a complete state, and a complete run is never touched again.
      ensures exit in {Passed, AlreadyComplete} ==> disk.state.status == Complete
      ensures old(disk.state.status) == Complete ==> disk == old(disk)
      // If no step fails, the attempt fails only on what it measured.
      ensures exit == Crashed ==> faults > old(faults)
      ensures plan.Ok() && (exit == AttemptFailed && faults == old(faults) ==>
        FailureRecorded(disk) && (!AllQualified(plan, disk.waves) || !NameableAttempts(disk)))
    {
      if started != resume { return NotAccepted; }
      started := true;
      hide HistoryOk, DiskOk, StateOk, Plan.Ok, Paths, Numbers, AllQualified, Nameable;
      InitialReconciled(plan);
      var o, finalized, st := Reconcile();
      if o == Refused { return NotAccepted; }
      if o != Ok { return if o == Raised then AttemptFailed else Crashed; }
      if finalized { return if resume then AlreadyComplete else NotAccepted; }
      o, st := Begin(resume, st);
      if o != Ok { return if o == Raised then AttemptFailed else Crashed; }
      exit := Run(st);
    }

    // From the first wave to the result, or to the record of the failure.
    method Run(begun: State) returns (exit: Exit)
      requires Valid() && Collecting(plan, disk, begun, begun.resumeCount)
      modifies `disk, `history, `faults
      ensures Valid() && old(history) <= history
      ensures exit in {Passed, AttemptFailed, Crashed}
      ensures exit == Passed ==> disk.state.status == Complete
      ensures exit == Crashed ==> faults > old(faults)
      ensures plan.Ok() && (exit == AttemptFailed && faults == old(faults) ==>
        FailureRecorded(disk) && (!AllQualified(plan, disk.waves) || !NameableAttempts(disk)))
    {
      hide HistoryOk, DiskOk, StateOk, Plan.Ok, Paths, Numbers, AllQualified;
      var n := begun.resumeCount;
      var o, st := CollectWaves(begun, n);
      if o == Cut { return Crashed; }
      var after := Act();
      if after == Cut { return Crashed; }
      if o == Ok && after == Ok {
        o, st := Finish(st, n);
        if o == Ok { return Passed; }
        if o == Cut { return Crashed; }
      }
      exit := Fail(st, n, "attempt failed");
    }

    // Any number of invocations, each cut, failed or finished in any way.
    method Session(resumes: seq<bool>) returns (exits: seq<Exit>)
      requires Ready()
      modifies this
      ensures Ready() && old(history) <= history && |exits| == |resumes|
      // Over the whole run, every content of the disk satisfies the invariant.
      ensures RowsAlwaysMatch(plan, history) && NeverRewritten(history) && AttemptsGrow(history)
    {
      exits := [];
      for k := 0 to |resumes|
        invariant Ready() && old(history) <= history && |exits| == k
      {
        hide HistoryOk, DiskOk, Plan.Ok;
        var exit := Attempt(resumes[k]);
        exits := exits + [exit];
      }
      WholeRun(plan, history);
    }
  }

  lemma WavesAccepted(p: Plan, d: Disk)
    requires DiskOk(p, d)
    ensures RowsMatch(d.state.completed, d.waves) && WavesExpected(p, d.waves)
  {
  }

  lemma RowsStep(p: Plan, d: Disk, rows: seq<WaveRow>)
    requires DiskOk(p, d) && RowsMatch(rows, d.waves) && Paths(rows) == d.waves.Keys
    ensures StateOk(p, d, d.state.(completed := rows))
  {
    hide RowsMatch, FailureRowsMatch, Paths, Numbers, Plan.Ok, FilesOk;
  }

  lemma FailuresAccepted(p: Plan, d: Disk)
    requires DiskOk(p, d)
    ensures FailureRowsMatch(d.state.failures, d.failures)
    ensures forall n :: n in d.failures ==> FailureFits(d.state.identity, n, d.failures[n])
  {
    hide RowsMatch, FailureRowsMatch, Paths, Numbers, Plan.Ok;
  }

  lemma FailureRowsStep(p: Plan, d: Disk, rows: seq<FailureRow>)
    requires DiskOk(p, d) && FailureRowsMatch(rows, d.failures) && Numbers(rows) == d.failures.Keys
    ensures StateOk(p, d, d.state.(failures := rows))
  {
    hide RowsMatch, FailureRowsMatch, Paths, Numbers, Plan.Ok, FilesOk;
  }

  lemma NoOrphans(rows: seq<WaveRow>, all: seq<WaveRow>, waves: map<string, WaveDoc>)
    requires rows <= all && RowsMatch(all, waves) && Paths(rows) == waves.Keys
    ensures all == rows
  {
    assert |rows| < |all| ==> all[|rows|].path in waves;
  }

  lemma NoOrphanFailures(rows: seq<FailureRow>, all: seq<FailureRow>, files: map<nat, FailureDoc>)
    requires rows <= all && FailureRowsMatch(all, files) && Numbers(rows) == files.Keys
    ensures all == rows
  {
    assert |rows| < |all| ==> all[|rows|].attempt in files;
  }

  lemma ExpectedFile(p: Plan, w: Wave)
    requires p.Ok() && w in p.expected
    ensures w.Path() in p.byPath && p.byPath[w.Path()] == w && w.task in p.Names()
  {
    DictionaryIsExact(p.tasks, w);
    ExpectedAreDeclared(p.tasks, w);
  }

  lemma Fits(w: Wave, doc: WaveDoc)
    requires doc.task == w.task && doc.phase == w.phase && doc.index == w.index && ResultFits(w, doc.result)
    ensures DocValid(w, doc)
  {
  }

  lemma TasksChange(p: Plan, d: Disk, before: State, st: State)
    requires StateOk(p, d, before) && st == before.(tasks := st.tasks) && st.tasks.Keys == p.Names() && d.results.None?
    ensures StateOk(p, d, st)
  {
  }

  lemma MarkRunning(p: Plan, d: Disk, before: State, name: string)
    requires StateOk(p, d, before) && name in p.Names() && d.results.None?
    ensures StateOk(p, d, before.(tasks := before.tasks[name := Running]))
  {
    assert before.tasks[name := Running].Keys == p.Names();
    TasksChange(p, d, before, before.(tasks := before.tasks[name := Running]));
  }

  // What a valid state says of memory does not depend on the state.json beside it.
  lemma StateOkAnyway(p: Plan, d: Disk, st: State, saved: State)
    ensures StateOk(p, d, st) == StateOk(p, d.(state := saved), st)
  {
    hide RowsMatch, FailureRowsMatch, Paths, Numbers;
  }

  lemma ResultFacts(p: Plan, d: Disk)
    requires DiskOk(p, d)
    ensures d.state.identity == p.identity
    ensures d.checksum.Some? ==> d.results.Some? && d.checksum.value == OfResult(d.results.value)
    ensures d.results.Some? ==> d.results.value.identity == p.identity && d.results.value.passed
    ensures d.state.resultsSha.Some? ==> d.results.Some? && d.state.resultsSha.value == OfResult(d.results.value)
    ensures d.state.status == Complete ==> d.state.resultsSha.Some? && d.checksum.Some? && d.state.error.None?
  {
    hide WavesExpected, RowsMatch, FailureRowsMatch, Paths, Numbers, Plan.Ok, UpTo, Qualified, PairwiseEqual;
  }

  lemma CompleteStep(p: Plan, d: Disk)
    requires DiskOk(p, d) && d.results.Some? && d.checksum.Some? && Numbers(d.state.failures) == d.failures.Keys
    ensures StateOk(p, d, d.state.(status := Complete, resultsSha := Some(OfResult(d.results.value)), error := None))
  {
    hide WavesExpected, RowsMatch, FailureRowsMatch, Paths, Numbers, Plan.Ok, UpTo, Published;
  }

  // Saving a state of the same attempt, whether or not it takes effect.
  lemma StateSaved(p: Plan, d: Disk, before: State, st: State, saved: State, n: nat)
    requires Collecting(p, d, before, n) && StateOk(p, d, st)
    requires st == before.(tasks := st.tasks) && saved.resumeCount == n
    ensures Collecting(p, d.(state := saved), st, n)
  {
    hide RowsMatch, FailureRowsMatch, Paths, Numbers;
  }

  lemma AllCollected(p: Plan, d: Disk)
    requires DiskOk(p, d) && forall k :: 0 <= k < |p.expected| ==> p.expected[k].Path() in d.waves
    ensures d.waves.Keys == p.byPath.Keys
  {
    hide Wave.Path, StateOk, Published, DocValid;
    forall path | path in p.byPath ensures path in d.waves {
      var w := p.byPath[path];
      assert w in p.expected;
      var k :| 0 <= k < |p.expected| && p.expected[k] == w;
    }
  }

  lemma CurrentState(p: Plan, d: Disk)
    requires DiskOk(p, d)
    ensures StateOk(p, d, d.state)
  {
  }

  // The last attempt failed, and its failure is both in its own file and in the saved history.
  predicate FailureRecorded(d: Disk) {
    && d.state.status == Failed && d.state.error.Some?
    && d.state.resumeCount in d.failures && d.state.resumeCount in Numbers(d.state.failures)
  }

  // Nothing is left to reconcile.
  predicate Reconciled(d: Disk) {
    && Paths(d.state.completed) == d.waves.Keys
    && Numbers(d.state.failures) == d.failures.Keys
    && d.results.None? && d.checksum.None?
  }

  lemma InitialReconciled(p: Plan)
    ensures Reconciled(InitialDisk(p))
  {
  }

  lemma CompleteRows(p: Plan, d: Disk)
    requires DiskOk(p, d)
    ensures d.state.status == Complete ==> Paths(d.state.completed) == d.waves.Keys && Numbers(d.state.failures) == d.failures.Keys
  {
  }

  function RunState(st: State, resume: bool): State {
    st.(status := Running, resumeCount := if resume then st.resumeCount + 1 else st.resumeCount,
        error := if resume then None else st.error)
  }

  lemma RunStep(p: Plan, d: Disk, resume: bool)
    requires DiskOk(p, d) && Reconciled(d) && (!resume ==> d == InitialDisk(p))
    ensures StateOk(p, d, RunState(d.state, resume)) && Above(d, RunState(d.state, resume).resumeCount)
  {
    hide RowsMatch, FailureRowsMatch, Paths, Numbers, Plan.Ok, FilesOk;
  }

  lemma BeginStep(p: Plan, d: Disk, resume: bool, st: State)
    requires DiskOk(p, d) && Reconciled(d) && (!resume ==> d == InitialDisk(p))
    requires st == RunState(d.state, resume)
    ensures st.resumeCount == d.state.resumeCount + (if resume then 1 else 0)
    ensures StateOk(p, d, st) && st.resumeCount !in d.attempts
    ensures var e := d.(state := st, attempts := d.attempts + {st.resumeCount});
      DiskOk(p, e) && Extends(d.(state := st), e) && Collecting(p, e, st, st.resumeCount)
  {
    RunStep(p, d, resume);
    SaveStep(p, d, st);
    StateOkAnyway(p, d, st, st);
    AttemptStep(p, d.(state := st), st);
    hide DiskOk, StateOk, Extends, Paths, Numbers, Plan.Ok;
  }

  // Each saved row names its own expected wave, whose file is there with the recorded hash.
  predicate RowsAlwaysMatch(p: Plan, h: seq<Disk>) {
    forall i :: 0 <= i < |h| ==> RowsMatch(h[i].state.completed, h[i].waves) && WavesExpected(p, h[i].waves)
  }

  predicate NeverRewritten(h: seq<Disk>) {
    forall i, j :: 0 <= i <= j < |h| ==>
      forall path :: path in h[i].waves ==> path in h[j].waves && h[j].waves[path] == h[i].waves[path]
  }

  predicate AttemptsGrow(h: seq<Disk>) {
    forall i, j :: 0 <= i <= j < |h| ==>
      forall n :: n in h[j].attempts && n !in h[i].attempts ==> Above(h[i], n)
  }

  lemma WholeRun(p: Plan, h: seq<Disk>)
    requires HistoryOk(p, h)
    ensures RowsAlwaysMatch(p, h) && NeverRewritten(h) && AttemptsGrow(h)
  {
    hide RowsMatch, FailureRowsMatch, WavesExpected, Paths, Numbers, Plan.Ok, Published, Above;
  }

  // ---------------------------------------------------------------- the order of collection

  lemma NothingMissing(before: seq<WaveRow>, waves: seq<Wave>, have: set<string>)
    ensures Appended(before, before, Missing(waves[..0], have))
  {
  }

  // No two expected waves share a file.
  lemma NotYetCollected(p: Plan, i: nat)
    requires p.Ok() && i < |p.expected|
    ensures forall k :: 0 <= k < i ==> p.expected[k].Path() != p.expected[i].Path()
  {
    hide Wave.Path, ByPath, ExpectedWaves, Precedes;
    ExpectedInOrder(p.tasks);
    var w := p.expected[i];
    forall k | 0 <= k < i ensures p.expected[k].Path() != w.Path() {
      if p.expected[k].Path() == w.Path() {
        SamePathSameWave(p.tasks, p.expected[k], w);
        NotBeforeItself(p.tasks, w);
      }
    }
  }

  lemma NotBeforeItself(tasks: seq<Task>, w: Wave)
    requires NamesOk(tasks)
    ensures !Precedes(tasks, w, w)
  {
    hide SafeName;
  }

  lemma MissingStep(before: seq<WaveRow>, rows: seq<WaveRow>, waves: seq<Wave>, have: set<string>, i: nat)
    requires i < |waves|
    requires Appended(before, rows, Missing(waves[..i], have))
    ensures Missing(waves[..i + 1], have) ==
      if waves[i].Path() in have then Missing(waves[..i], have) else Missing(waves[..i], have) + [waves[i]]
  {
    assert waves[..i + 1][..i] == waves[..i];
  }

  lemma OneMoreRow(before: seq<WaveRow>, rows: seq<WaveRow>, after: seq<WaveRow>, waves: seq<Wave>, have: set<string>, i: nat)
    requires i < |waves| && waves[i].Path() !in have
    requires Appended(before, rows, Missing(waves[..i], have))
    requires after == rows || Appended(rows, after, [waves[i]])
    ensures AppendedSome(before, after, Missing(waves, have))
    ensures Appended(rows, after, [waves[i]]) ==> Appended(before, after, Missing(waves[..i + 1], have))
  {
    hide Wave.Path, Appended, AppendedSome;
    MissingStep(before, rows, waves, have, i);
    MissingGrows(waves, have, i, |waves|);
    MissingGrows(waves, have, i + 1, |waves|);
    assert waves[..|waves|] == waves;
    hide Missing;
    SomeOfThem(before, rows, Missing(waves[..i], have), Missing(waves, have));
    if Appended(rows, after, [waves[i]]) {
      AppendChain(before, rows, after, Missing(waves[..i], have), waves[i]);
      SomeOfThem(before, after, Missing(waves[..i + 1], have), Missing(waves, have));
    }
  }

  lemma AppendChain(before: seq<WaveRow>, rows: seq<WaveRow>, after: seq<WaveRow>, ws: seq<Wave>, w: Wave)
    requires Appended(before, rows, ws) && Appended(rows, after, [w])
    ensures Appended(before, after, ws + [w])
  {
    hide Wave.Path;
    assert [w][0] == w && after[|rows| + 0].path == w.Path();
    forall k | 0 <= k < |ws| + 1 ensures after[|before| + k].path == (ws + [w])[k].Path() {
      if k < |ws| { assert after[|before| + k] == rows[|before| + k]; }
    }
  }

  lemma SomeOfThem(before: seq<WaveRow>, rows: seq<WaveRow>, some: seq<Wave>, all: seq<Wave>)
    requires Appended(before, rows, some) && some <= all
    ensures AppendedSome(before, rows, all)
  {
    hide Wave.Path;
    assert all[..|some|] == some;
  }

  lemma AllOfThem(before: seq<WaveRow>, rows: seq<WaveRow>, ws: seq<Wave>)
    requires Appended(before, rows, ws)
    ensures AppendedSome(before, rows, ws)
  {
    assert ws[..|ws|] == ws;
  }
}
