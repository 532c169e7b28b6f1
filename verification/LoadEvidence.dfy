/** The durable evidence of a load run and the checks a resume makes of it
    (reconcile_waves, reconcile_failures, task_results in benchmarks/openai_load.py). */
module LoadEvidence {
  import opened Text
  import opened LoadPlan

  datatype Request = Request(fixture: string, output: string, tokens: int, finish: string, cached: Option<int>)
  datatype CellResult = CellResult(cell: string, phase: Phase, streams: nat, requests: seq<Request>)
  datatype WaveDoc = WaveDoc(task: string, phase: Phase, index: nat, capturedAt: nat, result: CellResult)
  datatype FailureDoc = FailureDoc(identity: string, attempt: nat, capturedAt: nat, error: string)
  datatype ResultDoc = ResultDoc(identity: string, passed: bool, outputsEqual: seq<bool>, resumeCount: nat)

  // SHA-256 of a file is modelled as an injective function of the document in it.
  datatype Sha = OfWave(wave: WaveDoc) | OfFailure(failure: FailureDoc) | OfResult(result: ResultDoc)

  datatype WaveRow = WaveRow(path: string, sha: Sha)
  // The number stands for the relative path failures/attempt-NNNN.json.
  datatype FailureRow = FailureRow(attempt: nat, sha: Sha)

  datatype Status = Pending | Running | Failed | Complete
  datatype State = State(
    identity: string, status: Status, completed: seq<WaveRow>, tasks: map<string, Status>,
    resumeCount: nat, failures: seq<FailureRow>, error: Option<string>, resultsSha: Option<Sha>)

  datatype Disk = Disk(
    state: State, waves: map<string, WaveDoc>, failures: map<nat, FailureDoc>, attempts: set<nat>,
    results: Option<ResultDoc>, checksum: Option<Sha>)

  datatype CacheMode = Unconstrained | Miss | Hit
  datatype Plan = Plan(
    identity: string, tasks: seq<Task>, expected: seq<Wave>, byPath: map<string, Wave>,
    cache: map<Phase, CacheMode>, minimumHit: int)
  {
    function Names(): set<string> { set t | t in tasks :: t.name }

    ghost predicate Ok() {
      && NamesOk(tasks)
      && expected == ExpectedWaves(tasks)
      && byPath == ByPath(expected)
      && Warmup in cache && Measured in cache
    }
  }

  // ---------------------------------------------------------------- one wave document

  predicate DocValid(w: Wave, doc: WaveDoc) {
    && doc.task == w.task && doc.phase == w.phase && doc.index == w.index
    && ResultFits(w, doc.result)
  }

  predicate ResultFits(w: Wave, r: CellResult) {
    r.cell == w.cell && r.phase == w.phase && r.streams == w.streams && |r.requests| == w.streams
  }

  // validate_document.
  method ValidateDocument(w: Wave, doc: WaveDoc) returns (ok: bool)
    ensures ok <==> DocValid(w, doc)
  {
    if doc.task != w.task || doc.phase != w.phase || doc.index != w.index { return false; }
    if doc.result.cell != w.cell || doc.result.phase != w.phase || doc.result.streams != w.streams { return false; }
    return |doc.result.requests| == w.streams;
  }

  // ---------------------------------------------------------------- rows against files

  function Paths(rows: seq<WaveRow>): set<string> { set i | 0 <= i < |rows| :: rows[i].path }

  predicate RowsMatch(rows: seq<WaveRow>, waves: map<string, WaveDoc>) {
    && (forall i, j :: 0 <= i < j < |rows| ==> rows[i].path != rows[j].path)
    && (forall i :: 0 <= i < |rows| ==> rows[i].path in waves && rows[i].sha == OfWave(waves[rows[i].path]))
  }

  predicate WavesExpected(p: Plan, waves: map<string, WaveDoc>) {
    forall path :: path in waves ==> path in p.byPath && DocValid(p.byPath[path], waves[path])
  }

  lemma RowsGrow(rows: seq<WaveRow>, row: WaveRow, waves: map<string, WaveDoc>)
    requires RowsMatch(rows, waves) && row.path !in Paths(rows) && row.path in waves && row.sha == OfWave(waves[row.path])
    ensures RowsMatch(rows + [row], waves) && Paths(rows + [row]) == Paths(rows) + {row.path}
  {
    var all := rows + [row];
    forall i | 0 <= i < |rows| ensures all[i].path != row.path {
      assert rows[i].path in Paths(rows);
    }
    assert all[|rows|].path in Paths(all);
    forall x | x in Paths(rows) ensures x in Paths(all) {
      var i :| 0 <= i < |rows| && rows[i].path == x;
      assert all[i].path == x;
    }
    forall x | x in Paths(all) ensures x in Paths(rows) + {row.path} {
      var i :| 0 <= i < |all| && all[i].path == x;
      if i < |rows| { assert rows[i].path in Paths(rows); }
    }
  }

  // The row loop of reconcile_waves: every saved row is new, expected, on disk, unchanged and well formed.
  method CheckRows(p: Plan, rows: seq<WaveRow>, waves: map<string, WaveDoc>) returns (ok: bool)
    ensures ok <==> && RowsMatch(rows, waves)
                    && forall i :: 0 <= i < |rows| ==> rows[i].path in p.byPath && DocValid(p.byPath[rows[i].path], waves[rows[i].path])
  {
    hide DocValid;
    var completed: set<string> := {};
    for i := 0 to |rows|
      invariant completed == Paths(rows[..i])
      invariant RowsMatch(rows[..i], waves)
      invariant forall k :: 0 <= k < i ==> rows[k].path in p.byPath && DocValid(p.byPath[rows[k].path], waves[rows[k].path])
    {
      var row := rows[i];
      assert rows[..i + 1] == rows[..i] + [row];
      if row.path !in p.byPath || row.path in completed { return false; }
      if row.path !in waves || row.sha != OfWave(waves[row.path]) { return false; }
      var valid := ValidateDocument(p.byPath[row.path], waves[row.path]);
      if !valid { return false; }
      RowsGrow(rows[..i], row, waves);
      completed := completed + {row.path};
    }
    assert rows[..|rows|] == rows;
    return true;
  }

  // The orphan loop of reconcile_waves.
  method AppendOrphans(p: Plan, rows: seq<WaveRow>, waves: map<string, WaveDoc>, orphans: seq<string>)
    returns (r: Option<seq<WaveRow>>)
    requires RowsMatch(rows, waves) && StrictlySorted(orphans)
    requires forall s :: s in orphans ==> s in waves && s in p.byPath && s !in Paths(rows)
    ensures r.Some? <==> forall k :: 0 <= k < |orphans| ==> DocValid(p.byPath[orphans[k]], waves[orphans[k]])
    ensures r.Some? ==>
      && |r.value| == |rows| + |orphans| && rows <= r.value
      && RowsMatch(r.value, waves)
      && Paths(r.value) == Paths(rows) + (set k | 0 <= k < |orphans| :: orphans[k])
      && forall k :: 0 <= k < |orphans| ==> r.value[|rows| + k].path == orphans[k]
  {
    hide DocValid, StrictlySorted, RowsMatch, Paths;
    var all := rows;
    for i := 0 to |orphans|
      invariant |all| == |rows| + i && rows <= all
      invariant RowsMatch(all, waves)
      invariant Paths(all) == Paths(rows) + set k | 0 <= k < i :: orphans[k]
      invariant forall k :: 0 <= k < i ==> all[|rows| + k].path == orphans[k]
      invariant forall k :: 0 <= k < i ==> DocValid(p.byPath[orphans[k]], waves[orphans[k]])
    {
      var path := orphans[i];
      var valid := ValidateDocument(p.byPath[path], waves[path]);
      if !valid { return None; }
      OrphanIsNew(rows, all, orphans, i);
      var row := WaveRow(path, OfWave(waves[path]));
      RowsGrow(all, row, waves);
      all := all + [row];
    }
    return Some(all);
  }

  // reconcile_waves: the rows to save, or None where it refuses. The orphan files, in path order,
  // are the only rows added, and afterwards rows and files correspond exactly.
  method ReconcileRows(p: Plan, rows: seq<WaveRow>, waves: map<string, WaveDoc>) returns (r: Option<seq<WaveRow>>)
    ensures r.Some? <==> RowsMatch(rows, waves) && WavesExpected(p, waves)
    ensures r.Some? ==>
      && rows <= r.value
      && RowsMatch(r.value, waves)
      && Paths(r.value) == waves.Keys
      && forall i, j :: |rows| <= i < j < |r.value| ==> Less(r.value[i].path, r.value[j].path)
  {
    hide DocValid, Less, Leq, Paths;
    var ok := CheckRows(p, rows, waves);
    if !ok { return None; }
    if exists path :: path in waves && path !in p.byPath { return None; }
    var orphans := SortedSet(waves.Keys - Paths(rows));
    r := AppendOrphans(p, rows, waves, orphans);
    if r.Some? {
      AllRecorded(p, rows, waves, orphans);
      forall i, j | |rows| <= i < j < |r.value| ensures Less(r.value[i].path, r.value[j].path) {
        assert r.value[|rows| + (i - |rows|)].path == orphans[i - |rows|];
        assert r.value[|rows| + (j - |rows|)].path == orphans[j - |rows|];
      }
    } else {
      var k :| 0 <= k < |orphans| && !DocValid(p.byPath[orphans[k]], waves[orphans[k]]);
      assert orphans[k] in orphans;
    }
  }

  lemma OrphanIsNew(rows: seq<WaveRow>, all: seq<WaveRow>, orphans: seq<string>, i: nat)
    requires i < |orphans| && StrictlySorted(orphans)
    requires orphans[i] !in Paths(rows)
    requires Paths(all) == Paths(rows) + set k | 0 <= k < i :: orphans[k]
    ensures orphans[i] !in Paths(all)
  {
  }

  lemma AllRecorded(p: Plan, rows: seq<WaveRow>, waves: map<string, WaveDoc>, orphans: seq<string>)
    requires RowsMatch(rows, waves)
    requires forall i :: 0 <= i < |rows| ==> rows[i].path in p.byPath && DocValid(p.byPath[rows[i].path], waves[rows[i].path])
    requires forall s :: s in orphans <==> s in waves && s !in Paths(rows)
    requires forall s :: s in waves ==> s in p.byPath
    requires forall k :: 0 <= k < |orphans| ==> DocValid(p.byPath[orphans[k]], waves[orphans[k]])
    ensures WavesExpected(p, waves)
    ensures Paths(rows) + (set k | 0 <= k < |orphans| :: orphans[k]) == waves.Keys
  {
    hide DocValid;
    forall s | s in waves ensures DocValid(p.byPath[s], waves[s]) {
      if s in Paths(rows) {
        var i :| 0 <= i < |rows| && rows[i].path == s;
      } else {
        var k :| 0 <= k < |orphans| && orphans[k] == s;
      }
    }
  }

  // ---------------------------------------------------------------- failure evidence

  // Attempt numbers whose names have the four digits that the evidence name patterns ask for.
  const NAMEABLE: nat := 10000

  function Numbers(rows: seq<FailureRow>): set<nat> { set i | 0 <= i < |rows| :: rows[i].attempt }

  predicate FailureRowsMatch(rows: seq<FailureRow>, files: map<nat, FailureDoc>) {
    && (forall i, j :: 0 <= i < j < |rows| ==> rows[i].attempt != rows[j].attempt)
    && (forall i :: 0 <= i < |rows| ==> rows[i].attempt in files && rows[i].sha == OfFailure(files[rows[i].attempt]))
  }

  predicate FailureFits(identity: string, n: nat, doc: FailureDoc) { doc.identity == identity && doc.attempt == n }

  predicate Nameable(files: map<nat, FailureDoc>) { forall n :: n in files ==> n < NAMEABLE }

  lemma FailureRowsGrow(rows: seq<FailureRow>, row: FailureRow, files: map<nat, FailureDoc>)
    requires FailureRowsMatch(rows, files) && row.attempt !in Numbers(rows)
    requires row.attempt in files && row.sha == OfFailure(files[row.attempt])
    ensures FailureRowsMatch(rows + [row], files) && Numbers(rows + [row]) == Numbers(rows) + {row.attempt}
  {
    var all := rows + [row];
    forall i | 0 <= i < |rows| ensures all[i].attempt != row.attempt {
      assert rows[i].attempt in Numbers(rows);
    }
    assert all[|rows|].attempt in Numbers(all);
    forall x | x in Numbers(rows) ensures x in Numbers(all) {
      var i :| 0 <= i < |rows| && rows[i].attempt == x;
      assert all[i].attempt == x;
    }
    forall x | x in Numbers(all) ensures x in Numbers(rows) + {row.attempt} {
      var i :| 0 <= i < |all| && all[i].attempt == x;
      if i < |rows| { assert rows[i].attempt in Numbers(rows); }
    }
  }

  method CheckFailureRows(rows: seq<FailureRow>, files: map<nat, FailureDoc>) returns (ok: bool)
    ensures ok <==> FailureRowsMatch(rows, files) && forall i :: 0 <= i < |rows| ==> rows[i].attempt < NAMEABLE
  {
    var recorded: set<nat> := {};
    for i := 0 to |rows|
      invariant recorded == Numbers(rows[..i])
      invariant FailureRowsMatch(rows[..i], files)
      invariant forall k :: 0 <= k < i ==> rows[k].attempt < NAMEABLE
    {
      var row := rows[i];
      assert rows[..i + 1] == rows[..i] + [row];
      if row.attempt >= NAMEABLE || row.attempt in recorded { return false; }
      if row.attempt !in files || row.sha != OfFailure(files[row.attempt]) { return false; }
      FailureRowsGrow(rows[..i], row, files);
      recorded := recorded + {row.attempt};
    }
    assert rows[..|rows|] == rows;
    return true;
  }

  method AppendOrphanFailures(identity: string, rows: seq<FailureRow>, files: map<nat, FailureDoc>, orphans: seq<nat>)
    returns (r: Option<seq<FailureRow>>)
    requires FailureRowsMatch(rows, files)
    requires forall i, j :: 0 <= i < j < |orphans| ==> orphans[i] < orphans[j]
    requires forall n :: n in orphans ==> n in files && n !in Numbers(rows)
    ensures r.Some? <==>
      forall k :: 0 <= k < |orphans| ==> orphans[k] < NAMEABLE && FailureFits(identity, orphans[k], files[orphans[k]])
    ensures r.Some? ==>
      && |r.value| == |rows| + |orphans| && rows <= r.value
      && FailureRowsMatch(r.value, files)
      && Numbers(r.value) == Numbers(rows) + (set k | 0 <= k < |orphans| :: orphans[k])
      && forall k :: 0 <= k < |orphans| ==> r.value[|rows| + k].attempt == orphans[k]
  {
    hide FailureRowsMatch, Numbers;
    var all := rows;
    for i := 0 to |orphans|
      invariant |all| == |rows| + i && rows <= all
      invariant FailureRowsMatch(all, files)
      invariant Numbers(all) == Numbers(rows) + set k | 0 <= k < i :: orphans[k]
      invariant forall k :: 0 <= k < i ==> all[|rows| + k].attempt == orphans[k]
      invariant forall k :: 0 <= k < i ==> orphans[k] < NAMEABLE && FailureFits(identity, orphans[k], files[orphans[k]])
    {
      var n := orphans[i];
      if n >= NAMEABLE || !FailureFits(identity, n, files[n]) { return None; }
      var row := FailureRow(n, OfFailure(files[n]));
      FailureRowsGrow(all, row, files);
      all := all + [row];
    }
    return Some(all);
  }

  // reconcile_failures: recorded failures must be unchanged, orphans must belong to this run, and
  // every number must have a four-digit name.
  method ReconcileFailureRows(identity: string, rows: seq<FailureRow>, files: map<nat, FailureDoc>)
    returns (r: Option<seq<FailureRow>>)
    ensures r.Some? <==>
      && FailureRowsMatch(rows, files)
      && Nameable(files)
      && forall n :: n in files && n !in Numbers(rows) ==> FailureFits(identity, n, files[n])
    ensures r.Some? ==>
      && rows <= r.value
      && FailureRowsMatch(r.value, files)
      && Numbers(r.value) == files.Keys
      && forall i, j :: |rows| <= i < j < |r.value| ==> r.value[i].attempt < r.value[j].attempt
  {
    var ok := CheckFailureRows(rows, files);
    if !ok { return None; }
    // Names of four digits sort as their numbers do.
    var orphans: seq<nat> := Ascending(files.Keys - Numbers(rows));
    r := AppendOrphanFailures(identity, rows, files, orphans);
    if r.Some? {
      forall n | n in files ensures n < NAMEABLE && (n !in Numbers(rows) ==> FailureFits(identity, n, files[n])) {
        if n !in Numbers(rows) { assert n in orphans; }
      }
      forall n: nat | n in files ensures n in Numbers(r.value) {
        if n !in Numbers(rows) {
          assert n in orphans;
          var k :| 0 <= k < |orphans| && orphans[k] == n;
        }
      }
      forall i, j | |rows| <= i < j < |r.value| ensures r.value[i].attempt < r.value[j].attempt {
        assert r.value[|rows| + (i - |rows|)].attempt == orphans[i - |rows|];
        assert r.value[|rows| + (j - |rows|)].attempt == orphans[j - |rows|];
      }
    } else {
      var k: nat :| k < |orphans| && !(orphans[k] < NAMEABLE && FailureFits(identity, orphans[k], files[orphans[k]]));
      assert orphans[k] in orphans;
    }
  }

  // ---------------------------------------------------------------- qualification of one task

  // The row a fixture stands for: the last one that names it.
  predicate LastOf(rows: seq<Request>, i: nat) {
    i < |rows| && forall k :: i < k < |rows| ==> rows[k].fixture != rows[i].fixture
  }

  predicate SameRow(a: Request, b: Request) {
    a.fixture == b.fixture && a.output == b.output && a.tokens == b.tokens && a.finish == b.finish
  }

  predicate Covers(a: seq<Request>, b: seq<Request>) {
    forall i :: 0 <= i < |a| && LastOf(a, i) ==> exists j :: 0 <= j < |b| && LastOf(b, j) && SameRow(a[i], b[j])
  }

  // The same fixtures occur in both, and for each of them the last rows agree in output, completion
  // tokens and finish reasons.
  predicate Agree(a: WaveDoc, b: WaveDoc) {
    Covers(a.result.requests, b.result.requests) && Covers(b.result.requests, a.result.requests)
  }

  lemma CoversTransitive(a: seq<Request>, b: seq<Request>, c: seq<Request>)
    requires Covers(a, b) && Covers(b, c)
    ensures Covers(a, c)
  {
    hide LastOf;
    forall i | 0 <= i < |a| && LastOf(a, i) ensures exists k :: 0 <= k < |c| && LastOf(c, k) && SameRow(a[i], c[k]) {
      var j :| 0 <= j < |b| && LastOf(b, j) && SameRow(a[i], b[j]);
      var k :| 0 <= k < |c| && LastOf(c, k) && SameRow(b[j], c[k]);
    }
  }

  lemma CoversItself(a: seq<Request>)
    ensures Covers(a, a)
  {
    forall i | 0 <= i < |a| && LastOf(a, i) ensures exists j :: 0 <= j < |a| && LastOf(a, j) && SameRow(a[i], a[j]) {
      assert SameRow(a[i], a[i]);
    }
  }

  // The dictionary holds exactly the last row of each fixture.
  predicate Indexes(m: map<string, Request>, rows: seq<Request>) {
    && (forall i :: 0 <= i < |rows| && LastOf(rows, i) ==> rows[i].fixture in m && m[rows[i].fixture] == rows[i])
    && (forall name :: name in m ==> exists i :: 0 <= i < |rows| && LastOf(rows, i) && rows[i].fixture == name)
  }

  lemma IndexStep(m: map<string, Request>, rows: seq<Request>, row: Request)
    requires Indexes(m, rows)
    ensures Indexes(m[row.fixture := row], rows + [row])
  {
    var all, out := rows + [row], m[row.fixture := row];
    assert all[|rows|] == row && LastOf(all, |rows|);
    forall i | 0 <= i < |all| && LastOf(all, i) ensures all[i].fixture in out && out[all[i].fixture] == all[i] {
      if i < |rows| {
        assert all[|rows|].fixture != all[i].fixture;
        assert forall k :: i < k < |rows| ==> all[k] == rows[k];
        assert LastOf(rows, i);
      }
    }
    forall name | name in out ensures exists i :: 0 <= i < |all| && LastOf(all, i) && all[i].fixture == name {
      if name != row.fixture {
        var i :| 0 <= i < |rows| && LastOf(rows, i) && rows[i].fixture == name;
        assert all[i] == rows[i];
        assert forall k :: i < k < |all| ==> all[k].fixture != name;
      }
    }
  }

  method IndexByFixture(rows: seq<Request>) returns (m: map<string, Request>)
    ensures Indexes(m, rows)
  {
    m := map[];
    for i := 0 to |rows|
      invariant Indexes(m, rows[..i])
    {
      assert rows[..i + 1] == rows[..i] + [rows[i]];
      IndexStep(m, rows[..i], rows[i]);
      hide Indexes;
      m := m[rows[i].fixture := rows[i]];
    }
    assert rows[..|rows|] == rows;
  }

  lemma IndexDecides(a: seq<Request>, b: seq<Request>, ma: map<string, Request>, mb: map<string, Request>)
    requires Indexes(ma, a) && Indexes(mb, b)
    ensures Covers(a, b) <==> forall name :: name in ma ==> name in mb && SameRow(ma[name], mb[name])
  {
    hide LastOf;
    if Covers(a, b) {
      forall name | name in ma ensures name in mb && SameRow(ma[name], mb[name]) {
        var i :| 0 <= i < |a| && LastOf(a, i) && a[i].fixture == name;
        var j :| 0 <= j < |b| && LastOf(b, j) && SameRow(a[i], b[j]);
      }
    }
    if forall name :: name in ma ==> name in mb && SameRow(ma[name], mb[name]) {
      forall i | 0 <= i < |a| && LastOf(a, i) ensures exists j :: 0 <= j < |b| && LastOf(b, j) && SameRow(a[i], b[j]) {
        var name := a[i].fixture;
        var j :| 0 <= j < |b| && LastOf(b, j) && b[j].fixture == name;
        assert SameRow(a[i], b[j]);
      }
    }
  }

  // assert_pair_equal: two dictionaries with equal keys, compared field by field.
  method PairEqual(first: WaveDoc, repeat: WaveDoc) returns (equal: bool)
    ensures equal <==> Agree(first, repeat)
  {
    hide Covers, Indexes;
    var a := IndexByFixture(first.result.requests);
    var b := IndexByFixture(repeat.result.requests);
    IndexDecides(first.result.requests, repeat.result.requests, a, b);
    IndexDecides(repeat.result.requests, first.result.requests, b, a);
    equal := a.Keys == b.Keys && forall name :: name in a ==>
      name in b && a[name].output == b[name].output && a[name].tokens == b[name].tokens && a[name].finish == b[name].finish;
    SameKeys(first.result.requests, repeat.result.requests, a, b);
  }

  lemma SameKeys(x: seq<Request>, y: seq<Request>, a: map<string, Request>, b: map<string, Request>)
    requires Indexes(a, x) && Indexes(b, y)
    ensures forall name :: name in a ==> a[name].fixture == name
    ensures forall name :: name in b ==> b[name].fixture == name
  {
  }

  predicate Recorded(ws: seq<Wave>, waves: map<string, WaveDoc>) {
    forall i :: 0 <= i < |ws| ==> ws[i].Path() in waves
  }

  function Docs(ws: seq<Wave>, waves: map<string, WaveDoc>): (docs: seq<WaveDoc>)
    requires Recorded(ws, waves)
    ensures |docs| == |ws| && forall i :: 0 <= i < |ws| ==> docs[i] == waves[ws[i].Path()]
  {
    seq(|ws|, i requires 0 <= i < |ws| => waves[ws[i].Path()])
  }

  predicate PairwiseEqual(docs: seq<WaveDoc>) {
    |docs| >= 2 && forall i, j :: 0 <= i < |docs| && 0 <= j < |docs| ==> Agree(docs[i], docs[j])
  }

  predicate CacheMet(mode: CacheMode, docs: seq<WaveDoc>, minimumHit: int) {
    mode != Unconstrained ==>
      && (exists i :: 0 <= i < |docs| && docs[i].result.requests != [])
      && forall i :: 0 <= i < |docs| ==> RequestsMet(mode, docs[i].result.requests, minimumHit)
  }

  predicate RequestsMet(mode: CacheMode, requests: seq<Request>, minimumHit: int) {
    forall k :: 0 <= k < |requests| ==> RequestMet(mode, requests[k], minimumHit)
  }

  predicate RequestMet(mode: CacheMode, r: Request, minimumHit: int) {
    r.cached.Some? && (mode == Miss ==> r.cached.value == 0) && (mode == Hit ==> r.cached.value >= minimumHit)
  }

  // What a passed run claims of one task: all its waves are on disk, any two of them agree if the
  // task asks for it, and each phase met its cache requirement.
  predicate Qualified(p: Plan, t: Task, waves: map<string, WaveDoc>)
    requires Warmup in p.cache && Measured in p.cache
  {
    && Recorded(TaskWaves(t), waves)
    && (t.equality ==> PairwiseEqual(Docs(TaskWaves(t), waves)))
    && forall phase :: phase in {Warmup, Measured} ==> PhaseMet(p, t, phase, waves)
  }

  predicate PhaseMet(p: Plan, t: Task, phase: Phase, waves: map<string, WaveDoc>)
    requires phase in p.cache
  {
    var ws := PhaseWaves(t, phase, Count(t, phase));
    Recorded(ws, waves) && CacheMet(p.cache[phase], Docs(ws, waves), p.minimumHit)
  }

  // Every wave is compared with the first only.
  method CompareWithFirst(docs: seq<WaveDoc>) returns (equal: bool)
    ensures equal <==> PairwiseEqual(docs)
  {
    hide Agree;
    equal := |docs| >= 2;
    if !equal { return; }
    AgreeWithItself(docs[0]);
    for i := 1 to |docs|
      invariant equal <==> forall k :: 0 <= k < i ==> Agree(docs[0], docs[k])
    {
      if equal {
        equal := PairEqual(docs[0], docs[i]);
      }
    }
    if equal {
      forall i, j | 0 <= i < |docs| && 0 <= j < |docs| ensures Agree(docs[i], docs[j]) {
        AgreeThrough(docs[i], docs[0], docs[j]);
      }
    }
  }

  lemma AgreeWithItself(a: WaveDoc)
    ensures Agree(a, a)
  {
    CoversItself(a.result.requests);
  }

  lemma AgreeThrough(a: WaveDoc, first: WaveDoc, b: WaveDoc)
    requires Agree(first, a) && Agree(first, b)
    ensures Agree(a, b)
  {
    hide Covers;
    CoversTransitive(a.result.requests, first.result.requests, b.result.requests);
    CoversTransitive(b.result.requests, first.result.requests, a.result.requests);
  }

  method EnforceCache(mode: CacheMode, docs: seq<WaveDoc>, minimumHit: int) returns (ok: bool)
    ensures ok <==> CacheMet(mode, docs, minimumHit)
  {
    if mode == Unconstrained { return true; }
    var some := false;
    ok := true;
    for i := 0 to |docs|
      invariant some <==> exists k :: 0 <= k < i && docs[k].result.requests != []
      invariant ok <==> forall k :: 0 <= k < i ==> RequestsMet(mode, docs[k].result.requests, minimumHit)
    {
      var requests := docs[i].result.requests;
      if requests != [] { some := true; }
      for k := 0 to |requests|
        invariant ok <==> && (forall n :: 0 <= n < i ==> RequestsMet(mode, docs[n].result.requests, minimumHit))
                          && (forall n :: 0 <= n < k ==> RequestMet(mode, requests[n], minimumHit))
      {
        var cached := requests[k].cached;
        if cached.None? || (mode == Miss && cached.value != 0) || (mode == Hit && cached.value < minimumHit) {
          ok := false;
        }
      }
    }
    ok := ok && some;
  }

  lemma {:induction false} OfHolds(waves: seq<Wave>, w: Wave)
    requires w in waves
    ensures w in Of(waves, w.task, w.phase)
  {
    var front := waves[..|waves| - 1];
    if w in front {
      OfHolds(front, w);
    } else {
      assert w == waves[|waves| - 1];
    }
  }

  lemma TaskHolds(p: Plan, t: Task, w: Wave)
    requires p.Ok() && t in p.tasks && w in p.expected && w.task == t.name
    ensures w in TaskWaves(t)
  {
    OfHolds(p.expected, w);
    WavesOfTask(p.tasks, t, w.phase);
  }

  lemma RecordedParts(t: Task, waves: map<string, WaveDoc>)
    ensures Recorded(TaskWaves(t), waves) <==>
      Recorded(PhaseWaves(t, Warmup, t.warmupWaves), waves) && Recorded(PhaseWaves(t, Measured, t.measuredWaves), waves)
  {
    hide Wave.Path;
    var warm, measured := PhaseWaves(t, Warmup, t.warmupWaves), PhaseWaves(t, Measured, t.measuredWaves);
    var all := warm + measured;
    if Recorded(all, waves) {
      forall i | 0 <= i < |warm| ensures warm[i].Path() in waves { assert all[i] == warm[i]; }
      forall i | 0 <= i < |measured| ensures measured[i].Path() in waves { assert all[|warm| + i] == measured[i]; }
    }
  }

  lemma PlanFacts(p: Plan)
    requires p.Ok()
    ensures NamesOk(p.tasks) && p.expected == ExpectedWaves(p.tasks)
  {
  }

  predicate DocsSoFar(seen: seq<Wave>, name: string, phase: Phase, waves: map<string, WaveDoc>, docs: seq<WaveDoc>) {
    Recorded(Of(seen, name, phase), waves) && docs == Docs(Of(seen, name, phase), waves)
  }

  lemma EmptyDocs(name: string, waves: map<string, WaveDoc>)
    ensures forall phase :: DocsSoFar([], name, phase, waves, [])
  {
  }

  lemma ReadOne(seen: seq<Wave>, w: Wave, name: string, phase: Phase, waves: map<string, WaveDoc>, docs: seq<WaveDoc>)
    requires DocsSoFar(seen, name, phase, waves, docs)
    ensures !(w.task == name && w.phase == phase) ==> DocsSoFar(seen + [w], name, phase, waves, docs)
    ensures w.task == name && w.phase == phase && w.Path() in waves ==>
      DocsSoFar(seen + [w], name, phase, waves, docs + [waves[w.Path()]])
  {
    hide Wave.Path;
    assert (seen + [w])[..|seen + [w]| - 1] == seen;
  }

  lemma MissingWave(p: Plan, t: Task, w: Wave, waves: map<string, WaveDoc>)
    requires p.Ok() && t in p.tasks && w in p.expected && w.task == t.name && w.Path() !in waves
    ensures !Recorded(TaskWaves(t), waves)
  {
    TaskHolds(p, t, w);
  }

  // The reading loop of task_results; None where a wave file is missing.
  method ReadPhases(p: Plan, t: Task, waves: map<string, WaveDoc>) returns (r: Option<(seq<WaveDoc>, seq<WaveDoc>)>)
    requires p.Ok() && t in p.tasks
    ensures r.Some? <==> Recorded(TaskWaves(t), waves)
    ensures r.Some? ==>
      && Recorded(PhaseWaves(t, Warmup, t.warmupWaves), waves)
      && Recorded(PhaseWaves(t, Measured, t.measuredWaves), waves)
      && r.value.0 == Docs(PhaseWaves(t, Warmup, t.warmupWaves), waves)
      && r.value.1 == Docs(PhaseWaves(t, Measured, t.measuredWaves), waves)
  {
    hide Wave.Path, TaskWaves, Plan.Ok, Of, Docs, Recorded;
    EmptyDocs(t.name, waves);
    var warm, measured: seq<WaveDoc> := [], [];
    for i := 0 to |p.expected|
      invariant DocsSoFar(p.expected[..i], t.name, Warmup, waves, warm)
      invariant DocsSoFar(p.expected[..i], t.name, Measured, waves, measured)
    {
      hide DocsSoFar;
      var w := p.expected[i];
      assert p.expected[..i + 1] == p.expected[..i] + [w];
      ReadOne(p.expected[..i], w, t.name, Warmup, waves, warm);
      ReadOne(p.expected[..i], w, t.name, Measured, waves, measured);
      if w.task == t.name {
        if w.Path() !in waves {
          MissingWave(p, t, w, waves);
          return None;
        }
        if w.phase == Warmup {
          warm := warm + [waves[w.Path()]];
        } else {
          measured := measured + [waves[w.Path()]];
        }
      }
    }
    assert p.expected[..|p.expected|] == p.expected;
    assert NamesOk(p.tasks) && p.expected == ExpectedWaves(p.tasks) by { PlanFacts(p); }
    WavesOfTask(p.tasks, t, Warmup);
    WavesOfTask(p.tasks, t, Measured);
    RecordedParts(t, waves);
    return Some((warm, measured));
  }

  // task_results: None where it raises, otherwise the published outputs_equal flag.
  method TaskResults(p: Plan, t: Task, waves: map<string, WaveDoc>) returns (r: Option<bool>)
    requires p.Ok() && t in p.tasks
    ensures r.Some? <==> Qualified(p, t, waves)
    ensures r.Some? ==> r.value == PairwiseEqual(Docs(TaskWaves(t), waves))
  {
    hide Wave.Path, Of, PairwiseEqual, CacheMet;
    var read := ReadPhases(p, t, waves);
    if read.None? { return None; }
    var docs := read.value.0 + read.value.1;
    assert docs == Docs(TaskWaves(t), waves);
    var equal := CompareWithFirst(docs);
    if t.equality && |docs| < 2 { assert !PairwiseEqual(docs) by { TooFew(docs); } return None; }
    if t.equality && !equal { return None; }
    var warm := EnforceCache(p.cache[Warmup], read.value.0, p.minimumHit);
    if !warm { assert !PhaseMet(p, t, Warmup, waves); return None; }
    var measured := EnforceCache(p.cache[Measured], read.value.1, p.minimumHit);
    if !measured { assert !PhaseMet(p, t, Measured, waves); return None; }
    return Some(equal);
  }

  lemma TooFew(docs: seq<WaveDoc>)
    requires |docs| < 2
    ensures !PairwiseEqual(docs)
  {
  }
}
