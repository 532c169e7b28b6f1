/** The waves a load plan expects (expected_waves in benchmarks/openai_load.py) and the
    evidence paths that name them. */
module LoadPlan {
  import opened Text

  datatype Phase = Warmup | Measured {
    function Text(): string { if Warmup? then "warmup" else "measured" }
  }

  datatype Task = Task(name: string, cell: string, warmupWaves: nat, measuredWaves: nat, streams: nat, equality: bool)

  datatype Wave = Wave(task: string, cell: string, streams: nat, phase: Phase, index: nat) {
    // waves/{task}/{phase}-{index:04d}.json
    function Path(): string { "waves/" + task + "/" + Tail() }
    function Tail(): string { phase.Text() + "-" + Padded(index, 4) + ".json" }
  }

  // ---------------------------------------------------------------- expected waves

  function PhaseWaves(t: Task, phase: Phase, count: nat): (ws: seq<Wave>)
    ensures |ws| == count
    ensures forall i :: 0 <= i < count ==> ws[i] == Wave(t.name, t.cell, t.streams, phase, i + 1)
  {
    seq(count, (i: nat) => Wave(t.name, t.cell, t.streams, phase, i + 1))
  }

  function TaskWaves(t: Task): seq<Wave> {
    PhaseWaves(t, Warmup, t.warmupWaves) + PhaseWaves(t, Measured, t.measuredWaves)
  }

  function ExpectedWaves(tasks: seq<Task>): seq<Wave> {
    if tasks == [] then [] else TaskWaves(tasks[0]) + ExpectedWaves(tasks[1..])
  }

  // The order of the run: task by task as the plan lists them, the warmup waves of a task before its
  // measured ones, and each phase by index.
  predicate Precedes(tasks: seq<Task>, a: Wave, b: Wave) {
    exists p, q :: 0 <= p <= q < |tasks| && tasks[p].name == a.task && tasks[q].name == b.task
      && (p == q ==> (a.phase == Warmup && b.phase == Measured) || (a.phase == b.phase && a.index < b.index))
  }

  predicate InPlanOrder(tasks: seq<Task>, waves: seq<Wave>) {
    forall i, j :: 0 <= i < j < |waves| ==> Precedes(tasks, waves[i], waves[j])
  }

  lemma {:induction false} ExpectedInOrder(tasks: seq<Task>)
    ensures InPlanOrder(tasks, ExpectedWaves(tasks))
  {
    if tasks != [] {
      var head, rest := TaskWaves(tasks[0]), ExpectedWaves(tasks[1..]);
      ExpectedInOrder(tasks[1..]);
      forall i, j | 0 <= i < j < |head + rest| ensures Precedes(tasks, (head + rest)[i], (head + rest)[j]) {
        var a, b := (head + rest)[i], (head + rest)[j];
        if j < |head| {
          assert tasks[0].name == a.task == b.task;
        } else if i < |head| {
          assert b in rest;
          ExpectedAreDeclared(tasks[1..], b);
          var t :| t in tasks[1..] && b.task == t.name;
          var q :| 0 <= q < |tasks[1..]| && tasks[1..][q] == t;
          assert tasks[0].name == a.task && tasks[q + 1].name == b.task;
        } else {
          assert a == rest[i - |head|] && b == rest[j - |head|];
          LaterPrecedes(tasks, a, b);
        }
      }
    }
  }

  lemma LaterPrecedes(tasks: seq<Task>, a: Wave, b: Wave)
    requires tasks != [] && Precedes(tasks[1..], a, b)
    ensures Precedes(tasks, a, b)
  {
    var rest := tasks[1..];
    var p, q :| 0 <= p <= q < |rest| && rest[p].name == a.task && rest[q].name == b.task
      && (p == q ==> (a.phase == Warmup && b.phase == Measured) || (a.phase == b.phase && a.index < b.index));
    assert tasks[p + 1].name == a.task && tasks[q + 1].name == b.task;
  }

  // expected_waves: exactly the declared waves, in the order of the run.
  method BuildExpectedWaves(tasks: seq<Task>) returns (waves: seq<Wave>)
    ensures waves == ExpectedWaves(tasks)
    ensures forall w :: w in waves <==> Declared(tasks, w)
    ensures InPlanOrder(tasks, waves)
  {
    ExpectedInOrder(tasks);
    forall w: Wave { ExpectedAreDeclared(tasks, w); }
    hide InPlanOrder, Declared;
    waves := [];
    for n := 0 to |tasks|
      invariant waves + ExpectedWaves(tasks[n..]) == ExpectedWaves(tasks)
    {
      var t := tasks[n];
      ghost var before := waves;
      for index := 1 to t.warmupWaves + 1
        invariant waves == before + PhaseWaves(t, Warmup, index - 1)
      {
        waves := waves + [Wave(t.name, t.cell, t.streams, Warmup, index)];
      }
      for index := 1 to t.measuredWaves + 1
        invariant waves == before + PhaseWaves(t, Warmup, t.warmupWaves) + PhaseWaves(t, Measured, index - 1)
      {
        waves := waves + [Wave(t.name, t.cell, t.streams, Measured, index)];
      }
      assert tasks[n..][1..] == tasks[n + 1..];
      assert waves == before + TaskWaves(t);
    }
  }

  // A wave is expected exactly when a task of the plan declares it.
  predicate Declared(tasks: seq<Task>, w: Wave) {
    exists t :: t in tasks && w.task == t.name && w.cell == t.cell && w.streams == t.streams
      && 1 <= w.index <= if w.phase == Warmup then t.warmupWaves else t.measuredWaves
  }

  lemma {:induction false} ExpectedAreDeclared(tasks: seq<Task>, w: Wave)
    ensures w in ExpectedWaves(tasks) <==> Declared(tasks, w)
  {
    if tasks != [] {
      ExpectedAreDeclared(tasks[1..], w);
      TaskWavesAre(tasks[0], w);
      assert forall t :: t in tasks <==> t == tasks[0] || t in tasks[1..];
    }
  }

  lemma TaskWavesAre(t: Task, w: Wave)
    ensures w in TaskWaves(t) <==>
      && w.task == t.name && w.cell == t.cell && w.streams == t.streams
      && 1 <= w.index <= if w.phase == Warmup then t.warmupWaves else t.measuredWaves
  {
    if w.task == t.name && w.cell == t.cell && w.streams == t.streams {
      var count := if w.phase == Warmup then t.warmupWaves else t.measuredWaves;
      if 1 <= w.index <= count {
        assert PhaseWaves(t, w.phase, count)[w.index - 1] == w;
      }
    }
  }

  // ---------------------------------------------------------------- paths

  predicate SafeName(name: string) { '/' !in name }

  lemma PathsDiffer(a: Wave, b: Wave)
    requires SafeName(a.task) && SafeName(b.task) && a.Path() == b.Path()
    ensures a.task == b.task && a.phase == b.phase && a.index == b.index
  {
    TailsDiffer(a, b);
    var x, y := a.task + ['/'] + a.Tail(), b.task + ['/'] + b.Tail();
    hide IndexOf;
    assert x == y by { StripDirectory(a); StripDirectory(b); }
    IndexAfterPrefix(a.task, '/', a.Tail());
    IndexAfterPrefix(b.task, '/', b.Tail());
    assert a.task == x[..|a.task|] && b.task == y[..|b.task|];
    assert a.Tail() == x[|a.task| + 1..] && b.Tail() == y[|b.task| + 1..];
  }

  lemma StripDirectory(w: Wave)
    ensures w.Path()[6..] == w.task + ['/'] + w.Tail()
  {
  }

  lemma TailsDiffer(a: Wave, b: Wave)
    ensures a.Tail() == b.Tail() ==> a.phase == b.phase && a.index == b.index
  {
    if a.Tail() == b.Tail() {
      assert a.Tail()[0] == a.phase.Text()[0] && b.Tail()[0] == b.phase.Text()[0];
      var head := a.phase.Text() + "-";
      assert a.Tail()[|head|..|a.Tail()| - 5] == Padded(a.index, 4);
      assert b.Tail()[|head|..|b.Tail()| - 5] == Padded(b.index, 4);
      PaddedInjective(a.index, b.index, 4);
    }
  }

  // ---------------------------------------------------------------- the plan of one run

  function Of(waves: seq<Wave>, name: string, phase: Phase): seq<Wave> {
    if waves == [] then []
    else
      var rest := Of(waves[..|waves| - 1], name, phase);
      var last := waves[|waves| - 1];
      if last.task == name && last.phase == phase then rest + [last] else rest
  }

  // The dictionary from relative path to wave; a later wave would replace an earlier one.
  function ByPath(waves: seq<Wave>): (m: map<string, Wave>)
    ensures forall p :: p in m ==> m[p] in waves && m[p].Path() == p
    ensures forall w :: w in waves ==> w.Path() in m
  {
    if waves == [] then map[]
    else
      var last := waves[|waves| - 1];
      assert waves == waves[..|waves| - 1] + [last];
      ByPath(waves[..|waves| - 1])[last.Path() := last]
  }

  // load_plan admits only distinct names over lower-case letters, digits and '-', so none holds a '/'.
  predicate NamesOk(tasks: seq<Task>) {
    && (forall t :: t in tasks ==> SafeName(t.name))
    && (forall i, j :: 0 <= i < j < |tasks| ==> tasks[i].name != tasks[j].name)
  }

  lemma SamePathSameWave(tasks: seq<Task>, a: Wave, b: Wave)
    requires NamesOk(tasks) && a in ExpectedWaves(tasks) && b in ExpectedWaves(tasks) && a.Path() == b.Path()
    ensures a == b
  {
    ExpectedAreDeclared(tasks, a);
    ExpectedAreDeclared(tasks, b);
    PathsDiffer(a, b);
  }

  // No two expected waves share a file, so the dictionary loses none of them.
  lemma DictionaryIsExact(tasks: seq<Task>, w: Wave)
    requires NamesOk(tasks) && w in ExpectedWaves(tasks)
    ensures ByPath(ExpectedWaves(tasks))[w.Path()] == w
  {
    SamePathSameWave(tasks, w, ByPath(ExpectedWaves(tasks))[w.Path()]);
  }

  lemma {:induction false} OfAppend(a: seq<Wave>, b: seq<Wave>, name: string, phase: Phase)
    ensures Of(a + b, name, phase) == Of(a, name, phase) + Of(b, name, phase)
  {
    if b == [] {
      assert a + b == a;
    } else {
      var front := b[..|b| - 1];
      OfAppend(a, front, name, phase);
      assert (a + b)[..|a + b| - 1] == a + front;
      assert (a + b)[|a + b| - 1] == b[|b| - 1];
    }
  }

  lemma {:induction false} OfPhase(t: Task, of: Phase, count: nat, name: string, phase: Phase)
    ensures Of(PhaseWaves(t, of, count), name, phase) ==
            if t.name == name && of == phase then PhaseWaves(t, of, count) else []
  {
    if count > 0 {
      OfPhase(t, of, count - 1, name, phase);
      assert PhaseWaves(t, of, count)[..count - 1] == PhaseWaves(t, of, count - 1);
      assert PhaseWaves(t, of, count) == PhaseWaves(t, of, count - 1) + [Wave(t.name, t.cell, t.streams, of, count)];
    }
  }

  function Count(t: Task, phase: Phase): nat { if phase == Warmup then t.warmupWaves else t.measuredWaves }

  lemma OfTask(t: Task, name: string, phase: Phase)
    ensures Of(TaskWaves(t), name, phase) == if t.name == name then PhaseWaves(t, phase, Count(t, phase)) else []
  {
    OfAppend(PhaseWaves(t, Warmup, t.warmupWaves), PhaseWaves(t, Measured, t.measuredWaves), name, phase);
    OfPhase(t, Warmup, t.warmupWaves, name, phase);
    OfPhase(t, Measured, t.measuredWaves, name, phase);
  }

  // The expected waves of one task and phase are exactly that task's own, in index order.
  lemma {:induction false} WavesOfTask(tasks: seq<Task>, t: Task, phase: Phase)
    requires NamesOk(tasks)
    ensures t in tasks ==> Of(ExpectedWaves(tasks), t.name, phase) == PhaseWaves(t, phase, Count(t, phase))
    ensures (forall u :: u in tasks ==> u.name != t.name) ==> Of(ExpectedWaves(tasks), t.name, phase) == []
  {
    if tasks != [] {
      var head := tasks[0];
      WavesOfTask(tasks[1..], t, phase);
      OfAppend(TaskWaves(head), ExpectedWaves(tasks[1..]), t.name, phase);
      OfTask(head, t.name, phase);
      hide Of, PhaseWaves, TaskWaves, SafeName;
      assert forall u :: u in tasks <==> u == head || u in tasks[1..];
      assert head in tasks;
    }
  }

  // ---------------------------------------------------------------- waves still to collect

  // The waves that have no file yet, in the order given.
  function Missing(waves: seq<Wave>, have: set<string>): seq<Wave> {
    if waves == [] then []
    else
      var front, last := Missing(waves[..|waves| - 1], have), waves[|waves| - 1];
      if last.Path() in have then front else front + [last]
  }

  lemma {:induction false} MissingAt(waves: seq<Wave>, have: set<string>, k: nat) returns (i: nat)
    requires k < |Missing(waves, have)|
    ensures i < |waves| && waves[i] == Missing(waves, have)[k] && waves[i].Path() !in have
    ensures k == |Missing(waves[..i], have)|
    decreases |waves|
  {
    hide Wave.Path;
    var front := waves[..|waves| - 1];
    if k < |Missing(front, have)| {
      i := MissingAt(front, have, k);
      assert front[..i] == waves[..i];
    } else {
      i := |waves| - 1;
    }
  }

  lemma {:induction false} MissingHolds(waves: seq<Wave>, have: set<string>, w: Wave)
    ensures w in Missing(waves, have) <==> w in waves && w.Path() !in have
  {
    hide Wave.Path;
    if waves != [] {
      var front := waves[..|waves| - 1];
      MissingHolds(front, have, w);
      assert waves == front + [waves[|waves| - 1]];
    }
  }

  lemma {:induction false} MissingGrows(waves: seq<Wave>, have: set<string>, i: nat, j: nat)
    requires i <= j <= |waves|
    ensures Missing(waves[..i], have) <= Missing(waves[..j], have)
    decreases j
  {
    hide Wave.Path;
    if i < j {
      MissingGrows(waves, have, i, j - 1);
      assert waves[..j][..j - 1] == waves[..j - 1];
    }
  }

  // What is still to collect is exactly the declared waves without a file, in the order of the run.
  lemma MissingInOrder(tasks: seq<Task>, have: set<string>)
    ensures InPlanOrder(tasks, Missing(ExpectedWaves(tasks), have))
    ensures forall w :: w in Missing(ExpectedWaves(tasks), have) <==> Declared(tasks, w) && w.Path() !in have
  {
    hide Wave.Path, Precedes, Declared;
    var all := ExpectedWaves(tasks);
    var ws := Missing(all, have);
    ExpectedInOrder(tasks);
    forall a, b | 0 <= a < b < |ws| ensures Precedes(tasks, ws[a], ws[b]) {
      var i := MissingAt(all, have, a);
      var j := MissingAt(all, have, b);
      if j <= i {
        MissingGrows(all, have, j, i);
        assert false;
      }
    }
    forall w: Wave ensures w in ws <==> Declared(tasks, w) && w.Path() !in have {
      MissingHolds(all, have, w);
      ExpectedAreDeclared(tasks, w);
    }
  }
}
