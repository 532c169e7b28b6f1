/** The process lifecycle of an isolated benchmark matrix (run_isolated_matrix in
    benchmarks/runtime_matrix.py) without an active placement group: which processes are
    launched and stopped around which measurements, with every guarded step free to fail. */
module MatrixRun {
  import opened Text
  import opened CellSelection

  datatype Fate = Done | FailedBefore | FailedAfter

  // What the contract's execution section selects.
  datatype Isolation = Isolation(hasContract: bool, contextIsolated: bool, shared: bool)

  predicate Selectable(mode: Isolation) { mode.contextIsolated || mode.shared ==> mode.hasContract }

  // The directory a cell's process keeps its state in.
  function StoreOf(mode: Isolation, n: CellName): string {
    if !mode.shared then n.Text() else if mode.contextIsolated then Group(n) else "matrix"
  }

  function MaterializerStore(mode: Isolation): string {
    if mode.shared && !mode.contextIsolated then "matrix" else "materialization"
  }

  // The stores of a run that has measured these cells.
  function StoresOf(mode: Isolation, selected: seq<CellName>): set<string> {
    (if mode.hasContract then {MaterializerStore(mode)} else {}) + set i | 0 <= i < |selected| :: StoreOf(mode, selected[i])
  }

  // Whether cells i and j are to be measured by one and the same process: never without sharing,
  // always in a fresh matrix, and in context isolation for a stretch of one context, where the two
  // TTFT phases are one.
  predicate OneProcess(mode: Isolation, selected: seq<CellName>, i: nat, j: nat)
    requires i <= j < |selected|
  {
    i == j || (mode.shared && (!mode.contextIsolated || forall k :: i <= k <= j ==> SameContext(selected[i], selected[k])))
  }

  predicate Launches(mode: Isolation, first: bool) { !mode.shared || (mode.contextIsolated && first) }

  // The processes a complete run launches.
  function LaunchCount(mode: Isolation, selected: seq<CellName>): nat {
    (if mode.hasContract then 1 else 0)
    + (if !mode.shared then |selected| else if mode.contextIsolated then Starts(Groups(selected)) else 0)
  }

  // A store some earlier process of the run was given.
  predicate Taken(mode: Isolation, selected: seq<CellName>, i: nat, store: string)
    requires i <= |selected|
  {
    store == MaterializerStore(mode) || exists j :: 0 <= j < i && StoreOf(mode, selected[j]) == store
  }

  // Some cell's process would be given a store that was already used.
  predicate StoreClash(mode: Isolation, selected: seq<CellName>) {
    exists i :: 0 <= i < |selected| && Launches(mode, IsFirst(Groups(selected), i))
      && Taken(mode, selected, i, StoreOf(mode, selected[i]))
  }

  class Runner {
    var live: nat          // launched processes that are running
    var stores: set<string>

    ghost var mostLive: nat
    ghost var measured: seq<nat>  // the live processes at each measurement
    ghost var measuredBy: seq<nat>  // which launch, by number, was the last one before each measurement
    ghost var launches: nat
    ghost var stopFailures: nat
    ghost var faults: nat

    constructor ()
      ensures live == 0 && stores == {} && mostLive == 0 && measured == [] && measuredBy == []
      ensures launches == 0 && stopFailures == 0 && faults == 0
    {
      live, stores, mostLive, measured, measuredBy, launches, stopFailures, faults := 0, {}, 0, [], [], 0, 0, 0;
    }

    ghost predicate Sound()
      reads this
    {
      mostLive <= 1 && live <= mostLive && stopFailures <= faults && forall i :: 0 <= i < |measured| ==> measured[i] == 1
    }

    // A step that touches no process.
    method Attempt() returns (ok: bool)
      modifies this`faults
      ensures if ok then faults == old(faults) else faults == old(faults) + 1
    {
      ok := *;
      if !ok { faults := faults + 1; }
    }

    method Launch(store: string) returns (ok: bool)
      requires live <= mostLive
      modifies this`live, this`stores, this`mostLive, this`launches, this`faults
      ensures ok ==> live == old(live) + 1 && faults == old(faults) && launches == old(launches) + 1
      ensures ok ==> stores == old(stores) + {store}
      ensures !ok ==> live in {old(live), old(live) + 1} && faults == old(faults) + 1
      ensures mostLive == if live > old(mostLive) then live else old(mostLive)
      ensures stores == old(stores) || stores == old(stores) + {store}
    {
      var fate: Fate := *;
      if fate != FailedBefore {
        live, launches, stores := live + 1, launches + 1, stores + {store};
        if live > mostLive { mostLive := live; }
      }
      if fate != Done { faults := faults + 1; }
      return fate == Done;
    }

    // Stops the container under its one name; a reported failure may still have stopped it.
    method Stop() returns (ok: bool)
      modifies this`live, this`stopFailures, this`faults
      ensures ok ==> live == 0 && stopFailures == old(stopFailures) && faults == old(faults)
      ensures !ok ==> live in {0, old(live)} && stopFailures == old(stopFailures) + 1 && faults == old(faults) + 1
    {
      var fate: Fate := *;
      if fate != FailedBefore { live := 0; }
      if fate != Done { stopFailures, faults := stopFailures + 1, faults + 1; }
      return fate == Done;
    }

    method Measure() returns (ok: bool)
      modifies this`measured, this`measuredBy, this`faults
      ensures measured == old(measured) + [live] && measuredBy == old(measuredBy) + [launches]
      ensures if ok then faults == old(faults) else faults == old(faults) + 1
    {
      measured, measuredBy := measured + [live], measuredBy + [launches];
      ok := Attempt();
    }

    // The prompt materializer: its process survives only a fresh-matrix run that goes on.
    method Materialize(mode: Isolation, selected: seq<CellName>) returns (ok: bool)
      requires live == 0 && stores == {} && Sound()
      modifies this
      ensures Sound() && measured == old(measured) && measuredBy == old(measuredBy)
      ensures ok ==> stores == {MaterializerStore(mode)}
      ensures ok ==> live == (if mode.shared && !mode.contextIsolated then 1 else 0)
      ensures ok ==>
        && faults == old(faults) && stopFailures == old(stopFailures)
        && launches == old(launches) + 1 && selected != []
      ensures !ok && stopFailures == old(stopFailures) ==> live == 0
      ensures !ok ==> faults > old(faults) || selected == []
      ensures stopFailures >= old(stopFailures)
      ensures stores <= {MaterializerStore(mode)}
    {
      var store := MaterializerStore(mode);
      var failed := false;
      var launched := Launch(store);
      if !launched {
        failed := true;
      } else {
        var written := Attempt();
        failed := !written || selected == [];
      }
      var stopped := true;
      if failed || !mode.shared || mode.contextIsolated {
        stopped := Stop();
      }
      if failed || !stopped { return false; }
      var loaded := Attempt();  // load_prompt_plan and validate_capacity
      if !loaded {
        if mode.shared && !mode.contextIsolated {
          var _ := Stop();
        }
        return false;
      }
      return true;
    }

    // One cell up to its evidence; `reached` tells whether its launch was begun.
    method MeasureCell(mode: Isolation, n: CellName, first: bool) returns (ok: bool, reached: bool)
      requires Sound() && live == if Launches(mode, first) then 0 else 1
      modifies this
      ensures Sound() && stopFailures == old(stopFailures)
      ensures ok ==>
        && live == 1 && faults == old(faults) && |measured| == |old(measured)| + 1
        && measuredBy == old(measuredBy) + [launches]
        && launches == old(launches) + (if Launches(mode, first) then 1 else 0)
        && stores == (if Launches(mode, first) then old(stores) + {StoreOf(mode, n)} else old(stores))
      ensures !ok ==> faults > old(faults) || (Launches(mode, first) && StoreOf(mode, n) in old(stores))
      ensures if reached then Launches(mode, first) else live == old(live) && (ok ==> !Launches(mode, first))
    {
      reached := false;
      var clear := Attempt();
      if !clear { return false, reached; }
      if Launches(mode, first) {
        if StoreOf(mode, n) in stores { return false, reached; }
        reached := true;
        var launched := Launch(StoreOf(mode, n));
        if !launched { return false, reached; }
        stores := stores + {StoreOf(mode, n)};
      }
      var worker := Measure();
      if !worker { return false, reached; }
      ok := Attempt();  // _collect_cell_evidence
    }

    // Every measurement sees exactly one live process, at most one is ever live, and unless
    // a stop itself fails none is left, however the run ends.
    method Run(mode: Isolation, selected: seq<CellName>) returns (ok: bool)
      requires Selectable(mode) && live == 0 && stores == {} && Sound()
      modifies this
      ensures Sound()
      ensures stopFailures == old(stopFailures) ==> live == 0
      ensures ok ==> |measured| == |old(measured)| + |selected| && launches == old(launches) + LaunchCount(mode, selected)
      ensures ok ==> live == 0 && faults == old(faults)
      ensures ok ==> stores == StoresOf(mode, selected)
      ensures ok ==> |measuredBy| == |old(measuredBy)| + |selected|
      ensures ok && (forall n :: n in selected ==> n.context in ALL_CONTEXTS) ==>
        ProcessesFollow(mode, selected, measuredBy, |old(measuredBy)|)
      ensures !ok ==> faults > old(faults) || (mode.hasContract && selected == []) || StoreClash(mode, selected)
    {
      NothingLaunched(mode, selected);
      NoStores(mode, selected);
      hide LaunchCount, StoreOf, StoresOf, OneProcess, Numbered;
      if mode.hasContract {
        var materialized := Materialize(mode, selected);
        if !materialized { return false; }
      }
      var groups := Groups(selected);
      var running := false;
      NoneNumbered(mode, selected, measuredBy, old(launches));
      for i := 0 to |selected|
        invariant Sound() && faults == old(faults) && stopFailures == old(stopFailures)
        invariant mode.shared && !mode.contextIsolated && selected != [] ==> live == if i == |selected| then 0 else 1
        invariant !mode.shared ==> live == 0
        invariant mode.shared && mode.contextIsolated ==>
          (running <==> 0 < i < |selected| && !IsFirst(groups, i)) && live == if running then 1 else 0
        invariant |measured| == |old(measured)| + i
        invariant launches == old(launches) + LaunchCount(mode, selected[..i])
        invariant stores == StoresOf(mode, selected[..i])
        invariant Numbered(mode, selected, i, measuredBy, |old(measuredBy)|, old(launches))
        invariant forall s :: s in stores ==> Taken(mode, selected, i, s)
        invariant mode.hasContract ==> selected != []
      {
        var first, last := IsFirst(groups, i), IsLast(groups, i);
        LaunchCountStep(mode, selected, i);
        StoresStep(mode, selected, i);
        ghost var numbers := measuredBy;
        var measured, reached := MeasureCell(mode, selected[i], first);
        NumberedStep(mode, selected, i, numbers, |old(measuredBy)|, old(launches));
        if mode.contextIsolated && reached { running := true; }
        var stopped := true;
        if !mode.shared || (mode.contextIsolated && running && (!measured || last))
           || (!mode.contextIsolated && (!measured || i + 1 == |selected|)) {
          stopped := Stop();
          if stopped && mode.contextIsolated { running := false; }
        }
        if !measured || !stopped { return false; }
      }
      assert selected[..|selected|] == selected;
      NumberedAll(mode, selected, measuredBy, |old(measuredBy)|, old(launches));
      return true;
    }
  }

  // Two cells are measured by one process exactly where the mode says so.
  predicate ProcessesFollow(mode: Isolation, selected: seq<CellName>, numbers: seq<nat>, base: nat)
    requires |numbers| == base + |selected|
  {
    forall m, n :: base <= m <= n < |numbers| ==> (numbers[m] == numbers[n] <==> OneProcess(mode, selected, m - base, n - base))
  }

  // The first i cells were measured after as many launches as the run makes up to each of them.
  predicate Numbered(mode: Isolation, selected: seq<CellName>, i: nat, numbers: seq<nat>, base: nat, start: nat) {
    && i <= |selected| && |numbers| == base + i
    && forall m :: base <= m < |numbers| ==> numbers[m] == start + LaunchCount(mode, selected[..m - base + 1])
  }

  lemma NoneNumbered(mode: Isolation, selected: seq<CellName>, numbers: seq<nat>, start: nat)
    ensures Numbered(mode, selected, 0, numbers, |numbers|, start)
  {
  }

  lemma NumberedStep(mode: Isolation, selected: seq<CellName>, i: nat, numbers: seq<nat>, base: nat, start: nat)
    requires i < |selected| && Numbered(mode, selected, i, numbers, base, start)
    ensures Numbered(mode, selected, i + 1, numbers + [start + LaunchCount(mode, selected[..i + 1])], base, start)
  {
    hide LaunchCount;
  }

  lemma NumberedAll(mode: Isolation, selected: seq<CellName>, numbers: seq<nat>, base: nat, start: nat)
    requires Numbered(mode, selected, |selected|, numbers, base, start)
    ensures |numbers| == base + |selected|
    ensures (forall n :: n in selected ==> n.context in ALL_CONTEXTS) ==> ProcessesFollow(mode, selected, numbers, base)
  {
    hide LaunchCount, OneProcess;
    if forall n :: n in selected ==> n.context in ALL_CONTEXTS {
      forall m, n | base <= m <= n < |numbers| ensures numbers[m] == numbers[n] <==> OneProcess(mode, selected, m - base, n - base) {
        SameLaunch(mode, selected, m - base, n - base);
      }
    }
  }

  lemma NoStores(mode: Isolation, selected: seq<CellName>)
    ensures StoresOf(mode, selected[..0]) == if mode.hasContract then {MaterializerStore(mode)} else {}
  {
  }

  lemma StoresStep(mode: Isolation, selected: seq<CellName>, i: nat)
    requires i < |selected|
    ensures StoresOf(mode, selected[..i + 1]) ==
      if Launches(mode, IsFirst(Groups(selected), i)) || i == 0 then StoresOf(mode, selected[..i]) + {StoreOf(mode, selected[i])}
      else StoresOf(mode, selected[..i])
    ensures mode.shared && !mode.contextIsolated && mode.hasContract ==> StoreOf(mode, selected[i]) in StoresOf(mode, selected[..i])
  {
    var before, after := selected[..i], selected[..i + 1];
    assert after == before + [selected[i]];
    forall x | x in StoresOf(mode, after) ensures x in StoresOf(mode, before) + {StoreOf(mode, selected[i])} {
      if k :| 0 <= k < |after| && StoreOf(mode, after[k]) == x {
        if k < i { assert before[k] == after[k]; }
      }
    }
    forall x | x in StoresOf(mode, before) ensures x in StoresOf(mode, after) {
      if k :| 0 <= k < |before| && StoreOf(mode, before[k]) == x { assert after[k] == before[k]; }
    }
    assert StoreOf(mode, after[i]) in StoresOf(mode, after);
    if i > 0 && mode.shared && !Launches(mode, IsFirst(Groups(selected), i)) {
      assert StoreOf(mode, selected[i]) == StoreOf(mode, before[i - 1]);
    }
  }

  // No launch lies between two cells exactly when one process measures both.
  lemma {:induction false} SameLaunch(mode: Isolation, selected: seq<CellName>, i: nat, j: nat)
    requires i <= j < |selected| && forall n :: n in selected ==> n.context in ALL_CONTEXTS
    ensures LaunchCount(mode, selected[..i + 1]) <= LaunchCount(mode, selected[..j + 1])
    ensures LaunchCount(mode, selected[..i + 1]) == LaunchCount(mode, selected[..j + 1]) <==> OneProcess(mode, selected, i, j)
    decreases j
  {
    hide LaunchCount, SameContext, Group;
    if i < j {
      SameLaunch(mode, selected, i, j - 1);
      LaunchCountStep(mode, selected, j);
      assert selected[i] in selected && selected[j - 1] in selected && selected[j] in selected;
      GroupIsContext(selected[j - 1], selected[j]);
      GroupIsContext(selected[i], selected[j - 1]);
      GroupIsContext(selected[i], selected[j]);
      GroupIsContext(selected[i], selected[i]);
    } else {
      GroupIsContext(selected[i], selected[i]);
    }
  }

  // The two TTFT phases on their own: one process beside the materializer's, and one store.
  lemma TtftPhasesShareAProcess()
    ensures var mode, pair := Isolation(true, true, true), [CellName("ttftcold", "code", 1), CellName("ttftwarm", "code", 1)];
      LaunchCount(mode, pair) == 2 && StoresOf(mode, pair) == {"materialization", "ttft"} && OneProcess(mode, pair, 0, 1)
  {
    var mode, cold, warm := Isolation(true, true, true), CellName("ttftcold", "code", 1), CellName("ttftwarm", "code", 1);
    var pair := [cold, warm];
    NothingLaunched(mode, pair);
    LaunchCountStep(mode, pair, 0);
    LaunchCountStep(mode, pair, 1);
    assert pair[..2] == pair;
    assert StoreOf(mode, pair[0]) == "ttft" && StoreOf(mode, pair[1]) == "ttft";
    assert "ttft" in StoresOf(mode, pair);
    hide LaunchCount;
  }

  lemma NothingLaunched(mode: Isolation, selected: seq<CellName>)
    ensures LaunchCount(mode, selected[..0]) == if mode.hasContract then 1 else 0
  {
    assert Groups(selected[..0]) == [];
  }

  lemma LaunchCountStep(mode: Isolation, selected: seq<CellName>, i: nat)
    requires i < |selected|
    ensures LaunchCount(mode, selected[..i + 1])
         == LaunchCount(mode, selected[..i]) + if Launches(mode, IsFirst(Groups(selected), i)) then 1 else 0
  {
    var before, after := Groups(selected[..i]), Groups(selected[..i + 1]);
    assert after[..i] == before;
    assert IsFirst(after, i) == IsFirst(Groups(selected), i);
  }

  // With standard contexts, distinct cells and every isolation group in one block, as
  // context-first selection gives them, no store is ever asked for twice.
  lemma SelectedStoresAreFresh(mode: Isolation, selected: seq<CellName>)
    requires forall n :: n in selected ==> n.context in ALL_CONTEXTS && n.domain in DOMAINS
    requires CellSelection.Distinct(selected) && Contiguous(Groups(selected))
    ensures !StoreClash(mode, selected)
  {
    hide Contiguous, IsFirst;
    forall i | 0 <= i < |selected| && Launches(mode, IsFirst(Groups(selected), i))
      ensures !Taken(mode, selected, i, StoreOf(mode, selected[i]))
    {
      assert selected[i] in selected;
      if mode.shared {
        FreshGroup(selected, i);
      } else {
        forall j | 0 <= j < i ensures selected[j].Text() != selected[i].Text() {
          assert selected[j] in selected;
          TextsDiffer(selected[j], selected[i]);
        }
        TextsDiffer(selected[i], CellName("short", "code", selected[i].concurrency + 1));
      }
    }
  }

  lemma FreshGroup(selected: seq<CellName>, i: nat)
    requires i < |selected| && selected[i].context in ALL_CONTEXTS
    requires Contiguous(Groups(selected)) && IsFirst(Groups(selected), i)
    ensures Group(selected[i]) != "materialization"
    ensures forall j :: 0 <= j < i ==> Group(selected[j]) != Group(selected[i])
  {
    FirstIsNew(Groups(selected), i);
    forall j | 0 <= j < i ensures Group(selected[j]) != Group(selected[i]) {
      assert Groups(selected)[..i][j] == Group(selected[j]);
    }
  }

  lemma TextsDiffer(a: CellName, b: CellName)
    requires a != b
    requires a.context in ALL_CONTEXTS && a.domain in DOMAINS && b.context in ALL_CONTEXTS && b.domain in DOMAINS
    ensures a.Text() != b.Text() && a.Text() != "materialization"
  {
    hide Split, Join, Numeral;
    NameParts(a);
    NameParts(b);
    NumeralValue(a.concurrency);
    NumeralValue(b.concurrency);
    var x, y := Numeral(a.concurrency), Numeral(b.concurrency);
    assert ("c" + x)[1..] == x && ("c" + y)[1..] == y;
    assert a.Text()[|a.context|] == '-';
    assert '-' !in "materialization";
  }
}
