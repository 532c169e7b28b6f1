/** The benchmark contract and the cells it declares, as the prompt generator
    (benchmarks/prompt_generator.py) and the matrix runner (benchmarks/runtime_matrix.py)
    each enumerate them. */
module PromptContract {
  import opened Text
  import opened CellSelection

  datatype Request = Request(output: int, minimum: int, naturalStop: bool, temperature: real, seed: int)
  datatype Case = Case(id: string, tokens: int, concurrencies: seq<nat>)
  datatype ShortWorkload = ShortWorkload(tokens: int, concurrencies: seq<nat>, domains: seq<string>, request: Request)
  datatype TtftCache = TtftCache(tokens: int, domain: string, request: Request)
  datatype Contract = Contract(
    schema: nat, request: Request, domains: seq<string>, cases: seq<Case>,
    short: Option<ShortWorkload>, ttft: Option<TtftCache>, interval: int)

  const SHORT: string := "short"
  const COLD: string := "ttftcold"
  const WARM: string := "ttftwarm"
  const CONTEXTS: seq<string> := ["32k", "64k", "128k", "256k"]

  // ---------------------------------------------------------------- accepted contracts

  predicate RequestValid(r: Request) {
    r.output > 0 && r.minimum > 0 && r.minimum <= r.output && r.temperature >= 0.0 && r.seed >= 0
  }

  // A non-empty ordered subset of the domains.
  predicate DomainsValid(ds: seq<string>) { ds == ["code"] || ds == ["prose"] || ds == ["code", "prose"] }

  // The case ids are a non-empty ordered subset of the long contexts.
  predicate CasesInOrder(cases: seq<Case>) {
    && cases != []
    && (forall i :: 0 <= i < |cases| ==> cases[i].id in CONTEXTS)
    && (forall i, j :: 0 <= i < j < |cases| ==> Rank(cases[i].id) < Rank(cases[j].id))
  }

  predicate ConcurrenciesValid(s: seq<nat>) {
    && s != []
    && (forall i :: 0 <= i < |s| ==> s[i] in CONCURRENCIES)
    && (forall i, j :: 0 <= i < j < |s| ==> s[i] < s[j])
  }

  // What validate_benchmark_contract and load_benchmark_contract together enforce.
  predicate Accepted(c: Contract) {
    && 2 <= c.schema <= 8
    && RequestValid(c.request)
    && DomainsValid(c.domains)
    && (c.schema == 2 ==> c.domains == DOMAINS)
    && CasesInOrder(c.cases)
    && (forall i :: 0 <= i < |c.cases| ==>
          && c.cases[i].tokens > 0
          && ConcurrenciesValid(c.cases[i].concurrencies)
          && c.cases[i].concurrencies == c.cases[0].concurrencies)
    && (c.short.Some? <==> c.schema >= 5)
    && (c.short.Some? ==> ShortValid(c.schema, c.short.value))
    && (c.ttft.Some? <==> c.schema >= 7)
    && (c.ttft.Some? ==> TtftValid(c.ttft.value))
    && 1 <= c.interval <= 60
  }

  // A schema-5 contract has no concurrencies field and means [1].
  predicate ShortValid(schema: nat, s: ShortWorkload) {
    && s.domains == DOMAINS && s.tokens > 0 && RequestValid(s.request)
    && s.concurrencies == if schema == 5 then [1] else [1, 2, 4]
  }

  predicate TtftValid(t: TtftCache) {
    && t.tokens == 64000 && t.domain == "code" && RequestValid(t.request)
    && t.request.output == 1 && t.request.minimum == 1 && !t.request.naturalStop && t.request.temperature == 0.0
  }

  // ---------------------------------------------------------------- workloads of cells

  datatype Kind = Short | Long | Ttft
  datatype Workload = Workload(
    id: string, tokens: int, concurrencies: seq<nat>, domains: seq<string>, request: Request, kind: Kind)

  function ShortCells(s: ShortWorkload): Workload {
    Workload(SHORT, s.tokens, s.concurrencies, s.domains, s.request, Short)
  }

  function ShortWorkloads(c: Contract): seq<Workload> {
    if c.short.None? then [] else [ShortCells(c.short.value)]
  }

  function CaseCells(c: Contract, k: Case): Workload {
    Workload(k.id, k.tokens, k.concurrencies, c.domains, c.request, Long)
  }

  function CaseWorkloads(c: Contract): (gs: seq<Workload>)
    ensures |gs| == |c.cases| && forall i :: 0 <= i < |gs| ==> gs[i] == CaseCells(c, c.cases[i])
  {
    seq(|c.cases|, i requires 0 <= i < |c.cases| => CaseCells(c, c.cases[i]))
  }

  function TtftCells(t: TtftCache, phase: string): Workload { Workload(phase, t.tokens, [1], [t.domain], t.request, Ttft) }

  function TtftWorkloads(c: Contract): seq<Workload> {
    if c.ttft.None? then [] else [TtftCells(c.ttft.value, COLD), TtftCells(c.ttft.value, WARM)]
  }

  // The order in which prompts are materialized.
  function Workloads(c: Contract): seq<Workload> { ShortWorkloads(c) + CaseWorkloads(c) + TtftWorkloads(c) }

  predicate WorkloadValid(g: Workload) {
    && g.id in ALL_CONTEXTS && g.tokens > 0 && RequestValid(g.request)
    && ConcurrenciesValid(g.concurrencies)
    && (g.kind == Short <==> g.id == "short") && (g.kind == Ttft <==> IsTtft(g.id))
    && (g.kind == Short ==> forall n :: n in g.concurrencies ==> n in [1, 2, 4])
    && Distinct(g.domains) && (forall d :: d in g.domains ==> d in DOMAINS)
    && (g.kind == Ttft ==> g.tokens == 64000 && g.request.output == 1 && g.domains == ["code"] && g.concurrencies == [1])
  }

  predicate WorkloadsValid(gs: seq<Workload>) {
    && (forall i :: 0 <= i < |gs| ==> WorkloadValid(gs[i]))
    && (forall i, j :: 0 <= i < j < |gs| ==> Rank(gs[i].id) < Rank(gs[j].id))
  }

  lemma Ranks()
    ensures forall i, j :: 0 <= i < j < |CONTEXTS| ==> Rank(CONTEXTS[i]) < Rank(CONTEXTS[j])
    ensures forall id :: id in CONTEXTS ==> 1 <= Rank(id) <= 4 && id in ALL_CONTEXTS && id != "short" && !IsTtft(id)
    ensures Rank("short") == 0 && Rank("ttftcold") == 5 && Rank("ttftwarm") == 6
  {
  }

  lemma CaseOrder(c: Contract)
    requires Accepted(c)
    ensures forall i :: 0 <= i < |c.cases| ==> c.cases[i].id in CONTEXTS
    ensures forall i, j :: 0 <= i < j < |c.cases| ==> Rank(c.cases[i].id) < Rank(c.cases[j].id)
  {
    hide Rank;
  }

  lemma DomainsDistinct(c: Contract)
    requires Accepted(c)
    ensures Distinct(c.domains) && forall d :: d in c.domains ==> d in DOMAINS
  {
    hide ConcurrenciesValid, RequestValid, ShortValid, TtftValid, CasesInOrder;
  }

  lemma ShortWorkloadValid(c: Contract)
    requires Accepted(c) && c.short.Some?
    ensures WorkloadValid(ShortWorkloads(c)[0])
  {
    hide Rank, TtftValid;
  }

  lemma CaseWorkloadValid(c: Contract, i: nat)
    requires Accepted(c) && i < |c.cases|
    ensures WorkloadValid(CaseCells(c, c.cases[i]))
  {
    CaseOrder(c);
    DomainsDistinct(c);
    Ranks();
    hide Rank, TtftValid, ShortValid, ConcurrenciesValid, Distinct, IsTtft;
  }

  lemma TtftWorkloadValid(c: Contract, phase: string)
    requires Accepted(c) && c.ttft.Some? && IsTtft(phase)
    ensures WorkloadValid(TtftCells(c.ttft.value, phase))
  {
    hide Rank, ShortValid;
  }

  lemma WorkloadIsValid(c: Contract, i: nat)
    requires Accepted(c) && i < |Workloads(c)|
    ensures WorkloadValid(Workloads(c)[i])
  {
    hide WorkloadValid, Accepted, Rank;
    var g := Workloads(c)[i];
    if i < |ShortWorkloads(c)| {
      ShortWorkloadValid(c);
    } else if i < |ShortWorkloads(c)| + |CaseWorkloads(c)| {
      assert g == CaseCells(c, c.cases[i - |ShortWorkloads(c)|]);
      CaseWorkloadValid(c, i - |ShortWorkloads(c)|);
    } else {
      assert g == TtftWorkloads(c)[i - |ShortWorkloads(c)| - |CaseWorkloads(c)|];
      TtftWorkloadValid(c, g.id);
    }
  }

  lemma WorkloadsAreValid(c: Contract)
    requires Accepted(c)
    ensures WorkloadsValid(Workloads(c))
  {
    hide WorkloadValid, Accepted, Workloads;
    WorkloadsInOrder(c);
    forall i | 0 <= i < |Workloads(c)| ensures WorkloadValid(Workloads(c)[i]) {
      WorkloadIsValid(c, i);
    }
  }

  lemma WorkloadsInOrder(c: Contract)
    requires Accepted(c)
    ensures forall i, j :: 0 <= i < j < |Workloads(c)| ==> Rank(Workloads(c)[i].id) < Rank(Workloads(c)[j].id)
  {
    hide Accepted, Rank;
    CaseOrder(c);
    Ranks();
  }

  // ---------------------------------------------------------------- cells

  datatype Cell = Cell(domain: string, tokens: int, concurrency: nat, maxTokens: int)

  predicate Offers(g: Workload, name: CellName) {
    name.context == g.id && name.domain in g.domains && name.concurrency in g.concurrencies
  }

  function CellOf(g: Workload, name: CellName): Cell { Cell(name.domain, g.tokens, name.concurrency, g.request.output) }

  // Exactly the cells the workloads declare, each with its own workload's target and budget.
  predicate CellsOf(gs: set<Workload>, cells: map<CellName, Cell>) {
    && (forall name :: name in cells ==> exists g :: g in gs && Offers(g, name))
    && (forall g, name :: g in gs && name in cells && Offers(g, name) ==> cells[name] == CellOf(g, name))
    && (forall g :: g in gs ==> AllIn(g, cells.Keys))
  }

  predicate AllIn(g: Workload, names: set<CellName>) {
    forall d, n :: d in g.domains && n in g.concurrencies ==> CellName(g.id, d, n) in names
  }

  method AddCells(ghost done: set<Workload>, cells: map<CellName, Cell>, g: Workload) returns (out: map<CellName, Cell>)
    requires CellsOf(done, cells) && forall h :: h in done ==> h.id != g.id
    ensures CellsOf(done + {g}, out)
  {
    hide CellsOf;
    out := cells;
    for i := 0 to |g.concurrencies|
      invariant forall name :: name in out <==> name in cells || (Offers(g, name) && name.concurrency in g.concurrencies[..i])
      invariant forall name :: name in out ==>
        out[name] == if Offers(g, name) && name.concurrency in g.concurrencies[..i] then CellOf(g, name) else cells[name]
    {
      var n := g.concurrencies[i];
      assert g.concurrencies[..i + 1] == g.concurrencies[..i] + [n];
      ghost var before := out;
      for k := 0 to |g.domains|
        invariant forall name :: name in out <==> name in before || Added(g, n, k, name)
        invariant forall name :: name in out ==> out[name] == if Added(g, n, k, name) then CellOf(g, name) else before[name]
      {
        var d := g.domains[k];
        assert g.domains[..k + 1] == g.domains[..k] + [d];
        out := out[CellName(g.id, d, n) := Cell(d, g.tokens, n, g.request.output)];
      }
      assert g.domains[..|g.domains|] == g.domains;
    }
    assert g.concurrencies[..|g.concurrencies|] == g.concurrencies;
    CellsGrow(done, g, cells, out);
  }

  predicate Added(g: Workload, n: nat, k: nat, name: CellName)
    requires k <= |g.domains|
  {
    name.context == g.id && name.concurrency == n && name.domain in g.domains[..k]
  }

  lemma SameWorkload(gs: seq<Workload>, a: Workload, b: Workload)
    requires WorkloadsValid(gs) && a in gs && b in gs && a.id == b.id
    ensures a == b
  {
    hide WorkloadValid, Rank;
    var i :| 0 <= i < |gs| && gs[i] == a;
    var j :| 0 <= j < |gs| && gs[j] == b;
    if i < j { assert Rank(gs[i].id) < Rank(gs[j].id); } else if j < i { assert Rank(gs[j].id) < Rank(gs[i].id); }
  }

  lemma CellsGrow(gs: set<Workload>, g: Workload, cells: map<CellName, Cell>, out: map<CellName, Cell>)
    requires CellsOf(gs, cells) && forall h :: h in gs ==> h.id != g.id
    requires forall name :: name in out <==> name in cells || Offers(g, name)
    requires forall name :: name in out ==> out[name] == if Offers(g, name) then CellOf(g, name) else cells[name]
    ensures CellsOf(gs + {g}, out)
  {
    forall d, n | d in g.domains && n in g.concurrencies ensures CellName(g.id, d, n) in out {
      assert Offers(g, CellName(g.id, d, n));
    }
  }

  lemma SchemaFields(c: Contract)
    requires Accepted(c)
    ensures c.short.Some? <==> c.schema in {5, 6, 7, 8}
    ensures c.ttft.Some? <==> c.schema in {7, 8}
  {
  }

  // The generator's enumeration: short, then the TTFT phases, then the cases, by schema number.
  method GeneratorCells(c: Contract) returns (cells: map<CellName, Cell>)
    requires Accepted(c)
    ensures CellsOf((set g | g in Workloads(c)), cells)
    ensures MatchesContract(c, cells)
  {
    hide *;
    SchemaFields(c);
    WorkloadNeighbours(c);
    EmptyCells();
    cells := map[];
    ghost var done: set<Workload> := {};
    if c.schema in {5, 6, 7, 8} {
      var g := ShortCells(c.short.value);
      cells := AddCells(done, cells, g);
      done := done + {g};
    }
    if c.schema in {7, 8} {
      var cold, warm := TtftCells(c.ttft.value, COLD), TtftCells(c.ttft.value, WARM);
      WorkloadIds(c);
      cells := AddCells(done, cells, cold);
      done := done + {cold};
      cells := AddCells(done, cells, warm);
      done := done + {warm};
    }
    ghost var others := done;
    assert forall g :: g in others ==> g.id in {SHORT, COLD, WARM} by { WorkloadIds(c); }
    for i := 0 to |c.cases|
      invariant done == others + set k | 0 <= k < i :: CaseCells(c, c.cases[k])
      invariant CellsOf(done, cells)
    {
      var g := CaseCells(c, c.cases[i]);
      CaseIds(c);
      cells := AddCells(done, cells, g);
      done := done + {g};
    }
    AllWorkloads(c, done);
    CellsMatchContract(c, cells);
  }

  lemma WorkloadIds(c: Contract)
    ensures forall s: ShortWorkload :: ShortCells(s).id == SHORT
    ensures forall t: TtftCache, phase: string :: TtftCells(t, phase).id == phase
  {
  }

  lemma CaseIds(c: Contract)
    ensures forall k: Case :: CaseCells(c, k).id == k.id
  {
  }

  lemma EmptyCells()
    ensures CellsOf({}, map[])
  {
  }

  // No two workloads share an id.
  lemma WorkloadNeighbours(c: Contract)
    requires Accepted(c)
    ensures SHORT != COLD && SHORT != WARM && COLD != WARM
    ensures forall i :: 0 <= i < |c.cases| ==> c.cases[i].id !in {SHORT, COLD, WARM}
    ensures forall i, j :: 0 <= i < j < |c.cases| ==> c.cases[i].id != c.cases[j].id
  {
    hide Accepted, Rank;
    Ranks();
    CaseOrder(c);
  }

  lemma AllWorkloads(c: Contract, done: set<Workload>)
    requires done ==
      (if c.short.Some? then {ShortCells(c.short.value)} else {}) +
      (if c.ttft.Some? then {TtftCells(c.ttft.value, COLD), TtftCells(c.ttft.value, WARM)} else {}) +
      set k | 0 <= k < |c.cases| :: CaseCells(c, c.cases[k])
    ensures done == set g | g in Workloads(c)
  {
    forall g | g in CaseWorkloads(c) ensures g in done {
      var k :| 0 <= k < |c.cases| && CaseWorkloads(c)[k] == g;
    }
    forall k | 0 <= k < |c.cases| ensures CaseCells(c, c.cases[k]) in Workloads(c) {
      assert CaseWorkloads(c)[k] in CaseWorkloads(c);
    }
  }

  // ---------------------------------------------------------------- the runner's own enumeration

  datatype RunnerCell = RunnerCell(domain: string, tokens: int, fixtures: seq<int>, maxTokens: int) {
    function Summary(): Cell { Cell(domain, tokens, |fixtures|, maxTokens) }
  }

  function Summaries(cells: map<CellName, RunnerCell>): map<CellName, Cell> {
    map name | name in cells :: cells[name].Summary()
  }

  method AddRunnerCells(ghost done: set<Workload>, cells: map<CellName, RunnerCell>, g: Workload)
    returns (out: map<CellName, RunnerCell>)
    requires CellsOf(done, Summaries(cells)) && forall h :: h in done ==> h.id != g.id
    ensures CellsOf(done + {g}, Summaries(out))
  {
    hide CellsOf, Summaries;
    out := cells;
    for i := 0 to |g.concurrencies|
      invariant forall name :: name in out <==> name in cells || (Offers(g, name) && name.concurrency in g.concurrencies[..i])
      invariant forall name :: name in out ==>
        out[name].Summary() ==
          if Offers(g, name) && name.concurrency in g.concurrencies[..i] then CellOf(g, name) else cells[name].Summary()
    {
      var n := g.concurrencies[i];
      assert g.concurrencies[..i + 1] == g.concurrencies[..i] + [n];
      ghost var before := out;
      for k := 0 to |g.domains|
        invariant forall name :: name in out <==> name in before || Added(g, n, k, name)
        invariant forall name :: name in out ==>
          out[name].Summary() == if Added(g, n, k, name) then CellOf(g, name) else before[name].Summary()
      {
        var d := g.domains[k];
        assert g.domains[..k + 1] == g.domains[..k] + [d];
        out := out[CellName(g.id, d, n) := RunnerCell(d, g.tokens, seq(n, _ => g.tokens), g.request.output)];
      }
      assert g.domains[..|g.domains|] == g.domains;
    }
    assert g.concurrencies[..|g.concurrencies|] == g.concurrencies;
    SummariesAre(cells);
    SummariesAre(out);
    CellsGrow(done, g, Summaries(cells), Summaries(out));
  }

  lemma SummariesAre(cells: map<CellName, RunnerCell>)
    ensures Summaries(cells).Keys == cells.Keys && forall name :: name in cells ==> Summaries(cells)[name] == cells[name].Summary()
  {
  }

  // The runner goes by the fields that are present, not by the schema number.
  method RunnerCells(c: Contract) returns (cells: map<CellName, RunnerCell>)
    requires Accepted(c)
    ensures CellsOf((set g | g in Workloads(c)), Summaries(cells))
    ensures MatchesContract(c, Summaries(cells))
  {
    hide *;
    WorkloadNeighbours(c);
    EmptyCells();
    cells := map[];
    SummariesAre(cells);
    ghost var done: set<Workload> := {};
    if c.short.Some? {
      var g := ShortCells(c.short.value);
      cells := AddRunnerCells(done, cells, g);
      done := done + {g};
    }
    if c.ttft.Some? {
      var cold, warm := TtftCells(c.ttft.value, COLD), TtftCells(c.ttft.value, WARM);
      WorkloadIds(c);
      cells := AddRunnerCells(done, cells, cold);
      done := done + {cold};
      cells := AddRunnerCells(done, cells, warm);
      done := done + {warm};
    }
    ghost var others := done;
    assert forall g :: g in others ==> g.id in {SHORT, COLD, WARM} by { WorkloadIds(c); }
    for i := 0 to |c.cases|
      invariant done == others + set k | 0 <= k < i :: CaseCells(c, c.cases[k])
      invariant CellsOf(done, Summaries(cells))
    {
      var g := CaseCells(c, c.cases[i]);
      CaseIds(c);
      cells := AddRunnerCells(done, cells, g);
      done := done + {g};
    }
    AllWorkloads(c, done);
    CellsMatchContract(c, Summaries(cells));
  }

  // Both enumerations name the same cells with the same concurrency, target and budget.
  lemma EnumerationsAgree(c: Contract, generator: map<CellName, Cell>, runner: map<CellName, RunnerCell>)
    requires Accepted(c)
    requires CellsOf((set g | g in Workloads(c)), generator) && CellsOf((set g | g in Workloads(c)), Summaries(runner))
    ensures generator == Summaries(runner)
  {
    hide Accepted, Workloads;
    var gs := set g | g in Workloads(c);
    SameKeys(gs, generator, Summaries(runner));
    SameKeys(gs, Summaries(runner), generator);
    forall name | name in generator ensures generator[name] == Summaries(runner)[name] {
      var g :| g in gs && Offers(g, name);
      assert Summaries(runner)[name] == CellOf(g, name);
    }
  }

  lemma SameKeys(gs: set<Workload>, a: map<CellName, Cell>, b: map<CellName, Cell>)
    requires CellsOf(gs, a) && CellsOf(gs, b)
    ensures a.Keys <= b.Keys
  {
    forall name | name in a ensures name in b {
      var g :| g in gs && Offers(g, name);
      assert CellName(g.id, name.domain, name.concurrency) == name;
    }
  }

  // ---------------------------------------------------------------- the cells, read off the contract

  // A short cell, a TTFT cell or a cell of a case, with the target and budget of its own section.
  predicate IsCell(c: Contract, name: CellName, cell: Cell) {
    cell.domain == name.domain && cell.concurrency == name.concurrency &&
    (IsShortCell(c, name, cell) || IsTtftCell(c, name, cell) || IsCaseCell(c, name, cell))
  }

  predicate IsShortCell(c: Contract, name: CellName, cell: Cell) {
    && c.short.Some? && name.context == "short"
    && name.domain in c.short.value.domains && name.concurrency in c.short.value.concurrencies
    && cell.tokens == c.short.value.tokens && cell.maxTokens == c.short.value.request.output
  }

  predicate IsTtftCell(c: Contract, name: CellName, cell: Cell) {
    && c.ttft.Some? && name.context in {"ttftcold", "ttftwarm"} && name.domain == c.ttft.value.domain && name.concurrency == 1
    && cell.tokens == c.ttft.value.tokens && cell.maxTokens == c.ttft.value.request.output
  }

  predicate IsCaseCell(c: Contract, name: CellName, cell: Cell) {
    exists i :: 0 <= i < |c.cases| && name.context == c.cases[i].id
      && name.domain in c.domains && name.concurrency in c.cases[i].concurrencies
      && cell.tokens == c.cases[i].tokens && cell.maxTokens == c.request.output
  }

  ghost predicate MatchesContract(c: Contract, cells: map<CellName, Cell>) {
    && (forall name :: name in cells ==> IsCell(c, name, cells[name]))
    && (forall name, cell :: IsCell(c, name, cell) ==> name in cells && cells[name] == cell)
  }

  lemma OfferIsCell(c: Contract, g: Workload, name: CellName)
    requires g in Workloads(c) && Offers(g, name)
    ensures IsCell(c, name, CellOf(g, name))
  {
    if g in CaseWorkloads(c) {
      var k :| 0 <= k < |c.cases| && CaseWorkloads(c)[k] == g;
      assert IsCaseCell(c, name, CellOf(g, name));
    }
  }

  lemma CellIsOffered(c: Contract, name: CellName, cell: Cell) returns (g: Workload)
    requires IsCell(c, name, cell)
    ensures g in Workloads(c) && Offers(g, name) && cell == CellOf(g, name)
  {
    if IsShortCell(c, name, cell) {
      g := ShortWorkloads(c)[0];
      assert g in ShortWorkloads(c);
    } else if IsTtftCell(c, name, cell) {
      g := TtftCells(c.ttft.value, name.context);
      assert TtftWorkloads(c)[0] in TtftWorkloads(c) && TtftWorkloads(c)[1] in TtftWorkloads(c);
    } else {
      var i :| 0 <= i < |c.cases| && name.context == c.cases[i].id
        && name.domain in c.domains && name.concurrency in c.cases[i].concurrencies
        && cell.tokens == c.cases[i].tokens && cell.maxTokens == c.request.output;
      g := CaseWorkloads(c)[i];
      assert g in CaseWorkloads(c);
    }
  }

  // Whatever enumerates the workloads holds exactly the cells the contract's text declares.
  lemma CellsMatchContract(c: Contract, cells: map<CellName, Cell>)
    requires Accepted(c) && CellsOf((set g | g in Workloads(c)), cells)
    ensures MatchesContract(c, cells)
  {
    hide Accepted, Workloads, IsCell;
    var gs := set g | g in Workloads(c);
    forall name | name in cells ensures IsCell(c, name, cells[name]) {
      var g :| g in gs && Offers(g, name);
      OfferIsCell(c, g, name);
    }
    forall name, cell | IsCell(c, name, cell) ensures name in cells && cells[name] == cell {
      var g := CellIsOffered(c, name, cell);
      assert g in gs && AllIn(g, cells.Keys) && CellName(g.id, name.domain, name.concurrency) == name;
    }
  }
}
