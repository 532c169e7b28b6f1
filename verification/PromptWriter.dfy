/** The prompt generator (materialize in benchmarks/prompt_generator.py): the plan and prompt
    files it writes for a selection of cells. */
module PromptWriter {
  import opened Text
  import opened CellSelection
  import opened PromptContract
  import opened PromptPlan

  // ---------------------------------------------------------------- what is written

  function Chosen(sel: set<CellName>, id: string, d: string): set<nat> {
    set name | name in sel && name.context == id && name.domain == d :: name.concurrency
  }

  ghost function Top(s: set<nat>): (m: nat)
    ensures if s == {} then m == 0 else m in s && forall x :: x in s ==> x <= m
  {
    if s == {} then 0
    else
      var x :| x in s;
      var m := Top(s - {x});
      assert forall y :: y in s ==> y == x || y in s - {x};
      if x > m then x else m
  }

  // Short prompts are the bare template. The two TTFT phases render one content id.
  function TextOf(c: Contract, g: Workload, d: string, slot: nat): Prompt {
    if g.kind == Short then ShortTemplate(d)
    else Rendered(c.schema >= 4, if g.kind == Ttft then "ttft64k" else g.id, d, slot, g.tokens)
  }

  function RowOf(c: Contract, count: Prompt -> int, g: Workload, d: string, slot: nat): Row {
    Row(FixtureName(g.id, d, slot), TextOf(c, g, d, slot), count(TextOf(c, g, d, slot)), d)
  }

  function SlotRows(c: Contract, count: Prompt -> int, g: Workload, d: string, n: nat): (rows: seq<Row>)
    ensures |rows| == n && forall slot :: 0 <= slot < n ==> rows[slot] == RowOf(c, count, g, d, slot)
  {
    seq(n, (slot: nat) => RowOf(c, count, g, d, slot))
  }

  ghost function DomainRows(c: Contract, count: Prompt -> int, sel: set<CellName>, g: Workload, ds: seq<string>): seq<Row> {
    if ds == [] then []
    else
      var d := ds[|ds| - 1];
      DomainRows(c, count, sel, g, ds[..|ds| - 1]) + SlotRows(c, count, g, d, Top(Chosen(sel, g.id, d)))
  }

  ghost function WorkloadRows(c: Contract, count: Prompt -> int, sel: set<CellName>, gs: seq<Workload>): seq<Row> {
    if gs == [] then []
    else
      var g := gs[|gs| - 1];
      WorkloadRows(c, count, sel, gs[..|gs| - 1]) + DomainRows(c, count, sel, g, g.domains)
  }

  function FixtureNames(id: string, d: string, n: nat): (names: seq<FixtureName>)
    ensures |names| == n && forall slot :: 0 <= slot < n ==> names[slot] == FixtureName(id, d, slot)
  {
    seq(n, (slot: nat) => FixtureName(id, d, slot))
  }

  function CellMap(sel: set<CellName>, g: Workload, ds: seq<string>): map<Key, seq<FixtureName>> {
    map name | name in sel && name.context == g.id && name.domain in ds ::
      KeyOf(name) := FixtureNames(g.id, name.domain, name.concurrency)
  }

  function CtxOf(c: Contract, sel: set<CellName>, g: Workload): Ctx {
    Ctx(g.id, g.tokens, CellMap(sel, g, g.domains), if c.schema >= 5 then Some(g.request) else None)
  }

  predicate Picked(sel: set<CellName>, g: Workload) { exists name :: name in sel && name.context == g.id }

  function Ctxs(c: Contract, sel: set<CellName>, gs: seq<Workload>): seq<Ctx> {
    if gs == [] then []
    else
      var g := gs[|gs| - 1];
      var front := Ctxs(c, sel, gs[..|gs| - 1]);
      if Picked(sel, g) then front + [CtxOf(c, sel, g)] else front
  }

  function FilesOf(rows: seq<Row>): Files {
    if rows == [] then map[]
    else FilesOf(rows[..|rows| - 1])[rows[|rows| - 1].name := rows[|rows| - 1].sha]
  }

  function SchemaOf(c: Contract): nat { if c.schema >= 5 then 3 else 2 }

  ghost function Rows(c: Contract, count: Prompt -> int, sel: set<CellName>): seq<Row> {
    WorkloadRows(c, count, sel, Workloads(c))
  }

  ghost function Written(c: Contract, count: Prompt -> int, sel: set<CellName>): Plan {
    var rows := Rows(c, count, sel);
    Plan(SchemaOf(c), c.interval, c.request, rows, Ctxs(c, sel, Workloads(c)), PromptSet(rows))
  }

  predicate Positive(rows: seq<Row>) { forall i :: 0 <= i < |rows| ==> rows[i].tokens > 0 }

  predicate Selectable(c: Contract, sel: set<CellName>) {
    sel != {} && forall name :: name in sel ==> exists g :: g in Workloads(c) && Offers(g, name)
  }

  // ---------------------------------------------------------------- the generator

  method WriteSlots(c: Contract, count: Prompt -> int, g: Workload, d: string, n: nat, rows: seq<Row>, files: Files)
    returns (ok: bool, outRows: seq<Row>, outFiles: Files)
    requires files == FilesOf(rows)
    ensures ok <==> Positive(SlotRows(c, count, g, d, n))
    ensures ok ==> outRows == rows + SlotRows(c, count, g, d, n) && outFiles == FilesOf(outRows)
  {
    hide TextOf, SlotRows, FilesOf, Positive;
    outRows, outFiles := rows, files;
    NoSlots(c, count, g, d, rows);
    for slot := 0 to n
      invariant outRows == rows + SlotRows(c, count, g, d, slot) && outFiles == FilesOf(outRows)
      invariant Positive(SlotRows(c, count, g, d, slot))
    {
      var text := TextOf(c, g, d, slot);
      var observed := count(text);
      SlotStep(c, count, g, d, slot, n);
      if observed <= 0 { return false, outRows, outFiles; }
      var row := Row(FixtureName(g.id, d, slot), text, observed, d);
      FileStep(outRows, row);
      assert rows + SlotRows(c, count, g, d, slot) + [row] == rows + (SlotRows(c, count, g, d, slot) + [row]);
      outFiles := outFiles[row.name := text];
      outRows := outRows + [row];
    }
    ok := true;
  }

  lemma NoSlots(c: Contract, count: Prompt -> int, g: Workload, d: string, rows: seq<Row>)
    ensures SlotRows(c, count, g, d, 0) == [] && rows + SlotRows(c, count, g, d, 0) == rows && Positive(SlotRows(c, count, g, d, 0))
  {
  }

  lemma SlotStep(c: Contract, count: Prompt -> int, g: Workload, d: string, slot: nat, n: nat)
    requires slot < n
    ensures SlotRows(c, count, g, d, slot + 1) == SlotRows(c, count, g, d, slot) + [RowOf(c, count, g, d, slot)]
    ensures Positive(SlotRows(c, count, g, d, slot + 1)) <==>
      Positive(SlotRows(c, count, g, d, slot)) && count(TextOf(c, g, d, slot)) > 0
    ensures Positive(SlotRows(c, count, g, d, n)) ==> Positive(SlotRows(c, count, g, d, slot + 1))
  {
    hide TextOf;
    var before, after, all := SlotRows(c, count, g, d, slot), SlotRows(c, count, g, d, slot + 1), SlotRows(c, count, g, d, n);
    assert after[slot] == RowOf(c, count, g, d, slot);
    assert forall i :: 0 <= i < slot ==> after[i] == before[i];
    assert forall i :: 0 <= i <= slot ==> all[i] == after[i];
  }

  lemma FileStep(rows: seq<Row>, row: Row)
    ensures FilesOf(rows + [row]) == FilesOf(rows)[row.name := row.sha]
  {
    assert (rows + [row])[..|rows + [row]| - 1] == rows;
  }

  method WriteKeys(g: Workload, d: string, sorted: seq<nat>, before: map<Key, seq<FixtureName>>)
    returns (cells: map<Key, seq<FixtureName>>)
    ensures forall key :: key in cells <==> key in before || (key.domain == d && key.concurrency in sorted)
    ensures forall key :: key in cells ==>
      cells[key] == if key.domain == d && key.concurrency in sorted then FixtureNames(g.id, d, key.concurrency) else before[key]
  {
    cells := before;
    for i := 0 to |sorted|
      invariant forall key :: key in cells <==> key in before || (key.domain == d && key.concurrency in sorted[..i])
      invariant forall key :: key in cells ==>
        cells[key] ==
          if key.domain == d && key.concurrency in sorted[..i] then FixtureNames(g.id, d, key.concurrency) else before[key]
    {
      assert sorted[..i + 1] == sorted[..i] + [sorted[i]];
      cells := cells[Key(d, sorted[i]) := FixtureNames(g.id, d, sorted[i])];
    }
    assert sorted[..|sorted|] == sorted;
  }

  lemma CellMapStep(sel: set<CellName>, g: Workload, ds: seq<string>, d: string, sorted: seq<nat>,
                    cells: map<Key, seq<FixtureName>>)
    requires forall n: nat :: n in sorted <==> n in Chosen(sel, g.id, d)
    requires forall key :: key in cells <==> key in CellMap(sel, g, ds) || (key.domain == d && key.concurrency in sorted)
    requires forall key :: key in cells ==>
      cells[key] ==
        if key.domain == d && key.concurrency in sorted then FixtureNames(g.id, d, key.concurrency)
        else CellMap(sel, g, ds)[key]
    ensures cells == CellMap(sel, g, ds + [d])
  {
    hide FixtureNames;
    var all := CellMap(sel, g, ds + [d]);
    forall key | key in all ensures key in cells && cells[key] == all[key] {
      var name :| name in sel && name.context == g.id && name.domain in ds + [d] && KeyOf(name) == key;
      if name.domain == d { assert key.concurrency in Chosen(sel, g.id, d); } else { assert key in CellMap(sel, g, ds); }
    }
    forall key | key in cells ensures key in all {
      if key.domain == d && key.concurrency in sorted {
        var name :| name in sel && name.context == g.id && name.domain == d && name.concurrency == key.concurrency;
        assert KeyOf(name) == key;
      } else {
        var name :| name in sel && name.context == g.id && name.domain in ds && KeyOf(name) == key;
      }
    }
  }

  lemma NothingChosen(c: Contract, count: Prompt -> int, sel: set<CellName>, g: Workload, ds: seq<string>, d: string)
    requires Chosen(sel, g.id, d) == {}
    ensures DomainRows(c, count, sel, g, ds + [d]) == DomainRows(c, count, sel, g, ds)
    ensures CellMap(sel, g, ds + [d]) == CellMap(sel, g, ds)
  {
    assert (ds + [d])[..|ds + [d]| - 1] == ds;
    assert forall name :: name in sel && name.context == g.id && name.domain == d ==> name.concurrency in Chosen(sel, g.id, d);
  }

  lemma {:induction false} DomainPrefix(c: Contract, count: Prompt -> int, sel: set<CellName>, g: Workload, ds: seq<string>, k: nat)
    requires k <= |ds|
    ensures DomainRows(c, count, sel, g, ds[..k]) <= DomainRows(c, count, sel, g, ds)
    decreases |ds|
  {
    hide SlotRows, Chosen;
    if k == |ds| {
      assert ds[..k] == ds;
    } else {
      DomainPrefix(c, count, sel, g, ds[..|ds| - 1], k);
      assert ds[..|ds| - 1][..k] == ds[..k];
    }
  }

  lemma PositivePrefix(a: seq<Row>, b: seq<Row>)
    requires a <= b
    ensures Positive(b) ==> Positive(a)
  {
  }

  lemma PositiveParts(a: seq<Row>, b: seq<Row>)
    ensures Positive(a + b) <==> Positive(a) && Positive(b)
  {
    assert forall i :: 0 <= i < |b| ==> (a + b)[|a| + i] == b[i];
    assert forall i :: 0 <= i < |a| ==> (a + b)[i] == a[i];
  }

  // One domain of one context: the slots of its largest selected cell, then its cell keys.
  method WriteDomain(c: Contract, count: Prompt -> int, sel: set<CellName>, g: Workload, d: string, ghost ds: seq<string>,
                     rows: seq<Row>, files: Files, before: map<Key, seq<FixtureName>>)
    returns (ok: bool, outRows: seq<Row>, outFiles: Files, cells: map<Key, seq<FixtureName>>)
    requires files == FilesOf(rows) && before == CellMap(sel, g, ds)
    ensures ok <==> Positive(SlotRows(c, count, g, d, Top(Chosen(sel, g.id, d))))
    ensures ok ==>
      && outRows == rows + SlotRows(c, count, g, d, Top(Chosen(sel, g.id, d))) && outFiles == FilesOf(outRows)
      && cells == CellMap(sel, g, ds + [d])
  {
    hide FilesOf, FixtureNames, Chosen, CellMap, DomainRows;
    ok, outRows, outFiles, cells := true, rows, files, before;
    var chosen: set<nat> := Chosen(sel, g.id, d);
    if chosen == {} {
      NothingChosen(c, count, sel, g, ds, d);
      return;
    }
    var sorted: seq<nat> := Ascending(chosen);
    ghost var x: nat :| x in chosen;
    assert x in sorted;
    LastIsTop(chosen, sorted);
    ok, outRows, outFiles := WriteSlots(c, count, g, d, sorted[|sorted| - 1], outRows, outFiles);
    cells := WriteKeys(g, d, sorted, before);
    CellMapStep(sel, g, ds, d, sorted, cells);
  }

  // One context: its prompt files, fixture rows and cell map, domain by domain.
  method WriteDomains(c: Contract, count: Prompt -> int, sel: set<CellName>, g: Workload, rows: seq<Row>, files: Files)
    returns (ok: bool, outRows: seq<Row>, outFiles: Files, cells: map<Key, seq<FixtureName>>)
    requires files == FilesOf(rows)
    ensures ok <==> Positive(DomainRows(c, count, sel, g, g.domains))
    ensures ok ==>
      && outRows == rows + DomainRows(c, count, sel, g, g.domains) && outFiles == FilesOf(outRows)
      && cells == CellMap(sel, g, g.domains)
  {
    hide *;
    var ds := g.domains;
    ok, outRows, outFiles, cells := true, rows, files, map[];
    NoDomains(c, count, sel, g);
    for k := 0 to |ds|
      invariant outRows == rows + DomainRows(c, count, sel, g, ds[..k]) && outFiles == FilesOf(outRows)
      invariant Positive(DomainRows(c, count, sel, g, ds[..k]))
      invariant cells == CellMap(sel, g, ds[..k])
    {
      var d := ds[k];
      assert ds[..k + 1] == ds[..k] + [d];
      ghost var done := DomainRows(c, count, sel, g, ds[..k]);
      ghost var mine := SlotRows(c, count, g, d, Top(Chosen(sel, g.id, d)));
      DomainStep(c, count, sel, g, ds[..k], d);
      DomainPrefix(c, count, sel, g, ds, k + 1);
      PositiveParts(done, mine);
      PositivePrefix(done + mine, DomainRows(c, count, sel, g, ds));
      ok, outRows, outFiles, cells := WriteDomain(c, count, sel, g, d, ds[..k], outRows, outFiles, cells);
      if !ok { return; }
      assert rows + done + mine == rows + (done + mine);
    }
    assert ds[..|ds|] == ds;
    ok := true;
  }

  lemma NoDomains(c: Contract, count: Prompt -> int, sel: set<CellName>, g: Workload)
    ensures DomainRows(c, count, sel, g, []) == [] && CellMap(sel, g, []) == map[] && Positive([])
  {
  }

  lemma DomainStep(c: Contract, count: Prompt -> int, sel: set<CellName>, g: Workload, ds: seq<string>, d: string)
    ensures DomainRows(c, count, sel, g, ds + [d]) ==
      DomainRows(c, count, sel, g, ds) + SlotRows(c, count, g, d, Top(Chosen(sel, g.id, d)))
  {
    assert (ds + [d])[..|ds + [d]| - 1] == ds;
  }

  lemma LastIsTop(s: set<nat>, sorted: seq<nat>)
    requires sorted != [] && (forall i, j :: 0 <= i < j < |sorted| ==> sorted[i] < sorted[j])
    requires forall x: nat :: x in sorted <==> x in s
    ensures sorted[|sorted| - 1] == Top(s)
  {
    assert sorted[|sorted| - 1] in sorted;
    var i :| 0 <= i < |sorted| && sorted[i] == Top(s);
  }

  lemma NoWorkloads(c: Contract, count: Prompt -> int, sel: set<CellName>)
    ensures WorkloadRows(c, count, sel, []) == [] && Ctxs(c, sel, []) == [] && Positive([]) && FilesOf([]) == map[]
  {
  }

  lemma WorkloadStep(c: Contract, count: Prompt -> int, sel: set<CellName>, gs: seq<Workload>, g: Workload)
    ensures WorkloadRows(c, count, sel, gs + [g]) ==
      WorkloadRows(c, count, sel, gs) + DomainRows(c, count, sel, g, g.domains)
    ensures Ctxs(c, sel, gs + [g]) == if Picked(sel, g) then Ctxs(c, sel, gs) + [CtxOf(c, sel, g)] else Ctxs(c, sel, gs)
  {
    assert (gs + [g])[..|gs + [g]| - 1] == gs;
  }

  // A context without selected cells gets no prompts.
  lemma {:induction false} Unpicked(c: Contract, count: Prompt -> int, sel: set<CellName>, g: Workload, ds: seq<string>)
    requires !Picked(sel, g)
    ensures DomainRows(c, count, sel, g, ds) == []
  {
    if ds != [] {
      Unpicked(c, count, sel, g, ds[..|ds| - 1]);
      assert Chosen(sel, g.id, ds[|ds| - 1]) == {};
    }
  }

  lemma {:induction false} WorkloadPrefix(c: Contract, count: Prompt -> int, sel: set<CellName>, gs: seq<Workload>, k: nat)
    requires k <= |gs|
    ensures WorkloadRows(c, count, sel, gs[..k]) <= WorkloadRows(c, count, sel, gs)
    decreases |gs|
  {
    hide DomainRows;
    if k == |gs| {
      assert gs[..k] == gs;
    } else {
      WorkloadPrefix(c, count, sel, gs[..|gs| - 1], k);
      assert gs[..|gs| - 1][..k] == gs[..k];
    }
  }

  lemma SelectableKeys(c: Contract, sel: set<CellName>, cells: map<CellName, Cell>)
    requires CellsOf((set g | g in Workloads(c)), cells)
    ensures Selectable(c, sel) <==> sel != {} && sel <= cells.Keys
  {
    hide Workloads;
    var gs := set g | g in Workloads(c);
    if Selectable(c, sel) {
      forall name | name in sel ensures name in cells {
        var g :| g in Workloads(c) && Offers(g, name);
        assert g in gs && CellName(g.id, name.domain, name.concurrency) == name;
      }
    }
    if sel <= cells.Keys {
      forall name | name in sel ensures exists g :: g in Workloads(c) && Offers(g, name) {
        assert name in cells;
        var g :| g in gs && Offers(g, name);
      }
    }
  }

  // materialize: None where it raises, otherwise the plan and the prompt files.
  method Materialize(c: Contract, count: Prompt -> int, sel: set<CellName>) returns (r: Option<(Plan, Files)>)
    requires Accepted(c)
    ensures r.Some? <==> Selectable(c, sel) && Positive(Rows(c, count, sel))
    ensures r.Some? ==> r.value.0 == Written(c, count, sel) && r.value.1 == FilesOf(Rows(c, count, sel))
  {
    hide Accepted, CellsOf, Selectable, WorkloadRows, DomainRows, Ctxs, CellMap, Positive, FilesOf, Workloads, Picked;
    var all := GeneratorCells(c);
    SelectableKeys(c, sel, all);
    if !(sel <= all.Keys) { return None; }
    if sel == {} { return None; }
    var gs := Workloads(c);
    var rows: seq<Row>, files: Files, contexts: seq<Ctx> := [], map[], [];
    NoWorkloads(c, count, sel);
    for i := 0 to |gs|
      invariant rows == WorkloadRows(c, count, sel, gs[..i]) && files == FilesOf(rows)
      invariant contexts == Ctxs(c, sel, gs[..i]) && Positive(rows)
    {
      var g := gs[i];
      assert gs[..i + 1] == gs[..i] + [g];
      WorkloadStep(c, count, sel, gs[..i], g);
      WorkloadPrefix(c, count, sel, gs, i + 1);
      if Picked(sel, g) {
        ghost var done, mine := rows, DomainRows(c, count, sel, g, g.domains);
        PositiveParts(done, mine);
        PositivePrefix(done + mine, WorkloadRows(c, count, sel, gs));
        var ok, cells;
        ok, rows, files, cells := WriteDomains(c, count, sel, g, rows, files);
        if !ok { return None; }
        contexts := contexts + [Ctx(g.id, g.tokens, cells, if c.schema in {5, 6, 7, 8} then Some(g.request) else None)];
        SchemaRange(c);
      } else {
        Unpicked(c, count, sel, g, g.domains);
      }
    }
    assert gs[..|gs|] == gs;
    SchemaRange(c);
    return Some((Plan(if c.schema in {5, 6, 7, 8} then 3 else 2, c.interval, c.request, rows, contexts, PromptSet(rows)), files));
  }

  lemma SchemaRange(c: Contract)
    requires Accepted(c)
    ensures c.schema >= 5 <==> c.schema in {5, 6, 7, 8}
  {
  }
}
