/** A written prompt plan read back: which plans the loader accepts, and what they load as. */
module PromptRoundTrip {
  import opened Text
  import opened CellSelection
  import opened PromptContract
  import opened PromptPlan
  import opened PromptWriter

  // ---------------------------------------------------------------- fixture rows

  lemma {:induction false} DomainRowAt(c: Contract, count: Prompt -> int, sel: set<CellName>, g: Workload, ds: seq<string>, i: nat)
    returns (d: string, slot: nat)
    requires i < |DomainRows(c, count, sel, g, ds)|
    ensures d in ds && slot < Top(Chosen(sel, g.id, d)) && DomainRows(c, count, sel, g, ds)[i] == RowOf(c, count, g, d, slot)
    decreases |ds|
  {
    hide Chosen, RowOf;
    var front := DomainRows(c, count, sel, g, ds[..|ds| - 1]);
    if i < |front| {
      d, slot := DomainRowAt(c, count, sel, g, ds[..|ds| - 1], i);
    } else {
      d, slot := ds[|ds| - 1], i - |front|;
    }
  }

  lemma {:induction false} WorkloadRowAt(c: Contract, count: Prompt -> int, sel: set<CellName>, gs: seq<Workload>, i: nat)
    returns (g: Workload, d: string, slot: nat)
    requires i < |WorkloadRows(c, count, sel, gs)|
    ensures g in gs && d in g.domains && slot < Top(Chosen(sel, g.id, d))
    ensures WorkloadRows(c, count, sel, gs)[i] == RowOf(c, count, g, d, slot)
    decreases |gs|
  {
    hide Chosen, RowOf, DomainRows;
    var front := WorkloadRows(c, count, sel, gs[..|gs| - 1]);
    if i < |front| {
      g, d, slot := WorkloadRowAt(c, count, sel, gs[..|gs| - 1], i);
    } else {
      g := gs[|gs| - 1];
      d, slot := DomainRowAt(c, count, sel, g, g.domains, i - |front|);
    }
  }

  lemma {:induction false} DomainRowThere(
    c: Contract, count: Prompt -> int, sel: set<CellName>, g: Workload, ds: seq<string>, d: string, slot: nat)
    requires d in ds && slot < Top(Chosen(sel, g.id, d))
    ensures RowOf(c, count, g, d, slot) in DomainRows(c, count, sel, g, ds)
    decreases |ds|
  {
    hide Chosen, RowOf;
    if d == ds[|ds| - 1] {
      assert SlotRows(c, count, g, d, Top(Chosen(sel, g.id, d)))[slot] == RowOf(c, count, g, d, slot);
    } else {
      DomainRowThere(c, count, sel, g, ds[..|ds| - 1], d, slot);
    }
  }

  lemma {:induction false} WorkloadRowThere(
    c: Contract, count: Prompt -> int, sel: set<CellName>, gs: seq<Workload>, g: Workload, d: string, slot: nat)
    requires g in gs && d in g.domains && slot < Top(Chosen(sel, g.id, d))
    ensures RowOf(c, count, g, d, slot) in WorkloadRows(c, count, sel, gs)
    decreases |gs|
  {
    hide Chosen, RowOf, DomainRows;
    if g == gs[|gs| - 1] {
      DomainRowThere(c, count, sel, g, g.domains, d, slot);
    } else {
      WorkloadRowThere(c, count, sel, gs[..|gs| - 1], g, d, slot);
    }
  }

  predicate NamesUnique(rows: seq<Row>) { forall i, j :: 0 <= i < j < |rows| ==> rows[i].name != rows[j].name }

  lemma UniqueParts(a: seq<Row>, b: seq<Row>)
    requires NamesUnique(a) && NamesUnique(b)
    requires forall i, j :: 0 <= i < |a| && 0 <= j < |b| ==> a[i].name != b[j].name
    ensures NamesUnique(a + b)
  {
    var all := a + b;
    forall i, j | 0 <= i < j < |all| ensures all[i].name != all[j].name {
      if |a| <= i { assert all[i] == b[i - |a|] && all[j] == b[j - |a|]; }
    }
  }

  lemma {:induction false} DomainNamesUnique(c: Contract, count: Prompt -> int, sel: set<CellName>, g: Workload, ds: seq<string>)
    requires Distinct(ds)
    ensures NamesUnique(DomainRows(c, count, sel, g, ds))
    decreases |ds|
  {
    hide Chosen, TextOf;
    if ds != [] {
      var front, d := ds[..|ds| - 1], ds[|ds| - 1];
      DomainNamesUnique(c, count, sel, g, front);
      var a, b := DomainRows(c, count, sel, g, front), SlotRows(c, count, g, d, Top(Chosen(sel, g.id, d)));
      forall i, j | 0 <= i < |a| && 0 <= j < |b| ensures a[i].name != b[j].name {
        var e, slot := DomainRowAt(c, count, sel, g, front, i);
      }
      UniqueParts(a, b);
    }
  }

  lemma {:induction false} WorkloadNamesUnique(c: Contract, count: Prompt -> int, sel: set<CellName>, gs: seq<Workload>)
    requires WorkloadsValid(gs)
    ensures NamesUnique(WorkloadRows(c, count, sel, gs))
    decreases |gs|
  {
    hide Chosen, TextOf, DomainRows, Rank, NamesUnique;
    if gs == [] {
      UniqueNone();
    } else {
      var front, g := gs[..|gs| - 1], gs[|gs| - 1];
      WorkloadNamesUnique(c, count, sel, front);
      assert WorkloadValid(g);
      DomainNamesUnique(c, count, sel, g, g.domains);
      var a, b := WorkloadRows(c, count, sel, front), DomainRows(c, count, sel, g, g.domains);
      forall i, j | 0 <= i < |a| && 0 <= j < |b| ensures a[i].name != b[j].name {
        var h, e, slot := WorkloadRowAt(c, count, sel, front, i);
        var d, other := DomainRowAt(c, count, sel, g, g.domains, j);
        var k :| 0 <= k < |front| && front[k] == h;
        assert Rank(gs[k].id) < Rank(gs[|gs| - 1].id);
      }
      UniqueParts(a, b);
    }
  }

  lemma UniqueNone()
    ensures NamesUnique([])
  {
  }

  lemma {:induction false} FilesHold(rows: seq<Row>, i: nat)
    requires NamesUnique(rows) && i < |rows|
    ensures rows[i].name in FilesOf(rows) && FilesOf(rows)[rows[i].name] == rows[i].sha
    decreases |rows|
  {
    if i < |rows| - 1 {
      FilesHold(rows[..|rows| - 1], i);
    }
  }

  lemma WrittenRowsOk(c: Contract, count: Prompt -> int, sel: set<CellName>)
    requires Accepted(c) && Positive(Rows(c, count, sel))
    ensures RowsFine(Rows(c, count, sel), FilesOf(Rows(c, count, sel)))
  {
    WorkloadsAreValid(c);
    WorkloadNamesUnique(c, count, sel, Workloads(c));
    var rows := Rows(c, count, sel);
    hide Accepted, Workloads, WorkloadRows, Chosen, FilesOf, Rank, TextOf;
    forall i | 0 <= i < |rows| ensures RowOk(rows[i], FilesOf(rows)) {
      FilesHold(rows, i);
      var g, d, slot := WorkloadRowAt(c, count, sel, Workloads(c), i);
      var k :| 0 <= k < |Workloads(c)| && Workloads(c)[k] == g;
      assert WorkloadValid(Workloads(c)[k]);
    }
  }

  lemma ValidAt(c: Contract, g: Workload)
    requires Accepted(c) && g in Workloads(c)
    ensures WorkloadValid(g)
  {
    WorkloadsAreValid(c);
    hide Accepted, Workloads, Rank, WorkloadValid;
    var k :| 0 <= k < |Workloads(c)| && Workloads(c)[k] == g;
    assert WorkloadValid(Workloads(c)[k]);
  }

  lemma OneWorkload(c: Contract, g: Workload, h: Workload)
    requires Accepted(c) && g in Workloads(c) && h in Workloads(c) && g.id == h.id
    ensures g == h
  {
    WorkloadsAreValid(c);
    hide Accepted, Workloads, WorkloadsValid;
    SameWorkload(Workloads(c), g, h);
  }

  // Looking a written name up gives the row written under it.
  lemma NamedRow(c: Contract, count: Prompt -> int, sel: set<CellName>, g: Workload, d: string, slot: nat)
    requires Accepted(c) && g in Workloads(c) && d in g.domains && slot < Top(Chosen(sel, g.id, d))
    ensures FixtureName(g.id, d, slot) in ByName(Rows(c, count, sel))
    ensures ByName(Rows(c, count, sel))[FixtureName(g.id, d, slot)] == RowOf(c, count, g, d, slot)
  {
    hide Accepted, Workloads, WorkloadRows, Chosen, TextOf, ByName;
    var rows, name := Rows(c, count, sel), FixtureName(g.id, d, slot);
    WorkloadRowThere(c, count, sel, Workloads(c), g, d, slot);
    assert RowOf(c, count, g, d, slot).name == name;
    var found := ByName(rows)[name];
    var i :| 0 <= i < |rows| && rows[i] == found;
    var h, e, other := WorkloadRowAt(c, count, sel, Workloads(c), i);
    OneWorkload(c, g, h);
  }

  // ---------------------------------------------------------------- contexts

  lemma {:induction false} CtxAt(c: Contract, sel: set<CellName>, gs: seq<Workload>, i: nat) returns (g: Workload)
    requires i < |Ctxs(c, sel, gs)|
    ensures g in gs && Picked(sel, g) && Ctxs(c, sel, gs)[i] == CtxOf(c, sel, g)
    decreases |gs|
  {
    hide CtxOf, Picked;
    g := gs[|gs| - 1];
    if i < |Ctxs(c, sel, gs[..|gs| - 1])| {
      g := CtxAt(c, sel, gs[..|gs| - 1], i);
    }
  }

  lemma {:induction false} CtxThere(c: Contract, sel: set<CellName>, gs: seq<Workload>, g: Workload) returns (i: nat)
    requires g in gs && Picked(sel, g)
    ensures i < |Ctxs(c, sel, gs)| && Ctxs(c, sel, gs)[i] == CtxOf(c, sel, g)
    decreases |gs|
  {
    hide CtxOf, Picked;
    var front := Ctxs(c, sel, gs[..|gs| - 1]);
    if g == gs[|gs| - 1] {
      i := |front|;
    } else {
      i := CtxThere(c, sel, gs[..|gs| - 1], g);
    }
  }

  lemma {:induction false} CtxsOrdered(c: Contract, sel: set<CellName>, gs: seq<Workload>)
    requires WorkloadsValid(gs)
    ensures forall i, j :: 0 <= i < j < |Ctxs(c, sel, gs)| ==> Rank(Ctxs(c, sel, gs)[i].name) < Rank(Ctxs(c, sel, gs)[j].name)
    decreases |gs|
  {
    hide Rank, Picked, CellMap, WorkloadValid;
    if gs != [] {
      var front := gs[..|gs| - 1];
      CtxsOrdered(c, sel, front);
      forall i | 0 <= i < |Ctxs(c, sel, front)| ensures Rank(Ctxs(c, sel, front)[i].name) < Rank(gs[|gs| - 1].id) {
        var g := CtxAt(c, sel, front, i);
        var k :| 0 <= k < |front| && front[k] == g;
        assert gs[k] == g;
      }
    }
  }

  lemma KeyFrom(sel: set<CellName>, g: Workload, key: Key)
    requires key in CellMap(sel, g, g.domains)
    ensures CellName(g.id, key.domain, key.concurrency) in sel && key.domain in g.domains
    ensures CellMap(sel, g, g.domains)[key] == FixtureNames(g.id, key.domain, key.concurrency)
  {
    hide FixtureNames;
    var name :| name in sel && name.context == g.id && name.domain in g.domains && KeyOf(name) == key;
    assert name == CellName(g.id, key.domain, key.concurrency);
  }

  lemma KeyThere(sel: set<CellName>, g: Workload, name: CellName)
    requires name in sel && Offers(g, name)
    ensures KeyOf(name) in CellMap(sel, g, g.domains)
  {
  }

  lemma OfferedBy(c: Contract, sel: set<CellName>, g: Workload, name: CellName)
    requires Accepted(c) && Selectable(c, sel) && g in Workloads(c) && name in sel && name.context == g.id
    ensures Offers(g, name)
  {
    hide Accepted, Workloads;
    var h :| h in Workloads(c) && Offers(h, name);
    OneWorkload(c, g, h);
  }

  lemma OfferIsKnown(g: Workload, name: CellName)
    requires WorkloadValid(g) && Offers(g, name)
    ensures Known(KeyOf(name)) && (g.id == SHORT ==> name.concurrency in {1, 2, 4})
  {
    hide RequestValid, IsTtft, Distinct;
    var i :| 0 <= i < |g.concurrencies| && g.concurrencies[i] == name.concurrency;
  }

  lemma BelowTop(sel: set<CellName>, name: CellName)
    requires name in sel
    ensures name.concurrency <= Top(Chosen(sel, name.context, name.domain))
  {
    assert name.concurrency in Chosen(sel, name.context, name.domain);
  }

  lemma WrittenNamesOk(c: Contract, count: Prompt -> int, sel: set<CellName>, g: Workload, key: Key)
    requires Accepted(c) && Selectable(c, sel) && g in Workloads(c) && key in CellMap(sel, g, g.domains)
    ensures NamesOk(key, CellMap(sel, g, g.domains)[key], ByName(Rows(c, count, sel)))
  {
    hide Accepted, Workloads, Chosen, CellMap, Rows, ByName, Selectable, FixtureNames, RowOf;
    KeyFrom(sel, g, key);
    BelowTop(sel, CellName(g.id, key.domain, key.concurrency));
    var names, byName := FixtureNames(g.id, key.domain, key.concurrency), ByName(Rows(c, count, sel));
    forall i | 0 <= i < |names| ensures names[i] in byName && byName[names[i]].domain == key.domain {
      NamedRow(c, count, sel, g, key.domain, i);
      RowFields(c, count, g, key.domain, i);
    }
  }

  lemma RowFields(c: Contract, count: Prompt -> int, g: Workload, d: string, slot: nat)
    ensures RowOf(c, count, g, d, slot).domain == d
    ensures RowOf(c, count, g, d, slot).sha == TextOf(c, g, d, slot)
    ensures RowOf(c, count, g, d, slot).tokens == count(TextOf(c, g, d, slot))
  {
  }

  lemma CaseIdsOnly(c: Contract, g: Workload)
    requires Accepted(c) && g in Workloads(c) && c.schema < 5
    ensures g.id in CONTEXTS
  {
    hide Accepted, Rank;
    SchemaFields(c);
    CaseOrder(c);
    assert g in CaseWorkloads(c);
    var k :| 0 <= k < |c.cases| && CaseWorkloads(c)[k] == g;
  }

  lemma IdsBySchema(c: Contract, g: Workload)
    requires Accepted(c) && g in Workloads(c)
    ensures g.id in ValidContexts(SchemaOf(c))
  {
    hide Accepted, Workloads, RequestValid, ConcurrenciesValid, IsTtft, Distinct;
    if c.schema < 5 {
      CaseIdsOnly(c, g);
    } else {
      ValidAt(c, g);
    }
  }

  lemma CtxIsOk(c: Contract, count: Prompt -> int, sel: set<CellName>, g: Workload)
    requires Accepted(c) && Selectable(c, sel) && g in Workloads(c) && Picked(sel, g)
    ensures CtxOk(SchemaOf(c), CtxOf(c, sel, g), ByName(Rows(c, count, sel))) <==>
      (c.schema >= 5 ==> g.request.temperature <= 2.0)
  {
    hide Accepted, Workloads, CellMap, Rows, ByName, Selectable, NamesOk, Known, PlanRequestOk, ValidContexts, WorkloadValid;
    ValidAt(c, g);
    IdsBySchema(c, g);
    var ctx, byName := CtxOf(c, sel, g), ByName(Rows(c, count, sel));
    var name :| name in sel && name.context == g.id;
    OfferedBy(c, sel, g, name);
    KeyThere(sel, g, name);
    forall key | key in ctx.cells
      ensures Known(key) && (g.id == SHORT ==> key.concurrency in {1, 2, 4}) && NamesOk(key, ctx.cells[key], byName)
    {
      WrittenNamesOk(c, count, sel, g, key);
      KeyFrom(sel, g, key);
      var other := CellName(g.id, key.domain, key.concurrency);
      OfferedBy(c, sel, g, other);
      OfferIsKnown(g, other);
      assert KeyOf(other) == key;
    }
    RequestRefused(g);
  }

  lemma RequestRefused(g: Workload)
    requires WorkloadValid(g)
    ensures g.tokens > 0 && (PlanRequestOk(g.request) <==> g.request.temperature <= 2.0)
  {
    hide ConcurrenciesValid, IsTtft, Distinct;
  }

  // ---------------------------------------------------------------- the theorems

  // No request that the loader reads is hotter than its limit.
  predicate WithinTemperature(c: Contract, sel: set<CellName>) {
    && c.request.temperature <= 2.0
    && (c.schema >= 5 ==> forall g :: g in Workloads(c) && Picked(sel, g) ==> g.request.temperature <= 2.0)
  }

  predicate TtftPaired(sel: set<CellName>) { CellName(COLD, "code", 1) in sel <==> CellName(WARM, "code", 1) in sel }

  lemma AllCtxsOk(c: Contract, count: Prompt -> int, sel: set<CellName>)
    requires Accepted(c) && Selectable(c, sel)
    ensures CtxsOk(SchemaOf(c), Ctxs(c, sel, Workloads(c)), ByName(Rows(c, count, sel))) <==>
      (c.schema >= 5 ==> forall g :: g in Workloads(c) && Picked(sel, g) ==> g.request.temperature <= 2.0)
  {
    hide Accepted, Workloads, Rows, ByName, Selectable, CtxOk, Picked, CtxOf, Ctxs, Rank, WorkloadsValid;
    WorkloadsAreValid(c);
    var gs, byName := Workloads(c), ByName(Rows(c, count, sel));
    var contexts := Ctxs(c, sel, gs);
    CtxsOrdered(c, sel, gs);
    if CtxsOk(SchemaOf(c), contexts, byName) {
      forall g | g in gs && Picked(sel, g) ensures c.schema >= 5 ==> g.request.temperature <= 2.0 {
        var i := CtxThere(c, sel, gs, g);
        assert CtxOk(SchemaOf(c), contexts[i], byName);
        CtxIsOk(c, count, sel, g);
      }
    }
    if c.schema >= 5 ==> forall g :: g in gs && Picked(sel, g) ==> g.request.temperature <= 2.0 {
      forall i | 0 <= i < |contexts| ensures CtxOk(SchemaOf(c), contexts[i], byName) {
        var g := CtxAt(c, sel, gs, i);
        CtxIsOk(c, count, sel, g);
      }
    }
  }

  // Every written prompt is read by the largest cell of its context and domain.
  lemma AllUsed(c: Contract, count: Prompt -> int, sel: set<CellName>, i: nat)
    requires Accepted(c) && Selectable(c, sel) && i < |Rows(c, count, sel)|
    ensures Used(Ctxs(c, sel, Workloads(c)), Rows(c, count, sel)[i].name)
  {
    hide Accepted, Workloads, WorkloadRows, Selectable, Ctxs, FixtureNames, TextOf;
    var g, d, slot := WorkloadRowAt(c, count, sel, Workloads(c), i);
    var top := Top(Chosen(sel, g.id, d));
    var name :| name in sel && name.context == g.id && name.domain == d && name.concurrency == top;
    OfferedBy(c, sel, g, name);
    KeyThere(sel, g, name);
    KeyFrom(sel, g, KeyOf(name));
    var k := CtxThere(c, sel, Workloads(c), g);
    assert FixtureNames(g.id, d, top)[slot] == FixtureName(g.id, d, slot);
    assert FixtureName(g.id, d, slot) in Ctxs(c, sel, Workloads(c))[k].cells[KeyOf(name)];
  }

  lemma SomethingWritten(c: Contract, count: Prompt -> int, sel: set<CellName>)
    requires Accepted(c) && Selectable(c, sel)
    ensures Rows(c, count, sel) != [] && Ctxs(c, sel, Workloads(c)) != []
  {
    hide Accepted, Workloads, WorkloadRows, Ctxs, TextOf, Chosen;
    var name :| name in sel;
    var g :| g in Workloads(c) && Offers(g, name);
    var k := CtxThere(c, sel, Workloads(c), g);
    ValidAt(c, g);
    OfferIsKnown(g, name);
    BelowTop(sel, name);
    WorkloadRowThere(c, count, sel, Workloads(c), g, name.domain, 0);
  }

  // Leaving the TTFT pair aside, the loader accepts a written plan exactly within its temperature limit.
  lemma WrittenIsAcceptable(c: Contract, count: Prompt -> int, sel: set<CellName>)
    requires Accepted(c) && Selectable(c, sel) && Positive(Rows(c, count, sel))
    ensures Acceptable(Written(c, count, sel), FilesOf(Rows(c, count, sel))) <==> WithinTemperature(c, sel)
  {
    hide Accepted, Selectable, Positive, Workloads, Rows, Ctxs, FilesOf, RowsFine, CtxsOk, Used, PlanRequestOk, ByName, PromptSet, Picked;
    WrittenRowsOk(c, count, sel);
    SomethingWritten(c, count, sel);
    AllCtxsOk(c, count, sel);
    ContractRequest(c);
    forall i | 0 <= i < |Rows(c, count, sel)| ensures Used(Ctxs(c, sel, Workloads(c)), Rows(c, count, sel)[i].name) {
      AllUsed(c, count, sel, i);
    }
  }

  lemma ContractRequest(c: Contract)
    requires Accepted(c)
    ensures 1 <= c.interval <= 60 && (PlanRequestOk(c.request) <==> c.request.temperature <= 2.0)
  {
  }

  // What a selected cell must load as.
  function Expected(c: Contract, count: Prompt -> int, g: Workload, name: CellName): Loaded {
    Loaded(name.domain, g.tokens, SlotRows(c, count, g, name.domain, name.concurrency), g.request)
  }

  ghost predicate LoadsSelection(c: Contract, count: Prompt -> int, sel: set<CellName>, cells: map<CellName, Loaded>) {
    && cells.Keys == sel
    && forall g, name :: g in Workloads(c) && name in sel && Offers(g, name) ==> cells[name] == Expected(c, count, g, name)
  }

  lemma RequestWritten(c: Contract, count: Prompt -> int, sel: set<CellName>, g: Workload)
    requires Accepted(c) && g in Workloads(c)
    ensures RequestOf(Written(c, count, sel), CtxOf(c, sel, g)) == g.request
  {
    hide Accepted, Ctxs, Rows, CellMap, PromptSet;
    SchemaFields(c);
    SchemaRange(c);
    if c.schema < 5 {
      assert g in CaseWorkloads(c);
      var k :| 0 <= k < |c.cases| && CaseWorkloads(c)[k] == g;
    }
  }

  lemma LoadsExpected(c: Contract, count: Prompt -> int, sel: set<CellName>, g: Workload, name: CellName)
    requires Accepted(c) && Selectable(c, sel) && g in Workloads(c) && name in sel && Offers(g, name)
    ensures KeyOf(name) in CtxOf(c, sel, g).cells
    ensures NamesOk(KeyOf(name), CtxOf(c, sel, g).cells[KeyOf(name)], ByName(Rows(c, count, sel)))
    ensures Load(Written(c, count, sel), CtxOf(c, sel, g), KeyOf(name), ByName(Rows(c, count, sel))) == Expected(c, count, g, name)
  {
    hide Accepted, Selectable, Workloads, Written, Rows, ByName, CellMap, FixtureNames;
    hide RowOf, NamesOk, RequestOf, Chosen, SlotRows, RowsNamed;
    KeyThere(sel, g, name);
    KeyFrom(sel, g, KeyOf(name));
    WrittenNamesOk(c, count, sel, g, KeyOf(name));
    RequestWritten(c, count, sel, g);
    BelowTop(sel, name);
    var names, byName := FixtureNames(g.id, name.domain, name.concurrency), ByName(Rows(c, count, sel));
    forall i | 0 <= i < |names| ensures names[i] in byName && byName[names[i]] == RowOf(c, count, g, name.domain, i) {
      NamedRow(c, count, sel, g, name.domain, i);
    }
    assert RowsNamed(names, byName) == SlotRows(c, count, g, name.domain, name.concurrency);
  }

  // The loaded cells are exactly the selected ones, each with its own target, prompts and request.
  lemma LoadedIsSelected(c: Contract, count: Prompt -> int, sel: set<CellName>, cells: map<CellName, Loaded>)
    requires Accepted(c) && Selectable(c, sel)
    requires var contexts, byName := Ctxs(c, sel, Workloads(c)), ByName(Rows(c, count, sel));
      CtxsOk(SchemaOf(c), contexts, byName) && LoadsAs(Written(c, count, sel), contexts, byName, cells)
    ensures LoadsSelection(c, count, sel, cells)
  {
    hide Accepted, Workloads, Rows, ByName, CtxOf, Ctxs, CtxsOk, Load, Expected, NamesOk;
    var gs, contexts := Workloads(c), Ctxs(c, sel, Workloads(c));
    forall name | name in cells ensures name in sel {
      var i :| 0 <= i < |contexts| && contexts[i].name == name.context && KeyOf(name) in contexts[i].cells;
      var g := CtxAt(c, sel, gs, i);
      CtxFields(c, sel, g);
      KeyFrom(sel, g, KeyOf(name));
    }
    forall g, name | g in gs && name in sel && Offers(g, name)
      ensures name in cells && cells[name] == Expected(c, count, g, name)
    {
      var i := CtxThere(c, sel, gs, g);
      CtxFields(c, sel, g);
      LoadsExpected(c, count, sel, g, name);
      assert CellName(contexts[i].name, KeyOf(name).domain, KeyOf(name).concurrency) == name;
    }
  }

  lemma CtxFields(c: Contract, sel: set<CellName>, g: Workload)
    ensures CtxOf(c, sel, g).name == g.id && CtxOf(c, sel, g).cells == CellMap(sel, g, g.domains)
  {
  }

  lemma TtftWorkload(c: Contract, sel: set<CellName>, name: CellName) returns (g: Workload)
    requires Accepted(c) && Selectable(c, sel) && name in sel && IsTtft(name.context)
    ensures g in Workloads(c) && Offers(g, name) && g.kind == Ttft && g.tokens == 64000 && g.request.output == 1
  {
    hide Accepted, Workloads, ConcurrenciesValid, RequestValid, Distinct;
    g :| g in Workloads(c) && Offers(g, name);
    ValidAt(c, g);
  }

  lemma TtftLoaded(c: Contract, count: Prompt -> int, sel: set<CellName>, cells: map<CellName, Loaded>)
    requires Accepted(c) && Selectable(c, sel) && LoadsSelection(c, count, sel, cells)
    ensures TtftOk(cells) <==> TtftPaired(sel)
  {
    var cold, warm := CellName(COLD, "code", 1), CellName(WARM, "code", 1);
    if cold in sel && warm in sel {
      SamePrompt(c, count, sel, cells);
    }
    hide *;
    TtftEither(sel, cells);
  }

  lemma TtftEither(sel: set<CellName>, cells: map<CellName, Loaded>)
    requires cells.Keys == sel
    requires CellName(COLD, "code", 1) in sel && CellName(WARM, "code", 1) in sel ==> TtftOk(cells)
    ensures TtftOk(cells) <==> TtftPaired(sel)
  {
  }

  lemma SamePrompt(c: Contract, count: Prompt -> int, sel: set<CellName>, cells: map<CellName, Loaded>)
    requires Accepted(c) && Selectable(c, sel) && LoadsSelection(c, count, sel, cells)
    requires CellName(COLD, "code", 1) in sel && CellName(WARM, "code", 1) in sel
    ensures TtftOk(cells)
  {
    hide Accepted, Workloads, Selectable, Offers;
    var cold, warm := CellName(COLD, "code", 1), CellName(WARM, "code", 1);
    var g := TtftWorkload(c, sel, cold);
    var h := TtftWorkload(c, sel, warm);
    assert cells[cold] == Expected(c, count, g, cold) && cells[warm] == Expected(c, count, h, warm);
    assert TextOf(c, g, "code", 0) == TextOf(c, h, "code", 0);
  }

  // materialize, then load_prompt_plan.
  method WriteThenLoad(c: Contract, count: Prompt -> int, sel: set<CellName>) returns (r: Option<map<CellName, Loaded>>)
    requires Accepted(c)
    ensures r.Some? <==>
      Selectable(c, sel) && Positive(Rows(c, count, sel)) && WithinTemperature(c, sel) && TtftPaired(sel)
    ensures r.Some? ==> LoadsSelection(c, count, sel, r.value)
  {
    hide *;
    var written := Materialize(c, count, sel);
    if written.None? { return None; }
    WrittenIsAcceptable(c, count, sel);
    WrittenFields(c, count, sel);
    r := LoadPromptPlan(written.value.0, written.value.1);
    Refusals(written.value.0, written.value.1);
    if r.Some? {
      LoadedIsSelected(c, count, sel, r.value);
      TtftLoaded(c, count, sel, r.value);
    } else if WithinTemperature(c, sel) {
      ghost var plan := written.value.0;
      ghost var cells :| LoadsAs(plan, plan.contexts, ByName(plan.fixtures), cells) && !TtftOk(cells);
      LoadedIsSelected(c, count, sel, cells);
      TtftLoaded(c, count, sel, cells);
    }
  }

  lemma WrittenFields(c: Contract, count: Prompt -> int, sel: set<CellName>)
    ensures Written(c, count, sel).schema == SchemaOf(c)
    ensures Written(c, count, sel).fixtures == Rows(c, count, sel)
    ensures Written(c, count, sel).contexts == Ctxs(c, sel, Workloads(c))
  {
  }

  // Concurrency, target tokens and output budget survive the round trip.
  lemma BudgetsKept(c: Contract, count: Prompt -> int, sel: set<CellName>, declared: map<CellName, Cell>, cells: map<CellName, Loaded>)
    requires Accepted(c) && Selectable(c, sel) && LoadsSelection(c, count, sel, cells)
    requires CellsOf((set g | g in Workloads(c)), declared)
    ensures forall name :: name in sel ==>
      name in declared && name in cells &&
      declared[name] == Cell(cells[name].domain, cells[name].tokens, |cells[name].fixtures|, cells[name].request.output)
  {
    hide Accepted, Workloads, RowOf;
    forall name | name in sel
      ensures name in declared && name in cells
      ensures declared[name] == Cell(cells[name].domain, cells[name].tokens, |cells[name].fixtures|, cells[name].request.output)
    {
      var g :| g in Workloads(c) && Offers(g, name);
      assert g in set h | h in Workloads(c);
      assert AllIn(g, declared.Keys) && CellName(g.id, name.domain, name.concurrency) == name;
      assert declared[name] == CellOf(g, name);
      assert cells[name] == Expected(c, count, g, name);
    }
  }

  lemma WorkloadRequest(c: Contract, g: Workload)
    requires Accepted(c) && g in Workloads(c)
    ensures g.id == SHORT ==> c.short.Some? && g.request == c.short.value.request
    ensures g.id in {COLD, WARM} ==> c.ttft.Some? && g.request == c.ttft.value.request
    ensures g.id in CONTEXTS ==> g.request == c.request
  {
    hide Accepted, Rank;
    Ranks();
    CaseOrder(c);
    if g in CaseWorkloads(c) {
      var k :| 0 <= k < |c.cases| && CaseWorkloads(c)[k] == g;
    }
  }

  // A loaded cell sends the request of its own section of the contract.
  lemma RequestsKept(c: Contract, count: Prompt -> int, sel: set<CellName>, cells: map<CellName, Loaded>)
    requires Accepted(c) && Selectable(c, sel) && LoadsSelection(c, count, sel, cells)
    ensures forall name :: name in sel ==>
      && (name.context == SHORT ==> c.short.Some? && cells[name].request == c.short.value.request)
      && (name.context in {COLD, WARM} ==> c.ttft.Some? && cells[name].request == c.ttft.value.request)
      && (name.context in CONTEXTS ==> cells[name].request == c.request)
  {
    hide Accepted, Workloads;
    forall name | name in sel
      ensures name.context == SHORT ==> c.short.Some? && cells[name].request == c.short.value.request
      ensures name.context in {COLD, WARM} ==> c.ttft.Some? && cells[name].request == c.ttft.value.request
      ensures name.context in CONTEXTS ==> cells[name].request == c.request
    {
      var g :| g in Workloads(c) && Offers(g, name);
      WorkloadRequest(c, g);
      assert cells[name] == Expected(c, count, g, name);
    }
  }

  // ---------------------------------------------------------------- which prompts are written

  // Outside the short and TTFT contexts, different context, domain or slot means different bytes.
  lemma LongPromptsDiffer(c: Contract, g: Workload, h: Workload, d: string, e: string, i: nat, j: nat)
    requires Accepted(c) && g in Workloads(c) && h in Workloads(c) && g.kind == Long && h.kind == Long
    requires TextOf(c, g, d, i) == TextOf(c, h, e, j)
    ensures g == h && d == e && i == j
  {
    hide Accepted, Workloads;
    OneWorkload(c, g, h);
  }

  // Every written row counts its own bytes. A short prompt is its domain's template whatever the slot; a
  // long one is rendered for its own context, domain and slot; the TTFT phases render one shared content.
  lemma RowsAreRendered(c: Contract, count: Prompt -> int, sel: set<CellName>, i: nat)
    requires Accepted(c) && i < |Rows(c, count, sel)|
    ensures var row := Rows(c, count, sel)[i];
      && row.tokens == count(row.sha) && row.domain == row.name.domain
      && (row.name.context == SHORT ==> row.sha == ShortTemplate(row.domain))
      && (row.name.context in CONTEXTS ==>
            row.sha.Rendered? && row.sha.content == row.name.context && row.sha.domain == row.domain && row.sha.slot == row.name.slot)
      && (row.name.context in {COLD, WARM} ==>
            row.sha.Rendered? && row.sha.content == "ttft64k" && row.sha.domain == row.domain && row.sha.slot == row.name.slot)
  {
    hide Accepted, Workloads, WorkloadRows, Chosen, ConcurrenciesValid, RequestValid, Distinct;
    var g, d, slot := WorkloadRowAt(c, count, sel, Workloads(c), i);
    ValidAt(c, g);
    Ranks();
  }

  // ---------------------------------------------------------------- refused plans exist

  function Warm(temperature: real): Request { Request(16, 1, false, temperature, 0) }

  function SampleContract(temperature: real): Contract {
    Contract(7, Warm(temperature), ["code"], [Case("32k", 32000, [1])],
             Some(ShortWorkload(64, [1, 2, 4], DOMAINS, Warm(0.0))),
             Some(TtftCache(64000, "code", Request(1, 1, false, 0.0, 0))), 5)
  }

  lemma SampleAccepted(temperature: real)
    requires temperature >= 0.0
    ensures Accepted(SampleContract(temperature))
  {
  }

  lemma CaseSelectable(c: Contract, d: string, n: nat)
    requires c.cases != [] && d in c.domains && n in c.cases[0].concurrencies
    ensures Selectable(c, {CellName(c.cases[0].id, d, n)})
  {
    var g := CaseWorkloads(c)[0];
    assert g in CaseWorkloads(c) && g in Workloads(c);
    assert Offers(g, CellName(c.cases[0].id, d, n));
  }

  lemma ColdSelectable(c: Contract)
    requires c.ttft.Some?
    ensures Selectable(c, {CellName(COLD, c.ttft.value.domain, 1)})
  {
    var g := TtftWorkloads(c)[0];
    assert g in TtftWorkloads(c) && g in Workloads(c);
    assert Offers(g, CellName(COLD, c.ttft.value.domain, 1));
  }

  // An accepted contract at temperature 3 writes a plan that the loader refuses.
  lemma HotPlanRefused(count: Prompt -> int)
    requires forall text :: count(text) > 0
    ensures var c, sel := SampleContract(3.0), {CellName("32k", "code", 1)};
      Accepted(c) && Selectable(c, sel) && !Acceptable(Written(c, count, sel), FilesOf(Rows(c, count, sel)))
  {
    hide Accepted, Acceptable, Written, Rows, FilesOf, Workloads, Selectable, Positive, Picked;
    var c := SampleContract(3.0);
    SampleAccepted(3.0);
    CaseSelectable(c, "code", 1);
    AlwaysPositive(c, count, {CellName("32k", "code", 1)});
    WrittenIsAcceptable(c, count, {CellName("32k", "code", 1)});
  }

  // An accepted contract lets one TTFT phase be selected without the other.
  lemma HalfPairSelectable()
    ensures var c, sel := SampleContract(0.0), {CellName(COLD, "code", 1)};
      Accepted(c) && Selectable(c, sel) && !TtftPaired(sel)
  {
    hide Accepted, Selectable;
    SampleAccepted(0.0);
    ColdSelectable(SampleContract(0.0));
  }

  lemma AlwaysPositive(c: Contract, count: Prompt -> int, sel: set<CellName>)
    requires forall text :: count(text) > 0
    ensures Positive(Rows(c, count, sel))
  {
    hide Workloads, Chosen;
    forall i | 0 <= i < |Rows(c, count, sel)| ensures Rows(c, count, sel)[i].tokens > 0 {
      var g, d, slot := WorkloadRowAt(c, count, sel, Workloads(c), i);
    }
  }
}
