/** The prompt plan as a document, and the loader that accepts or refuses any such document
    (load_prompt_plan in benchmarks/runtime_matrix.py). */
module PromptPlan {
  import opened Text
  import opened CellSelection
  import opened PromptContract

  // ---------------------------------------------------------------- names

  datatype FixtureName = FixtureName(context: string, domain: string, slot: nat) {
    // f"{context}-{domain}-s{slot:02d}", also the stem of the prompt file
    function Text(): string { Join([context, domain, "s" + Padded(slot, 2)], '-') }
  }

  datatype Key = Key(domain: string, concurrency: nat) {
    // f"{domain}-c{concurrency}"
    function Text(): string { Join([domain, "c" + Numeral(concurrency)], '-') }
  }

  // The plan is keyed by texts; on plain parts different names and keys never share a text.
  lemma FixtureTextsDiffer(a: FixtureName, b: FixtureName)
    requires Plain(a.context) && Plain(a.domain) && Plain(b.context) && Plain(b.domain)
    requires a.Text() == b.Text()
    ensures a == b
  {
    hide Split, Join, Padded;
    var x, y := "s" + Padded(a.slot, 2), "s" + Padded(b.slot, 2);
    assert Plain(x) && Plain(y);
    ThreeParts(a.context, a.domain, x, b.context, b.domain, y);
    assert x[1..] == Padded(a.slot, 2) && y[1..] == Padded(b.slot, 2);
    PaddedInjective(a.slot, b.slot, 2);
  }

  lemma ThreeParts(a: string, b: string, c: string, x: string, y: string, z: string)
    requires Plain(a) && Plain(b) && Plain(c) && Plain(x) && Plain(y) && Plain(z)
    requires Join([a, b, c], '-') == Join([x, y, z], '-')
    ensures a == x && b == y && c == z
  {
    var one, two := [a, b, c], [x, y, z];
    hide Split, Join;
    SplitJoin(one, '-');
    SplitJoin(two, '-');
    assert one[0] == two[0] && one[1] == two[1] && one[2] == two[2];
  }

  lemma KeyTextsDiffer(a: Key, b: Key)
    requires Plain(a.domain) && Plain(b.domain) && a.Text() == b.Text()
    ensures a == b
  {
    var x, y := "c" + Numeral(a.concurrency), "c" + Numeral(b.concurrency);
    hide Split, Join;
    SplitJoin([a.domain, x], '-');
    SplitJoin([b.domain, y], '-');
    assert [a.domain, x][1] == [b.domain, y][1];
    assert x[1..] == Numeral(a.concurrency) && y[1..] == Numeral(b.concurrency);
    NumeralValue(a.concurrency);
    NumeralValue(b.concurrency);
  }

  // ---------------------------------------------------------------- the document

  // A prompt's bytes, and equally their SHA-256: what the renderer was given determines them.
  datatype Prompt = ShortTemplate(domain: string)
                  | Rendered(shared: bool, content: string, domain: string, slot: nat, tokens: int)

  datatype Row = Row(name: FixtureName, sha: Prompt, tokens: int, domain: string)
  datatype Ctx = Ctx(name: string, tokens: int, cells: map<Key, seq<FixtureName>>, request: Option<Request>)
  datatype Plan = Plan(
    schema: nat, interval: int, request: Request, fixtures: seq<Row>, contexts: seq<Ctx>,
    promptSet: set<(FixtureName, Prompt)>)

  type Files = map<FixtureName, Prompt>

  // The digest over the sorted (path, hash) lines.
  function PromptSet(rows: seq<Row>): set<(FixtureName, Prompt)> {
    set i | 0 <= i < |rows| :: (rows[i].name, rows[i].sha)
  }

  datatype Loaded = Loaded(domain: string, tokens: int, fixtures: seq<Row>, request: Request)

  // ---------------------------------------------------------------- what the loader demands

  predicate PlanRequestOk(r: Request) {
    r.output > 0 && r.minimum > 0 && r.minimum <= r.output && 0.0 <= r.temperature <= 2.0
  }

  predicate RowOk(row: Row, files: Files) {
    row.name in files && files[row.name] == row.sha && row.tokens > 0 && row.domain in DOMAINS
  }

  predicate RowsOk(rows: seq<Row>, files: Files) { rows != [] && RowsFine(rows, files) }

  predicate RowsFine(rows: seq<Row>, files: Files) {
    && (forall i :: 0 <= i < |rows| ==> RowOk(rows[i], files))
    && (forall i, j :: 0 <= i < j < |rows| ==> rows[i].name != rows[j].name)
  }

  function ByName(rows: seq<Row>): (m: map<FixtureName, Row>)
    ensures forall name :: name in m ==> m[name] in rows && m[name].name == name
    ensures forall row :: row in rows ==> row.name in m
  {
    if rows == [] then map[]
    else
      var last := rows[|rows| - 1];
      assert rows == rows[..|rows| - 1] + [last];
      ByName(rows[..|rows| - 1])[last.name := last]
  }

  predicate Known(key: Key) { key.domain in DOMAINS && key.concurrency in CONCURRENCIES }

  predicate NamesOk(key: Key, names: seq<FixtureName>, byName: map<FixtureName, Row>) {
    && |names| == key.concurrency
    && Distinct(names)
    && (forall i :: 0 <= i < |names| ==> names[i] in byName && byName[names[i]].domain == key.domain)
  }

  predicate CtxOk(schema: nat, ctx: Ctx, byName: map<FixtureName, Row>) {
    && ctx.name in ValidContexts(schema)
    && ctx.tokens > 0
    && (schema == 3 ==> ctx.request.Some? && PlanRequestOk(ctx.request.value))
    && ctx.cells != map[]
    && (forall key :: key in ctx.cells ==> Known(key))
    && (ctx.name == SHORT ==> forall key :: key in ctx.cells ==> key.concurrency in {1, 2, 4})
    && (forall key :: key in ctx.cells ==> NamesOk(key, ctx.cells[key], byName))
  }

  function ValidContexts(schema: nat): seq<string> { if schema == 3 then ALL_CONTEXTS else CONTEXTS }

  predicate CtxsOk(schema: nat, contexts: seq<Ctx>, byName: map<FixtureName, Row>) {
    && (forall i :: 0 <= i < |contexts| ==> CtxOk(schema, contexts[i], byName))
    && (forall i, j :: 0 <= i < j < |contexts| ==> Rank(contexts[i].name) < Rank(contexts[j].name))
  }

  function RequestOf(plan: Plan, ctx: Ctx): Request {
    if plan.schema == 3 && ctx.request.Some? then ctx.request.value else plan.request
  }

  function RowsNamed(names: seq<FixtureName>, byName: map<FixtureName, Row>): (rows: seq<Row>)
    requires forall i :: 0 <= i < |names| ==> names[i] in byName
    ensures |rows| == |names| && forall i :: 0 <= i < |names| ==> rows[i] == byName[names[i]]
  {
    seq(|names|, i requires 0 <= i < |names| => byName[names[i]])
  }

  function Load(plan: Plan, ctx: Ctx, key: Key, byName: map<FixtureName, Row>): Loaded
    requires key in ctx.cells && NamesOk(key, ctx.cells[key], byName)
  {
    Loaded(key.domain, ctx.tokens, RowsNamed(ctx.cells[key], byName), RequestOf(plan, ctx))
  }

  function KeyOf(name: CellName): Key { Key(name.domain, name.concurrency) }

  // Exactly the cells of these contexts, each with its context's target and request.
  predicate LoadsAs(plan: Plan, contexts: seq<Ctx>, byName: map<FixtureName, Row>, cells: map<CellName, Loaded>)
    requires CtxsOk(plan.schema, contexts, byName)
  {
    && (forall name :: name in cells ==>
          exists i :: 0 <= i < |contexts| && contexts[i].name == name.context && KeyOf(name) in contexts[i].cells)
    && (forall i, key :: 0 <= i < |contexts| && key in contexts[i].cells ==>
          && CellName(contexts[i].name, key.domain, key.concurrency) in cells
          && cells[CellName(contexts[i].name, key.domain, key.concurrency)] == Load(plan, contexts[i], key, byName))
  }

  predicate Used(contexts: seq<Ctx>, name: FixtureName) {
    exists i, key :: 0 <= i < |contexts| && key in contexts[i].cells && name in contexts[i].cells[key]
  }

  // Both TTFT phases or neither, repeating one exact one-token prompt.
  predicate TtftOk(cells: map<CellName, Loaded>) {
    var cold, warm := CellName(COLD, "code", 1), CellName(WARM, "code", 1);
    cold in cells || warm in cells ==>
      && cold in cells && warm in cells
      && cells[cold].tokens == 64000 && cells[warm].tokens == 64000
      && cells[cold].request.output == 1 && cells[warm].request.output == 1
      && |cells[cold].fixtures| > 0 && |cells[warm].fixtures| > 0
      && cells[cold].fixtures[0].sha == cells[warm].fixtures[0].sha
      && cells[cold].fixtures[0].tokens == cells[warm].fixtures[0].tokens
  }

  predicate Acceptable(plan: Plan, files: Files) {
    && plan.schema in {2, 3}
    && PlanRequestOk(plan.request)
    && RowsOk(plan.fixtures, files)
    && plan.promptSet == PromptSet(plan.fixtures)
    && plan.contexts != []
    && CtxsOk(plan.schema, plan.contexts, ByName(plan.fixtures))
    && (forall i :: 0 <= i < |plan.fixtures| ==> Used(plan.contexts, plan.fixtures[i].name))
    && 1 <= plan.interval <= 60
  }

  // ---------------------------------------------------------------- the loader

  // _validate_plan_request.
  method CheckPlanRequest(r: Request) returns (ok: bool)
    ensures ok <==> PlanRequestOk(r)
  {
    if r.output <= 0 || r.minimum <= 0 { return false; }
    if r.minimum > r.output { return false; }
    return 0.0 <= r.temperature && r.temperature <= 2.0;
  }

  method CheckRow(row: Row, files: Files) returns (ok: bool)
    ensures ok <==> RowOk(row, files)
  {
    if row.name !in files || files[row.name] != row.sha { return false; }
    if row.tokens <= 0 { return false; }
    return row.domain == "code" || row.domain == "prose";
  }

  // The names of one cell: as many as its streams, no duplicates, all known, all of its domain.
  method CheckNames(key: Key, names: seq<FixtureName>, byName: map<FixtureName, Row>) returns (ok: bool)
    ensures ok <==> NamesOk(key, names, byName)
  {
    if |names| != key.concurrency { return false; }
    var seen: set<FixtureName> := {};
    for i := 0 to |names|
      invariant seen == set k | 0 <= k < i :: names[k]
      invariant Distinct(names[..i])
      invariant forall k :: 0 <= k < i ==> names[k] in byName && byName[names[k]].domain == key.domain
    {
      if names[i] in seen {
        var k :| 0 <= k < i && names[k] == names[i];
        return false;
      }
      if names[i] !in byName || byName[names[i]].domain != key.domain { return false; }
      seen := seen + {names[i]};
    }
    assert names[..|names|] == names;
    return true;
  }

  method LoadRows(plan: Plan, files: Files) returns (r: Option<map<FixtureName, Row>>)
    ensures r.Some? <==> RowsOk(plan.fixtures, files) && plan.promptSet == PromptSet(plan.fixtures)
    ensures r.Some? ==> r.value == ByName(plan.fixtures)
  {
    hide RowsFine, RowOk, ByName;
    var rows := plan.fixtures;
    if rows == [] { return None; }
    var byName: map<FixtureName, Row> := map[];
    NoRows(files);
    for i := 0 to |rows|
      invariant byName == ByName(rows[..i]) && RowsFine(rows[..i], files)
    {
      var row := rows[i];
      assert rows[..i + 1] == rows[..i] + [row];
      OneMoreRow(rows[..i], row, files);
      RowsPrefix(rows, i + 1, files);
      if row.name in byName { return None; }
      var fine := CheckRow(row, files);
      if !fine { return None; }
      byName := byName[row.name := row];
    }
    assert rows[..|rows|] == rows;
    if plan.promptSet != PromptSet(rows) { return None; }
    return Some(byName);
  }

  lemma NoRows(files: Files)
    ensures ByName([]) == map[] && RowsFine([], files)
  {
  }

  lemma OneMoreRow(rows: seq<Row>, row: Row, files: Files)
    requires RowsFine(rows, files)
    ensures ByName(rows + [row]) == ByName(rows)[row.name := row]
    ensures RowsFine(rows + [row], files) <==> RowOk(row, files) && row.name !in ByName(rows)
  {
    assert ByName(rows + [row]) == ByName(rows)[row.name := row] by {
      assert (rows + [row])[..|rows + [row]| - 1] == rows;
    }
    hide RowOk, ByName, RowsFine;
    NameTaken(rows, row);
    FineStep(rows, row, files);
  }

  lemma FineStep(rows: seq<Row>, row: Row, files: Files)
    requires RowsFine(rows, files)
    ensures RowsFine(rows + [row], files) <==>
      RowOk(row, files) && !exists k :: 0 <= k < |rows| && rows[k].name == row.name
  {
    hide RowOk;
    var all := rows + [row];
    assert all[|rows|] == row && forall k :: 0 <= k < |rows| ==> all[k] == rows[k];
    assert RowsFine(all, files) ==> RowOk(all[|rows|], files);
    assert RowsFine(all, files) ==> forall k :: 0 <= k < |rows| ==> all[k].name != all[|rows|].name;
  }

  lemma NameTaken(rows: seq<Row>, row: Row)
    ensures row.name in ByName(rows) <==> exists k :: 0 <= k < |rows| && rows[k].name == row.name
  {
    if row.name in ByName(rows) {
      var k :| 0 <= k < |rows| && rows[k] == ByName(rows)[row.name];
    }
    if k :| 0 <= k < |rows| && rows[k].name == row.name {
      assert rows[k] in rows;
    }
  }

  lemma RowsPrefix(rows: seq<Row>, i: nat, files: Files)
    requires i <= |rows|
    ensures RowsFine(rows, files) ==> RowsFine(rows[..i], files)
  {
    hide RowOk;
  }

  predicate Here(ctx: Ctx, n: nat, domains: seq<string>, name: CellName) {
    name.context == ctx.name && name.concurrency == n && name.domain in domains && KeyOf(name) in ctx.cells
  }

  predicate AllNamesOk(ctx: Ctx, byName: map<FixtureName, Row>, n: nat, domains: seq<string>) {
    forall key :: key in ctx.cells && key.concurrency == n && key.domain in domains ==> NamesOk(key, ctx.cells[key], byName)
  }

  // The inner loop: the keys of one concurrency, over the domains.
  method LoadConcurrency(plan: Plan, ctx: Ctx, byName: map<FixtureName, Row>, before: map<CellName, Loaded>, n: nat)
    returns (r: Option<map<CellName, Loaded>>)
    requires forall name :: name in before ==> name.concurrency != n
    ensures r.Some? <==> AllNamesOk(ctx, byName, n, DOMAINS)
    ensures r.Some? ==> forall name :: name in r.value <==> name in before || Here(ctx, n, DOMAINS, name)
    ensures r.Some? ==> forall name :: name in r.value ==>
      r.value[name] == if Here(ctx, n, DOMAINS, name) then Load(plan, ctx, KeyOf(name), byName) else before[name]
  {
    hide NamesOk;
    var cells := before;
    for k := 0 to |DOMAINS|
      invariant AllNamesOk(ctx, byName, n, DOMAINS[..k])
      invariant forall name :: name in cells <==> name in before || Here(ctx, n, DOMAINS[..k], name)
      invariant forall name :: name in cells ==>
        cells[name] == if Here(ctx, n, DOMAINS[..k], name) then Load(plan, ctx, KeyOf(name), byName) else before[name]
    {
      var d := DOMAINS[k];
      assert DOMAINS[..k + 1] == DOMAINS[..k] + [d];
      var key := Key(d, n);
      if key in ctx.cells {
        var fine := CheckNames(key, ctx.cells[key], byName);
        if !fine { return None; }
        cells := cells[CellName(ctx.name, d, n) := Load(plan, ctx, key, byName)];
      }
      assert forall other :: other in ctx.cells && other.concurrency == n && other.domain == d ==> other == key;
      assert forall name :: Here(ctx, n, [d], name) ==> name == CellName(ctx.name, d, n);
    }
    assert DOMAINS[..|DOMAINS|] == DOMAINS;
    return Some(cells);
  }

  ghost predicate CellsFor(plan: Plan, ctx: Ctx, byName: map<FixtureName, Row>, ns: seq<nat>, cells: map<CellName, Loaded>) {
    && (forall n :: n in ns ==> AllNamesOk(ctx, byName, n, DOMAINS))
    && (forall name :: name in cells <==> name.concurrency in ns && Here(ctx, name.concurrency, DOMAINS, name))
    && (forall name :: name in cells ==> cells[name] == Load(plan, ctx, KeyOf(name), byName))
  }

  method LoadKeys(plan: Plan, ctx: Ctx, byName: map<FixtureName, Row>) returns (r: Option<map<CellName, Loaded>>)
    ensures r.Some? <==> forall n :: n in CONCURRENCIES ==> AllNamesOk(ctx, byName, n, DOMAINS)
    ensures r.Some? ==> CellsFor(plan, ctx, byName, CONCURRENCIES, r.value)
  {
    hide NamesOk, AllNamesOk;
    var cells: map<CellName, Loaded> := map[];
    var all := CONCURRENCIES;
    assert Distinct(all);
    hide Distinct;
    for i := 0 to |all|
      invariant CellsFor(plan, ctx, byName, all[..i], cells)
    {
      assert all[i] !in all[..i];
      assert all[..i + 1] == all[..i] + [all[i]];
      var more := LoadConcurrency(plan, ctx, byName, cells, all[i]);
      if more.None? { return None; }
      cells := more.value;
    }
    assert all[..|all|] == all;
    return Some(cells);
  }

  // The checks on one context.
  method LoadContext(plan: Plan, ctx: Ctx, byName: map<FixtureName, Row>) returns (r: Option<map<CellName, Loaded>>)
    requires plan.schema in {2, 3}
    ensures r.Some? <==> CtxOk(plan.schema, ctx, byName)
    ensures r.Some? ==> forall name :: name in r.value <==> name.context == ctx.name && KeyOf(name) in ctx.cells
    ensures r.Some? ==> forall name :: name in r.value ==> r.value[name] == Load(plan, ctx, KeyOf(name), byName)
  {
    hide NamesOk, PlanRequestOk;
    if ctx.name !in ValidContexts(plan.schema) || ctx.tokens <= 0 { return None; }
    if plan.schema == 3 {
      if ctx.request.None? { return None; }
      var fine := CheckPlanRequest(ctx.request.value);
      if !fine { return None; }
    }
    if ctx.cells == map[] { return None; }
    if exists key :: key in ctx.cells && (key.domain !in DOMAINS || key.concurrency !in CONCURRENCIES) {
      assert exists key :: key in ctx.cells && !Known(key);
      return None;
    }
    if ctx.name == SHORT && exists key :: key in ctx.cells && key.concurrency !in {1, 2, 4} { return None; }
    r := LoadKeys(plan, ctx, byName);
    AllKeys(ctx, byName);
  }

  lemma AllKeys(ctx: Ctx, byName: map<FixtureName, Row>)
    requires forall key :: key in ctx.cells ==> Known(key)
    ensures (forall n :: n in CONCURRENCIES ==> AllNamesOk(ctx, byName, n, DOMAINS)) <==>
            forall key :: key in ctx.cells ==> NamesOk(key, ctx.cells[key], byName)
    ensures forall name :: KeyOf(name) in ctx.cells ==> name.concurrency in CONCURRENCIES && name.domain in DOMAINS
  {
    hide NamesOk;
    forall name | KeyOf(name) in ctx.cells ensures name.concurrency in CONCURRENCIES && name.domain in DOMAINS {
      assert Known(KeyOf(name));
    }
    if forall n :: n in CONCURRENCIES ==> AllNamesOk(ctx, byName, n, DOMAINS) {
      forall key | key in ctx.cells ensures NamesOk(key, ctx.cells[key], byName) {
        assert AllNamesOk(ctx, byName, key.concurrency, DOMAINS);
      }
    }
  }

  lemma NoContexts(plan: Plan, byName: map<FixtureName, Row>)
    ensures CtxsOk(plan.schema, [], byName) && LoadsAs(plan, [], byName, map[])
  {
  }

  lemma CtxsPrefix(schema: nat, contexts: seq<Ctx>, i: nat, byName: map<FixtureName, Row>)
    requires i <= |contexts|
    ensures CtxsOk(schema, contexts, byName) ==> CtxsOk(schema, contexts[..i], byName)
  {
    hide CtxOk, Rank;
  }

  lemma OneMoreCtx(schema: nat, front: seq<Ctx>, ctx: Ctx, byName: map<FixtureName, Row>)
    requires CtxsOk(schema, front, byName)
    ensures CtxsOk(schema, front + [ctx], byName) <==>
      CtxOk(schema, ctx, byName) && (front != [] ==> Rank(front[|front| - 1].name) < Rank(ctx.name))
  {
    hide CtxOk, Rank;
    var all := front + [ctx];
    assert all[|front|] == ctx && forall i :: 0 <= i < |front| ==> all[i] == front[i];
    if front != [] {
      assert forall i :: 0 <= i < |front| ==> Rank(front[i].name) <= Rank(front[|front| - 1].name);
      assert CtxsOk(schema, all, byName) ==> Rank(all[|front| - 1].name) < Rank(all[|front|].name);
    }
  }

  lemma CtxNames(schema: nat, contexts: seq<Ctx>, byName: map<FixtureName, Row>)
    requires CtxsOk(schema, contexts, byName)
    ensures forall i, key :: 0 <= i < |contexts| && key in contexts[i].cells ==>
      NamesOk(key, contexts[i].cells[key], byName)
  {
    hide NamesOk, Rank, Known, PlanRequestOk;
  }

  // The contexts of an accepted plan leave no choice of cells.
  lemma LoadedOnce(plan: Plan, contexts: seq<Ctx>, byName: map<FixtureName, Row>,
                   a: map<CellName, Loaded>, b: map<CellName, Loaded>)
    requires CtxsOk(plan.schema, contexts, byName)
    requires LoadsAs(plan, contexts, byName, a) && LoadsAs(plan, contexts, byName, b)
    ensures a == b
  {
    hide *;
    LoadedWithin(plan, contexts, byName, a, b);
    LoadedWithin(plan, contexts, byName, b, a);
  }

  lemma LoadedWithin(plan: Plan, contexts: seq<Ctx>, byName: map<FixtureName, Row>,
                     a: map<CellName, Loaded>, b: map<CellName, Loaded>)
    requires CtxsOk(plan.schema, contexts, byName)
    requires LoadsAs(plan, contexts, byName, a) && LoadsAs(plan, contexts, byName, b)
    ensures forall name :: name in a ==> name in b && a[name] == b[name]
  {
    CtxNames(plan.schema, contexts, byName);
    hide CtxsOk, Load, NamesOk;
    forall name | name in a ensures name in b && a[name] == b[name] {
      var i :| 0 <= i < |contexts| && contexts[i].name == name.context && KeyOf(name) in contexts[i].cells;
      assert CellName(contexts[i].name, KeyOf(name).domain, KeyOf(name).concurrency) == name;
    }
  }

  lemma MoreLoaded(plan: Plan, front: seq<Ctx>, ctx: Ctx, byName: map<FixtureName, Row>,
                   cells: map<CellName, Loaded>, more: map<CellName, Loaded>)
    requires CtxsOk(plan.schema, front + [ctx], byName) && CtxsOk(plan.schema, front, byName)
    requires CtxOk(plan.schema, ctx, byName)
    requires LoadsAs(plan, front, byName, cells)
    requires forall name :: name in more <==> name.context == ctx.name && KeyOf(name) in ctx.cells
    requires forall name :: name in more ==> more[name] == Load(plan, ctx, KeyOf(name), byName)
    ensures LoadsAs(plan, front + [ctx], byName, cells + more)
  {
    hide CtxOk, Rank, Load, NamesOk;
    var all, out := front + [ctx], cells + more;
    CtxNames(plan.schema, all, byName);
    forall name | name in out
      ensures exists i :: 0 <= i < |all| && all[i].name == name.context && KeyOf(name) in all[i].cells
    {
      if name in more {
        assert all[|front|] == ctx;
      } else {
        var i :| 0 <= i < |front| && front[i].name == name.context && KeyOf(name) in front[i].cells;
        assert all[i] == front[i];
      }
    }
    forall i, key | 0 <= i < |all| && key in all[i].cells
      ensures CellName(all[i].name, key.domain, key.concurrency) in out
      ensures out[CellName(all[i].name, key.domain, key.concurrency)] == Load(plan, all[i], key, byName)
    {
      var name := CellName(all[i].name, key.domain, key.concurrency);
      assert KeyOf(name) == key;
      if i < |front| {
        assert all[i] == front[i] && all[|front|] == ctx;
        assert Rank(all[i].name) < Rank(all[|front|].name);
        assert name !in more;
      }
    }
  }

  // load_prompt_plan: None where it raises. The cells are exactly those the plan's contexts hold.
  method LoadPromptPlan(plan: Plan, files: Files) returns (r: Option<map<CellName, Loaded>>)
    ensures r.Some? ==> Acceptable(plan, files) && LoadsAs(plan, plan.contexts, ByName(plan.fixtures), r.value) && TtftOk(r.value)
    ensures r.None? && Acceptable(plan, files) ==>
      exists cells :: LoadsAs(plan, plan.contexts, ByName(plan.fixtures), cells) && !TtftOk(cells)
  {
    hide *;
    Refusals(plan, files);
    if plan.schema !in {2, 3} { return None; }
    var fine := CheckPlanRequest(plan.request);
    if !fine { return None; }
    var byName := LoadRows(plan, files);
    if byName.None? { return None; }
    if plan.contexts == [] { return None; }
    var cells := LoadContexts(plan, byName.value);
    if cells.None? { return None; }
    if exists i :: 0 <= i < |plan.fixtures| && !Used(plan.contexts, plan.fixtures[i].name) { return None; }
    if !TtftOk(cells.value) { return None; }
    if !(1 <= plan.interval <= 60) { return None; }
    Accepts(plan, files);
    return cells;
  }

  method LoadContexts(plan: Plan, byName: map<FixtureName, Row>) returns (r: Option<map<CellName, Loaded>>)
    requires plan.schema in {2, 3}
    ensures r.Some? <==> CtxsOk(plan.schema, plan.contexts, byName)
    ensures r.Some? ==> LoadsAs(plan, plan.contexts, byName, r.value)
  {
    hide *;
    var cells: map<CellName, Loaded> := map[];
    NoContexts(plan, byName);
    for i := 0 to |plan.contexts|
      invariant CtxsOk(plan.schema, plan.contexts[..i], byName)
      invariant LoadsAs(plan, plan.contexts[..i], byName, cells)
    {
      var ctx := plan.contexts[i];
      assert plan.contexts[..i + 1] == plan.contexts[..i] + [ctx];
      OneMoreCtx(plan.schema, plan.contexts[..i], ctx, byName);
      CtxsPrefix(plan.schema, plan.contexts, i + 1, byName);
      if i > 0 && Rank(ctx.name) <= Rank(plan.contexts[i - 1].name) { return None; }
      var more := LoadContext(plan, ctx, byName);
      if more.None? { return None; }
      MoreLoaded(plan, plan.contexts[..i], ctx, byName, cells, more.value);
      cells := cells + more.value;
    }
    assert plan.contexts[..|plan.contexts|] == plan.contexts;
    return Some(cells);
  }

  lemma Refusals(plan: Plan, files: Files)
    ensures Acceptable(plan, files) ==>
      && plan.schema in {2, 3} && PlanRequestOk(plan.request)
      && RowsOk(plan.fixtures, files) && plan.promptSet == PromptSet(plan.fixtures)
      && plan.contexts != [] && CtxsOk(plan.schema, plan.contexts, ByName(plan.fixtures))
      && (forall i :: 0 <= i < |plan.fixtures| ==> Used(plan.contexts, plan.fixtures[i].name))
      && 1 <= plan.interval <= 60
  {
  }

  lemma Accepts(plan: Plan, files: Files)
    requires plan.schema in {2, 3} && PlanRequestOk(plan.request)
    requires RowsOk(plan.fixtures, files) && plan.promptSet == PromptSet(plan.fixtures)
    requires plan.contexts != [] && CtxsOk(plan.schema, plan.contexts, ByName(plan.fixtures))
    requires forall i :: 0 <= i < |plan.fixtures| ==> Used(plan.contexts, plan.fixtures[i].name)
    requires 1 <= plan.interval <= 60
    ensures Acceptable(plan, files)
  {
  }
}
