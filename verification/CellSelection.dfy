/** Cell selection and isolation groups of the benchmark matrix
    (benchmarks/runtime_matrix.py): which cells run, in which order, and where each
    isolation group starts and ends. */
module CellSelection {
  import opened Text

  // ---------------------------------------------------------------- cell names

  datatype CellName = CellName(context: string, domain: string, concurrency: nat) {
    // f"{context}-{domain}-c{concurrency}"
    function Text(): string { Join([context, domain, "c" + Numeral(concurrency)], '-') }
  }

  predicate Plain(s: string) { '-' !in s }

  predicate StartsWith(s: string, prefix: string) { |prefix| <= |s| && s[..|prefix|] == prefix }

  predicate EndsWith(s: string, suffix: string) { |suffix| <= |s| && s[|s| - |suffix|..] == suffix }

  lemma NameParts(n: CellName)
    requires Plain(n.context) && Plain(n.domain)
    ensures Split(n.Text(), '-') == [n.context, n.domain, "c" + Numeral(n.concurrency)]
    ensures n.Text() == n.context + ['-'] + (n.domain + ['-'] + ("c" + Numeral(n.concurrency)))
    ensures Plain("c" + Numeral(n.concurrency))
  {
    var tail := "c" + Numeral(n.concurrency);
    var parts := [n.context, n.domain, tail];
    assert Plain(tail);
    SplitJoin(parts, '-');
    assert parts[1..] == [n.domain, tail] && [n.domain, tail][1..] == [tail];
    assert Join([tail], '-') == tail;
    assert Join([n.domain, tail], '-') == n.domain + ['-'] + tail;
  }

  // The source tests names as text; on plain parts those tests read the parts, and
  // different names never share a text.
  lemma NameTests(n: CellName, context: string, concurrency: nat)
    requires Plain(n.context) && Plain(n.domain) && Plain(context)
    ensures StartsWith(n.Text(), context + "-") <==> n.context == context
    ensures EndsWith(n.Text(), "-c" + Numeral(concurrency)) <==> n.concurrency == concurrency
    ensures Split(n.Text(), '-')[0] == n.context
  {
    hide Split, Join, Numeral;
    NameParts(n);
    var num, other := Numeral(n.concurrency), Numeral(concurrency);
    var rest := n.domain + ['-'] + ("c" + num);
    PrefixTest(n.context, rest, context);
    SuffixTest(n.context + ['-'] + n.domain, "c" + num, "c" + other);
    assert n.Text() == (n.context + ['-'] + n.domain) + ['-'] + ("c" + num);
    assert "-c" + other == ['-'] + ("c" + other);
    NumeralValue(n.concurrency);
    NumeralValue(concurrency);
    assert ("c" + num)[1..] == num && ("c" + other)[1..] == other;
  }

  lemma PrefixTest(a: string, rest: string, b: string)
    requires Plain(a) && Plain(b)
    ensures StartsWith(a + ['-'] + rest, b + "-") <==> a == b
  {
    var s := a + ['-'] + rest;
    if StartsWith(s, b + "-") {
      assert s == b + ['-'] + s[|b| + 1..] by {
        assert s == s[..|b| + 1] + s[|b| + 1..];
      }
      IndexAfterPrefix(a, '-', rest);
      IndexAfterPrefix(b, '-', s[|b| + 1..]);
      assert s[|a|] == '-';
      assert a == s[..|a|] == s[..|b|] == (b + "-")[..|b|] == b;
    }
  }

  lemma SuffixTest(head: string, a: string, b: string)
    requires Plain(a) && Plain(b)
    ensures EndsWith(head + ['-'] + a, ['-'] + b) <==> a == b
  {
    var s := head + ['-'] + a;
    if EndsWith(s, ['-'] + b) {
      var p := |s| - |b| - 1;
      assert s[p..][0] == '-';
      assert forall i :: |head| < i < |s| ==> s[i] == a[i - |head| - 1];
      assert forall i :: p < i < |s| ==> s[i] == s[p..][i - p] == b[i - p - 1];
      assert s[|head|] == '-';
      assert p == |head|;
      assert a == s[|head| + 1..] == s[p..][1..] == b;
    }
  }

  // ---------------------------------------------------------------- axes

  const CONCURRENCIES: seq<nat> := [1, 2, 4, 8, 16]
  const DOMAINS: seq<string> := ["code", "prose"]
  const ALL_CONTEXTS: seq<string> := ["short", "32k", "64k", "128k", "256k", "ttftcold", "ttftwarm"]

  predicate IsTtft(context: string) { context == "ttftcold" || context == "ttftwarm" }

  // The position in the standard order.
  function Rank(context: string): nat {
    if context == "short" then 0 else if context == "32k" then 1 else if context == "64k" then 2
    else if context == "128k" then 3 else if context == "256k" then 4
    else if context == "ttftcold" then 5 else if context == "ttftwarm" then 6 else 7
  }

  predicate InStandardOrder(contexts: seq<string>) {
    && (forall i :: 0 <= i < |contexts| ==> contexts[i] in ALL_CONTEXTS)
    && (forall i, j :: 0 <= i < j < |contexts| ==> Rank(contexts[i]) < Rank(contexts[j]))
  }

  predicate Distinct<T(==)>(s: seq<T>) { forall i, j :: 0 <= i < j < |s| ==> s[i] != s[j] }

  function Filter(s: seq<string>, keep: string -> bool): (r: seq<string>)
    ensures forall x :: x in r <==> x in s && keep(x)
  {
    if s == [] then [] else (if keep(s[0]) then [s[0]] else []) + Filter(s[1..], keep)
  }

  // selected_axes: the flagged values, or else those the cells declare.
  function SelectedContexts(cells: set<CellName>, flagged: set<string>): seq<string> {
    var chosen := Filter(ALL_CONTEXTS, c => c in flagged);
    if chosen != [] then chosen else Filter(ALL_CONTEXTS, c => exists n :: n in cells && n.context == c)
  }

  lemma {:induction false} FilterKeepsOrder(s: seq<string>, keep: string -> bool)
    requires forall i, j :: 0 <= i < j < |s| ==> Rank(s[i]) < Rank(s[j])
    ensures forall i, j :: 0 <= i < j < |Filter(s, keep)| ==> Rank(Filter(s, keep)[i]) < Rank(Filter(s, keep)[j])
  {
    hide Rank;
    if s != [] {
      FilterKeepsOrder(s[1..], keep);
      var rest := Filter(s[1..], keep);
      forall j | 0 <= j < |rest| ensures Rank(s[0]) < Rank(rest[j]) {
        assert rest[j] in s[1..];
      }
    }
  }

  lemma SelectedContextsInOrder(cells: set<CellName>, flagged: set<string>)
    ensures InStandardOrder(SelectedContexts(cells, flagged))
  {
    assert forall i, j :: 0 <= i < j < |ALL_CONTEXTS| ==> Rank(ALL_CONTEXTS[i]) < Rank(ALL_CONTEXTS[j]);
    FilterKeepsOrder(ALL_CONTEXTS, c => c in flagged);
    FilterKeepsOrder(ALL_CONTEXTS, c => exists n :: n in cells && n.context == c);
    var chosen := SelectedContexts(cells, flagged);
    forall i | 0 <= i < |chosen| ensures chosen[i] in ALL_CONTEXTS {
      assert chosen[i] in chosen;
    }
  }

  // ---------------------------------------------------------------- selection

  predicate Declares(cells: set<CellName>, context: string) { exists n :: n in cells && n.context == context }

  // names_for: the cells of one context and concurrency. A short or TTFT context without
  // that concurrency has none; otherwise every declared domain is asked for.
  function NamesFor(cells: set<CellName>, context: string, concurrency: nat, domain: Option<string>): seq<CellName> {
    if (context == "short" || IsTtft(context))
       && !exists n :: n in cells && n.context == context && n.concurrency == concurrency
    then []
    else
      var domains := Filter(DOMAINS, d => (exists n :: n in cells && n.context == context && n.domain == d)
                                          && (domain.None? || domain.value == d));
      seq(|domains|, i requires 0 <= i < |domains| => CellName(context, domains[i], concurrency))
  }

  function Flatten(ss: seq<seq<CellName>>): seq<CellName> { if ss == [] then [] else ss[0] + Flatten(ss[1..]) }

  // The cells of one context, then of the next; or of one concurrency, then of the next.
  function OfContext(cells: set<CellName>, context: string, concurrencies: seq<nat>, domain: Option<string>): seq<CellName> {
    Flatten(seq(|concurrencies|, j requires 0 <= j < |concurrencies| =>
      NamesFor(cells, context, concurrencies[j], domain)))
  }

  function OfConcurrency(cells: set<CellName>, contexts: seq<string>, concurrency: nat, domain: Option<string>): seq<CellName> {
    Flatten(seq(|contexts|, i requires 0 <= i < |contexts| => NamesFor(cells, contexts[i], concurrency, domain)))
  }

  function ContextFirst(cells: set<CellName>, contexts: seq<string>, concurrencies: seq<nat>, domain: Option<string>): seq<CellName> {
    Flatten(seq(|contexts|, i requires 0 <= i < |contexts| => OfContext(cells, contexts[i], concurrencies, domain)))
  }

  function ConcurrencyFirst(cells: set<CellName>, contexts: seq<string>, concurrencies: seq<nat>, domain: Option<string>): seq<CellName> {
    Flatten(seq(|concurrencies|, j requires 0 <= j < |concurrencies| =>
      OfConcurrency(cells, contexts, concurrencies[j], domain)))
  }

  // select_cells: refused when a selected context has no cell at all, or when a name the
  // axes produce is not a cell.
  function SelectCells(cells: set<CellName>, concurrencies: seq<nat>, contexts: seq<string>, domain: Option<string>,
                       contextFirst: bool): Option<seq<CellName>>
  {
    var names := if contextFirst then ContextFirst(cells, contexts, concurrencies, domain)
                 else ConcurrencyFirst(cells, contexts, concurrencies, domain);
    if concurrencies != [] && exists c :: c in contexts && !Declares(cells, c) then None
    else if exists n :: n in names && n !in cells then None
    else Some(names)
  }

  // ---------------------------------------------------------------- what is selected

  lemma {:induction false} InFlatten(ss: seq<seq<CellName>>, x: CellName)
    ensures x in Flatten(ss) <==> exists k :: 0 <= k < |ss| && x in ss[k]
  {
    if ss != [] {
      InFlatten(ss[1..], x);
      if x in ss[0] { assert x in ss[0]; }
      if x in Flatten(ss[1..]) {
        var k :| 0 <= k < |ss[1..]| && x in ss[1..][k];
        assert x in ss[k + 1];
      }
      if exists k :: 0 <= k < |ss| && x in ss[k] {
        var k :| 0 <= k < |ss| && x in ss[k];
        if k > 0 { assert x in ss[1..][k - 1]; }
      }
    }
  }

  // The lists are duplicate-free and pairwise disjoint.
  predicate Separate(ss: seq<seq<CellName>>) {
    && (forall k :: 0 <= k < |ss| ==> Distinct(ss[k]))
    && (forall k, l, x :: 0 <= k < l < |ss| && x in ss[k] ==> x !in ss[l])
  }

  lemma {:induction false} FlattenDistinct(ss: seq<seq<CellName>>)
    requires Separate(ss)
    ensures Distinct(Flatten(ss))
  {
    if ss != [] {
      assert Separate(ss[1..]) by {
        forall k, l, x | 0 <= k < l < |ss[1..]| && x in ss[1..][k] ensures x !in ss[1..][l] {
          assert x in ss[k + 1];
        }
      }
      FlattenDistinct(ss[1..]);
      var rest := Flatten(ss[1..]);
      forall x | x in ss[0] ensures x !in rest {
        InFlatten(ss[1..], x);
      }
      ConcatDistinct(ss[0], rest);
    }
  }

  lemma ConcatDistinct(a: seq<CellName>, b: seq<CellName>)
    requires Distinct(a) && Distinct(b) && forall x :: x in a ==> x !in b
    ensures Distinct(a + b)
  {
    forall i, j | 0 <= i < j < |a + b| ensures (a + b)[i] != (a + b)[j] {
      if i < |a| <= j { assert a[i] in a; }
    }
  }

  lemma NamesForAre(cells: set<CellName>, context: string, concurrency: nat, domain: Option<string>)
    ensures Distinct(NamesFor(cells, context, concurrency, domain))
    ensures forall n :: n in NamesFor(cells, context, concurrency, domain) ==>
      n.context == context && n.concurrency == concurrency
  {
    var keep := d => (exists n :: n in cells && n.context == context && n.domain == d)
                     && (domain.None? || domain.value == d);
    var domains := Filter(DOMAINS, keep);
    assert Distinct(domains) by {
      assert DOMAINS[1..] == ["prose"] && DOMAINS[1..][1..] == [];
      assert Filter(DOMAINS[1..], keep) == if keep("prose") then ["prose"] else [];
    }
  }

  lemma OfContextHolds(cells: set<CellName>, context: string, concurrencies: seq<nat>, domain: Option<string>)
    requires Distinct(concurrencies)
    ensures var names := OfContext(cells, context, concurrencies, domain);
      && Distinct(names)
      && forall n :: n in names <==>
           n.context == context && n.concurrency in concurrencies && n in NamesFor(cells, context, n.concurrency, domain)
  {
    hide NamesFor;
    var row := seq(|concurrencies|, j requires 0 <= j < |concurrencies| =>
      NamesFor(cells, context, concurrencies[j], domain));
    forall j | 0 <= j < |row|
      ensures Distinct(row[j])
      ensures forall x: CellName :: x in row[j] ==> x.context == context && x.concurrency == concurrencies[j]
    {
      NamesForAre(cells, context, concurrencies[j], domain);
    }
    FlattenDistinct(row);
    forall n: CellName { InFlatten(row, n); }
  }

  lemma OfConcurrencyHolds(cells: set<CellName>, contexts: seq<string>, concurrency: nat, domain: Option<string>)
    requires Distinct(contexts)
    ensures var names := OfConcurrency(cells, contexts, concurrency, domain);
      && Distinct(names)
      && forall n :: n in names <==>
           n.concurrency == concurrency && n.context in contexts && n in NamesFor(cells, n.context, concurrency, domain)
  {
    hide NamesFor;
    var row := seq(|contexts|, i requires 0 <= i < |contexts| => NamesFor(cells, contexts[i], concurrency, domain));
    forall i | 0 <= i < |row|
      ensures Distinct(row[i])
      ensures forall x: CellName :: x in row[i] ==> x.context == contexts[i] && x.concurrency == concurrency
    {
      NamesForAre(cells, contexts[i], concurrency, domain);
    }
    FlattenDistinct(row);
    forall n: CellName { InFlatten(row, n); }
  }

  // The names the axes ask for, in whatever order.
  predicate Asked(cells: set<CellName>, contexts: seq<string>, concurrencies: seq<nat>, domain: Option<string>, n: CellName) {
    n.context in contexts && n.concurrency in concurrencies && n in NamesFor(cells, n.context, n.concurrency, domain)
  }

  lemma ContextFirstHolds(cells: set<CellName>, contexts: seq<string>, concurrencies: seq<nat>, domain: Option<string>)
    requires Distinct(contexts) && Distinct(concurrencies)
    ensures var names := ContextFirst(cells, contexts, concurrencies, domain);
      Distinct(names) && forall n :: n in names <==> Asked(cells, contexts, concurrencies, domain, n)
  {
    hide NamesFor, OfContext;
    var rows := seq(|contexts|, i requires 0 <= i < |contexts| => OfContext(cells, contexts[i], concurrencies, domain));
    forall i | 0 <= i < |rows|
      ensures Distinct(rows[i])
      ensures forall n: CellName :: n in rows[i] <==>
        n.context == contexts[i] && n.concurrency in concurrencies && n in NamesFor(cells, n.context, n.concurrency, domain)
    {
      OfContextHolds(cells, contexts[i], concurrencies, domain);
    }
    FlattenDistinct(rows);
    forall n: CellName { InFlatten(rows, n); }
  }

  lemma ConcurrencyFirstHolds(cells: set<CellName>, contexts: seq<string>, concurrencies: seq<nat>, domain: Option<string>)
    requires Distinct(contexts) && Distinct(concurrencies)
    ensures var names := ConcurrencyFirst(cells, contexts, concurrencies, domain);
      Distinct(names) && forall n :: n in names <==> Asked(cells, contexts, concurrencies, domain, n)
  {
    hide NamesFor, OfConcurrency;
    var rows := seq(|concurrencies|, j requires 0 <= j < |concurrencies| =>
      OfConcurrency(cells, contexts, concurrencies[j], domain));
    forall j | 0 <= j < |rows|
      ensures Distinct(rows[j])
      ensures forall n: CellName :: n in rows[j] <==>
        n.concurrency == concurrencies[j] && n.context in contexts && n in NamesFor(cells, n.context, n.concurrency, domain)
    {
      OfConcurrencyHolds(cells, contexts, concurrencies[j], domain);
    }
    FlattenDistinct(rows);
    forall n: CellName { InFlatten(rows, n); }
  }

  // Both orders succeed together, and then one is a duplicate-free rearrangement of the
  // other.
  lemma OrdersAgree(cells: set<CellName>, concurrencies: seq<nat>, contexts: seq<string>, domain: Option<string>)
    requires Distinct(contexts) && Distinct(concurrencies)
    ensures var a, b := SelectCells(cells, concurrencies, contexts, domain, true),
                        SelectCells(cells, concurrencies, contexts, domain, false);
      && (a.Some? <==> b.Some?)
      && (a.Some? ==> Distinct(a.value) && Distinct(b.value) && forall n :: n in a.value <==> n in b.value)
      && (a.Some? ==> forall n :: n in a.value ==> n in cells)
  {
    hide NamesFor, ContextFirst, ConcurrencyFirst, Distinct, Asked;
    ContextFirstHolds(cells, contexts, concurrencies, domain);
    ConcurrencyFirstHolds(cells, contexts, concurrencies, domain);
  }

  // ---------------------------------------------------------------- order and exact selection

  // The first place of x, or the length when it is absent.
  function Position<T(==)>(s: seq<T>, x: T): nat { if s == [] || s[0] == x then 0 else 1 + Position(s[1..], x) }

  lemma {:induction false} PositionAt<T>(s: seq<T>, x: T)
    requires x in s
    ensures Position(s, x) < |s| && s[Position(s, x)] == x
  {
    if s[0] != x { PositionAt(s[1..], x); }
  }

  lemma PositionOf<T>(s: seq<T>, i: nat)
    requires Distinct(s) && i < |s|
    ensures Position(s, s[i]) == i
  {
    PositionAt(s, s[i]);
  }

  predicate LexBefore(a: (nat, nat, nat), b: (nat, nat, nat)) {
    a.0 < b.0 || (a.0 == b.0 && (a.1 < b.1 || (a.1 == b.1 && a.2 < b.2)))
  }

  predicate Ordered(names: seq<CellName>, key: CellName -> (nat, nat, nat)) {
    forall i, j :: 0 <= i < j < |names| ==> LexBefore(key(names[i]), key(names[j]))
  }

  function ByContext(contexts: seq<string>, concurrencies: seq<nat>): CellName -> (nat, nat, nat) {
    (n: CellName) => (Position(contexts, n.context), Position(concurrencies, n.concurrency), Position(DOMAINS, n.domain))
  }

  function ByConcurrency(contexts: seq<string>, concurrencies: seq<nat>): CellName -> (nat, nat, nat) {
    (n: CellName) => (Position(concurrencies, n.concurrency), Position(contexts, n.context), Position(DOMAINS, n.domain))
  }

  lemma {:induction false} FlattenOrdered(ss: seq<seq<CellName>>, key: CellName -> (nat, nat, nat))
    requires forall k :: 0 <= k < |ss| ==> Ordered(ss[k], key)
    requires forall k, l, x, y :: 0 <= k < l < |ss| && x in ss[k] && y in ss[l] ==> LexBefore(key(x), key(y))
    ensures Ordered(Flatten(ss), key)
    decreases |ss|
  {
    hide LexBefore;
    if ss != [] {
      var head, rest := ss[0], Flatten(ss[1..]);
      forall k, l, x, y | 0 <= k < l < |ss[1..]| && x in ss[1..][k] && y in ss[1..][l] ensures LexBefore(key(x), key(y)) {
        assert x in ss[k + 1] && y in ss[l + 1];
      }
      FlattenOrdered(ss[1..], key);
      forall i, j | 0 <= i < |head| && 0 <= j < |rest| ensures LexBefore(key(head[i]), key(rest[j])) {
        InFlatten(ss[1..], rest[j]);
        var l :| 0 <= l < |ss[1..]| && rest[j] in ss[1..][l];
        assert head[i] in ss[0] && rest[j] in ss[l + 1];
      }
      ConcatOrdered(head, rest, key);
    }
  }

  lemma ConcatOrdered(a: seq<CellName>, b: seq<CellName>, key: CellName -> (nat, nat, nat))
    requires Ordered(a, key) && Ordered(b, key)
    requires forall i, j :: 0 <= i < |a| && 0 <= j < |b| ==> LexBefore(key(a[i]), key(b[j]))
    ensures Ordered(a + b, key)
  {
    hide LexBefore;
  }

  // Which cells names_for lists: those of the context and concurrency whose domain the context declares
  // and the filter allows, unless a short or TTFT context lacks the concurrency.
  predicate Listed(cells: set<CellName>, context: string, concurrency: nat, domain: Option<string>, n: CellName) {
    && n.context == context && n.concurrency == concurrency && n.domain in DOMAINS
    && (exists m :: m in cells && m.context == context && m.domain == n.domain)
    && (domain.Some? ==> n.domain == domain.value)
    && (context in {"short", "ttftcold", "ttftwarm"} ==> exists m :: m in cells && m.context == context && m.concurrency == concurrency)
  }

  lemma NamesForLists(cells: set<CellName>, context: string, concurrency: nat, domain: Option<string>)
    ensures forall n :: n in NamesFor(cells, context, concurrency, domain) <==> Listed(cells, context, concurrency, domain, n)
    ensures forall i, j :: 0 <= i < j < |NamesFor(cells, context, concurrency, domain)| ==>
      Position(DOMAINS, NamesFor(cells, context, concurrency, domain)[i].domain)
        < Position(DOMAINS, NamesFor(cells, context, concurrency, domain)[j].domain)
  {
    var keep := d => (exists n :: n in cells && n.context == context && n.domain == d)
                     && (domain.None? || domain.value == d);
    var domains, names := Filter(DOMAINS, keep), NamesFor(cells, context, concurrency, domain);
    assert DOMAINS[1..] == ["prose"] && DOMAINS[1..][1..] == [];
    assert Filter(DOMAINS[1..], keep) == if keep("prose") then ["prose"] else [];
    assert Position(DOMAINS, "code") == 0 && Position(DOMAINS, "prose") == 1;
    forall n | Listed(cells, context, concurrency, domain, n) ensures n in names {
      assert n.domain in domains;
      var i :| 0 <= i < |domains| && domains[i] == n.domain;
      assert names[i] == n;
    }
  }

  lemma OfContextOrdered(cells: set<CellName>, contexts: seq<string>, context: string, concurrencies: seq<nat>, domain: Option<string>)
    requires Distinct(concurrencies)
    ensures Ordered(OfContext(cells, context, concurrencies, domain), ByContext(contexts, concurrencies))
  {
    hide NamesFor, Position;
    var row := seq(|concurrencies|, j requires 0 <= j < |concurrencies| =>
      NamesFor(cells, context, concurrencies[j], domain));
    forall j | 0 <= j < |row|
      ensures Ordered(row[j], ByContext(contexts, concurrencies))
      ensures forall x: CellName :: x in row[j] ==> x.context == context && Position(concurrencies, x.concurrency) == j
    {
      NamesForLists(cells, context, concurrencies[j], domain);
      NamesForAre(cells, context, concurrencies[j], domain);
      PositionOf(concurrencies, j);
      assert forall i :: 0 <= i < |row[j]| ==> row[j][i] in row[j];
    }
    FlattenOrdered(row, ByContext(contexts, concurrencies));
  }

  // Context-first order: context by context, then concurrency by concurrency, then by domain.
  lemma ContextFirstOrdered(cells: set<CellName>, contexts: seq<string>, concurrencies: seq<nat>, domain: Option<string>)
    requires Distinct(contexts) && Distinct(concurrencies)
    ensures Ordered(ContextFirst(cells, contexts, concurrencies, domain), ByContext(contexts, concurrencies))
  {
    hide NamesFor, OfContext, Position;
    var rows := seq(|contexts|, i requires 0 <= i < |contexts| => OfContext(cells, contexts[i], concurrencies, domain));
    forall i | 0 <= i < |rows|
      ensures Ordered(rows[i], ByContext(contexts, concurrencies))
      ensures forall x: CellName :: x in rows[i] ==> Position(contexts, x.context) == i
    {
      OfContextOrdered(cells, contexts, contexts[i], concurrencies, domain);
      OfContextHolds(cells, contexts[i], concurrencies, domain);
      PositionOf(contexts, i);
    }
    FlattenOrdered(rows, ByContext(contexts, concurrencies));
  }

  lemma OfConcurrencyOrdered(cells: set<CellName>, contexts: seq<string>, concurrency: nat, concurrencies: seq<nat>, domain: Option<string>)
    requires Distinct(contexts)
    ensures Ordered(OfConcurrency(cells, contexts, concurrency, domain), ByConcurrency(contexts, concurrencies))
  {
    hide NamesFor, Position;
    var row := seq(|contexts|, i requires 0 <= i < |contexts| => NamesFor(cells, contexts[i], concurrency, domain));
    forall i | 0 <= i < |row|
      ensures Ordered(row[i], ByConcurrency(contexts, concurrencies))
      ensures forall x: CellName :: x in row[i] ==> Position(contexts, x.context) == i && x.concurrency == concurrency
    {
      NamesForLists(cells, contexts[i], concurrency, domain);
      NamesForAre(cells, contexts[i], concurrency, domain);
      PositionOf(contexts, i);
      assert forall k :: 0 <= k < |row[i]| ==> row[i][k] in row[i];
    }
    FlattenOrdered(row, ByConcurrency(contexts, concurrencies));
  }

  // The legacy order: concurrency by concurrency, then context by context, then by domain.
  lemma ConcurrencyFirstOrdered(cells: set<CellName>, contexts: seq<string>, concurrencies: seq<nat>, domain: Option<string>)
    requires Distinct(contexts) && Distinct(concurrencies)
    ensures Ordered(ConcurrencyFirst(cells, contexts, concurrencies, domain), ByConcurrency(contexts, concurrencies))
  {
    hide NamesFor, OfConcurrency, Position;
    var rows := seq(|concurrencies|, j requires 0 <= j < |concurrencies| =>
      OfConcurrency(cells, contexts, concurrencies[j], domain));
    forall j | 0 <= j < |rows|
      ensures Ordered(rows[j], ByConcurrency(contexts, concurrencies))
      ensures forall x: CellName :: x in rows[j] ==> Position(concurrencies, x.concurrency) == j
    {
      OfConcurrencyOrdered(cells, contexts, concurrencies[j], concurrencies, domain);
      OfConcurrencyHolds(cells, contexts, concurrencies[j], domain);
      PositionOf(concurrencies, j);
    }
    FlattenOrdered(rows, ByConcurrency(contexts, concurrencies));
  }

  predicate OnAxes(cells: set<CellName>, concurrencies: seq<nat>, contexts: seq<string>, domain: Option<string>, n: CellName) {
    && n in cells && n.context in contexts && n.concurrency in concurrencies && n.domain in DOMAINS
    && (domain.Some? ==> n.domain == domain.value)
  }

  predicate Wanted(cells: set<CellName>, concurrencies: seq<nat>, contexts: seq<string>, domain: Option<string>, n: CellName) {
    n.context in contexts && n.concurrency in concurrencies && Listed(cells, n.context, n.concurrency, domain, n)
  }

  // Selection succeeds exactly when every context has cells and everything listed is a cell; it then
  // gives exactly the cells on the axes and in the domain, in the order asked for.
  lemma SelectionIs(cells: set<CellName>, concurrencies: seq<nat>, contexts: seq<string>, domain: Option<string>, contextFirst: bool)
    requires Distinct(contexts) && Distinct(concurrencies)
    ensures var r := SelectCells(cells, concurrencies, contexts, domain, contextFirst);
      && (r.Some? <==>
            && (concurrencies == [] || forall c :: c in contexts ==> exists n :: n in cells && n.context == c)
            && forall n: CellName :: Wanted(cells, concurrencies, contexts, domain, n) ==> n in cells)
      && (r.Some? ==> forall n :: n in r.value <==> OnAxes(cells, concurrencies, contexts, domain, n))
      && (r.Some? ==> Ordered(r.value,
            if contextFirst then ByContext(contexts, concurrencies) else ByConcurrency(contexts, concurrencies)))
  {
    hide NamesFor, ContextFirst, ConcurrencyFirst, Ordered, Position;
    ContextFirstHolds(cells, contexts, concurrencies, domain);
    ConcurrencyFirstHolds(cells, contexts, concurrencies, domain);
    ContextFirstOrdered(cells, contexts, concurrencies, domain);
    ConcurrencyFirstOrdered(cells, contexts, concurrencies, domain);
    var names := if contextFirst then ContextFirst(cells, contexts, concurrencies, domain)
                 else ConcurrencyFirst(cells, contexts, concurrencies, domain);
    forall n: CellName
      ensures n in names <==> Wanted(cells, concurrencies, contexts, domain, n)
      ensures OnAxes(cells, concurrencies, contexts, domain, n) ==> Wanted(cells, concurrencies, contexts, domain, n)
    {
      NamesForLists(cells, n.context, n.concurrency, domain);
    }
  }

  // ---------------------------------------------------------------- isolation groups

  // benchmark_context: both TTFT phases share one group.
  function Group(n: CellName): string { if IsTtft(n.context) then "ttft" else n.context }

  // Two cells belong together when they have one context or are both TTFT phases.
  predicate SameContext(a: CellName, b: CellName) {
    a.context == b.context || (a.context in {"ttftcold", "ttftwarm"} && b.context in {"ttftcold", "ttftwarm"})
  }

  lemma GroupIsContext(a: CellName, b: CellName)
    requires a.context in ALL_CONTEXTS && b.context in ALL_CONTEXTS
    ensures Group(a) == Group(b) <==> SameContext(a, b)
  {
  }

  function Groups(names: seq<CellName>): (g: seq<string>)
    ensures |g| == |names| && forall i :: 0 <= i < |g| ==> g[i] == Group(names[i])
  {
    seq(|names|, i requires 0 <= i < |names| => Group(names[i]))
  }

  datatype Boundary = Boundary(group: string, first: bool, last: bool)

  predicate IsFirst(groups: seq<string>, i: nat)
    requires i < |groups|
  {
    i == 0 || groups[i - 1] != groups[i]
  }

  predicate IsLast(groups: seq<string>, i: nat)
    requires i < |groups|
  {
    i == |groups| - 1 || groups[i + 1] != groups[i]
  }

  // benchmark_context_boundaries.
  function Boundaries(groups: seq<string>): (b: seq<Boundary>)
    ensures |b| == |groups|
  {
    seq(|groups|, i requires 0 <= i < |groups| => Boundary(groups[i], IsFirst(groups, i), IsLast(groups, i)))
  }

  // Every group is one contiguous block.
  predicate Contiguous(groups: seq<string>) {
    forall i, k, j :: 0 <= i < k < j < |groups| && groups[i] == groups[j] ==> groups[k] == groups[i]
  }

  predicate RanksAscend(names: seq<CellName>) {
    && (forall i :: 0 <= i < |names| ==> names[i].context in ALL_CONTEXTS)
    && (forall i, j :: 0 <= i < j < |names| ==> Rank(names[i].context) <= Rank(names[j].context))
  }

  lemma ContextBetween(a: CellName, b: CellName, c: CellName)
    requires a.context in ALL_CONTEXTS && b.context in ALL_CONTEXTS && c.context in ALL_CONTEXTS
    requires Rank(a.context) <= Rank(b.context) <= Rank(c.context) && SameContext(a, c)
    ensures SameContext(a, b)
  {
  }

  lemma ContextFirstAscends(cells: set<CellName>, contexts: seq<string>, concurrencies: seq<nat>, domain: Option<string>)
    requires InStandardOrder(contexts) && Distinct(concurrencies)
    ensures RanksAscend(ContextFirst(cells, contexts, concurrencies, domain))
  {
    hide NamesFor, ContextFirst, Rank, Position;
    assert Distinct(contexts);
    ContextFirstHolds(cells, contexts, concurrencies, domain);
    ContextFirstOrdered(cells, contexts, concurrencies, domain);
    var names := ContextFirst(cells, contexts, concurrencies, domain);
    forall i | 0 <= i < |names| ensures names[i].context in contexts {
      assert names[i] in names;
    }
    forall i, j | 0 <= i < j < |names| ensures Rank(names[i].context) <= Rank(names[j].context) {
      PositionAt(contexts, names[i].context);
      PositionAt(contexts, names[j].context);
      assert LexBefore(ByContext(contexts, concurrencies)(names[i]), ByContext(contexts, concurrencies)(names[j]));
    }
  }

  // Context-first selection over ordered contexts makes every isolation group, with the
  // two TTFT phases in one, a single contiguous block.
  lemma ContextFirstIsContiguous(cells: set<CellName>, contexts: seq<string>, concurrencies: seq<nat>, domain: Option<string>)
    requires InStandardOrder(contexts) && Distinct(concurrencies)
    ensures var names := ContextFirst(cells, contexts, concurrencies, domain);
      && Contiguous(Groups(names))
      && forall i, k, j :: 0 <= i < k < j < |names| && SameContext(names[i], names[j]) ==> SameContext(names[i], names[k])
  {
    hide ContextFirst, Rank, SameContext, Group;
    ContextFirstAscends(cells, contexts, concurrencies, domain);
    var names := ContextFirst(cells, contexts, concurrencies, domain);
    forall i, k, j | 0 <= i < k < j < |names| && SameContext(names[i], names[j]) ensures SameContext(names[i], names[k]) {
      ContextBetween(names[i], names[k], names[j]);
    }
    forall i, j | 0 <= i < |names| && 0 <= j < |names| ensures Group(names[i]) == Group(names[j]) <==> SameContext(names[i], names[j]) {
      GroupIsContext(names[i], names[j]);
    }
  }

  // Exactly one first and one last cell per group, and the group lies between them.
  lemma OneProcessPerGroup(groups: seq<string>, g: string) returns (first: nat, last: nat)
    requires Contiguous(groups) && g in groups
    ensures first <= last < |groups|
    ensures forall i :: 0 <= i < |groups| ==> (groups[i] == g <==> first <= i <= last)
    ensures forall i :: 0 <= i < |groups| ==> (Boundaries(groups)[i].group == g && Boundaries(groups)[i].first <==> i == first)
    ensures forall i :: 0 <= i < |groups| ==> (Boundaries(groups)[i].group == g && Boundaries(groups)[i].last <==> i == last)
  {
    hide Contiguous;
    var at :| 0 <= at < |groups| && groups[at] == g;
    first, last := at, at;
    while first > 0 && groups[first - 1] == g
      invariant 0 <= first <= at && forall i :: first <= i <= at ==> groups[i] == g
    {
      first := first - 1;
    }
    while last + 1 < |groups| && groups[last + 1] == g
      invariant at <= last < |groups| && forall i :: at <= i <= last ==> groups[i] == g
    {
      last := last + 1;
    }
    BlockIsWhole(groups, g, first, last);
  }

  lemma BlockIsWhole(groups: seq<string>, g: string, first: nat, last: nat)
    requires Contiguous(groups) && first <= last < |groups|
    requires forall i :: first <= i <= last ==> groups[i] == g
    requires first > 0 ==> groups[first - 1] != g
    requires last + 1 < |groups| ==> groups[last + 1] != g
    ensures forall i :: 0 <= i < |groups| ==> (groups[i] == g <==> first <= i <= last)
  {
    assert groups[first] == g && groups[last] == g;
    forall i | 0 <= i < first ensures groups[i] != g {
      assert groups[first - 1] != g;
    }
    forall i | last < i < |groups| ensures groups[i] != g {
      assert groups[last + 1] != g;
    }
  }

  // How many processes a context-isolated run starts: one per group.
  function Starts(groups: seq<string>): nat {
    if groups == [] then 0
    else Starts(groups[..|groups| - 1]) + if IsFirst(groups, |groups| - 1) then 1 else 0
  }

  function GroupSet(groups: seq<string>): set<string> { set g | g in groups }

  lemma {:induction false} StartsCountGroups(groups: seq<string>)
    requires Contiguous(groups)
    ensures Starts(groups) == |GroupSet(groups)|
  {
    if groups != [] {
      var n := |groups| - 1;
      PrefixIsContiguous(groups, n);
      FirstIsNew(groups, n);
      AddToSet(groups[..n], groups[n]);
      assert groups == groups[..n] + [groups[n]];
      StartsCountGroups(groups[..n]);
      hide Contiguous, GroupSet, IsFirst;
    }
  }

  lemma PrefixIsContiguous(groups: seq<string>, n: nat)
    requires Contiguous(groups) && n <= |groups|
    ensures Contiguous(groups[..n])
  {
    forall i, k, j | 0 <= i < k < j < n && groups[..n][i] == groups[..n][j]
      ensures groups[..n][k] == groups[..n][i]
    {
      assert groups[i] == groups[j];
    }
  }

  lemma FirstIsNew(groups: seq<string>, n: nat)
    requires Contiguous(groups) && n < |groups|
    ensures groups[n] in groups[..n] <==> !IsFirst(groups, n)
  {
    if IsFirst(groups, n) {
      forall i | 0 <= i < n ensures groups[i] != groups[n] {
        assert groups[n - 1] != groups[n];
      }
    } else {
      assert groups[..n][n - 1] == groups[n];
    }
  }

  lemma AddToSet(groups: seq<string>, g: string)
    ensures |GroupSet(groups + [g])| == |GroupSet(groups)| + if g in groups then 0 else 1
  {
    assert GroupSet(groups + [g]) == GroupSet(groups) + {g};
  }
}
