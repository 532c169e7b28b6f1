/** Interpolated percentiles (benchmarks/openai_load.py), the summary built from them, the
    TTFT columns of a published row (benchmarks/runtime_matrix.py) and the rule the record
    puts on those columns (benchmarks/benchmark_record.py), over the real numbers. */
module Percentile {
  import opened Text

  // ---------------------------------------------------------------- sorting

  predicate Ascending(s: seq<real>) { |s| <= 1 || (s[0] <= s[1] && Ascending(s[1..])) }

  lemma {:induction false} AscendingAt(s: seq<real>, i: nat, j: nat)
    requires Ascending(s) && i <= j < |s|
    ensures s[i] <= s[j]
    decreases j
  {
    if 0 < i {
      AscendingAt(s[1..], i - 1, j - 1);
    } else if 0 < j {
      AscendingAt(s[1..], 0, j - 1);
    }
  }

  function Count(s: seq<real>, x: real): nat {
    if s == [] then 0 else (if s[0] == x then 1 else 0) + Count(s[1..], x)
  }

  // The same values with the same multiplicities, in any order.
  ghost predicate Permuted(a: seq<real>, b: seq<real>) { forall x: real :: Count(a, x) == Count(b, x) }

  lemma {:induction false} CountPositive(s: seq<real>, x: real)
    ensures Count(s, x) > 0 <==> x in s
  {
    if s != [] {
      CountPositive(s[1..], x);
      assert x in s <==> x == s[0] || x in s[1..];
    }
  }

  function Insert(x: real, s: seq<real>): (r: seq<real>)
    ensures |r| == |s| + 1
  {
    if s == [] || x <= s[0] then [x] + s else [s[0]] + Insert(x, s[1..])
  }

  // Python's sorted().
  function Sorted(values: seq<real>): (r: seq<real>)
    ensures |r| == |values|
  {
    if values == [] then [] else Insert(values[0], Sorted(values[1..]))
  }

  lemma {:induction false} InsertSorts(x: real, s: seq<real>)
    requires Ascending(s)
    ensures Ascending(Insert(x, s))
    ensures Insert(x, s)[0] == if s == [] || x <= s[0] then x else s[0]
    ensures forall y :: Count(Insert(x, s), y) == Count(s, y) + if x == y then 1 else 0
  {
    var r := Insert(x, s);
    if s == [] || x <= s[0] {
      assert r[1..] == s;
    } else {
      InsertSorts(x, s[1..]);
      assert r[1..] == Insert(x, s[1..]);
    }
  }

  lemma {:induction false} SortedSorts(values: seq<real>)
    ensures Ascending(Sorted(values)) && Permuted(Sorted(values), values)
  {
    if values != [] {
      SortedSorts(values[1..]);
      InsertSorts(values[0], Sorted(values[1..]));
    }
  }

  // ---------------------------------------------------------------- interpolation

  function Mix(a: real, b: real, weight: real): real { a * (1.0 - weight) + b * weight }

  // A value at a real position between two neighbours of a list.
  function At(ordered: seq<real>, position: real): real
    requires ordered != [] && 0.0 <= position <= (|ordered| - 1) as real
  {
    var lower := position.Floor;
    var upper := if lower + 1 <= |ordered| - 1 then lower + 1 else |ordered| - 1;
    Mix(ordered[lower], ordered[upper], position - lower as real)
  }

  function Position(n: nat, fraction: real): (p: real)
    requires n > 0 && 0.0 <= fraction <= 1.0
    ensures 0.0 <= p <= (n - 1) as real
  {
    var top := (n - 1) as real;
    ScaleWithin(top, fraction);
    top * fraction
  }

  function Percentile(values: seq<real>, fraction: real): Option<real>
    requires 0.0 <= fraction <= 1.0
  {
    if values == [] then None else Some(At(Sorted(values), Position(|values|, fraction)))
  }

  lemma ScaleMonotone(k: real, a: real, b: real)
    requires k >= 0.0 && a <= b
    ensures k * a <= k * b
  {
    assert k * (b - a) >= 0.0;
  }

  lemma ScaleWithin(k: real, w: real)
    requires k >= 0.0 && 0.0 <= w <= 1.0
    ensures 0.0 <= k * w <= k
  {
    ScaleMonotone(k, w, 1.0);
    assert k * 1.0 == k;
  }

  lemma PositionMonotone(n: nat, f: real, g: real)
    requires n > 0 && 0.0 <= f <= g <= 1.0
    ensures Position(n, f) <= Position(n, g)
  {
    ScaleMonotone((n - 1) as real, f, g);
  }

  // ---------------------------------------------------------------- bounds and monotonicity

  lemma MixMonotone(a: real, b: real, v: real, w: real)
    requires a <= b && 0.0 <= v <= w <= 1.0
    ensures a <= Mix(a, b, v) <= Mix(a, b, w) <= b
  {
    hide Mix;
    var gap := b - a;
    MixForm(a, b, v, gap);
    MixForm(a, b, w, gap);
    ScaleWithin(gap, v);
    ScaleMonotone(gap, v, w);
    ScaleWithin(gap, w);
  }

  lemma MixForm(a: real, b: real, w: real, gap: real)
    requires gap == b - a
    ensures Mix(a, b, w) == a + gap * w
  {
    assert a * (1.0 - w) == a - a * w && gap * w == b * w - a * w;
  }

  lemma AtBetweenNeighbours(ordered: seq<real>, position: real)
    requires Ascending(ordered) && ordered != [] && 0.0 <= position <= (|ordered| - 1) as real
    ensures 0 <= position.Floor < |ordered|
    ensures ordered[position.Floor] <= At(ordered, position)
    ensures position.Floor + 1 < |ordered| ==> At(ordered, position) <= ordered[position.Floor + 1]
    ensures position.Floor + 1 == |ordered| ==> At(ordered, position) == ordered[position.Floor]
  {
    hide Mix, Ascending;
    var lower := position.Floor;
    var upper := if lower + 1 < |ordered| then lower + 1 else lower;
    var weight := position - lower as real;
    AscendingAt(ordered, lower, upper);
    MixMonotone(ordered[lower], ordered[upper], weight, weight);
  }

  lemma AtMonotone(ordered: seq<real>, p: real, q: real)
    requires Ascending(ordered) && ordered != [] && 0.0 <= p <= q <= (|ordered| - 1) as real
    ensures At(ordered, p) <= At(ordered, q)
  {
    hide Mix, Ascending;
    AtBetweenNeighbours(ordered, p);
    AtBetweenNeighbours(ordered, q);
    assert p.Floor <= q.Floor;
    if p.Floor < q.Floor {
      AscendingAt(ordered, p.Floor + 1, q.Floor);
    } else if p.Floor + 1 < |ordered| {
      AscendingAt(ordered, p.Floor, p.Floor + 1);
      MixMonotone(ordered[p.Floor], ordered[p.Floor + 1], p - p.Floor as real, q - p.Floor as real);
    }
  }

  predicate IsMin(m: real, values: seq<real>) { m in values && forall v :: v in values ==> m <= v }
  predicate IsMax(m: real, values: seq<real>) { m in values && forall v :: v in values ==> v <= m }

  lemma EndsOfSorted(values: seq<real>)
    requires values != []
    ensures IsMin(Sorted(values)[0], values) && IsMax(Sorted(values)[|values| - 1], values)
  {
    var s, n := Sorted(values), |values| - 1;
    SortedSorts(values);
    hide Sorted, Ascending;
    forall v | v in values ensures s[0] <= v <= s[n] {
      CountPositive(values, v);
      CountPositive(s, v);
      var i :| 0 <= i < |s| && s[i] == v;
      AscendingAt(s, 0, i);
      AscendingAt(s, i, n);
    }
    CountPositive(s, s[0]);
    CountPositive(values, s[0]);
    CountPositive(s, s[n]);
    CountPositive(values, s[n]);
  }

  // Every percentile lies between the minimum and the maximum, and grows with the fraction.
  lemma PercentileBoundedAndMonotone(values: seq<real>, f: real, g: real)
    requires values != [] && 0.0 <= f <= g <= 1.0
    ensures forall m :: IsMin(m, values) ==> m <= Percentile(values, f).value
    ensures forall m :: IsMax(m, values) ==> Percentile(values, g).value <= m
    ensures Percentile(values, f).value <= Percentile(values, g).value
  {
    hide Sorted, At, Ascending, Permuted, Position;
    var s, n := Sorted(values), |values|;
    var p, q, top := Position(n, f), Position(n, g), (n - 1) as real;
    EndsOfSorted(values);
    SortedSorts(values);
    PositionMonotone(n, f, g);
    AtMonotone(s, p, q);
    AtMonotone(s, 0.0, p);
    AtMonotone(s, q, top);
    AtBetweenNeighbours(s, 0.0);
    AtBetweenNeighbours(s, top);
  }

  // ---------------------------------------------------------------- order independence

  lemma {:induction false} AscendingUnique(a: seq<real>, b: seq<real>)
    requires Ascending(a) && Ascending(b) && Permuted(a, b)
    ensures a == b
  {
    if a != [] && b != [] {
      HeadAtMost(a, b);
      HeadAtMost(b, a);
      assert forall x :: Count(a[1..], x) == Count(a, x) - (if a[0] == x then 1 else 0);
      assert forall x :: Count(b[1..], x) == Count(b, x) - (if b[0] == x then 1 else 0);
      AscendingUnique(a[1..], b[1..]);
      assert a == [a[0]] + a[1..] && b == [b[0]] + b[1..];
    } else if a != [] {
      assert Count(a, a[0]) > 0;
    } else if b != [] {
      assert Count(b, b[0]) > 0;
    }
  }

  lemma HeadAtMost(a: seq<real>, b: seq<real>)
    requires Ascending(a) && a != [] && b != [] && Permuted(a, b)
    ensures a[0] <= b[0]
  {
    CountPositive(a, b[0]);
    var i :| 0 <= i < |a| && a[i] == b[0];
    AscendingAt(a, 0, i);
  }

  lemma PercentileIgnoresOrder(a: seq<real>, b: seq<real>, fraction: real)
    requires Permuted(a, b) && 0.0 <= fraction <= 1.0
    ensures Percentile(a, fraction) == Percentile(b, fraction)
  {
    hide Sorted, At, Ascending, Position;
    SortedSorts(a);
    SortedSorts(b);
    AscendingUnique(Sorted(a), Sorted(b));
  }

  // ---------------------------------------------------------------- the metric summary

  function Sum(values: seq<real>): real {
    if values == [] then 0.0 else Sum(values[..|values| - 1]) + values[|values| - 1]
  }

  function Least(values: seq<real>): (m: real)
    requires values != []
    ensures IsMin(m, values)
  {
    EndsOfSorted(values);
    Sorted(values)[0]
  }

  function Greatest(values: seq<real>): (m: real)
    requires values != []
    ensures IsMax(m, values)
  {
    EndsOfSorted(values);
    Sorted(values)[|values| - 1]
  }

  datatype Summary = Summary(count: nat, min: Option<real>, p50: Option<real>, p90: Option<real>,
                             p95: Option<real>, p99: Option<real>, max: Option<real>, mean: Option<real>)

  function MetricSummary(values: seq<real>): Summary {
    Summary(|values|,
            if values == [] then None else Some(Least(values)),
            Percentile(values, 0.50), Percentile(values, 0.90), Percentile(values, 0.95), Percentile(values, 0.99),
            if values == [] then None else Some(Greatest(values)),
            if values == [] then None else Some(Sum(values) / |values| as real))
  }

  lemma {:induction false} SumBounds(values: seq<real>, low: real, high: real)
    requires forall v :: v in values ==> low <= v <= high
    ensures low * |values| as real <= Sum(values) <= high * |values| as real
  {
    if values != [] {
      var n := |values| - 1;
      assert values[n] in values && forall v :: v in values[..n] ==> v in values;
      SumBounds(values[..n], low, high);
      assert low * |values| as real == low * n as real + low && high * |values| as real == high * n as real + high;
    }
  }

  lemma MeanBounds(total: real, n: nat, low: real, high: real)
    requires n > 0 && low * n as real <= total <= high * n as real
    ensures low <= total / n as real <= high
  {
    var k := n as real;
    assert (total / k - low) * k == total - low * k && (high - total / k) * k == high * k - total;
    NonNegativeFactor(total / k - low, k);
    NonNegativeFactor(high - total / k, k);
  }

  lemma NonNegativeFactor(x: real, k: real)
    requires k > 0.0 && x * k >= 0.0
    ensures x >= 0.0
  {
  }

  // min <= p50 <= p90 <= p95 <= p99 <= max, and the mean lies between the extremes.
  lemma SummaryIsOrdered(values: seq<real>)
    requires values != []
    ensures var s := MetricSummary(values);
      && s.min.value <= s.p50.value <= s.p90.value <= s.p95.value <= s.p99.value <= s.max.value
      && s.min.value <= s.mean.value <= s.max.value
  {
    hide Percentile, Least, Greatest, Sum;
    PercentileBoundedAndMonotone(values, 0.50, 0.90);
    PercentileBoundedAndMonotone(values, 0.90, 0.95);
    PercentileBoundedAndMonotone(values, 0.95, 0.99);
    SumBounds(values, Least(values), Greatest(values));
    MeanBounds(Sum(values), |values|, Least(values), Greatest(values));
  }

  // ---------------------------------------------------------------- the published row

  datatype Statistic = Single | Mean | P50

  datatype Published = Published(ttftSeconds: real, statistic: Statistic, p95Seconds: Option<real>)

  // The TTFT columns of a public row; None where the source refuses the summary.
  function PublicTtft(ttftMs: Summary, concurrency: nat): Option<Published>
    requires concurrency > 0
  {
    if concurrency == 1 then
      if ttftMs.mean.None? then None else Some(Published(ttftMs.mean.value / 1000.0, Single, None))
    else if ttftMs.p50.None? then None
    else Some(Published(ttftMs.p50.value / 1000.0, P50,
                        if ttftMs.p95.None? then None else Some(ttftMs.p95.value / 1000.0)))
  }

  predicate RecordAccepts(row: Published) {
    && row.ttftSeconds > 0.0
    && (row.p95Seconds.Some? ==> row.p95Seconds.value > 0.0)
    && (row.statistic == P50 ==> row.p95Seconds.Some? && row.p95Seconds.value >= row.ttftSeconds)
    && (row.statistic != P50 ==> row.p95Seconds.None?)
  }

  // Publishing succeeds whenever a stream reported a TTFT, and the record then accepts
  // the row exactly when the published TTFT is positive: p95 is never below p50.
  lemma PublishedRowMeetsRecordRule(ttftMs: seq<real>, concurrency: nat)
    requires concurrency > 0
    ensures var row := PublicTtft(MetricSummary(ttftMs), concurrency);
      && (row.Some? <==> ttftMs != [])
      && (row.Some? ==> (RecordAccepts(row.value) <==> row.value.ttftSeconds > 0.0))
  {
    hide Percentile, Least, Greatest, Sum;
    if ttftMs != [] {
      SummaryIsOrdered(ttftMs);
      assert Percentile(ttftMs, 0.50).Some? && Percentile(ttftMs, 0.95).Some? by {
        PercentileExists(ttftMs, 0.50);
        PercentileExists(ttftMs, 0.95);
      }
    } else {
      PercentileExists(ttftMs, 0.50);
    }
  }

  lemma PercentileExists(values: seq<real>, fraction: real)
    requires 0.0 <= fraction <= 1.0
    ensures Percentile(values, fraction).Some? <==> values != []
  {
  }

  // With every reported TTFT positive the published row is always accepted.
  lemma PositiveTtftIsAccepted(ttftMs: seq<real>, concurrency: nat)
    requires concurrency > 0 && ttftMs != [] && forall v :: v in ttftMs ==> v > 0.0
    ensures PublicTtft(MetricSummary(ttftMs), concurrency).Some?
    ensures RecordAccepts(PublicTtft(MetricSummary(ttftMs), concurrency).value)
  {
    hide Percentile, Greatest, Sum;
    PublishedRowMeetsRecordRule(ttftMs, concurrency);
    SummaryIsOrdered(ttftMs);
    assert Least(ttftMs) in ttftMs;
  }
}
