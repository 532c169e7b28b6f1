/** What the interpolated percentiles and the published latency figures are, in terms of the order
    statistics of the measured values (benchmarks/openai_load.py, benchmarks/runtime_matrix.py). */
module Interpolation {
  import opened Statistics = Percentile

  // ---------------------------------------------------------------- exact values

  // v lies on the straight line between the two order statistics around position (n - 1) * f.
  ghost predicate IsPercentile(values: seq<real>, f: real, v: real) {
    StandsAt(values, Spread(|values|, f), v)
  }

  function Spread(n: int, f: real): real { (n - 1) as real * f }

  ghost predicate StandsAt(values: seq<real>, position: real, v: real) {
    forall s: seq<real>, k: nat ::
      Ascending(s) && Permuted(s, values) && Around(s, k, position) ==> v == OnLine(s, k, position)
  }

  predicate Around(s: seq<real>, k: nat, position: real) {
    k < |s| && k as real <= position && (if k + 1 < |s| then position <= (k + 1) as real else position == k as real)
  }

  function OnLine(s: seq<real>, k: nat, position: real): real
    requires k < |s|
  {
    if k + 1 == |s| then s[k] else s[k] + (s[k + 1] - s[k]) * (position - k as real)
  }

  lemma SortedIs(a: seq<real>, b: seq<real>)
    requires Ascending(a) && Permuted(a, b)
    ensures a == Sorted(b)
  {
    hide Sorted, Ascending;
    SortedSorts(b);
    assert Permuted(a, Sorted(b));
    AscendingUnique(a, Sorted(b));
  }

  lemma AtIsOnLine(s: seq<real>, k: nat, position: real)
    requires Around(s, k, position)
    ensures 0.0 <= position <= (|s| - 1) as real
    ensures At(s, position) == OnLine(s, k, position)
  {
    hide Mix;
    var lower := position.Floor;
    assert lower == k || lower == k + 1;
    var upper := if lower + 1 <= |s| - 1 then lower + 1 else |s| - 1;
    MixForm(s[lower], s[upper], position - lower as real, s[upper] - s[lower]);
    if lower == k + 1 {
      assert position == (k + 1) as real;
    }
  }

  // Linear interpolation between neighbouring order statistics, whatever the order of the input.
  lemma PercentileInterpolates(values: seq<real>, f: real)
    requires values != [] && 0.0 <= f <= 1.0
    ensures IsPercentile(values, f, Percentile(values, f).value)
  {
    hide Sorted, At, OnLine, Ascending, Permuted;
    var position := Position(|values|, f);
    assert position == Spread(|values|, f);
    forall s: seq<real>, k: nat | Ascending(s) && Permuted(s, values) && Around(s, k, position)
      ensures Percentile(values, f).value == OnLine(s, k, position)
    {
      SortedIs(s, values);
      AtIsOnLine(s, k, position);
    }
  }

  // In particular the fraction k / (n - 1) gives the value of rank k.
  lemma PercentileAtRank(values: seq<real>, s: seq<real>, k: nat)
    requires Ascending(s) && Permuted(s, values) && k < |values| && |values| == |s| > 1
    ensures 0.0 <= k as real / (|s| - 1) as real <= 1.0
    ensures Percentile(values, k as real / (|s| - 1) as real).value == s[k]
  {
    hide Sorted, At, Position, Ascending, Permuted, Percentile, Spread, StandsAt;
    var n := (|s| - 1) as real;
    var f := k as real / n;
    RankFraction(k as real, n);
    SpreadRank(|s|, k);
    PercentileInterpolates(values, f);
    PercentileExists(values, f);
    RankPosition(values, s, k, Spread(|values|, f), Percentile(values, f).value);
  }

  lemma SpreadRank(n: int, k: nat)
    requires n > 1
    ensures Spread(n, k as real / (n - 1) as real) == k as real
  {
    Quotient(k as real, (n - 1) as real);
  }

  lemma RankPosition(values: seq<real>, s: seq<real>, k: nat, position: real, v: real)
    requires Ascending(s) && Permuted(s, values) && k < |s| && StandsAt(values, position, v) && position == k as real
    ensures v == s[k]
  {
    hide Ascending, Permuted;
    assert Around(s, k, k as real);
  }

  lemma RankFraction(k: real, n: real)
    requires 0.0 <= k <= n && n > 0.0
    ensures 0.0 <= k / n <= 1.0
  {
  }

  // ---------------------------------------------------------------- summaries and published rows

  // Each field of the summary is what its name says.
  lemma SummaryMeans(values: seq<real>)
    requires values != []
    ensures var s := MetricSummary(values);
      && s.count == |values| && s.min.Some? && s.max.Some? && s.mean.Some?
      && s.p50.Some? && s.p90.Some? && s.p95.Some? && s.p99.Some?
      && IsMin(s.min.value, values) && IsMax(s.max.value, values)
      && s.mean.value * |values| as real == Sum(values)
      && IsPercentile(values, 0.50, s.p50.value) && IsPercentile(values, 0.90, s.p90.value)
      && IsPercentile(values, 0.95, s.p95.value) && IsPercentile(values, 0.99, s.p99.value)
  {
    hide Sorted, At, Position, Least, Greatest, Sum, IsPercentile;
    PercentileInterpolates(values, 0.50);
    PercentileInterpolates(values, 0.90);
    PercentileInterpolates(values, 0.95);
    PercentileInterpolates(values, 0.99);
    Quotient(Sum(values), |values| as real);
  }

  lemma Quotient(x: real, k: real)
    requires k > 0.0
    ensures x / k * k == x
  {
  }

  // A single stream publishes its mean; several publish the median with the 95th percentile beside it.
  lemma PublishedMeans(ttftMs: seq<real>, concurrency: nat)
    requires concurrency > 0 && ttftMs != []
    ensures var row := PublicTtft(MetricSummary(ttftMs), concurrency);
      && row.Some?
      && (concurrency == 1 ==>
            row.value.statistic == Single && row.value.p95Seconds.None?
            && row.value.ttftSeconds * 1000.0 * |ttftMs| as real == Sum(ttftMs))
      && (concurrency > 1 ==>
            row.value.statistic == P50 && row.value.p95Seconds.Some?
            && IsPercentile(ttftMs, 0.50, row.value.ttftSeconds * 1000.0)
            && IsPercentile(ttftMs, 0.95, row.value.p95Seconds.value * 1000.0))
  {
    hide Percentile, Least, Greatest, Sum, IsPercentile;
    SummaryMeans(ttftMs);
    var s := MetricSummary(ttftMs);
    Quotient(s.mean.value, 1000.0);
    Quotient(s.p50.value, 1000.0);
    Quotient(s.p95.value, 1000.0);
  }
}
