/** The public telemetry timeline (benchmarks/benchmark_record.py): Watchdog samples are
    compacted into CSV rows with their maxima, and a validator re-reads the rows.
    Quantities are thousandths. */
module BenchmarkRecord {
  import opened Text
  import opened CompactNumber

  datatype Sample = Sample(
    unixMs: int, cpuPercent: int, gpuPercent: int, systemTempDeciC: int, gpuTempDeciC: int,
    diskPercent: int, nvmeTempDeciC: int, diskReadKib: int, diskWriteKib: int,
    cpuClock: int, gpuClock: int, vramClock: int, ramClock: int)

  datatype Timeline = Timeline(interval: Option<int>, rows: seq<string>, maxima: seq<Option<int>>)

  const COLUMNS: nat := 13
  const METRICS: nat := 12
  const UNKNOWN: int := -1000  // the number -1

  // ---------------------------------------------------------------- column contracts

  datatype Kind = Percent | Celsius | Clock | MaybePercent | MaybeCelsius | MaybeRate

  function KindOf(column: nat): Kind
    requires 1 <= column <= METRICS
  {
    if column == 1 || column == 3 then Percent
    else if column == 2 || column == 4 then Celsius
    else if column <= 8 then Clock
    else if column == 9 then MaybePercent
    else if column == 10 then MaybeCelsius
    else MaybeRate
  }

  predicate Accepts(kind: Kind, t: int) {
    match kind
    case Percent => 0 <= t <= 100_000
    case Celsius => -100_000 <= t <= 250_000
    case Clock => t == UNKNOWN || t > 0
    case MaybePercent => t == UNKNOWN || 0 <= t <= 100_000
    case MaybeCelsius => t == UNKNOWN || -100_000 <= t <= 250_000
    case MaybeRate => t == UNKNOWN || t >= 0
  }

  datatype Field = Absent | Num(t: int) | Invalid

  function TimelineNumber(raw: string, kind: Kind): Field {
    if raw == "" then Absent
    else match ReadNumber(raw)
      case None => Invalid
      case Some(t) => if Accepts(kind, t) then Num(t) else Invalid
  }

  // The value a maximum has when its column is empty.
  function Missing(column: nat): Option<int>
    requires 1 <= column <= METRICS
  {
    if column <= 4 then None else Some(UNKNOWN)
  }

  function Largest(values: seq<int>, missing: Option<int>): (m: Option<int>)
    ensures values != [] ==> m.Some? && m.value in values && forall v :: v in values ==> v <= m.value
    ensures values == [] ==> m == missing
  {
    if values == [] then missing
    else if |values| == 1 then Some(values[0])
    else
      var rest := Largest(values[..|values| - 1], missing);
      var last := values[|values| - 1];
      assert values == values[..|values| - 1] + [last];
      Some(if rest.value < last then last else rest.value)
  }

  // ---------------------------------------------------------------- the validator

  function Cells(row: string): seq<string> { Split(row, ',') }

  // One row: thirteen fields, a later non-negative time, every metric absent or in range.
  predicate RowAccepted(row: string, previous: int) {
    && |Cells(row)| == COLUMNS
    && ReadNumber(Cells(row)[0]).Some?
    && ReadNumber(Cells(row)[0]).value >= 0
    && ReadNumber(Cells(row)[0]).value > previous
    && forall i :: 1 <= i <= METRICS ==> TimelineNumber(Cells(row)[i], KindOf(i)) != Invalid
  }

  function ElapsedBefore(rows: seq<string>): int {
    if rows == [] then -1000
    else match ReadNumber(Cells(rows[|rows| - 1])[0])
      case None => -1000
      case Some(t) => t
  }

  predicate RowsAccepted(rows: seq<string>) {
    rows == []
    || (RowsAccepted(rows[..|rows| - 1]) && RowAccepted(rows[|rows| - 1], ElapsedBefore(rows[..|rows| - 1])))
  }

  // The values present in one column, in row order.
  function Column(rows: seq<string>, i: nat): seq<int>
    requires RowsAccepted(rows) && 1 <= i <= METRICS
  {
    if rows == [] then []
    else
      var cell := TimelineNumber(Cells(rows[|rows| - 1])[i], KindOf(i));
      Column(rows[..|rows| - 1], i) + (if cell.Num? then [cell.t] else [])
  }

  predicate TimelineAccepted(t: Timeline)
    requires |t.maxima| == METRICS
  {
    && t.interval == (if t.rows == [] then None else Some(1))
    && RowsAccepted(t.rows)
    && forall i :: 1 <= i <= METRICS ==> t.maxima[i - 1] == Largest(Column(t.rows, i), Missing(i))
  }

  method ReadRow(row: string, previous: int) returns (elapsed: Option<int>, parsed: seq<Field>)
    ensures elapsed.Some? <==> RowAccepted(row, previous)
    ensures elapsed.Some? ==>
      && elapsed == ReadNumber(Cells(row)[0])
      && |parsed| == METRICS
      && forall i :: 1 <= i <= METRICS ==> parsed[i - 1] == TimelineNumber(Cells(row)[i], KindOf(i))
  {
    hide TimelineNumber, ReadNumber, KindOf;
    var fields := Split(row, ',');
    parsed := [];
    if |fields| != COLUMNS { return None, parsed; }
    elapsed := ReadNumber(fields[0]);
    if elapsed.None? || elapsed.value < 0 || elapsed.value <= previous { return None, parsed; }
    for i := 1 to COLUMNS
      invariant |parsed| == i - 1
      invariant forall j :: 1 <= j < i ==>
        parsed[j - 1] == TimelineNumber(fields[j], KindOf(j)) && parsed[j - 1] != Invalid
    {
      var number := TimelineNumber(fields[i], KindOf(i));
      if number.Invalid? { return None, parsed; }
      parsed := parsed + [number];
    }
  }

  // `observed` holds every column of the rows read so far.
  predicate Observes(observed: seq<seq<int>>, rows: seq<string>) {
    && RowsAccepted(rows)
    && |observed| == METRICS
    && forall i :: 1 <= i <= METRICS ==> observed[i - 1] == Column(rows, i)
  }

  function Extend(observed: seq<seq<int>>, parsed: seq<Field>): seq<seq<int>>
    requires |observed| == |parsed|
  {
    seq(|observed|, i requires 0 <= i < |observed| =>
      if parsed[i].Num? then observed[i] + [parsed[i].t] else observed[i])
  }

  lemma ObservesNext(observed: seq<seq<int>>, rows: seq<string>, row: string, parsed: seq<Field>)
    requires Observes(observed, rows) && RowAccepted(row, ElapsedBefore(rows))
    requires |parsed| == METRICS
    requires forall i :: 1 <= i <= METRICS ==> parsed[i - 1] == TimelineNumber(Cells(row)[i], KindOf(i))
    ensures Observes(Extend(observed, parsed), rows + [row])
  {
    hide TimelineNumber, KindOf, RowAccepted, ElapsedBefore;
    assert (rows + [row])[..|rows|] == rows;
    forall i | 1 <= i <= METRICS
      ensures Extend(observed, parsed)[i - 1] == Column(rows + [row], i)
    {
    }
  }

  method ValidateTelemetry(t: Timeline) returns (accepted: bool)
    requires |t.maxima| == METRICS
    ensures accepted <==> TimelineAccepted(t)
  {
    hide RowAccepted, ElapsedBefore, Column, TimelineNumber;
    if t.interval != (if t.rows == [] then None else Some(1)) { return false; }
    var observed: seq<seq<int>> := seq(METRICS, i => []);
    var previous := -1000;
    NothingObserved(observed);
    for n := 0 to |t.rows|
      invariant Observes(observed, t.rows[..n])
      invariant previous == ElapsedBefore(t.rows[..n])
    {
      var elapsed, parsed := ReadRow(t.rows[n], previous);
      assert t.rows[..n + 1] == t.rows[..n] + [t.rows[n]];
      if elapsed.None? {
        RejectedPrefix(t.rows, n);
        return false;
      }
      ObservesNext(observed, t.rows[..n], t.rows[n], parsed);
      LastElapsed(t.rows[..n], t.rows[n], elapsed);
      observed := Extend(observed, parsed);
      previous := elapsed.value;
    }
    assert t.rows[..|t.rows|] == t.rows;
    for i := 1 to COLUMNS
      invariant forall j :: 1 <= j < i ==> t.maxima[j - 1] == Largest(Column(t.rows, j), Missing(j))
    {
      if t.maxima[i - 1] != Largest(observed[i - 1], Missing(i)) { return false; }
    }
    return true;
  }

  lemma NothingObserved(observed: seq<seq<int>>)
    requires |observed| == METRICS && forall i :: 0 <= i < METRICS ==> observed[i] == []
    ensures Observes(observed, []) && ElapsedBefore([]) == -1000
  {
  }

  lemma LastElapsed(rows: seq<string>, row: string, elapsed: Option<int>)
    requires elapsed.Some? && elapsed == ReadNumber(Cells(row)[0])
    ensures ElapsedBefore(rows + [row]) == elapsed.value
  {
  }

  lemma {:induction false} RejectedPrefix(rows: seq<string>, n: nat)
    requires n < |rows| && !RowAccepted(rows[n], ElapsedBefore(rows[..n]))
    ensures !RowsAccepted(rows)
    decreases |rows|
  {
    if n < |rows| - 1 {
      assert rows[..|rows| - 1][..n] == rows[..n];
      RejectedPrefix(rows[..|rows| - 1], n);
    }
  }

  // ---------------------------------------------------------------- the summary

  function Times1000(n: int): Option<int> { Some(n * 1000) }

  // One of the thirteen values of a row, before printing.
  function ValueAt(s: Sample, start: int, column: nat): Option<int>
    requires column < COLUMNS
  {
    match column
    case 0 => Some(s.unixMs - start)
    case 1 => if s.gpuPercent == 255 then None else Times1000(s.gpuPercent)
    case 2 => if s.gpuTempDeciC == -32768 then None else Some(s.gpuTempDeciC * 100)
    case 3 => if s.cpuPercent == 255 then None else Times1000(s.cpuPercent)
    case 4 => if s.systemTempDeciC == -32768 then None else Some(s.systemTempDeciC * 100)
    case 5 => Times1000(s.cpuClock)
    case 6 => Times1000(s.gpuClock)
    case 7 => Times1000(s.vramClock)
    case 8 => Times1000(s.ramClock)
    case 9 => Times1000(s.diskPercent)
    case 10 => if s.nvmeTempDeciC == -1 then Some(UNKNOWN) else Some(s.nvmeTempDeciC * 100)
    case 11 => Times1000(s.diskReadKib)
    case _ => Times1000(s.diskWriteKib)
  }

  function Values(s: Sample, start: int): (v: seq<Option<int>>)
    ensures |v| == COLUMNS
  {
    seq(COLUMNS, i requires 0 <= i < COLUMNS => ValueAt(s, start, i))
  }

  function Printed13(v: seq<Option<int>>): (p: seq<string>)
    ensures |p| == |v|
  {
    seq(|v|, i requires 0 <= i < |v| => Compact(v[i]))
  }

  function Row(s: Sample, start: int): string { Join(Printed13(Values(s, start)), ',') }

  function Rows(samples: seq<Sample>, start: int): (rows: seq<string>)
    ensures |rows| == |samples|
  {
    seq(|samples|, i requires 0 <= i < |samples| => Row(samples[i], start))
  }

  // The present values of one column of the samples themselves.
  function Present(samples: seq<Sample>, start: int, i: nat): seq<int>
    requires 1 <= i <= METRICS
  {
    if samples == [] then []
    else
      var v := Values(samples[|samples| - 1], start)[i];
      Present(samples[..|samples| - 1], start, i) + (if v.Some? then [v.value] else [])
  }

  predicate NotBefore(samples: seq<Sample>, start: int) {
    forall i :: 0 <= i < |samples| ==> samples[i].unixMs >= start
  }

  // The maxima are taken over what the printed rows say, as the source re-splits them.
  method ColumnOfRows(rows: seq<string>, samples: seq<Sample>, start: int, index: nat) returns (values: seq<int>)
    requires 1 <= index <= METRICS && rows == Rows(samples, start)
    ensures values == Present(samples, start, index)
  {
    hide Compact, ReadNumber, Values, Row;
    values := [];
    for n := 0 to |rows|
      invariant values == Present(samples[..n], start, index)
    {
      CellsOfRow(samples[n], start);
      var cell := Split(rows[n], ',')[index];
      assert samples[..n + 1][..n] == samples[..n];
      CompactMeaning(Values(samples[n], start)[index]);
      if cell != "" {
        values := values + [ReadNumber(cell).value];
      }
    }
    assert samples[..|samples|] == samples;
  }

  method WatchdogSummary(samples: seq<Sample>, start: int) returns (r: Option<Timeline>)
    ensures r.Some? <==> NotBefore(samples, start)
    ensures r.Some? ==> r.value.rows == Rows(samples, start) && r.value.interval == Some(1)
    ensures r.Some? ==>
      && |r.value.maxima| == METRICS
      && forall i :: 1 <= i <= METRICS ==>
           r.value.maxima[i - 1] == Largest(Present(samples, start, i), Missing(i))
    // The four usage and temperature maxima are null without a value, the eight others -1.
    ensures r.Some? ==> forall i :: 1 <= i <= METRICS && Present(samples, start, i) == [] ==>
      r.value.maxima[i - 1] == if i in {1, 2, 3, 4} then None else Some(-1000)
  {
    hide Row, Present;
    var rows := [];
    for n := 0 to |samples|
      invariant rows == Rows(samples[..n], start) && NotBefore(samples[..n], start)
    {
      if samples[n].unixMs - start < 0 { return None; }
      assert samples[..n + 1] == samples[..n] + [samples[n]];
      rows := rows + [Row(samples[n], start)];
      assert rows == Rows(samples[..n + 1], start);
    }
    assert samples[..|samples|] == samples;
    var maxima := [];
    for i := 1 to COLUMNS
      invariant |maxima| == i - 1
      invariant forall j :: 1 <= j < i ==> maxima[j - 1] == Largest(Present(samples, start, j), Missing(j))
    {
      var values := ColumnOfRows(rows, samples, start, i);
      maxima := maxima + [Largest(values, Missing(i))];
    }
    return Some(Timeline(Some(1), rows, maxima));
  }

  // ---------------------------------------------------------------- agreement

  lemma CompactMeaning(v: Option<int>)
    ensures ',' !in Compact(v)
    ensures Compact(v) == "" <==> v.None?
    ensures v.Some? ==> ReadNumber(Compact(v)) == v
  {
    if v.Some? { CompactRoundTrip(v.value); }
  }

  lemma CellsOfRow(s: Sample, start: int)
    ensures Cells(Row(s, start)) == Printed13(Values(s, start))
  {
    hide Compact, Values;
    var parts := Printed13(Values(s, start));
    forall p | p in parts ensures ',' !in p {
      var i :| 0 <= i < |parts| && parts[i] == p;
      CompactMeaning(Values(s, start)[i]);
    }
    SplitJoin(parts, ',');
  }

  // In-range metrics, in the sample's own units and sentinels.
  predicate InRange(s: Sample) {
    && (s.gpuPercent == 255 || 0 <= s.gpuPercent <= 100)
    && (s.cpuPercent == 255 || 0 <= s.cpuPercent <= 100)
    && (s.gpuTempDeciC == -32768 || -1000 <= s.gpuTempDeciC <= 2500)
    && (s.systemTempDeciC == -32768 || -1000 <= s.systemTempDeciC <= 2500)
    && (s.cpuClock == -1 || s.cpuClock > 0) && (s.gpuClock == -1 || s.gpuClock > 0)
    && (s.vramClock == -1 || s.vramClock > 0) && (s.ramClock == -1 || s.ramClock > 0)
    && (s.diskPercent == -1 || 0 <= s.diskPercent <= 100)
    && (s.nvmeTempDeciC == -1 || -1000 <= s.nvmeTempDeciC <= 2500)
    && s.diskReadKib >= -1 && s.diskWriteKib >= -1
  }

  predicate Fits(s: Sample, start: int, i: nat)
    requires 1 <= i <= METRICS
  {
    var v := ValueAt(s, start, i);
    v.None? || Accepts(KindOf(i), v.value)
  }

  lemma RangesAgree(s: Sample, start: int)
    ensures InRange(s) <==> forall i :: 1 <= i <= METRICS ==> Fits(s, start, i)
  {
    if forall i :: 1 <= i <= METRICS ==> Fits(s, start, i) {
      assert Fits(s, start, 1) && Fits(s, start, 2) && Fits(s, start, 3) && Fits(s, start, 4);
      assert Fits(s, start, 5) && Fits(s, start, 6) && Fits(s, start, 7) && Fits(s, start, 8);
      assert Fits(s, start, 9) && Fits(s, start, 10) && Fits(s, start, 11) && Fits(s, start, 12);
    }
  }

  // What the validator reads in a cell the summary printed.
  function CellField(s: Sample, start: int, i: nat): Field
    requires 1 <= i <= METRICS
  {
    match ValueAt(s, start, i)
    case None => Absent
    case Some(t) => if Accepts(KindOf(i), t) then Num(t) else Invalid
  }

  lemma CellOfSample(s: Sample, start: int, i: nat)
    requires 1 <= i <= METRICS
    ensures |Cells(Row(s, start))| == COLUMNS
    ensures TimelineNumber(Cells(Row(s, start))[i], KindOf(i)) == CellField(s, start, i)
    ensures CellField(s, start, i) == Invalid <==> !Fits(s, start, i)
  {
    hide ValueAt, Compact, ReadNumber, KindOf, Accepts, Row, Cells;
    CellsOfRow(s, start);
    CompactMeaning(ValueAt(s, start, i));
  }

  lemma TimeOfSample(s: Sample, start: int)
    ensures |Cells(Row(s, start))| == COLUMNS
    ensures ReadNumber(Cells(Row(s, start))[0]) == Some(s.unixMs - start)
  {
    hide Compact, ReadNumber, Row, Cells;
    CellsOfRow(s, start);
    CompactMeaning(ValueAt(s, start, 0));
  }

  lemma RowOfSample(s: Sample, start: int, previous: int)
    ensures RowAccepted(Row(s, start), previous)
       <==> s.unixMs - start >= 0 && s.unixMs - start > previous && InRange(s)
  {
    hide InRange, Fits, CellField, ReadNumber, KindOf, Row, Cells, TimelineNumber;
    RangesAgree(s, start);
    TimeOfSample(s, start);
    forall i | 1 <= i <= METRICS
      ensures TimelineNumber(Cells(Row(s, start))[i], KindOf(i)) == Invalid <==> !Fits(s, start, i)
    {
      CellOfSample(s, start, i);
    }
  }

  predicate Increasing(samples: seq<Sample>) {
    forall i, j :: 0 <= i < j < |samples| ==> samples[i].unixMs < samples[j].unixMs
  }

  predicate Publishable(samples: seq<Sample>, start: int) {
    Increasing(samples) && NotBefore(samples, start) && forall s :: s in samples ==> InRange(s)
  }

  lemma LastOfRows(samples: seq<Sample>, start: int)
    requires samples != []
    ensures var before := samples[..|samples| - 1];
      && Rows(samples, start)[..|samples| - 1] == Rows(before, start)
      && Rows(samples, start)[|samples| - 1] == Row(samples[|samples| - 1], start)
    ensures ElapsedBefore(Rows(samples, start)) == samples[|samples| - 1].unixMs - start
  {
    hide Row, ReadNumber;
    TimeOfSample(samples[|samples| - 1], start);
  }

  lemma {:induction false} RowsOfSamples(samples: seq<Sample>, start: int)
    ensures RowsAccepted(Rows(samples, start)) <==> Publishable(samples, start)
    decreases |samples|
  {
    hide InRange, Row, RowAccepted, ElapsedBefore, Rows;
    if samples == [] {
      assert Rows(samples, start) == [];
    } else {
      var before, last := samples[..|samples| - 1], samples[|samples| - 1];
      LastOfRows(samples, start);
      RowsOfSamples(before, start);
      RowOfSample(last, start, ElapsedBefore(Rows(before, start)));
      if before != [] { LastOfRows(before, start); } else { EmptyStart(start); }
      assert samples == before + [last];
      PublishableStep(before, last, start);
      hide Publishable;
    }
  }

  lemma EmptyStart(start: int)
    ensures Rows([], start) == [] && ElapsedBefore(Rows([], start)) == -1000
  {
  }

  lemma {:induction false} ColumnsOfSamples(samples: seq<Sample>, start: int, i: nat)
    requires 1 <= i <= METRICS && RowsAccepted(Rows(samples, start))
    ensures Column(Rows(samples, start), i) == Present(samples, start, i)
    decreases |samples|
  {
    hide Row, Rows, ElapsedBefore, TimelineNumber, Accepts, KindOf, ValueAt;
    if samples == [] {
      EmptyStart(start);
    } else {
      var before, last := samples[..|samples| - 1], samples[|samples| - 1];
      LastOfRows(samples, start);
      ColumnsOfSamples(before, start, i);
      CellOfSample(last, start, i);
    }
  }

  lemma PublishableStep(before: seq<Sample>, last: Sample, start: int)
    ensures Publishable(before + [last], start) <==>
      && Publishable(before, start) && InRange(last) && last.unixMs >= start
      && (before != [] ==> before[|before| - 1].unixMs < last.unixMs)
  {
    hide InRange;
    var all := before + [last];
    assert all[|before|] == last && forall i :: 0 <= i < |before| ==> all[i] == before[i];
    assert Publishable(all, start) ==> forall s :: s in before ==> s in all;
    assert last in all;
  }

  // The summary of a sample list passes the validator exactly when the list is not
  // empty, its times increase from the start, and every metric is in range; and its
  // maxima are those of the samples themselves.
  lemma PublishedTelemetryIsValid(samples: seq<Sample>, start: int, maxima: seq<Option<int>>)
    requires |maxima| == METRICS
    requires forall i :: 1 <= i <= METRICS ==> maxima[i - 1] == Largest(Present(samples, start, i), Missing(i))
    ensures TimelineAccepted(Timeline(Some(1), Rows(samples, start), maxima))
       <==> samples != [] && Publishable(samples, start)
  {
    hide Publishable, RowsAccepted, Column, Present, Largest;
    RowsOfSamples(samples, start);
    if Publishable(samples, start) {
      forall i | 1 <= i <= METRICS ensures Column(Rows(samples, start), i) == Present(samples, start, i) {
        ColumnsOfSamples(samples, start, i);
      }
    }
  }

  // The printed cell reads back as this value, or is empty for none.
  predicate Reads(cell: string, v: Option<int>) { if v.None? then cell == "" else ReadNumber(cell) == v }

  function Whole(n: int, unknown: int): Option<int> { if n == unknown then None else Some(n * 1000) }

  function Tenths(n: int, unknown: int): Option<int> { if n == unknown then None else Some(n * 100) }

  // Which sample field each printed column carries, in thousandths.
  lemma ColumnsCarryFields(s: Sample, start: int)
    ensures var cells := Split(Row(s, start), ',');
      && |cells| == 13
      && Reads(cells[0], Some(s.unixMs - start))
      && Reads(cells[1], Whole(s.gpuPercent, 255)) && Reads(cells[2], Tenths(s.gpuTempDeciC, -32768))
      && Reads(cells[3], Whole(s.cpuPercent, 255)) && Reads(cells[4], Tenths(s.systemTempDeciC, -32768))
      && Reads(cells[5], Some(s.cpuClock * 1000)) && Reads(cells[6], Some(s.gpuClock * 1000))
      && Reads(cells[7], Some(s.vramClock * 1000)) && Reads(cells[8], Some(s.ramClock * 1000))
      && Reads(cells[9], Some(s.diskPercent * 1000))
      && Reads(cells[10], Some(if s.nvmeTempDeciC == -1 then -1000 else s.nvmeTempDeciC * 100))
      && Reads(cells[11], Some(s.diskReadKib * 1000)) && Reads(cells[12], Some(s.diskWriteKib * 1000))
  {
    hide Row, Compact, ReadNumber, Split, Join;
    CellsOfRow(s, start);
    forall i | 0 <= i < COLUMNS ensures Reads(Printed13(Values(s, start))[i], ValueAt(s, start, i)) {
      CompactMeaning(ValueAt(s, start, i));
    }
    hide Printed13, Values, Reads;
  }

  // End to end: publishing a workload's samples and validating the published record.
  method PublishTelemetry(samples: seq<Sample>, start: int) returns (accepted: bool)
    ensures accepted <==> samples != [] && Publishable(samples, start)
  {
    var t := WatchdogSummary(samples, start);
    if t.None? { return false; }
    PublishedTelemetryIsValid(samples, start, t.value.maxima);
    accepted := ValidateTelemetry(t.value);
  }
}
