/**
 * The post-processing half of `analyze_motor_data` (analyze_motor_data.py):
 * from the cleaned frame, the per-row reconstruction errors and the model's
 * threshold and column statistics, build the payload the dashboard reads.
 * Scaling, prediction and the pandas statistics come in as given values.
 */
module Analysis {
  import opened Dict
  import opened Indices
  import opened Payload
  import Downsample

  /** A column of `df_analysis`; its mean, minimum and maximum are given. */
  datatype Column = Column(values: seq<real>, mean: real, min: real, max: real)

  /** What the analysis works on once the errors are computed (line 85). */
  datatype Input = Input(
    columns: Entries<Column>,           // `df_analysis`, in column order
    time: Option<seq<real>>,            // `time_data`: the `time` column, when present
    errors: seq<real>,                  // `reconstruction_errors`, one per row
    threshold: real,                    // `error_threshold`
    columnStats: Entries<ColumnStats>,  // the model's `column_stats`
    tempColumns: seq<string>)           // `temp_columns`

  /** A frame: every column, and the time column, has one value per row. */
  predicate Rectangular(input: Input) {
    && (forall k :: 0 <= k < |input.columns| ==> |input.columns[k].1.values| == |input.errors|)
    && (input.time.Some? ==> |input.time.value| == |input.errors|)
  }

  // ---------------------------------------------------------------- anomalies

  /** Row i is anomalous: its error is strictly above the threshold (line 88). */
  function AboveThreshold(errors: seq<real>, threshold: real): nat -> bool {
    (i: nat) => i < |errors| && errors[i] > threshold
  }

  /** `np.where(anomalies)[0]` (line 107). */
  function AnomalyIndices(errors: seq<real>, threshold: real): seq<nat> {
    Where(|errors|, AboveThreshold(errors, threshold))
  }

  /**
   * The anomaly indices are exactly the rows above the threshold, ascending,
   * and `anomaly_count` is the number of such rows (lines 88, 107-108).
   */
  lemma AnomalyFlags(errors: seq<real>, threshold: real)
    ensures forall i: nat :: i in AnomalyIndices(errors, threshold) <==> i < |errors| && errors[i] > threshold
    ensures Increasing(AnomalyIndices(errors, threshold))
    ensures |AnomalyIndices(errors, threshold)| == |set i: nat | i < |errors| && errors[i] > threshold|
  {
    var p := AboveThreshold(errors, threshold);
    WhereIncreasing(|errors|, p);
    WhereCount(|errors|, p);
    assert Passing(|errors|, p) == set i: nat | i < |errors| && errors[i] > threshold;
  }

  /** A row whose error equals the threshold is not anomalous. */
  lemma ThresholdIsStrict(errors: seq<real>, threshold: real, i: nat)
    requires i < |errors| && errors[i] == threshold
    ensures i !in AnomalyIndices(errors, threshold)
  {
  }

  // ------------------------------------------------------- out-of-range counts

  /** v lies outside [lo, hi]; a missing bound is infinite (`-float('inf')`, `float('inf')`). */
  predicate Outside(v: real, lo: Option<real>, hi: Option<real>) {
    (lo.Some? && v < lo.value) || (hi.Some? && v > hi.value)
  }

  function OutsideAt(values: seq<real>, lo: Option<real>, hi: Option<real>): nat -> bool {
    (i: nat) => i < |values| && Outside(values[i], lo, hi)
  }

  /** `((col < lo) | (col > hi)).sum()` */
  function OutOfRange(values: seq<real>, lo: Option<real>, hi: Option<real>): (c: nat)
    ensures c <= |values|
    ensures c == 0 <==> forall i :: 0 <= i < |values| ==> !Outside(values[i], lo, hi)
  {
    var r := Where(|values|, OutsideAt(values, lo, hi));
    assert |r| > 0 ==> r[0] in r;
    assert forall i: nat :: i < |values| && Outside(values[i], lo, hi) ==> i in r;
    |r|
  }

  /** The count is the number of rows outside the bounds. */
  lemma OutOfRangeCount(values: seq<real>, lo: Option<real>, hi: Option<real>)
    ensures OutOfRange(values, lo, hi) == |set i: nat | i < |values| && Outside(values[i], lo, hi)|
  {
    var p := OutsideAt(values, lo, hi);
    WhereCount(|values|, p);
    assert Passing(|values|, p) == set i: nat | i < |values| && Outside(values[i], lo, hi);
  }

  /**
   * The anomaly count of a column against the model's statistics for it:
   * its normal range when it has an entry, otherwise no bound at all.
   */
  function ColumnAnomalies(values: seq<real>, stats: Option<ColumnStats>): (c: nat)
    ensures c <= |values|
    ensures stats.None? ==> c == 0
    ensures stats.Some? ==>
      (c == 0 <==> forall i :: 0 <= i < |values| ==> stats.value.minNormal <= values[i] <= stats.value.maxNormal)
  {
    match stats
    case Some(s) => OutOfRange(values, Some(s.minNormal), Some(s.maxNormal))
    case None => OutOfRange(values, None, None)
  }

  // -------------------------------------------------------- parameter_anomalies

  /** `parameter_anomalies` after the loop of lines 92-98 has seen the given columns. */
  function ParameterAnomaliesOf(columns: Entries<Column>, stats: Entries<ColumnStats>): Entries<int> {
    if |columns| == 0 then []
    else
      var acc := ParameterAnomaliesOf(columns[..|columns| - 1], stats);
      var (name, column) := columns[|columns| - 1];
      match Get(stats, name)
      case Some(s) =>
        var count := ColumnAnomalies(column.values, Some(s));
        if count > 0 then Put(acc, name, count) else acc
      case None => acc
  }

  /** The loop of lines 91-98. */
  method ParameterAnomalies(columns: Entries<Column>, stats: Entries<ColumnStats>) returns (anomalies: Entries<int>)
    ensures anomalies == ParameterAnomaliesOf(columns, stats)
  {
    anomalies := [];
    var i := 0;
    while i < |columns|
      invariant 0 <= i <= |columns|
      invariant anomalies == ParameterAnomaliesOf(columns[..i], stats)
    {
      var (col, column) := columns[i];
      var entry := Get(stats, col);
      if entry.Some? {
        var minVal, maxVal := entry.value.minNormal, entry.value.maxNormal;
        var count := OutOfRange(column.values, Some(minVal), Some(maxVal));
        if count > 0 {
          anomalies := Put(anomalies, col, count);
        }
      }
      assert columns[..i + 1][..i] == columns[..i];
      i := i + 1;
    }
    assert columns[..i] == columns;
  }

  /**
   * A column is listed exactly when the model has statistics for it and at
   * least one of its values is out of range, and then with that count.
   */
  lemma {:induction false} ParameterAnomaliesLookup(columns: Entries<Column>, stats: Entries<ColumnStats>, name: string)
    requires DistinctKeys(columns)
    ensures Get(ParameterAnomaliesOf(columns, stats), name) ==
      match (Get(columns, name), Get(stats, name))
      case (Some(c), Some(s)) =>
        if ColumnAnomalies(c.values, Some(s)) > 0 then Some(ColumnAnomalies(c.values, Some(s)) as int) else None
      case _ => None
  {
    if |columns| > 0 {
      var init := columns[..|columns| - 1];
      var last := columns[|columns| - 1];
      assert columns == init + [last];
      assert DistinctKeys(init);
      ParameterAnomaliesLookup(init, stats, name);
      GetSnoc(init, last, name);
      var acc := ParameterAnomaliesOf(init, stats);
      if last.0 == name {
        assert FindKey(init, name).None?;
      }
      match Get(stats, last.0)
      case Some(s) =>
        var count := ColumnAnomalies(last.1.values, Some(s));
        if count > 0 {
          GetPut(acc, last.0, count, name);
        }
      case None =>
    }
  }

  /** Every listed count is at least one, and no column is listed twice. */
  lemma {:induction false} ParameterAnomaliesPositive(columns: Entries<Column>, stats: Entries<ColumnStats>)
    ensures forall k :: 0 <= k < |ParameterAnomaliesOf(columns, stats)| ==> ParameterAnomaliesOf(columns, stats)[k].1 >= 1
    ensures DistinctKeys(ParameterAnomaliesOf(columns, stats))
  {
    if |columns| > 0 {
      var init := columns[..|columns| - 1];
      ParameterAnomaliesPositive(init, stats);
      var acc := ParameterAnomaliesOf(init, stats);
      var (name, column) := columns[|columns| - 1];
      match Get(stats, name)
      case Some(s) =>
        var count := ColumnAnomalies(column.values, Some(s));
        if count > 0 {
          PutDistinct(acc, name, count);
        }
      case None =>
    }
  }

  // ------------------------------------------------- temp_stats, temp_series

  /**
   * `for col in names: if col in df_analysis.columns: d[col] = f(col, df_analysis[col])`,
   * the shape of both the `temp_stats` and the `temp_series` loops.
   */
  function FillPresent<V>(names: seq<string>, columns: Entries<Column>, f: (string, Column) -> V): Entries<V> {
    if |names| == 0 then []
    else
      var acc := FillPresent(names[..|names| - 1], columns, f);
      var name := names[|names| - 1];
      match Get(columns, name)
      case Some(c) => Put(acc, name, f(name, c))
      case None => acc
  }

  /** A name gets an entry exactly when it is listed and is a column of the frame. */
  lemma {:induction false} FillPresentLookup<V>(names: seq<string>, columns: Entries<Column>, f: (string, Column) -> V, name: string)
    ensures Get(FillPresent(names, columns, f), name) ==
      if name in names && Get(columns, name).Some? then Some(f(name, Get(columns, name).value)) else None
  {
    if |names| > 0 {
      var init := names[..|names| - 1];
      var last := names[|names| - 1];
      assert names == init + [last];
      FillPresentLookup(init, columns, f, name);
      var acc := FillPresent(init, columns, f);
      match Get(columns, last)
      case Some(c) =>
        GetPut(acc, last, f(last, c), name);
      case None =>
    }
  }

  /** No entry is made twice, even when a name is listed twice. */
  lemma {:induction false} FillPresentDistinct<V>(names: seq<string>, columns: Entries<Column>, f: (string, Column) -> V)
    ensures DistinctKeys(FillPresent(names, columns, f))
  {
    if |names| > 0 {
      var init := names[..|names| - 1];
      FillPresentDistinct(init, columns, f);
      var name := names[|names| - 1];
      match Get(columns, name)
      case Some(c) =>
        PutDistinct(FillPresent(init, columns, f), name, f(name, c));
      case None =>
    }
  }

  /** The `temp_stats` entry of one column (lines 114-121). */
  function StatsFor(column: Column, stats: Option<ColumnStats>): TempStats {
    var v := column.values;
    TempStats(column.mean, column.max, column.min,
      if |v| > 0 then v[|v| - 1] else 0.0,
      ColumnAnomalies(v, stats))
  }

  function TempStatsEntry(stats: Entries<ColumnStats>): (string, Column) -> TempStats {
    (name: string, c: Column) => StatsFor(c, Get(stats, name))
  }

  /** The loop of lines 111-121. */
  method TemperatureStats(tempColumns: seq<string>, columns: Entries<Column>, stats: Entries<ColumnStats>)
    returns (tempStats: Entries<TempStats>)
    ensures tempStats == FillPresent(tempColumns, columns, TempStatsEntry(stats))
  {
    tempStats := [];
    var i := 0;
    while i < |tempColumns|
      invariant 0 <= i <= |tempColumns|
      invariant tempStats == FillPresent(tempColumns[..i], columns, TempStatsEntry(stats))
    {
      var col := tempColumns[i];
      var column := Get(columns, col);
      if column.Some? {
        var v := column.value.values;
        tempStats := Put(tempStats, col, TempStats(
          column.value.mean, column.value.max, column.value.min,
          if |v| > 0 then v[|v| - 1] else 0.0,
          ColumnAnomalies(v, Get(stats, col))));
      }
      assert tempColumns[..i + 1][..i] == tempColumns[..i];
      i := i + 1;
    }
    assert tempColumns[..i] == tempColumns;
  }

  /**
   * With no `column_stats` entry a temperature column has no anomalies; with
   * one, its count is the one `parameter_anomalies` lists (0 when unlisted).
   */
  lemma TempAnomaliesAgree(input: Input, name: string)
    requires DistinctKeys(input.columns)
    requires name in input.tempColumns && Get(input.columns, name).Some?
    ensures var entry := Get(FillPresent(input.tempColumns, input.columns, TempStatsEntry(input.columnStats)), name);
      && entry.Some?
      && (Get(input.columnStats, name).None? ==> entry.value.anomalies == 0)
      && (Get(input.columnStats, name).Some? ==>
            entry.value.anomalies ==
              match Get(ParameterAnomaliesOf(input.columns, input.columnStats), name)
              case Some(count) => count
              case None => 0)
  {
    FillPresentLookup(input.tempColumns, input.columns, TempStatsEntry(input.columnStats), name);
    ParameterAnomaliesLookup(input.columns, input.columnStats, name);
  }

  /** The `temp_series` entry of one column (lines 157-160): downsampled like the errors. */
  function SeriesEntry(n: nat, maxPoints: nat): (string, Column) -> seq<real>
    requires maxPoints >= 1
  {
    (name: string, c: Column) =>
      Downsample.Thin(c.values, n, maxPoints)
  }

  /** The loop of lines 154-160. */
  method TemperatureSeries(tempColumns: seq<string>, columns: Entries<Column>, n: nat, maxPoints: nat)
    returns (series: Entries<seq<real>>)
    requires maxPoints >= 1
    ensures series == FillPresent(tempColumns, columns, SeriesEntry(n, maxPoints))
  {
    series := [];
    var i := 0;
    while i < |tempColumns|
      invariant 0 <= i <= |tempColumns|
      invariant series == FillPresent(tempColumns[..i], columns, SeriesEntry(n, maxPoints))
    {
      var col := tempColumns[i];
      var column := Get(columns, col);
      if column.Some? {
        if n > maxPoints {
          var step := n / maxPoints;
          series := Put(series, col, Downsample.Stride(column.value.values, step));
        } else {
          series := Put(series, col, column.value.values);
        }
      }
      assert tempColumns[..i + 1][..i] == tempColumns[..i];
      i := i + 1;
    }
    assert tempColumns[..i] == tempColumns;
  }

  // ------------------------------------------------------------------ plot_data

  /** Python truthiness of `time_data`: present and not empty. */
  predicate Truthy(time: Option<seq<real>>) {
    time.Some? && |time.value| > 0
  }

  /** `plot_data` (lines 124-151). */
  function PlotDataOf(input: Input, maxPoints: nat): PlotData
    requires maxPoints >= 1
  {
    var n := |input.errors|;
    var downsampled := n > maxPoints;
    var step := Downsample.Step(n, maxPoints);
    var indices := AnomalyIndices(input.errors, input.threshold);
    var timeData := if downsampled && Truthy(input.time) then Some(Downsample.Stride(input.time.value, step)) else input.time;
    PlotData(
      if Truthy(timeData) then timeData.value else Downsample.TimeAxis(n, step),
      Some(Downsample.Thin(input.errors, n, maxPoints)),
      input.threshold,
      if downsampled then Downsample.Remap(indices, step) else indices,
      downsampled,
      n)
  }

  // ------------------------------------------------------ summary and samples

  /** `anomaly_count / len(df_analysis) * 100`, or 0 for an empty frame (line 169). */
  function Percentage(count: nat, total: nat): (p: real)
    ensures total == 0 ==> p == 0.0
    ensures count <= total ==> 0.0 <= p <= 100.0
    ensures total > 0 ==> (p == 0.0 <==> count == 0)
    ensures total > 0 ==> (p == 100.0 <==> count == total)
  {
    if total > 0 then count as real / total as real * 100.0 else 0.0
  }

  /** At most this many anomalous rows are sampled (line 176). */
  const SampleLimit: nat := 5

  /** `df_analysis.iloc[row].to_dict()`: the row's value in every column, in column order. */
  function RecordAt(columns: Entries<Column>, row: nat): Entries<Value>
    requires forall k :: 0 <= k < |columns| ==> row < |columns[k].1.values|
  {
    seq(|columns|, k requires 0 <= k < |columns| => (columns[k].0, Num(columns[k].1.values[row])))
  }

  /** `df_analysis.iloc[anomaly_indices[:5]].to_dict('records') if anomaly_count > 0 else []` */
  function SampleAnomaliesOf(columns: Entries<Column>, indices: seq<nat>): seq<Entries<Value>>
    requires forall k, j :: 0 <= k < |columns| && 0 <= j < |indices| ==> indices[j] < |columns[k].1.values|
  {
    if |indices| == 0 then []
    else
      var picked := if |indices| > SampleLimit then indices[..SampleLimit] else indices;
      seq(|picked|, j requires 0 <= j < |picked| => RecordAt(columns, picked[j]))
  }

  /** The samples are the records of the first anomalies, in order, at most five of them. */
  lemma SampleAnomaliesShape(columns: Entries<Column>, indices: seq<nat>)
    requires forall k, j :: 0 <= k < |columns| && 0 <= j < |indices| ==> indices[j] < |columns[k].1.values|
    ensures |SampleAnomaliesOf(columns, indices)| == if |indices| < SampleLimit then |indices| else SampleLimit
    ensures forall j :: 0 <= j < |SampleAnomaliesOf(columns, indices)| ==>
      SampleAnomaliesOf(columns, indices)[j] == RecordAt(columns, indices[j])
  {
  }

  // -------------------------------------------------------------------- result

  /** The payload of a run that got past anomaly detection (lines 163-177). */
  function Report(input: Input, maxPoints: nat, timestamp: string): AnalysisResult
    requires maxPoints >= 1 && Rectangular(input)
  {
    var n := |input.errors|;
    var indices := AnomalyIndices(input.errors, input.threshold);
    AnalysisResult(
      Success, "", timestamp,
      Summary(n, |indices|, Percentage(|indices|, n), ParameterAnomaliesOf(input.columns, input.columnStats)),
      FillPresent(input.tempColumns, input.columns, TempStatsEntry(input.columnStats)),
      PlotDataOf(input, maxPoints),
      FillPresent(input.tempColumns, input.columns, SeriesEntry(n, maxPoints)),
      input.columnStats,
      SampleAnomaliesOf(input.columns, indices))
  }

  /** `analyze_motor_data` from the errors on: the three loops, then the result dictionary. */
  method AnalyzeMotorData(input: Input, maxPoints: nat, timestamp: string) returns (result: AnalysisResult)
    requires maxPoints >= 1 && Rectangular(input)
    ensures result == Report(input, maxPoints, timestamp)
  {
    var n := |input.errors|;
    var parameterAnomalies := ParameterAnomalies(input.columns, input.columnStats);
    var anomalyIndices := AnomalyIndices(input.errors, input.threshold);
    var anomalyCount := |anomalyIndices|;
    var tempStats := TemperatureStats(input.tempColumns, input.columns, input.columnStats);
    var plotData := PlotDataOf(input, maxPoints);
    var tempSeries := TemperatureSeries(input.tempColumns, input.columns, n, maxPoints);
    var percentage := if n > 0 then anomalyCount as real / n as real * 100.0 else 0.0;
    var samples := if anomalyCount > 0 then SampleAnomaliesOf(input.columns, anomalyIndices) else [];
    result := AnalysisResult(
      Success, "", timestamp,
      Summary(n, anomalyCount, percentage, parameterAnomalies),
      tempStats, plotData, tempSeries, input.columnStats, samples);
  }

  /** The summary counts the anomalous rows, and the percentage lies in [0, 100]. */
  lemma SummaryFacts(input: Input, maxPoints: nat, timestamp: string)
    requires maxPoints >= 1 && Rectangular(input)
    ensures var s := Report(input, maxPoints, timestamp).summary;
      && s.totalRecords == |input.errors|
      && s.anomalyCount == |set i: nat | i < |input.errors| && input.errors[i] > input.threshold|
      && s.anomalyCount <= s.totalRecords
      && 0.0 <= s.anomalyPercentage <= 100.0
  {
    AnomalyFlags(input.errors, input.threshold);
  }
}
