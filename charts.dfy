/**
 * The data of the two charts of the dashboard: the anomaly chart
 * (`updateAnomalyChart`) and the temperature chart (`updateTemperatureChart`).
 * Only the datasets are modelled; Chart.js draws them.
 */
module Charts {
  import opened Dict
  import opened Indices
  import opened Payload
  import SensorName

  /** A chart point `{x, y}`; x is None where JavaScript would read `undefined`. */
  datatype Point = Point(x: Option<real>, y: real)

  /** `time[i]`: undefined outside the array. */
  function TimeAt(time: seq<real>, i: int): Option<real> {
    if 0 <= i < |time| then Some(time[i]) else None
  }

  /**
   * The indices below n that go to the anomaly side (anomalous = true) or to
   * the normal side: `anomaly_indices.includes(i)` decides.
   */
  function Side(anomalyIndices: seq<int>, n: nat, anomalous: bool): seq<nat> {
    Where(n, (i: nat) => (i in anomalyIndices) == anomalous)
  }

  function XsAt(time: seq<real>, idx: seq<nat>): seq<Option<real>> {
    seq(|idx|, k requires 0 <= k < |idx| => TimeAt(time, idx[k]))
  }

  function YsAt(errors: seq<real>, idx: seq<nat>): seq<real>
    requires forall k :: 0 <= k < |idx| ==> idx[k] < |errors|
  {
    seq(|idx|, k requires 0 <= k < |idx| => errors[idx[k]])
  }

  /** The points of the error series at the given indices, in that order. */
  function PointsAt(time: seq<real>, errors: seq<real>, idx: seq<nat>): seq<Point>
    requires forall k :: 0 <= k < |idx| ==> idx[k] < |errors|
  {
    seq(|idx|, k requires 0 <= k < |idx| => Point(TimeAt(time, idx[k]), errors[idx[k]]))
  }

  /** The points one side of the partition receives. */
  function SidePoints(time: seq<real>, errors: seq<real>, anomalyIndices: seq<int>, anomalous: bool): seq<Point> {
    PointsAt(time, errors, Side(anomalyIndices, |errors|, anomalous))
  }

  /**
   * The loop of `updateAnomalyChart` that pushes every index into the anomaly
   * lists or into the normal lists (x from `time`, y from `errors`).
   */
  method PartitionErrors(time: seq<real>, errors: seq<real>, anomalyIndices: seq<int>)
    returns (normalX: seq<Option<real>>, normalY: seq<real>, anomalyX: seq<Option<real>>, anomalyY: seq<real>)
    ensures normalX == XsAt(time, Side(anomalyIndices, |errors|, false))
    ensures normalY == YsAt(errors, Side(anomalyIndices, |errors|, false))
    ensures anomalyX == XsAt(time, Side(anomalyIndices, |errors|, true))
    ensures anomalyY == YsAt(errors, Side(anomalyIndices, |errors|, true))
  {
    normalX, normalY, anomalyX, anomalyY := [], [], [], [];
    var i := 0;
    while i < |errors|
      invariant 0 <= i <= |errors|
      invariant normalX == XsAt(time, Side(anomalyIndices, i, false))
      invariant normalY == YsAt(errors, Side(anomalyIndices, i, false))
      invariant anomalyX == XsAt(time, Side(anomalyIndices, i, true))
      invariant anomalyY == YsAt(errors, Side(anomalyIndices, i, true))
    {
      ghost var normal, anomalous := Side(anomalyIndices, i, false), Side(anomalyIndices, i, true);
      if i in anomalyIndices {
        assert Side(anomalyIndices, i + 1, true) == anomalous + [i];
        assert Side(anomalyIndices, i + 1, false) == normal;
        assert XsAt(time, anomalous + [i]) == XsAt(time, anomalous) + [TimeAt(time, i)];
        assert YsAt(errors, anomalous + [i]) == YsAt(errors, anomalous) + [errors[i]];
        anomalyX := anomalyX + [TimeAt(time, i)];
        anomalyY := anomalyY + [errors[i]];
      } else {
        assert Side(anomalyIndices, i + 1, false) == normal + [i];
        assert Side(anomalyIndices, i + 1, true) == anomalous;
        assert XsAt(time, normal + [i]) == XsAt(time, normal) + [TimeAt(time, i)];
        assert YsAt(errors, normal + [i]) == YsAt(errors, normal) + [errors[i]];
        normalX := normalX + [TimeAt(time, i)];
        normalY := normalY + [errors[i]];
      }
      i := i + 1;
    }
  }

  /** Every index lands on exactly one side, and the two sides hold n points together. */
  lemma PartitionComplete(anomalyIndices: seq<int>, n: nat)
    ensures |Side(anomalyIndices, n, true)| + |Side(anomalyIndices, n, false)| == n
    ensures forall i: nat :: i < n ==> (i in Side(anomalyIndices, n, true) <==> i !in Side(anomalyIndices, n, false))
    ensures forall i: nat :: i in Side(anomalyIndices, n, true) <==> i < n && i in anomalyIndices
  {
    WhereSplit(n, (i: nat) => (i in anomalyIndices) == true, (i: nat) => (i in anomalyIndices) == false);
  }

  /** The anomaly side holds one point per distinct in-range entry of `anomaly_indices`. */
  lemma AnomalyPointCount(anomalyIndices: seq<int>, n: nat)
    ensures |Side(anomalyIndices, n, true)| == |set i: nat | i < n && i in anomalyIndices|
  {
    var p := (i: nat) => (i in anomalyIndices) == true;
    WhereCount(n, p);
    assert Passing(n, p) == set i: nat | i < n && i in anomalyIndices;
  }

  /** Duplicate and out-of-range entries of `anomaly_indices` change nothing. */
  lemma OnlyValidIndicesMatter(a: seq<int>, b: seq<int>, n: nat, anomalous: bool)
    requires forall i: nat :: i < n ==> (i in a <==> i in b)
    ensures Side(a, n, anomalous) == Side(b, n, anomalous)
  {
    WhereAgree(n, (i: nat) => (i in a) == anomalous, (i: nat) => (i in b) == anomalous);
  }

  /** The three datasets of the anomaly chart. */
  datatype AnomalyChart = AnomalyChart(errorLine: seq<Point>, anomalyDots: seq<Point>, thresholdLine: seq<Point>)

  /** "Reconstruction Error": `errors.map((error, index) => ({x: time[index], y: error}))`. */
  function ErrorLine(time: seq<real>, errors: seq<real>): seq<Point> {
    seq(|errors|, k requires 0 <= k < |errors| => Point(TimeAt(time, k), errors[k]))
  }

  /** "Threshold": `time.map((t) => ({x: t, y: threshold}))`. */
  function ThresholdLine(time: seq<real>, threshold: real): seq<Point> {
    seq(|time|, k requires 0 <= k < |time| => Point(Some(time[k]), threshold))
  }

  /** The chart drawn for `plot_data`; None when `errors` is missing (no chart). */
  function AnomalyChartOf(plot: PlotData): Option<AnomalyChart> {
    match plot.errors
    case None => None
    case Some(errors) =>
      Some(AnomalyChart(
        ErrorLine(plot.time, errors),
        SidePoints(plot.time, errors, plot.anomalyIndices, true),
        ThresholdLine(plot.time, plot.threshold)))
  }

  /** `updateAnomalyChart` without the drawing: partition, then the three datasets. */
  method DrawAnomalyChart(plot: PlotData) returns (chart: Option<AnomalyChart>)
    ensures chart == AnomalyChartOf(plot)
  {
    if plot.errors.None? {
      return None;
    }
    var errors := plot.errors.value;
    var _, _, anomalyX, anomalyY := PartitionErrors(plot.time, errors, plot.anomalyIndices);
    var dots := seq(|anomalyY|, k requires 0 <= k < |anomalyY| && |anomalyX| == |anomalyY| => Point(anomalyX[k], anomalyY[k]));
    assert dots == SidePoints(plot.time, errors, plot.anomalyIndices, true);
    chart := Some(AnomalyChart(ErrorLine(plot.time, errors), dots, ThresholdLine(plot.time, plot.threshold)));
  }

  /**
   * Every red dot is a point of the error line, taken at an index that
   * `anomaly_indices` names, in increasing index order.
   */
  lemma DotsOnErrorLine(plot: PlotData)
    requires AnomalyChartOf(plot).Some?
    ensures var chart := AnomalyChartOf(plot).value;
      var idx := Side(plot.anomalyIndices, |plot.errors.value|, true);
      && |chart.anomalyDots| == |idx|
      && Increasing(idx)
      && forall k :: 0 <= k < |idx| ==> idx[k] in plot.anomalyIndices && chart.anomalyDots[k] == chart.errorLine[idx[k]]
  {
    var idx := Side(plot.anomalyIndices, |plot.errors.value|, true);
    WhereIncreasing(|plot.errors.value|, (i: nat) => (i in plot.anomalyIndices) == true);
    assert Increasing(idx);
    forall k | 0 <= k < |idx| ensures idx[k] in plot.anomalyIndices {
      assert idx[k] in idx;
    }
  }

  /**
   * The threshold line is flat at the threshold, has one point per time
   * value, and shares its x values with the error line when `time` and
   * `errors` have the same length.
   */
  lemma ThresholdSpansTimeDomain(plot: PlotData)
    requires AnomalyChartOf(plot).Some?
    ensures var chart := AnomalyChartOf(plot).value;
      && |chart.thresholdLine| == |plot.time|
      && (forall k :: 0 <= k < |chart.thresholdLine| ==> chart.thresholdLine[k].y == plot.threshold)
      && (|plot.time| == |plot.errors.value| ==>
            |chart.errorLine| == |chart.thresholdLine| &&
            forall k :: 0 <= k < |chart.errorLine| ==> chart.errorLine[k].x == chart.thresholdLine[k].x)
  {
  }

  /** The worked example: of four errors, indices 1 and 3 are flagged. */
  lemma PartitionExample()
    ensures SidePoints([0.0, 1.0, 2.0, 3.0], [0.1, 0.9, 0.2, 0.95], [1, 3], false)
      == [Point(Some(0.0), 0.1), Point(Some(2.0), 0.2)]
    ensures SidePoints([0.0, 1.0, 2.0, 3.0], [0.1, 0.9, 0.2, 0.95], [1, 3], true)
      == [Point(Some(1.0), 0.9), Point(Some(3.0), 0.95)]
  {
    var time, errors := [0.0, 1.0, 2.0, 3.0], [0.1, 0.9, 0.2, 0.95];
    ExamplePoints(time, errors, [1, 3], false);
    ExamplePoints(time, errors, [1, 3], true);
  }

  lemma ExamplePoints(time: seq<real>, errors: seq<real>, a: seq<int>, anomalous: bool)
    requires |errors| == 4 && 0 !in a && 1 in a && 2 !in a && 3 in a
    ensures SidePoints(time, errors, a, anomalous) ==
      if anomalous then [Point(TimeAt(time, 1), errors[1]), Point(TimeAt(time, 3), errors[3])]
      else [Point(TimeAt(time, 0), errors[0]), Point(TimeAt(time, 2), errors[2])]
  {
    ExampleSide(a, anomalous);
    if anomalous {
      PointsAtPair(time, errors, 1, 3);
    } else {
      PointsAtPair(time, errors, 0, 2);
    }
  }

  lemma PointsAtPair(time: seq<real>, errors: seq<real>, i: nat, j: nat)
    requires i < |errors| && j < |errors|
    ensures PointsAt(time, errors, [i, j]) == [Point(TimeAt(time, i), errors[i]), Point(TimeAt(time, j), errors[j])]
  {
  }

  /** Four indices, of which exactly 1 and 3 are flagged. */
  lemma ExampleSide(a: seq<int>, anomalous: bool)
    requires 0 !in a && 1 in a && 2 !in a && 3 in a
    ensures Side(a, 4, anomalous) == if anomalous then [1, 3] else [0, 2]
  {
    SideStep(a, 1, anomalous);
    SideStep(a, 2, anomalous);
    SideStep(a, 3, anomalous);
    SideStep(a, 4, anomalous);
  }

  /** Index n-1 is the last one the loop looks at. */
  lemma SideStep(anomalyIndices: seq<int>, n: nat, anomalous: bool)
    requires n > 0
    ensures Side(anomalyIndices, n, anomalous) ==
      Side(anomalyIndices, n - 1, anomalous) + (if ((n - 1) in anomalyIndices) == anomalous then [n - 1] else [])
  {
  }

  /** `colorPalette` */
  const Palette: seq<string> := [
    "#3772FF", "#F38375", "#3AD29F", "#FCAB64", "#F45B69",
    "#2D3142", "#90ADC6", "#E9D985", "#9C89B8", "#0A8754"]

  /** The colour of the k-th sensor line: `colorPalette[colorIndex % colorPalette.length]`. */
  function ColorFor(k: nat): string {
    Palette[k % |Palette|]
  }

  /** One dataset of the temperature chart. */
  datatype SensorLine = SensorLine(caption: string, data: seq<Point>, borderColor: string, backgroundColor: string)

  /** `values.map((value, index) => ({x: timeData[index], y: value}))` */
  function SeriesPoints(values: seq<real>, timeData: seq<real>): seq<Point> {
    seq(|values|, j requires 0 <= j < |values| => Point(TimeAt(timeData, j), values[j]))
  }

  function LineFor(sensor: string, values: seq<real>, timeData: seq<real>, k: nat): SensorLine {
    SensorLine(SensorName.Format(sensor), SeriesPoints(values, timeData), ColorFor(k), ColorFor(k) + "20")
  }

  /** The temperature chart; None when there is no series (no chart is drawn). */
  function TemperatureChartOf(series: Entries<seq<real>>, timeData: seq<real>): Option<seq<SensorLine>> {
    if |series| == 0 then None
    else Some(seq(|series|, k requires 0 <= k < |series| => LineFor(series[k].0, series[k].1, timeData, k)))
  }

  /** The `colorIndex++` loop of `updateTemperatureChart` that builds `datasets`. */
  method DrawTemperatureChart(series: Entries<seq<real>>, timeData: seq<real>) returns (chart: Option<seq<SensorLine>>)
    ensures chart == TemperatureChartOf(series, timeData)
  {
    if |series| == 0 {
      return None;
    }
    var datasets: seq<SensorLine> := [];
    var colorIndex := 0;
    while colorIndex < |series|
      invariant 0 <= colorIndex <= |series|
      invariant |datasets| == colorIndex
      invariant forall k :: 0 <= k < colorIndex ==> datasets[k] == LineFor(series[k].0, series[k].1, timeData, k)
    {
      var (sensor, values) := series[colorIndex];
      var color := Palette[colorIndex % |Palette|];
      datasets := datasets + [SensorLine(SensorName.Format(sensor), SeriesPoints(values, timeData), color, color + "20")];
      colorIndex := colorIndex + 1;
    }
    assert datasets == TemperatureChartOf(series, timeData).value;
    chart := Some(datasets);
  }

  /** The palette repeats every ten sensors, and ten sensors in a row never share a colour. */
  lemma ColorsCycle(j: nat, k: nat)
    ensures ColorFor(j) in Palette
    ensures ColorFor(j + |Palette|) == ColorFor(j)
    ensures j < k < j + |Palette| ==> ColorFor(j) != ColorFor(k)
  {
    PaletteDistinct();
    ModCycle(j);
    if j < k < j + |Palette| {
      ModDistinct(j, k);
    }
  }

  lemma PaletteDistinct()
    ensures forall a, b :: 0 <= a < b < |Palette| ==> Palette[a] != Palette[b]
  {
    forall a, b | 0 <= a < b < |Palette| ensures Palette[a] != Palette[b] {
      assert Palette[a][1] != Palette[b][1] || Palette[a][2] != Palette[b][2];
    }
  }

  lemma ModCycle(j: nat)
    ensures (j + 10) % 10 == j % 10
  {
  }

  lemma ModDistinct(j: nat, k: nat)
    requires j < k < j + 10
    ensures j % 10 != k % 10
  {
  }
}
