/**
 * The two halves together: what analyze_motor_data.py puts in `plot_data`
 * and `temperature_series`, read the way dashboard.js reads it.
 */
module Pipeline {
  import opened Dict
  import opened Indices
  import opened Payload
  import Downsample
  import Analysis
  import Charts

  /**
   * Sample j of the plotted errors is original row j * step (j itself when
   * nothing was downsampled), and the plotted times have the same length.
   * Without downsampling the errors and indices go out unchanged; with it,
   * between `max_data_points` and twice that many samples remain.
   */
  lemma PlotErrorsAreSamples(input: Analysis.Input, maxPoints: nat)
    requires maxPoints >= 1 && Analysis.Rectangular(input)
    ensures var plot := Analysis.PlotDataOf(input, maxPoints);
      var n := |input.errors|;
      var step := Downsample.Step(n, maxPoints);
      && plot.errors.Some?
      && plot.downsampled == (n > maxPoints)
      && plot.originalLength == n
      && |plot.time| == |plot.errors.value|
      && (forall j :: 0 <= j < |plot.errors.value| ==> j * step < n && plot.errors.value[j] == input.errors[j * step])
      && (!plot.downsampled ==>
            plot.errors.value == input.errors && plot.anomalyIndices == Analysis.AnomalyIndices(input.errors, input.threshold))
      && (plot.downsampled ==> maxPoints <= |plot.errors.value| < 2 * maxPoints)
  {
    var plot := Analysis.PlotDataOf(input, maxPoints);
    var n := |input.errors|;
    var step := Downsample.Step(n, maxPoints);
    if n > maxPoints {
      var e := Downsample.Stride(input.errors, step);
      forall j | 0 <= j < |e| ensures j * step < n && e[j] == input.errors[j * step] {
        Downsample.StrideAt(input.errors, step, j);
      }
      Downsample.DownsampledLength(input.errors, maxPoints);
      if Analysis.Truthy(input.time) {
        Downsample.StrideSameLength(input.time.value, input.errors, step);
      } else {
        Downsample.TimeAxisMatches(input.errors, step);
      }
    }
  }

  /**
   * The remapped anomaly indices name exactly the plotted samples above the
   * threshold, in ascending order: no anomaly that survives the stride is
   * lost, none is invented, and each points at the sample it came from.
   */
  lemma PlotAnomaliesAboveThreshold(input: Analysis.Input, maxPoints: nat)
    requires maxPoints >= 1 && Analysis.Rectangular(input)
    ensures var plot := Analysis.PlotDataOf(input, maxPoints);
      && plot.errors.Some?
      && (forall j: nat :: j in plot.anomalyIndices <==>
            j < |plot.errors.value| && plot.errors.value[j] > input.threshold)
      && Increasing(plot.anomalyIndices)
  {
    var n := |input.errors|;
    Analysis.AnomalyFlags(input.errors, input.threshold);
    if n > maxPoints {
      var step := Downsample.Step(n, maxPoints);
      var p := (x: real) => x > input.threshold;
      Downsample.RemapWhere(input.errors, step, p);
      WhereAgree(n, (i: nat) => i < n && p(input.errors[i]), Analysis.AboveThreshold(input.errors, input.threshold));
    }
  }

  /** At or below the threshold: the samples drawn in the normal colour. */
  function NotAbove(errors: seq<real>, threshold: real): nat -> bool {
    (i: nat) => i < |errors| && errors[i] <= threshold
  }

  /**
   * On the dashboard, the red dots are exactly the plotted samples whose
   * error is above the threshold, and the normal side is exactly the rest.
   */
  lemma RedDotsAreAnomalies(input: Analysis.Input, maxPoints: nat)
    requires maxPoints >= 1 && Analysis.Rectangular(input)
    ensures var plot := Analysis.PlotDataOf(input, maxPoints);
      var e := plot.errors.value;
      && Charts.Side(plot.anomalyIndices, |e|, true) == Analysis.AnomalyIndices(e, input.threshold)
      && Charts.Side(plot.anomalyIndices, |e|, false) == Where(|e|, NotAbove(e, input.threshold))
      && Charts.AnomalyChartOf(plot).Some?
      && Charts.AnomalyChartOf(plot).value.anomalyDots ==
           Charts.PointsAt(plot.time, e, Analysis.AnomalyIndices(e, input.threshold))
  {
    var plot := Analysis.PlotDataOf(input, maxPoints);
    var e := plot.errors.value;
    var idx := plot.anomalyIndices;
    PlotAnomaliesAboveThreshold(input, maxPoints);
    WhereAgree(|e|, (i: nat) => (i in idx) == true, Analysis.AboveThreshold(e, input.threshold));
    WhereAgree(|e|, (i: nat) => (i in idx) == false, NotAbove(e, input.threshold));
  }

  /**
   * Every temperature series has one value per plotted error, and its j-th
   * value is the sensor's reading at the same original row as error j.
   */
  lemma SeriesAligned(input: Analysis.Input, maxPoints: nat, name: string)
    requires maxPoints >= 1 && Analysis.Rectangular(input)
    ensures var n := |input.errors|;
      var series := Get(Analysis.FillPresent(input.tempColumns, input.columns, Analysis.SeriesEntry(n, maxPoints)), name);
      var e := Analysis.PlotDataOf(input, maxPoints).errors.value;
      && (series.Some? <==> name in input.tempColumns && Get(input.columns, name).Some?)
      && (series.Some? ==>
            && |series.value| == |e|
            && forall j :: 0 <= j < |e| ==>
                 var row := j * Downsample.Step(n, maxPoints);
                 row < n && series.value[j] == Get(input.columns, name).value.values[row])
  {
    var n := |input.errors|;
    Analysis.FillPresentLookup(input.tempColumns, input.columns, Analysis.SeriesEntry(n, maxPoints), name);
    var column := Get(input.columns, name);
    if name in input.tempColumns && column.Some? {
      var k := FindKey(input.columns, name).value;
      assert column.value == input.columns[k].1;
      var v := column.value.values;
      Downsample.ThinSameLength(v, input.errors, maxPoints);
      Downsample.ThinSamples(v, maxPoints);
    }
  }

  /** The payload the analysis produces passes the dashboard's gate and gets a tier. */
  lemma ReportIsShown(input: Analysis.Input, maxPoints: nat, timestamp: string)
    requires maxPoints >= 1 && Analysis.Rectangular(input)
    ensures Analysis.Report(input, maxPoints, timestamp).status == Success
    ensures Charts.AnomalyChartOf(Analysis.Report(input, maxPoints, timestamp).plotData).Some?
  {
  }
}
