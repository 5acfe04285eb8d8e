/**
 * The analysis result that analyze_motor_data.py produces and dashboard.js
 * consumes (the JSON document `motor_analysis_latest.json`).
 *
 * A payload whose status is not "success" carries only a message in the
 * source; here its remaining fields are present but never read.
 */
module Payload {
  import opened Dict

  /** A value of a sample-anomaly record: a JSON number or string. */
  datatype Value = Num(n: real) | Text(s: string)

  datatype Summary = Summary(
    totalRecords: int,
    anomalyCount: int,
    anomalyPercentage: real,
    parameterAnomalies: Entries<int>)

  datatype TempStats = TempStats(mean: real, max: real, min: real, last: real, anomalies: int)

  datatype ColumnStats = ColumnStats(minNormal: real, maxNormal: real, mean: real, std: real)

  /** `plot_data`; `errors` is None when the key is missing. */
  datatype PlotData = PlotData(
    time: seq<real>,
    errors: Option<seq<real>>,
    threshold: real,
    anomalyIndices: seq<int>,
    downsampled: bool,
    originalLength: int)

  datatype AnalysisResult = AnalysisResult(
    status: string,
    message: string,
    timestamp: string,
    summary: Summary,
    temperatureAnalysis: Entries<TempStats>,
    plotData: PlotData,
    temperatureSeries: Entries<seq<real>>,
    columnStats: Entries<ColumnStats>,
    sampleAnomalies: seq<Entries<Value>>)

  const Success: string := "success"
}
