/**
 * The dashboard page and its global state: the stored payload (`motorData`),
 * the two chart handles (`anomalyChart`, `temperatureChart`) and what the
 * sections currently show. `updateDashboard` is the only place the page is
 * rebuilt from a payload.
 */
module Dashboard {
  import opened Dict
  import opened Payload
  import Status
  import Charts
  import Tables

  /** `updateAnomalyMetrics`: the three figures of the metrics cards, unformatted. */
  datatype Metrics = Metrics(totalRecords: int, anomalyCount: int, anomalyPercentage: real)

  /** Everything a successful payload rebuilds apart from the status and the charts. */
  datatype Sections = Sections(
    metrics: Metrics,
    cards: Tables.CardsView,
    parameters: Tables.ParameterView,
    samples: Tables.SampleView,
    timestamp: string)

  /** The status a payload gives: Error unless the analysis succeeded, else the tier of its percentage. */
  function StatusOf(data: AnalysisResult): (s: Status.SystemStatus)
    ensures s == Status.Error <==> data.status != Success
    ensures s != Status.NoData
  {
    if data.status != Success then Status.Error
    else Status.FromPercentage(data.summary.anomalyPercentage)
  }

  /** The sections for a successful payload; the trends come from the stored payload. */
  function SectionsOf(data: AnalysisResult, motorData: Option<AnalysisResult>): Sections {
    var s := data.summary;
    Sections(
      Metrics(s.totalRecords, s.anomalyCount, s.anomalyPercentage),
      Tables.CardsOf(data.temperatureAnalysis, Tables.TrendSource(motorData)),
      Tables.ParameterViewOf(s.parameterAnomalies),
      Tables.SampleViewOf(data.sampleAnomalies),
      data.timestamp)
  }

  class Page {
    /** `motorData`: the last payload received. */
    var motorData: Option<AnalysisResult>
    /** The status indicator; None until the first payload or failure. */
    var status: Option<Status.SystemStatus>
    /** None until the first successful payload. */
    var sections: Option<Sections>
    /** The anomaly chart on screen, if any (`anomalyChart`). */
    var anomalyChart: Option<Charts.AnomalyChart>
    /** The temperature chart on screen, if any (`temperatureChart`). */
    var temperatureChart: Option<seq<Charts.SensorLine>>

    constructor ()
      ensures motorData == None && status == None && sections == None
      ensures anomalyChart == None && temperatureChart == None
    {
      motorData, status, sections := None, None, None;
      anomalyChart, temperatureChart := None, None;
    }

    /**
     * `updateDashboard`. A payload that did not succeed only sets the status to
     * Error: the sections and charts of an earlier payload stay on screen.
     */
    method UpdateDashboard(data: AnalysisResult)
      modifies this
      ensures motorData == old(motorData)
      ensures status == Some(StatusOf(data))
      ensures data.status != Success ==>
        sections == old(sections) && anomalyChart == old(anomalyChart) && temperatureChart == old(temperatureChart)
      ensures data.status == Success ==>
        && sections == Some(SectionsOf(data, old(motorData)))
        && anomalyChart == Charts.AnomalyChartOf(data.plotData)
        && temperatureChart == Charts.TemperatureChartOf(data.temperatureSeries, data.plotData.time)
    {
      if data.status != Success {
        status := Some(Status.Error);
        return;
      }
      var summary := data.summary;
      var percentage := summary.anomalyPercentage;
      if percentage < Status.WarningFrom {
        status := Some(Status.Normal);
      } else if percentage < Status.CriticalFrom {
        status := Some(Status.Warning);
      } else {
        status := Some(Status.Critical);
      }
      var metrics := Metrics(summary.totalRecords, summary.anomalyCount, percentage);
      var cards := Tables.TemperatureCards(data.temperatureAnalysis, Tables.TrendSource(motorData));
      var parameters := Tables.ParameterAnomalies(summary.parameterAnomalies);
      var samples := Tables.SampleAnomalies(data.sampleAnomalies);
      anomalyChart := Charts.DrawAnomalyChart(data.plotData);
      temperatureChart := Charts.DrawTemperatureChart(data.temperatureSeries, data.plotData.time);
      sections := Some(Sections(metrics, cards, parameters, samples, data.timestamp));
    }

    /** The `.then` of `fetchMotorData` and of `uploadAndAnalyzeData`: store, then rebuild. */
    method Receive(data: AnalysisResult)
      modifies this
      ensures motorData == Some(data)
      ensures status == Some(StatusOf(data))
      ensures data.status != Success ==>
        sections == old(sections) && anomalyChart == old(anomalyChart) && temperatureChart == old(temperatureChart)
      ensures data.status == Success ==>
        && sections == Some(SectionsOf(data, Some(data)))
        && anomalyChart == Charts.AnomalyChartOf(data.plotData)
        && temperatureChart == Charts.TemperatureChartOf(data.temperatureSeries, data.plotData.time)
    {
      motorData := Some(data);
      UpdateDashboard(data);
    }

    /** The `.catch` of `fetchMotorData`: the status reads "No Data"; nothing else changes. */
    method LoadFailed()
      modifies this
      ensures status == Some(Status.NoData)
      ensures motorData == old(motorData) && sections == old(sections)
      ensures anomalyChart == old(anomalyChart) && temperatureChart == old(temperatureChart)
    {
      status := Some(Status.NoData);
    }
  }

  /** A successful payload always yields one of the three tiers. */
  lemma SuccessIsTiered(data: AnalysisResult)
    requires data.status == Success
    ensures StatusOf(data) in {Status.Normal, Status.Warning, Status.Critical}
  {
  }
}
