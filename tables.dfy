/**
 * The card and table sections of the dashboard: temperature cards
 * (`updateTemperatureAnalysis`), the parameter-anomalies table
 * (`updateParameterAnomalies`) and the sample-anomalies table
 * (`updateSampleAnomalies`). The HTML is not modelled; what each cell shows is.
 */
module Tables {
  import opened Dict
  import opened Payload
  import SensorName
  import Severity
  import Trend

  /** One temperature card. */
  datatype Card = Card(
    title: string,
    last: real,
    mean: real,
    min: real,
    max: real,
    state: Severity.CardState,
    trend: Trend.Trend)

  /** The temperature section: a placeholder, or one card per sensor. */
  datatype CardsView = NoTemperatureData | Cards(cards: seq<Card>)

  function CardFor(sensor: string, stats: TempStats, trends: map<string, Trend.Trend>): Card {
    Card(SensorName.Format(sensor), stats.last, stats.mean, stats.min, stats.max,
         Severity.OfTemperatureAnomalies(stats.anomalies), Trend.Shown(trends, sensor))
  }

  /**
   * The series the trends come from: `motorData.temperature_series`, or none
   * when no payload has been stored yet.
   */
  function TrendSource(motorData: Option<AnalysisResult>): Entries<seq<real>> {
    match motorData
    case Some(data) => data.temperatureSeries
    case None => []
  }

  function CardsOf(tempData: Entries<TempStats>, series: Entries<seq<real>>): CardsView {
    if |tempData| == 0 then NoTemperatureData
    else
      var trends := Trend.TrendsOf(series);
      Cards(seq(|tempData|, k requires 0 <= k < |tempData| => CardFor(tempData[k].0, tempData[k].1, trends)))
  }

  /** `updateTemperatureAnalysis`: trends first, then one card per sensor. */
  method TemperatureCards(tempData: Entries<TempStats>, series: Entries<seq<real>>) returns (view: CardsView)
    ensures view == CardsOf(tempData, series)
  {
    if |tempData| == 0 {
      return NoTemperatureData;
    }
    var trends := Trend.ComputeTrends(series);
    var cards: seq<Card> := [];
    var k := 0;
    while k < |tempData|
      invariant 0 <= k <= |tempData|
      invariant cards == seq(k, j requires 0 <= j < k => CardFor(tempData[j].0, tempData[j].1, trends))
    {
      var (sensor, stats) := tempData[k];
      var state := if stats.anomalies > 0 then
          (if stats.anomalies > Severity.CriticalAbove then Severity.TempCritical else Severity.TempWarning)
        else Severity.TempNormal;
      var trend := if sensor in trends then trends[sensor] else Trend.Stable;
      cards := cards + [Card(SensorName.Format(sensor), stats.last, stats.mean, stats.min, stats.max, state, trend)];
      k := k + 1;
    }
    view := Cards(cards);
  }

  /**
   * What a card shows, in terms of the payload: its state follows the anomaly
   * count of the sensor, its trend the sensor's own series (Stable when the
   * series is missing or shorter than two samples).
   */
  lemma CardShows(tempData: Entries<TempStats>, series: Entries<seq<real>>, k: nat)
    requires k < |tempData| && DistinctKeys(series)
    ensures CardsOf(tempData, series).Cards?
    ensures var card := CardsOf(tempData, series).cards[k];
      var (sensor, stats) := tempData[k];
      && card.title == SensorName.Format(sensor)
      && (card.state == Severity.TempNormal <==> stats.anomalies <= 0)
      && (card.state == Severity.TempCritical <==> stats.anomalies > 5)
      && card.trend == match Get(series, sensor)
                       case Some(values) => if |values| >= 2 then Trend.Of(values).value else Trend.Stable
                       case None => Trend.Stable
  {
    Trend.ShownTrend(series, tempData[k].0);
  }

  /** One row of the parameter-anomalies table. */
  datatype ParameterRow = ParameterRow(parameter: string, count: int, badge: Severity.Badge)

  /** The parameter section: a placeholder, or the table. */
  datatype ParameterView = NoParameterAnomalies | ParameterTable(rows: seq<ParameterRow>)

  function ParameterRowFor(param: string, count: int): ParameterRow {
    ParameterRow(SensorName.Format(param), count, Severity.OfParameterCount(count))
  }

  function ParameterViewOf(params: Entries<int>): ParameterView {
    if |params| == 0 then NoParameterAnomalies
    else ParameterTable(seq(|params|, k requires 0 <= k < |params| => ParameterRowFor(params[k].0, params[k].1)))
  }

  /** `updateParameterAnomalies`: the `html +=` loop, one row per entry, in order. */
  method ParameterAnomalies(params: Entries<int>) returns (view: ParameterView)
    ensures view == ParameterViewOf(params)
  {
    if |params| == 0 {
      return NoParameterAnomalies;
    }
    var rows: seq<ParameterRow> := [];
    var k := 0;
    while k < |params|
      invariant 0 <= k <= |params|
      invariant rows == seq(k, j requires 0 <= j < k => ParameterRowFor(params[j].0, params[j].1))
    {
      var (param, count) := params[k];
      var badge := if count > Severity.CriticalAbove then Severity.Critical else Severity.Warning;
      rows := rows + [ParameterRow(SensorName.Format(param), count, badge)];
      k := k + 1;
    }
    view := ParameterTable(rows);
  }

  /** A cell of the sample table: None where the record lacks the column (`undefined`). */
  type Cell = Option<Value>

  /** The sample section: a placeholder, or headers and rows. */
  datatype SampleView = NoSamples | SampleTable(headers: seq<string>, rows: seq<seq<Cell>>)

  /** The columns of the table are those of the first record, in its order. */
  function SampleViewOf(samples: seq<Entries<Value>>): SampleView {
    if |samples| == 0 then NoSamples
    else
      var columns := Keys(samples[0]);
      SampleTable(
        seq(|columns|, c requires 0 <= c < |columns| => SensorName.Format(columns[c])),
        seq(|samples|, r requires 0 <= r < |samples| =>
          seq(|columns|, c requires 0 <= c < |columns| => Get(samples[r], columns[c]))))
  }

  /** `updateSampleAnomalies`: a header per column, then the nested row and cell loops. */
  method SampleAnomalies(samples: seq<Entries<Value>>) returns (view: SampleView)
    ensures view == SampleViewOf(samples)
  {
    if |samples| == 0 {
      return NoSamples;
    }
    var columns := Keys(samples[0]);
    var headers: seq<string> := [];
    var c := 0;
    while c < |columns|
      invariant 0 <= c <= |columns|
      invariant headers == seq(c, j requires 0 <= j < c => SensorName.Format(columns[j]))
    {
      headers := headers + [SensorName.Format(columns[c])];
      c := c + 1;
    }
    var rows: seq<seq<Cell>> := [];
    var r := 0;
    while r < |samples|
      invariant 0 <= r <= |samples|
      invariant rows == seq(r, i requires 0 <= i < r =>
        seq(|columns|, j requires 0 <= j < |columns| => Get(samples[i], columns[j])))
    {
      var row: seq<Cell> := [];
      c := 0;
      while c < |columns|
        invariant 0 <= c <= |columns|
        invariant row == seq(c, j requires 0 <= j < c => Get(samples[r], columns[j]))
      {
        row := row + [Get(samples[r], columns[c])];
        c := c + 1;
      }
      rows := rows + [row];
      r := r + 1;
    }
    view := SampleTable(headers, rows);
  }

  /**
   * Every row has one cell per column of the first record; the first row shows
   * all of its own values, and a later record shows its own value for a column
   * it has and `undefined` exactly for the columns it lacks.
   */
  lemma SampleTableShape(samples: seq<Entries<Value>>)
    requires |samples| > 0 && DistinctKeys(samples[0])
    ensures SampleViewOf(samples).SampleTable?
    ensures var table := SampleViewOf(samples);
      && |table.headers| == |samples[0]|
      && |table.rows| == |samples|
      && (forall r :: 0 <= r < |samples| ==> |table.rows[r]| == |samples[0]|)
      && (forall c :: 0 <= c < |samples[0]| ==> table.rows[0][c] == Some(samples[0][c].1))
      && (forall r, c :: 0 <= r < |samples| && 0 <= c < |samples[0]| ==>
            (table.rows[r][c].None? <==> forall e :: 0 <= e < |samples[r]| ==> samples[r][e].0 != samples[0][c].0))
      && (forall r, c, e ::
            (0 <= r < |samples| && 0 <= c < |samples[0]| && 0 <= e < |samples[r]| &&
             DistinctKeys(samples[r]) && samples[r][e].0 == samples[0][c].0) ==>
            table.rows[r][c] == Some(samples[r][e].1))
      && (forall c :: 0 <= c < |samples[0]| ==> table.headers[c] == SensorName.Format(samples[0][c].0))
  {
    forall c | 0 <= c < |samples[0]| ensures Get(samples[0], samples[0][c].0) == Some(samples[0][c].1) {
      GetAt(samples[0], c);
    }
    forall r, c, e | 0 <= r < |samples| && 0 <= c < |samples[0]| && 0 <= e < |samples[r]| &&
        DistinctKeys(samples[r]) && samples[r][e].0 == samples[0][c].0
      ensures Get(samples[r], samples[0][c].0) == Some(samples[r][e].1)
    {
      GetAt(samples[r], e);
    }
  }
}
