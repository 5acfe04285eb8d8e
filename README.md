# Motor anomaly dashboard — a verified model of its core

The repository is an electric-motor anomaly detector with three parts.
`analyze_motor_data.py` scores every row of a sensor recording with an autoencoder. It then builds a JSON payload:
- a summary;
- per-parameter and per-temperature-sensor counts;
- downsampled plot series;
- a few sample anomalies.

`static/js/dashboard.js` reads that payload. It derives:
- a system status;
- temperature cards with trend arrows;
- severity badges;
- the two charts;
- the sample table.

`add_time.py` gives a CSV a `seconds` column and an `HH:MM:SS` `time` column, ten seconds per row.

This project models these three parts in Dafny and proves what they promise. Ordered dictionaries (Python dicts, JavaScript objects) are modelled as sequences of `(key, value)` entries (module `Dict`). An assignment `d[k] = v` replaces the value in place, or appends a new key at the end. The indices that pass a test, in increasing order, are `Indices.Where`. That function stands for both `np.where(mask)[0]` and the dashboard's partition loop.

The modules follow the program's structure:

| module | file | models |
|---|---|---|
| `Dict`, `Indices` | dict.dfy, indices.dfy | ordered dicts; index selection |
| `Payload` | payload.dfy | the analysis result that both halves share |
| `Status`, `Severity`, `Trend`, `SensorName` | status.dfy, severity.dfy, trend.dfy, sensor_name.dfy | `updateSystemStatus`, the severity scales, the trend loop, `formatSensorName` |
| `Charts`, `Tables` | charts.dfy, tables.dfy | `updateAnomalyChart` and `updateTemperatureChart`; the temperature cards, the parameter table and the sample table |
| `Dashboard` | dashboard.dfy | the page's global state (`motorData`, `anomalyChart`, `temperatureChart`) as a class; `updateDashboard` |
| `Downsample`, `Analysis` | downsample.dfy, analysis.dfy | stride downsampling and the index remap; the rest of `analyze_motor_data` after the errors are computed |
| `Pipeline` | pipeline.dfy | the payload as the dashboard reads it |
| `AddTime` | add_time.dfy | `add_time_columns`, with the DataFrame as a class |

Where the code works by loops and mutation, the model is a method with loop invariants. Each such method is proved equal to a specification function, and the properties are lemmas about that function. Examples:
- the partition loop;
- the `tempTrends` loop;
- the `colorIndex++` loop;
- the `html +=` loops;
- the three dictionary-filling loops of the analysis;
- the `add_time` loop.

The payload-driven page state is a class whose methods state the whole new state.

Where the intended design and the code disagree, the model follows the code:
- After a payload whose `status` is not `"success"`, `updateDashboard` only sets the status to Error and returns. The charts, cards and tables of the previous payload stay on screen, and the payload's `message` is not shown. `Dashboard.Page.UpdateDashboard` states this: sections and charts are unchanged. A design that rebuilt everything shown from each payload would empty the charts after an error; the code keeps them.
- A missing payload section is meant to be tolerated. The `!x ||` guards at static/js/dashboard.js:223, 233, 318, 430, 498, 532 and 572 make a missing `temperature_analysis`, `temperature_series`, `parameter_anomalies`, `sample_anomalies` or `column_stats` behave like an empty one, and the model gives every section a value for that reason. Two sections have no such guard:
  - `anomaly_summary` is read unguarded at lines 167, 173 and 194. A successful payload without it throws in `updateSystemStatus` at line 194, before anything is rebuilt; the status indicator keeps its old state. A summary lacking `total_records`, `anomaly_count` or `anomaly_percentage` throws at lines 211-215, after the status has been set.
  - `plot_data` is read unguarded at line 183. A successful payload without it throws there (`data.plot_data.time`). By then `updateAnomalyChart` has already destroyed the old anomaly chart, so the temperature chart and the timestamp are never updated. A `plot_data` that has `errors` but lacks `time` or `anomaly_indices` throws in the same way: a missing `anomaly_indices` at line 329, a missing `time` at line 330 or 333 (whichever branch index 0 takes) or at line 367.
  
  In each of these cases, when the payload came from `fetchMotorData`, its `.catch` (lines 99-103) then shows No Data. The model always has an `anomaly_summary` with all its fields and a `plot_data` with both lists (see "## Left out").
- Each temperature card computes a severity (`statusClass` and `statusIcon`, lines 268-276), but the card markup at lines 285-303 uses neither, so no card displays it. In the same way, the normal points of the anomaly chart (`normalIndices`, `normalErrors`, lines 322-336) are collected but never drawn. The model keeps both computations (`Tables.CardFor`, `Charts.PartitionErrors`) and does not claim they are shown.
- The trend arrows are computed from the stored payload `motorData`, not from the payload being rendered. Both call sites store the payload before rendering, so the two are the same there (`Dashboard.Page.Receive`).

## Model

| member | source | states |
|---|---|---|
| Status.FromPercentage | static/js/dashboard.js:190-205 | Normal iff the percentage is below 1, Warning iff it is in [1, 5), Critical iff it is at least 5 |
| Status.FromPercentageMonotone | static/js/dashboard.js:196-205 | a larger anomaly percentage never gives a less serious tier |
| Status.Boundaries | static/js/dashboard.js:196-205 | the comparisons are strict: exactly 1 is Warning and exactly 5 is Critical |
| Dashboard.StatusOf | static/js/dashboard.js:155-161 | the status is Error exactly when the payload's status is not "success"; a payload never yields NoData |
| Dashboard.SectionsOf | static/js/dashboard.js:163-186 | what a successful payload rebuilds: the metrics, the cards with trends from the stored payload, the parameter and sample tables, and the timestamp (stated by Dashboard.Page.UpdateDashboard) |
| Dashboard.SuccessIsTiered | static/js/dashboard.js:163-164 | a successful payload always gets one of the three tiers |
| Dashboard.Page.constructor | static/js/dashboard.js:1-4 | the page starts with no payload, no status, no sections and no charts |
| Dashboard.Page.UpdateDashboard | static/js/dashboard.js:155-187 | an unsuccessful payload sets Error and leaves every section and chart as it was; a successful one sets the tier, rebuilds every section (trends taken from the stored payload) and redraws both charts from `plot_data` and `temperature_series` |
| Dashboard.Page.Receive | static/js/dashboard.js:95-98 | the payload is stored first, so the trend arrows come from the payload being shown |
| Dashboard.Page.LoadFailed | static/js/dashboard.js:99-103 | a failed fetch shows No Data and changes nothing else |
| Trend.Classify | static/js/dashboard.js:241-261 | Rising iff the last sample exceeds the previous one by more than 0.2, Falling iff it is more than 0.2 below, Stable otherwise (both ends of the dead band included) |
| Trend.Of | static/js/dashboard.js:237-240 | a series has a trend iff it has at least two samples, and then it is the classification of its last two |
| Trend.ClassifySwap | static/js/dashboard.js:241-255 | swapping the two samples swaps Rising and Falling and keeps Stable |
| Trend.ClassifyShift | static/js/dashboard.js:241-255 | only the difference of the two samples matters |
| Trend.OfLastTwo | static/js/dashboard.js:238-239 | samples before the last two never affect the trend |
| Trend.Examples | static/js/dashboard.js:241-261 | +0.25 is Rising, −0.3 is Falling, +0.1 and exactly +0.2 are Stable, one sample gives no trend |
| Trend.TrendsOf | static/js/dashboard.js:232-262 | the `tempTrends` map (stated by ComputeTrends and TrendsOfLookup) |
| Trend.Shown | static/js/dashboard.js:278-283 | `tempTrends[sensor] || stable` (stated by Trend.ShownTrend) |
| Trend.ComputeTrends | static/js/dashboard.js:232-262 | the `tempTrends` loop computes `Trend.TrendsOf` of all series |
| Trend.TrendsOfLookup | static/js/dashboard.js:232-262 | a sensor has an entry iff its series has at least two samples, and the entry is that series' trend |
| Trend.ShownTrend | static/js/dashboard.js:278-283 | the arrow on a card is the sensor's own trend, Stable when the series is missing or too short |
| Severity.OfParameterCount | static/js/dashboard.js:512-515 | Critical iff the count is above 5, else Warning |
| Severity.OfTemperatureAnomalies | static/js/dashboard.js:268-275 | normal iff the count is at most 0, warning iff it is 1..5, critical iff it is above 5 |
| Severity.ScalesAgree | static/js/dashboard.js:271-275 | for a positive count the card and the badge agree on what is critical |
| Severity.Boundaries | static/js/dashboard.js:512-515 | 5 is still Warning and 6 is Critical, on both scales; 0 is a normal card |
| Tables.CardFor | static/js/dashboard.js:264-303 | one temperature card: the formatted name, the four values, the computed state and the shown trend (stated by Tables.CardShows) |
| Tables.TrendSource | static/js/dashboard.js:233 | the series the trends come from: `motorData.temperature_series`, none before any payload is stored |
| Tables.CardsOf | static/js/dashboard.js:219-307 | the temperature section (stated by TemperatureCards and CardShows) |
| Tables.ParameterRowFor | static/js/dashboard.js:511-521 | one parameter row: the formatted name, the count and its badge (stated by Tables.ParameterAnomalies) |
| Tables.ParameterViewOf | static/js/dashboard.js:495-527 | the parameter section (stated by Tables.ParameterAnomalies) |
| Tables.SampleViewOf | static/js/dashboard.js:529-566 | the sample section (stated by SampleAnomalies and SampleTableShape) |
| Tables.TemperatureCards | static/js/dashboard.js:219-307 | a placeholder for no temperature data, otherwise one card per sensor in payload order, each card built by `Tables.CardFor` |
| Tables.CardShows | static/js/dashboard.js:264-283 | each card is titled with the formatted sensor name and shows the trend of the sensor's own series; the state it computes from the anomaly count (never rendered) is normal for 0, critical above 5 |
| Tables.ParameterAnomalies | static/js/dashboard.js:495-527 | a placeholder for no parameter anomalies, otherwise one row per parameter in order, with its count and badge |
| Tables.SampleAnomalies | static/js/dashboard.js:529-566 | a placeholder for no samples, otherwise headers from the first record's keys and one row per record |
| Tables.SampleTableShape | static/js/dashboard.js:541-562 | the headers are the first record's keys, formatted; every row has one cell per column of the first record; a record shows its own value for a column it has and `undefined` exactly where it lacks the column |
| Charts.TimeAt | static/js/dashboard.js:330 | `time[i]`, undefined outside the array |
| Charts.Side | static/js/dashboard.js:328-336 | the indices below n whose `anomaly_indices.includes(i)` is the given side (stated by PartitionComplete, AnomalyPointCount and OnlyValidIndicesMatter) |
| Charts.PointsAt | static/js/dashboard.js:328-336 | the error points at the given indices, x from `time`, in that order (stated by Charts.DotsOnErrorLine) |
| Charts.SidePoints | static/js/dashboard.js:328-336 | the points one side of the partition receives (stated by Charts.PartitionErrors and Charts.DotsOnErrorLine) |
| Charts.ErrorLine | static/js/dashboard.js:344-347 | one point per error, x from `time` at the same index (stated by Charts.DotsOnErrorLine) |
| Charts.ThresholdLine | static/js/dashboard.js:367-370 | one point per time value at the threshold (stated by Charts.ThresholdSpansTimeDomain) |
| Charts.AnomalyChartOf | static/js/dashboard.js:310-376 | the three datasets drawn for `plot_data`, no chart without `errors` (stated by DrawAnomalyChart and DotsOnErrorLine) |
| Charts.ColorFor | static/js/dashboard.js:442 | `colorPalette[k % colorPalette.length]` (stated by Charts.ColorsCycle) |
| Charts.SeriesPoints | static/js/dashboard.js:441 | `values.map((value, index) => ({x: timeData[index], y: value}))` (stated by Charts.DrawTemperatureChart) |
| Charts.LineFor | static/js/dashboard.js:439-447 | the dataset of the k-th sensor: its formatted label, its points and colour k |
| Charts.TemperatureChartOf | static/js/dashboard.js:430-449 | one line per sensor in order, no chart for no series (stated by Charts.DrawTemperatureChart) |
| Charts.PartitionErrors | static/js/dashboard.js:328-336 | the loop sends each index below `errors.length` to the anomaly lists iff `anomaly_indices` contains it, in increasing order, with x from `time` and y from `errors` |
| Charts.PartitionComplete | static/js/dashboard.js:328-336 | every index goes to exactly one side, and the sides' sizes add up to the number of errors |
| Charts.AnomalyPointCount | static/js/dashboard.js:328-336 | the number of red dots is the number of distinct in-range anomaly indices |
| Charts.OnlyValidIndicesMatter | static/js/dashboard.js:329 | indices out of range or repeated in `anomaly_indices` change nothing |
| Charts.DrawAnomalyChart | static/js/dashboard.js:310-370 | no chart without `errors`; otherwise the error line, the anomaly dots and the threshold line as specified |
| Charts.DotsOnErrorLine | static/js/dashboard.js:349-358 | every red dot is the error-line point at an anomaly index, in increasing index order |
| Charts.ThresholdSpansTimeDomain | static/js/dashboard.js:365-370 | the threshold line is flat at the threshold, with one point per time value and the same x values as the error line |
| Charts.PartitionExample | static/js/dashboard.js:328-336 | errors [0.1, 0.9, 0.2, 0.95] with indices [1, 3] split into {0, 2} and {1, 3} |
| Charts.DrawTemperatureChart | static/js/dashboard.js:422-449 | no chart for no series; otherwise one line per sensor in order, with colour `palette[k % 10]` and that colour plus "20" as background |
| Charts.ColorsCycle | static/js/dashboard.js:442-443 | colours come from the palette, repeat every ten sensors, and differ within any ten consecutive sensors |
| SensorName.ToUpper | static/js/dashboard.js:606 | a lower-case letter becomes its own capital (32 code points lower) and every other character is unchanged |
| SensorName.SpaceUnderscores | static/js/dashboard.js:605 | `/_/g` to a space: same length, every `_` a space, every other character kept |
| SensorName.CapitalizeWords | static/js/dashboard.js:606 | `/\b\w/g` upper-cased: same length; a lower-case letter at a word start becomes its capital, and every other character is kept |
| SensorName.ReplaceFirst | static/js/dashboard.js:607 | a string pattern replaces only its first occurrence: the text before and after it is kept, and without an occurrence nothing changes |
| SensorName.Format | static/js/dashboard.js:603-608 | the three rewrites in order; what they guarantee together is stated by the Format lemmas below |
| SensorName.IndexOf | static/js/dashboard.js:607 | the first occurrence of "Temperature", or none |
| SensorName.CapitalizedShape | static/js/dashboard.js:605-606 | the first two rewrites keep the length and leave no `_` |
| SensorName.CapitalizedWordStarts | static/js/dashboard.js:606 | after `/\b\w/g` no word starts with a lower-case letter |
| SensorName.CapitalizeJoin | static/js/dashboard.js:606 | words separated by a space are capitalized independently of each other |
| SensorName.FormatNoUnderscore | static/js/dashboard.js:603-608 | a formatted name contains no underscore |
| SensorName.FormatWordStarts | static/js/dashboard.js:603-608 | in a formatted name every word starts with an upper-case letter or a digit |
| SensorName.FormatShortensFirstOnly | static/js/dashboard.js:607 | only the first "Temperature" becomes "Temp", and the name is then 7 characters shorter |
| SensorName.ExampleCoolant | static/js/dashboard.js:603-608 | "coolant_temperature" is shown as "Coolant Temp" |
| SensorName.ExampleNotGlobal | static/js/dashboard.js:607 | "temperature_temperature" is shown as "Temp Temperature" |
| Dict.FindKey | analyze_motor_data.py:98 | the first position holding the key, or none iff no entry has it |
| Dict.Get | analyze_motor_data.py:93 | `d[k]` or `d.get(k)`: the value of the first entry with the key, None when absent (stated by Dict.GetAt and Dict.GetPut) |
| Dict.Put | analyze_motor_data.py:98 | `d[k] = v` (stated by Dict.GetPut) |
| Dict.GetPut | analyze_motor_data.py:98 | after `d[k] = v`, k maps to v, the other keys are unchanged, and a new key is appended at the end |
| Indices.Where | analyze_motor_data.py:107 | exactly the indices below n that pass the test, all below n |
| Indices.WhereIncreasing | analyze_motor_data.py:107 | `np.where` returns its indices in strictly increasing order |
| Indices.WhereCount | analyze_motor_data.py:108 | the number of indices returned is the number of rows that pass |
| Indices.WhereSplit | static/js/dashboard.js:328-336 | a test and its negation split 0..n-1 between them |
| Analysis.AnomalyIndices | analyze_motor_data.py:88-107 | `np.where(errors > threshold)[0]` (stated by Analysis.AnomalyFlags) |
| Analysis.StatsFor | analyze_motor_data.py:114-121 | one `temp_stats` entry: the given mean, max and min, the last value (0 for no rows) and the out-of-range count with infinite default bounds (stated by TemperatureStats and TempAnomaliesAgree) |
| Analysis.PlotDataOf | analyze_motor_data.py:124-151 | `plot_data`: the time column or `range(0, n, step)`, the strided errors, the threshold, the remapped indices, the flag and the length (stated by the Pipeline lemmas) |
| Analysis.RecordAt | analyze_motor_data.py:176 | one row of the frame as a record, column by column |
| Analysis.SampleAnomaliesOf | analyze_motor_data.py:176 | the records of the first five anomaly rows (stated by Analysis.SampleAnomaliesShape) |
| Analysis.Report | analyze_motor_data.py:163-177 | the result dictionary (stated by AnalyzeMotorData, SummaryFacts and the Pipeline lemmas) |
| Analysis.AnomalyFlags | analyze_motor_data.py:88-108 | `anomaly_indices` holds exactly the rows whose error is strictly above the threshold, ascending, and `anomaly_count` is how many there are |
| Analysis.ThresholdIsStrict | analyze_motor_data.py:88 | an error equal to the threshold is not an anomaly |
| Analysis.OutOfRange | analyze_motor_data.py:96-97 | a count of at most the number of rows, 0 iff no value is out of range |
| Analysis.OutOfRangeCount | analyze_motor_data.py:96-98 | the sum is the number of rows below the minimum or above the maximum |
| Analysis.ColumnAnomalies | analyze_motor_data.py:119-120 | without a `column_stats` entry the count is 0 (infinite bounds); with one, 0 iff every value is inside the normal range |
| Analysis.ParameterAnomaliesOf | analyze_motor_data.py:92-98 | `parameter_anomalies` after the column loop: a column with statistics and a positive out-of-range count is put with that count (stated by ParameterAnomaliesLookup and ParameterAnomaliesPositive) |
| Analysis.ParameterAnomalies | analyze_motor_data.py:91-98 | the loop over the columns computes the dictionary its reference function defines |
| Analysis.ParameterAnomaliesLookup | analyze_motor_data.py:92-98 | a column is listed iff it has statistics and at least one out-of-range value, and then with exactly that count |
| Analysis.ParameterAnomaliesPositive | analyze_motor_data.py:97-98 | every listed count is at least 1, and no column is listed twice |
| Analysis.FillPresent | analyze_motor_data.py:111-121 | `for col in names: if col in df_analysis.columns: d[col] = f(col)`, the shape of the `temp_stats` and `temp_series` loops (stated by FillPresentLookup and FillPresentDistinct) |
| Analysis.FillPresentLookup | analyze_motor_data.py:112-113 | a temperature column gets an entry iff it is listed and is a column of the frame |
| Analysis.FillPresentDistinct | analyze_motor_data.py:111-121 | no entry is made twice, even for a column listed twice |
| Analysis.TempStatsEntry | analyze_motor_data.py:114-121 | the `temp_stats` entry of one column, `StatsFor` with the column's statistics if any (stated by TemperatureStats and TempAnomaliesAgree) |
| Analysis.TemperatureStats | analyze_motor_data.py:111-121 | the `temp_stats` loop computes the dictionary its reference function defines (mean, max, min, last value or 0, anomaly count) |
| Analysis.TempAnomaliesAgree | analyze_motor_data.py:119-120 | a temperature column without statistics has 0 anomalies; with statistics, its count is the one `parameter_anomalies` lists, or 0 when unlisted |
| Analysis.SeriesEntry | analyze_motor_data.py:157-160 | the `temp_series` entry of one column, downsampled like the errors (stated by TemperatureSeries and Pipeline.SeriesAligned) |
| Analysis.TemperatureSeries | analyze_motor_data.py:154-160 | the `temp_series` loop computes the dictionary its reference function defines, downsampled like the errors |
| Analysis.Percentage | analyze_motor_data.py:169 | 0 for no rows; in [0, 100] when the count is at most the total; 0 iff there are no anomalies; 100 iff every row is one |
| Analysis.SampleAnomaliesShape | analyze_motor_data.py:176 | at most five samples: the records of the first anomalous rows, in order, and none without anomalies |
| Analysis.AnalyzeMotorData | analyze_motor_data.py:163-177 | the three loops and the result dictionary give the payload `Analysis.Report` defines |
| Analysis.SummaryFacts | analyze_motor_data.py:166-171 | `total_records` is the row count, `anomaly_count` the number of rows above the threshold, and the percentage lies in [0, 100] |
| Downsample.Stride | analyze_motor_data.py:131-134 | `s[::step]`; its length and elements are stated by StrideLength, StrideAt and StrideKeeps |
| Downsample.Thin | analyze_motor_data.py:157-160 | a series as the payload carries it: `s[::step]` past the maximum, else whole (stated by ThinSamples and ThinSameLength) |
| Downsample.Remap | analyze_motor_data.py:137 | `[i // step for i in idx if i % step == 0]` (stated by RemapMembers, RemapIncreasing and RemapWhere) |
| Downsample.TimeAxis | analyze_motor_data.py:145 | `range(0, n, step)` as plot times (stated by TimeAxisMatches) |
| Downsample.Step | analyze_motor_data.py:125-127 | the step is `n // max_data_points` when n exceeds the maximum, else 1, and never 0 |
| Downsample.StrideLength | analyze_motor_data.py:134 | `len(s[::step])` is ⌈n / step⌉ |
| Downsample.StrideAt | analyze_motor_data.py:134 | the j-th kept sample is original sample j·step |
| Downsample.StrideKeeps | analyze_motor_data.py:134 | every sample at a multiple of the step is kept, at position j |
| Downsample.KeptAt | analyze_motor_data.py:134 | position j of `s[::step]` exists exactly when row j·step does, and holds that row's sample |
| Downsample.StrideSamples | analyze_motor_data.py:134 | for every kept position j, j·step is a row and the kept sample is that row's sample |
| Downsample.StrideOne | analyze_motor_data.py:140 | a step of 1 keeps the series unchanged |
| Downsample.StrideSameLength | analyze_motor_data.py:131-134 | two series of the same length are cut to the same length |
| Downsample.ThinSamples | analyze_motor_data.py:157-160 | sample j of a series as the payload carries it is row j·step, whether or not it was downsampled |
| Downsample.ThinSameLength | analyze_motor_data.py:157-160 | columns of the same frame go out with the same length |
| Downsample.DownsampledLength | analyze_motor_data.py:125-134 | after downsampling, between `max_data_points` and twice that many samples remain |
| Downsample.StepOneBelowDouble | analyze_motor_data.py:125-127 | below twice the maximum the step is 1: the plot is flagged as downsampled, yet every sample is kept |
| Downsample.RemapMembers | analyze_motor_data.py:137 | j is a remapped index iff j·step was an anomaly index |
| Downsample.RemapIncreasing | analyze_motor_data.py:137 | ascending indices stay ascending after the remap |
| Downsample.RemapInRange | analyze_motor_data.py:137 | every remapped index is below the downsampled length and names the sample of the original index j·step |
| Downsample.RemapWhere | analyze_motor_data.py:134-137 | remapping the indices that pass a test gives exactly the kept samples that pass it |
| Downsample.RemapOne | analyze_motor_data.py:141 | with a step of 1 the indices are unchanged |
| Downsample.TimeAxisMatches | analyze_motor_data.py:145 | `range(0, n, step)` has one entry per downsampled sample, the j-th being j·step |
| Pipeline.PlotErrorsAreSamples | analyze_motor_data.py:124-151 | the plot is flagged as downsampled iff n exceeds the maximum; the plotted error j is row j·step; time and errors have equal length; without downsampling the errors and indices go out unchanged |
| Pipeline.PlotAnomaliesAboveThreshold | analyze_motor_data.py:134-141 | the plotted anomaly indices are exactly the plotted samples above the threshold, ascending: no surviving anomaly is lost and none is invented |
| Pipeline.RedDotsAreAnomalies | static/js/dashboard.js:328-358 | on the dashboard the red dots are exactly the plotted samples above the threshold, and the normal side is exactly the rest |
| Pipeline.SeriesAligned | analyze_motor_data.py:154-160 | every temperature series has one value per plotted error, and value j is the sensor's reading at the row of error j |
| Pipeline.ReportIsShown | analyze_motor_data.py:163-165 | the analysis payload passes the dashboard's status gate and always gets an anomaly chart |
| AddTime.Digits2 | add_time.py:26 | two decimal digits |
| AddTime.TimeOfDay | add_time.py:25-26 | the `HH:MM:SS` of a time of day: eight characters with colons at positions 2 and 5 (its fields are stated by ClockFields) |
| AddTime.Clock | add_time.py:25-26 | eight characters with colons at positions 2 and 5 |
| AddTime.ClockFields | add_time.py:26 | hours are in 0..23, minutes and seconds in 0..59, and together they make up the time of day |
| AddTime.ParseClockOfClock | add_time.py:25-26 | reading a generated clock back gives t mod 86400 |
| AddTime.ClockOfParseClock | add_time.py:25-26 | every valid `HH:MM:SS` string is the clock of the time it reads as |
| AddTime.ClockDaily | add_time.py:17-26 | the clock repeats every 86400 seconds, since the date is not printed |
| AddTime.ClockExamples | add_time.py:17-26 | row 0 is 00:00:00, row 8639 is 23:59:50, row 8640 wraps to 00:00:00 |
| AddTime.TimeValues | add_time.py:20-27 | both lists have one entry per row, in row order; `seconds[i] == 10*i` and `time[i]` is the clock of 10*i |
| AddTime.NextRowClock | add_time.py:25 | consecutive rows are ten seconds apart on the clock, modulo a day |
| AddTime.Frame.constructor | add_time.py:14 | a frame of equal-length, distinctly named columns |
| AddTime.Frame.SetColumn | add_time.py:30-31 | `df[name] = values` overwrites the column in place or appends it, and keeps the frame rectangular |
| AddTime.TimeColumn | add_time.py:24-30 | the `time` column: row i holds the clock of 10·i seconds (stated by TimeValues and AddTimeColumns) |
| AddTime.SecondsColumn | add_time.py:24-31 | the `seconds` column: row i holds 10·i (stated by TimeValues and AddTimeColumns) |
| AddTime.AddTimeColumns | add_time.py:17-31 | afterwards `time` and `seconds` hold the generated columns, every other column is unchanged, and the existing columns keep their order |
| AddTime.KeysPrefix | add_time.py:30-31 | assigning a column never moves the columns already there |

## Left out

- Network and DOM: `fetch` and the promise chains are modelled only as their effects. Those are the stored payload, then `updateDashboard` (`Dashboard.Page.Receive`). A failure of the initial fetch (static/js/dashboard.js:23, the only call of `fetchMotorData`) sets the No Data state (`Dashboard.Page.LoadFailed`). The upload path's `.catch` (lines 147-151) only shows an error message and never sets No Data. A throw in the middle of `updateDashboard` is not modelled either (see below). Also left out:
  - `innerHTML` strings and icons;
  - the loading overlay and upload status messages;
  - drag and drop;
  - the 60-second `setInterval` (lines 70-72), which only re-runs `updateLastUpdated` and never fetches again;
  - the `if (!ctx) return` guards.
- Chart.js: construction, options and `destroy()` are not modelled. A chart handle is None when no chart is drawn. Destroying a chart and not drawing another leaves the same empty canvas.
- Number formatting: `toFixed`, `toLocaleString` and the `%` suffix are left out, so `Dashboard.Metrics` keeps the raw numbers. For the same reason the sample table keeps cell values rather than their two-decimal text.
- `updateParameterStats` (the column-statistics table) and `updateLastUpdated` (the clock in the header) are display-only and not modelled.
- In analyze_motor_data.py, the following is not modelled:
  - loading the model with joblib;
  - reading the CSV;
  - the `omit` and `coolant` renaming;
  - the `temp`/`temperature` column detection and the restriction to the training columns (lines 50-70);
  - `to_numeric` with ffill/bfill cleaning;
  - `scaler.transform`, `autoencoder.predict` and the mean squared error.
  
  Instead, the cleaned columns, the per-row errors, the threshold, `column_stats` and `temp_columns` are inputs (`Analysis.Input`). The pandas `mean`, `min` and `max` of each column are given values. The three `except` branches that return an error payload are not modelled. `datetime.now()` is the `timestamp` parameter. The `__main__` JSON writes and prints are not modelled either.
- In add_time.py, reading and writing the CSV and the prints are not modelled. The fixed start date of 2023-01-01 appears only through its time of day, 00:00:00.
- Floating point: errors, thresholds, percentages and sensor values are exact reals, so IEEE-754 rounding at the 0.2 dead band and at the 1 % and 5 % boundaries is not modelled.
- Time values are modelled as numbers. In the repository's own flow they are not: add_time.py writes `time` as `HH:MM:SS` strings, get_sample.py samples that CSV, and analyze_motor_data.py passes the strings unchanged into `plot_data.time`. No proof depends on the type of a time value; the model only moves them from index to index.
- Missing payload sections and fields: every section of `Payload.AnalysisResult`, every field of its summary, and `time` and `anomaly_indices` inside `plot_data`, always has a value. A missing section that a guard tolerates behaves like the empty value, which the model covers. The throws raised in `updateDashboard` by a missing section or field are not modelled:
  - a missing `anomaly_summary` (line 194, before anything is rebuilt) or a missing field of it (lines 211-215);
  - a missing `plot_data` (line 183) or a missing `time` or `anomaly_indices` (lines 329-333, 367);
  - a malformed entry, which `Payload.TempStats` and `Payload.ColumnStats` cannot express because they always carry every field:
    - A `temperature_analysis` entry without `last`, `mean`, `min` or `max` throws at `toFixed` (lines 292, 298-299). The parameter table, the sample table, the column statistics, both charts and the timestamp are then never rebuilt.
    - A `column_stats` entry without `min_normal`, `max_normal`, `mean` or `std` throws at lines 590-594. That happens before `updateAnomalyChart` at line 182, so neither chart is redrawn.
  
  Neither is what they leave behind: a partly rebuilt page (after a throw inside `plot_data`, the old anomaly chart is destroyed and the temperature chart and timestamp are not updated), followed by No Data from the fetch `.catch`.
- Object key order: a JavaScript object enumerates keys that are array indices (such as "0" or "12") first, in numeric order, and only then the others in insertion order. It also finds inherited members (such as "constructor") by lookup. The model assumes every key is neither, so card order, colour assignment and sample-table columns follow the Python dict's insertion order, and `tempTrends[sensor]` finds only the sensor's own entry.
- The other files of the repository are not part of this model: train.py, api.py, main.py and get_sample.py.
- Downsample.Step: requires `max_data_points >= 1`. Every caller passes the default 1000. With 0 the source raises `ZeroDivisionError` on any non-empty frame. With a negative value it would slice with a non-positive step. Neither case is modelled.
- Analysis.AnalyzeMotorData: requires the frame to be rectangular (`Analysis.Rectangular`): every column and the time column have one value per row. A DataFrame guarantees this. The value `last` of a column is read at the column's own last index, which under this requirement is the frame's last row.
- Trend.TrendsOfLookup: the lookup is stated for payloads whose keys are distinct. A parsed JSON object or Python dict always has distinct keys. The same holds for `Tables.CardShows`, `Tables.SampleTableShape` and `Analysis.ParameterAnomaliesLookup`.
- Dashboard.Page.UpdateDashboard: the message of an unsuccessful payload is not modelled, because the code never shows it.
