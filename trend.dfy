/**
 * Temperature trends: the arrow on each temperature card, from the last two
 * samples of the sensor's series (`updateTemperatureAnalysis`).
 */
module Trend {
  import opened Dict

  datatype Trend = Rising | Falling | Stable

  /** Changes of at most this much either way count as Stable. */
  const Deadband: real := 0.2

  function Classify(prev: real, last: real): (t: Trend)
    ensures t == Rising <==> last > prev + Deadband
    ensures t == Falling <==> last < prev - Deadband
    ensures t == Stable <==> prev - Deadband <= last <= prev + Deadband
  {
    if last > prev + Deadband then Rising
    else if last < prev - Deadband then Falling
    else Stable
  }

  /** The trend of one series; None (no entry) when it has fewer than two samples. */
  function Of(values: seq<real>): (t: Option<Trend>)
    ensures t.None? <==> |values| < 2
    ensures t.Some? ==> t.value == Classify(values[|values| - 2], values[|values| - 1])
  {
    if |values| >= 2 then Some(Classify(values[|values| - 2], values[|values| - 1])) else None
  }

  /** Swapping the two samples swaps Rising and Falling. */
  lemma ClassifySwap(a: real, b: real)
    ensures Classify(a, b) == Rising <==> Classify(b, a) == Falling
    ensures Classify(a, b) == Stable <==> Classify(b, a) == Stable
  {
  }

  /** Only the difference of the samples matters. */
  lemma ClassifyShift(a: real, b: real, c: real)
    ensures Classify(a + c, b + c) == Classify(a, b)
  {
  }

  /** Earlier samples never matter: no smoothing, no window. */
  lemma OfLastTwo(earlier: seq<real>, values: seq<real>)
    requires |values| >= 2
    ensures Of(earlier + values) == Of(values[|values| - 2..])
  {
  }

  lemma Examples()
    ensures Of([10.0, 10.25]) == Some(Rising)
    ensures Of([10.0, 9.7]) == Some(Falling)
    ensures Of([10.0, 10.1]) == Some(Stable)
    ensures Of([10.0, 10.2]) == Some(Stable)
    ensures Of([5.0]) == None
  {
  }

  /** The `tempTrends` object after the loop has seen the given series, in order. */
  function TrendsOf(series: Entries<seq<real>>): map<string, Trend> {
    if |series| == 0 then map[]
    else
      var trends := TrendsOf(series[..|series| - 1]);
      var (sensor, values) := series[|series| - 1];
      match Of(values)
      case Some(t) => trends[sensor := t]
      case None => trends
  }

  /** The loop of `updateTemperatureAnalysis` that fills `tempTrends`. */
  method ComputeTrends(series: Entries<seq<real>>) returns (trends: map<string, Trend>)
    ensures trends == TrendsOf(series)
  {
    trends := map[];
    var i := 0;
    while i < |series|
      invariant 0 <= i <= |series|
      invariant trends == TrendsOf(series[..i])
    {
      var (sensor, values) := series[i];
      if |values| >= 2 {
        var lastValue := values[|values| - 1];
        var prevValue := values[|values| - 2];
        if lastValue > prevValue + Deadband {
          trends := trends[sensor := Rising];
        } else if lastValue < prevValue - Deadband {
          trends := trends[sensor := Falling];
        } else {
          trends := trends[sensor := Stable];
        }
      }
      assert series[..i + 1][..i] == series[..i];
      i := i + 1;
    }
    assert series[..i] == series;
  }

  /** The trend shown on a card: a sensor without an entry shows Stable. */
  function Shown(trends: map<string, Trend>, sensor: string): Trend {
    if sensor in trends then trends[sensor] else Stable
  }

  /**
   * A sensor has an entry exactly when its series has at least two samples,
   * and then the entry is the trend of that series.
   */
  lemma {:induction false} TrendsOfLookup(series: Entries<seq<real>>, sensor: string)
    requires DistinctKeys(series)
    ensures sensor in TrendsOf(series) <==> Get(series, sensor).Some? && |Get(series, sensor).value| >= 2
    ensures sensor in TrendsOf(series) ==> TrendsOf(series)[sensor] == Of(Get(series, sensor).value).value
  {
    if |series| > 0 {
      var init := series[..|series| - 1];
      var last := series[|series| - 1];
      assert series == init + [last];
      assert DistinctKeys(init);
      TrendsOfLookup(init, sensor);
      GetSnoc(init, last, sensor);
      if last.0 == sensor {
        assert Get(init, sensor).None? by {
          assert FindKey(init, sensor).None?;
        }
      }
    }
  }

  /** What a card shows, directly in terms of the sensor's series. */
  lemma ShownTrend(series: Entries<seq<real>>, sensor: string)
    requires DistinctKeys(series)
    ensures Shown(TrendsOf(series), sensor) ==
      match Get(series, sensor)
      case Some(values) => if |values| >= 2 then Of(values).value else Stable
      case None => Stable
  {
    TrendsOfLookup(series, sensor);
  }
}
