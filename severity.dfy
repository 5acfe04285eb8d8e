/**
 * The two severity scales of the dashboard: the badge of a row of the
 * parameter-anomalies table, and the state computed for a temperature card.
 */
module Severity {

  /** Counts above this are critical, on both scales. */
  const CriticalAbove: int := 5

  /** The badge of a parameter-anomalies row (`count > 5 ? "Critical" : "Warning"`). */
  datatype Badge = Warning | Critical

  function OfParameterCount(count: int): (b: Badge)
    ensures b == Critical <==> count > CriticalAbove
    ensures b == Warning <==> count <= CriticalAbove
  {
    if count > CriticalAbove then Critical else Warning
  }

  /**
   * The state a temperature card computes (`statusClass`: temp-normal,
   * temp-warning, temp-critical). The card markup never uses it, so no card
   * displays it.
   */
  datatype CardState = TempNormal | TempWarning | TempCritical

  function OfTemperatureAnomalies(anomalies: int): (c: CardState)
    ensures c == TempNormal <==> anomalies <= 0
    ensures c == TempWarning <==> 0 < anomalies <= CriticalAbove
    ensures c == TempCritical <==> anomalies > CriticalAbove
  {
    if anomalies > 0 then
      if anomalies > CriticalAbove then TempCritical else TempWarning
    else TempNormal
  }

  /** For a count that is flagged at all, the two scales agree on what is critical. */
  lemma ScalesAgree(count: int)
    requires count > 0
    ensures OfTemperatureAnomalies(count) == TempCritical <==> OfParameterCount(count) == Critical
    ensures OfTemperatureAnomalies(count) == TempWarning <==> OfParameterCount(count) == Warning
  {
  }

  lemma Boundaries()
    ensures OfParameterCount(0) == Warning && OfParameterCount(5) == Warning && OfParameterCount(6) == Critical
    ensures OfTemperatureAnomalies(0) == TempNormal && OfTemperatureAnomalies(1) == TempWarning
    ensures OfTemperatureAnomalies(5) == TempWarning && OfTemperatureAnomalies(6) == TempCritical
  {
  }
}
