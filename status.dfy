/** The system status shown in the header of the dashboard (`updateSystemStatus`). */
module Status {

  datatype SystemStatus = Normal | Warning | Critical | Error | NoData

  /** Below this anomaly percentage the system is Normal. */
  const WarningFrom: real := 1.0
  /** From this anomaly percentage on the system is Critical. */
  const CriticalFrom: real := 5.0

  /** The tier for a successful analysis, from its anomaly percentage. */
  function FromPercentage(p: real): (s: SystemStatus)
    ensures s == Normal <==> p < WarningFrom
    ensures s == Warning <==> WarningFrom <= p < CriticalFrom
    ensures s == Critical <==> CriticalFrom <= p
  {
    if p < WarningFrom then Normal
    else if p < CriticalFrom then Warning
    else Critical
  }

  /** How serious a status is, for comparing tiers. */
  function Rank(s: SystemStatus): nat {
    match s
    case Normal => 0
    case Warning => 1
    case Critical => 2
    case Error => 3
    case NoData => 0
  }

  /** A larger anomaly percentage never gives a less serious tier. */
  lemma FromPercentageMonotone(p: real, q: real)
    requires p <= q
    ensures Rank(FromPercentage(p)) <= Rank(FromPercentage(q))
  {
  }

  /** The boundary values: exactly 1 is already Warning, exactly 5 already Critical. */
  lemma Boundaries()
    ensures FromPercentage(0.999) == Normal
    ensures FromPercentage(1.0) == Warning
    ensures FromPercentage(4.999) == Warning
    ensures FromPercentage(5.0) == Critical
  {
  }
}
