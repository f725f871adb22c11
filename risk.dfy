/** The rule-based classifier `label_risk_v3`: 0 = low, 1 = medium, 2 = high. */
module Risk {
  import opened Rows

  const Low := 0
  const Medium := 1
  const High := 2

  // Thresholds in mm, all compared with >=.
  const AnomalyHighMm := 50.0
  const MediumMm := 30.0
  const Medium3d := 80.0
  const High3d := 130.0
  const Medium7d := 120.0
  const High7d := 200.0

  /** `value >= threshold` on a column that may hold NaN: any comparison with NaN is false. */
  predicate AtLeast(v: Option<real>, threshold: real)
  {
    v.Some? && v.value >= threshold
  }

  /** First match wins: high, then medium, else low. */
  function LabelRiskV3(rainMm: Option<real>, rain3d: Option<real>, rain7d: Option<real>, isAnomaly: bool): (level: int)
    ensures Low <= level <= High
    ensures AtLeast(rain3d, High3d) || AtLeast(rain7d, High7d) ==> level == High
  {
    if (isAnomaly && AtLeast(rainMm, AnomalyHighMm)) || AtLeast(rain3d, High3d) || AtLeast(rain7d, High7d) then
      High
    else if isAnomaly || AtLeast(rainMm, MediumMm) || AtLeast(rain3d, Medium3d) || AtLeast(rain7d, Medium7d) then
      Medium
    else
      Low
  }

  /** Level of one accumulated-rain signal taken alone. */
  function SignalLevel(v: Option<real>, medium: real, high: real): int
  {
    if AtLeast(v, high) then High else if AtLeast(v, medium) then Medium else Low
  }

  /** Level of the day's own rain taken together with the anomaly flag. */
  function DayLevel(rainMm: Option<real>, isAnomaly: bool): int
  {
    if isAnomaly && AtLeast(rainMm, AnomalyHighMm) then High
    else if isAnomaly || AtLeast(rainMm, MediumMm) then Medium
    else Low
  }

  function Max(a: int, b: int): int { if a < b then b else a }

  /** Reference reading of the rules: the label is the worst of three independent signals, the
      day's rain with the anomaly flag, the 3-day sum and the 7-day sum. */
  lemma LabelIsWorstSignal(rainMm: Option<real>, rain3d: Option<real>, rain7d: Option<real>, isAnomaly: bool)
    ensures LabelRiskV3(rainMm, rain3d, rain7d, isAnomaly) ==
            Max(DayLevel(rainMm, isAnomaly), Max(SignalLevel(rain3d, Medium3d, High3d), SignalLevel(rain7d, Medium7d, High7d)))
  {
  }

  /** Exact conditions for each level. */
  lemma LabelLevels(rainMm: Option<real>, rain3d: Option<real>, rain7d: Option<real>, isAnomaly: bool)
    ensures LabelRiskV3(rainMm, rain3d, rain7d, isAnomaly) == High <==>
              (isAnomaly && AtLeast(rainMm, AnomalyHighMm)) || AtLeast(rain3d, High3d) || AtLeast(rain7d, High7d)
    ensures LabelRiskV3(rainMm, rain3d, rain7d, isAnomaly) == Low <==>
              !isAnomaly && !AtLeast(rainMm, MediumMm) && !AtLeast(rain3d, Medium3d) && !AtLeast(rain7d, Medium7d)
    ensures isAnomaly ==> LabelRiskV3(rainMm, rain3d, rain7d, isAnomaly) >= Medium
  {
  }

  /** A present value at least as large as another, with a missing value below every present one
      (a NaN passes no threshold). */
  predicate NoWetter(a: Option<real>, b: Option<real>)
  {
    a.None? || (b.Some? && a.value <= b.value)
  }

  /** More rain on any column, or an anomaly flag switched on, never lowers the label. */
  lemma LabelMonotone(rainMm: Option<real>, rain3d: Option<real>, rain7d: Option<real>, isAnomaly: bool,
                      rainMm': Option<real>, rain3d': Option<real>, rain7d': Option<real>, isAnomaly': bool)
    requires NoWetter(rainMm, rainMm') && NoWetter(rain3d, rain3d') && NoWetter(rain7d, rain7d')
    requires isAnomaly ==> isAnomaly'
    ensures LabelRiskV3(rainMm, rain3d, rain7d, isAnomaly) <= LabelRiskV3(rainMm', rain3d', rain7d', isAnomaly')
  {
    LabelIsWorstSignal(rainMm, rain3d, rain7d, isAnomaly);
    LabelIsWorstSignal(rainMm', rain3d', rain7d', isAnomaly');
  }
}
