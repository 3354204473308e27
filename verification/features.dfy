/** Feature rules shared by several generations of the feature builder. */
module Features {

  /** `snow_day`: 1 exactly when the date string equals one of the reference dates. */
  function SnowDayLabel(date: string, snowDays: seq<string>): (flag: int)
    ensures flag == 1 <==> date in snowDays
    ensures flag == 0 <==> date !in snowDays
  {
    if date in snowDays then 1 else 0
  }

  /** The ordinal `no_snowfall_penalty` of the live builder and the second-generation one. */
  function NoSnowfallPenalty(snowfall24h: real, snowfallOvernight: real): (p: int)
    ensures 0 <= p <= 2
    ensures p == 2 <==> snowfall24h == 0.0
    ensures p == 1 <==> snowfall24h != 0.0 && snowfallOvernight < 1.0
    ensures p == 0 <==> snowfall24h != 0.0 && snowfallOvernight >= 1.0
  {
    if snowfall24h == 0.0 then 2 else if snowfallOvernight < 1.0 then 1 else 0
  }

  /** With non-negative snowfall, more snow never raises the penalty. */
  lemma PenaltyMonotone(a24: real, aOvernight: real, b24: real, bOvernight: real)
    requires 0.0 <= a24 <= b24 && aOvernight <= bOvernight
    ensures NoSnowfallPenalty(b24, bOvernight) <= NoSnowfallPenalty(a24, aOvernight)
  {
  }
}
