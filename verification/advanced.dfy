/** The complete analysis (performAdvancedAnalysis): every analysis of the
    loaded batteries, or nothing when none is loaded. */
module Advanced {
  import opened Options
  import opened Batteries
  import Health
  import Degradation
  import Balance
  import Performance
  import Risk
  import Recommendations

  datatype Analysis = Analysis(
    batteryHealth: seq<Health.HealthReport>,
    degradation: seq<Degradation.DegradationReport>,
    cellBalance: seq<Balance.BalanceReport>,
    performance: seq<Performance.Ranked>,
    risk: seq<Risk.RiskReport>,
    recommendations: seq<Recommendations.Recommendation>)

  /** `performAdvancedAnalysis`: no result without batteries; otherwise one
      health, degradation, balance and risk report per battery, each the one
      that battery gets on its own, the ranking of two or more batteries,
      and the recommendations. */
  function PerformAdvancedAnalysis(bs: seq<Battery>): (r: Option<Analysis>)
    ensures r.None? <==> |bs| == 0
    ensures r.Some? ==> |r.value.batteryHealth| == |bs| && |r.value.degradation| == |bs|
                        && |r.value.cellBalance| == |bs| && |r.value.risk| == |bs|
    ensures r.Some? ==> (r.value.performance == [] <==> |bs| == 1)
    ensures r.Some? ==> r.value.performance == Performance.ComparePerformance(bs)
    ensures r.Some? ==> r.value.recommendations == Recommendations.GenerateRecommendations(bs)
    ensures r.Some? ==> forall i :: 0 <= i < |bs| ==>
              r.value.batteryHealth[i] == Health.HealthOf(bs[i]) && r.value.risk[i] == Risk.RiskOf(bs[i])
    ensures r.Some? ==> forall i :: 0 <= i < |bs| ==>
              r.value.degradation[i] == Degradation.DegradationOf(bs[i]) && r.value.cellBalance[i] == Balance.BalanceOf(bs[i])
  {
    if |bs| == 0 then None
    else Some(Analysis(
      Health.AnalyzeBatteryHealth(bs),
      Degradation.AnalyzeDegradation(bs),
      Balance.AnalyzeCellBalance(bs),
      Performance.ComparePerformance(bs),
      Risk.AssessRisk(bs),
      Recommendations.GenerateRecommendations(bs)))
  }
}
