/** Risk assessment (assessRisk): points for a low SOH, for wear and for
    alerts, each recorded as a risk factor, capped for batteries in
    excellent condition and banded into a risk level. */
module Risk {
  import opened Options
  import Alerts
  import opened Batteries

  datatype RiskFactor =
    | SohCritical | SohDegraded | SohSlightlyDegraded
    | CyclesVeryHigh | CyclesHigh | CyclesModerate
    | CriticalAlerts(count: nat) | ManyAlerts(count: nat) | SeveralAlerts(count: nat)

  datatype RiskLevel = Low | Moderate | High | Critical

  datatype RiskReport = RiskReport(
    batteryId: string,
    displayName: string,
    score: int,
    level: RiskLevel,
    factors: seq<RiskFactor>)

  /** The inputs of the assessment: the SOH (100 when missing), the cycle
      count (0 when missing) and the numbers of critical and warning
      alerts. */
  datatype Inputs = Inputs(soh: Option<int>, cycles: Option<int>, critical: nat, warnings: nat)

  function InputsOf(b: Battery): Inputs {
    Inputs(SohStat(b.stats, "100"), CycleStat(b.stats),
           CountSeverity(b.alerts, Alerts.Critical), CountSeverity(b.alerts, Alerts.Warning))
  }

  // ---------------------------------------------------- points as scored

  /** SOH below 70, 80 or 90 scores 40, 25 or 10; a NaN SOH scores nothing. */
  function SohPoints(soh: Option<int>): nat {
    if soh.None? then 0
    else if soh.value < 70 then 40
    else if soh.value < 80 then 25
    else if soh.value < 90 then 10
    else 0
  }

  /** More than 6000, 4000 or 2000 cycles scores 30, 15 or 5. */
  function CyclePoints(cycles: Option<int>): nat {
    if cycles.None? then 0
    else if cycles.value > 6000 then 30
    else if cycles.value > 4000 then 15
    else if cycles.value > 2000 then 5
    else 0
  }

  /** More than 10 or 5 warnings scores 15 or 8. */
  function WarningPoints(warnings: nat): nat {
    if warnings > 10 then 15 else if warnings > 5 then 8 else 0
  }

  /** The score before any cap, accumulated as the assessment runs. */
  function RawScore(x: Inputs): nat {
    SohPoints(x.soh) + CyclePoints(x.cycles) + 20 * x.critical + WarningPoints(x.warnings)
  }

  // -------------------------------------------------------- risk factors

  function SohFactors(soh: Option<int>): seq<RiskFactor> {
    if soh.None? then []
    else if soh.value < 70 then [SohCritical]
    else if soh.value < 80 then [SohDegraded]
    else if soh.value < 90 then [SohSlightlyDegraded]
    else []
  }

  function CycleFactors(cycles: Option<int>): seq<RiskFactor> {
    if cycles.None? then []
    else if cycles.value > 6000 then [CyclesVeryHigh]
    else if cycles.value > 4000 then [CyclesHigh]
    else if cycles.value > 2000 then [CyclesModerate]
    else []
  }

  function AlertFactors(critical: nat, warnings: nat): seq<RiskFactor> {
    (if critical > 0 then [CriticalAlerts(critical)] else [])
    + (if warnings > 10 then [ManyAlerts(warnings)] else if warnings > 5 then [SeveralAlerts(warnings)] else [])
  }

  /** The factors in the order they are recorded. */
  function Factors(x: Inputs): (fs: seq<RiskFactor>)
    ensures |fs| <= 4
  {
    SohFactors(x.soh) + CycleFactors(x.cycles) + AlertFactors(x.critical, x.warnings)
  }

  /** The points a factor stands for. */
  function Points(f: RiskFactor): nat {
    match f
    case SohCritical => 40
    case SohDegraded => 25
    case SohSlightlyDegraded => 10
    case CyclesVeryHigh => 30
    case CyclesHigh => 15
    case CyclesModerate => 5
    case CriticalAlerts(n) => 20 * n
    case ManyAlerts(_) => 15
    case SeveralAlerts(_) => 8
  }

  function TotalPoints(fs: seq<RiskFactor>): nat
    decreases |fs|
  {
    if |fs| == 0 then 0 else TotalPoints(fs[..|fs| - 1]) + Points(fs[|fs| - 1])
  }

  lemma {:induction false} TotalPointsAppend(a: seq<RiskFactor>, b: seq<RiskFactor>)
    ensures TotalPoints(a + b) == TotalPoints(a) + TotalPoints(b)
    decreases |b|
  {
    if |b| > 0 {
      assert (a + b)[..|a + b| - 1] == a + b[..|b| - 1];
      TotalPointsAppend(a, b[..|b| - 1]);
    } else {
      assert a + b == a;
    }
  }

  lemma SohFactorsPoints(soh: Option<int>)
    ensures TotalPoints(SohFactors(soh)) == SohPoints(soh)
  {
  }

  lemma CycleFactorsPoints(cycles: Option<int>)
    ensures TotalPoints(CycleFactors(cycles)) == CyclePoints(cycles)
  {
  }

  lemma AlertFactorsPoints(critical: nat, warnings: nat)
    ensures TotalPoints(AlertFactors(critical, warnings)) == 20 * critical + WarningPoints(warnings)
  {
    var a1: seq<RiskFactor> := if critical > 0 then [CriticalAlerts(critical)] else [];
    var a2: seq<RiskFactor> :=
      if warnings > 10 then [ManyAlerts(warnings)] else if warnings > 5 then [SeveralAlerts(warnings)] else [];
    TotalPointsAppend(a1, a2);
  }

  /** The score is the sum of the points of the recorded factors. */
  lemma ScoreIsSumOfFactors(x: Inputs)
    ensures RawScore(x) == TotalPoints(Factors(x))
  {
    var s, c, a := SohFactors(x.soh), CycleFactors(x.cycles), AlertFactors(x.critical, x.warnings);
    TotalPointsAppend(s + c, a);
    TotalPointsAppend(s, c);
    SohFactorsPoints(x.soh);
    CycleFactorsPoints(x.cycles);
    AlertFactorsPoints(x.critical, x.warnings);
  }

  /** Every recorded factor stands for some points, so a battery has no risk
      factor exactly when its score before the cap is zero. */
  lemma NoFactorsIffNoPoints(x: Inputs)
    ensures Factors(x) == [] <==> RawScore(x) == 0
  {
    ScoreIsSumOfFactors(x);
  }

  // ----------------------------------------------------------- the report

  /** A battery in excellent condition: SOH at least 95, fewer than 1000
      cycles and no critical alert. */
  predicate Excellent(x: Inputs) {
    x.soh.Some? && x.soh.value >= 95 && x.cycles.Some? && x.cycles.value < 1000 && x.critical == 0
  }

  /** Level bands above 70, 40 and 20 points. */
  function LevelOf(score: int): RiskLevel {
    if score > 70 then Critical else if score > 40 then High else if score > 20 then Moderate else Low
  }

  function RiskOf(b: Battery): (r: RiskReport)
    ensures r.batteryId == b.batteryId && r.displayName == b.displayName
    ensures 0 <= r.score <= 100
    ensures r.level == LevelOf(r.score)
    ensures Excellent(InputsOf(b)) ==> r.score <= 10 && r.level == Low
    ensures !Excellent(InputsOf(b)) ==> r.score == if RawScore(InputsOf(b)) < 100 then RawScore(InputsOf(b)) else 100
    ensures r.factors == Factors(InputsOf(b))
  {
    var x := InputsOf(b);
    var raw := RawScore(x);
    var capped := if Excellent(x) && raw > 10 then 10 else raw;
    RiskReport(b.batteryId, b.displayName, if capped < 100 then capped else 100, LevelOf(capped), Factors(x))
  }

  /** A higher score is never a lower level. */
  lemma LevelMonotone(a: int, b: int)
    requires a <= b
    ensures LevelOf(a) == Critical ==> LevelOf(b) == Critical
    ensures LevelOf(b) == Low ==> LevelOf(a) == Low
  {
  }

  /** One report per battery, in order. */
  function AssessRisk(bs: seq<Battery>): (r: seq<RiskReport>)
    ensures |r| == |bs|
    ensures forall i :: 0 <= i < |bs| ==> r[i] == RiskOf(bs[i])
  {
    seq(|bs|, i requires 0 <= i < |bs| => RiskOf(bs[i]))
  }
}
