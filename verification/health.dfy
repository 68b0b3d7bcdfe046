/** Battery health (analyzeBatteryHealth): the state of health (SOH) read
    from the statistics or estimated when it is missing or zero, a status
    band, a health score kept close to the SOH, and the years of cycle life
    left. */
module Health {
  import opened Options
  import opened Text
  import opened JsNumbers
  import opened Records
  import Alerts
  import opened Batteries

  datatype HealthStatus = Critical | Degraded | Good | VeryGood | Excellent

  /** Position of a status on the scale from Critical (0) to Excellent (4). */
  function Rank(s: HealthStatus): nat {
    match s
    case Critical => 0
    case Degraded => 1
    case Good => 2
    case VeryGood => 3
    case Excellent => 4
  }

  /** Status bands of the SOH at 70, 80, 90 and 95. A NaN SOH compares false
      against every bound and falls through to Excellent. */
  function StatusOf(soh: Option<int>): HealthStatus {
    if soh.None? then Excellent
    else if soh.value < 70 then Critical
    else if soh.value < 80 then Degraded
    else if soh.value < 90 then Good
    else if soh.value < 95 then VeryGood
    else Excellent
  }

  /** Number of the thresholds `ts` that `x` reaches. */
  function Reached(x: int, ts: seq<int>): nat
    decreases |ts|
  {
    if |ts| == 0 then 0 else (if x >= ts[0] then 1 else 0) + Reached(x, ts[1..])
  }

  const StatusThresholds: seq<int> := [70, 80, 90, 95]

  /** The status of a SOH is the number of band thresholds it reaches. */
  lemma StatusCountsThresholds(soh: int)
    ensures Rank(StatusOf(Some(soh))) == Reached(soh, StatusThresholds)
  {
    assert StatusThresholds[1..][1..][1..][1..] == [];
  }

  /** A higher SOH never has a worse status. */
  lemma StatusMonotone(a: int, b: int)
    requires a <= b
    ensures Rank(StatusOf(Some(a))) <= Rank(StatusOf(Some(b)))
  {
  }

  // ------------------------------------------------------------ SOH

  /** The SOH is estimated when it reads 0 or the statistic is missing. */
  predicate NeedsEstimate(stats: map<string, string>) {
    SohStat(stats, "0") == Some(0) || !HasStat(stats, "SOH")
  }

  /** Second estimate: cycle-count bands for typical lithium cells. */
  function CycleEstimate(cycles: int): (soh: int)
    ensures 70 <= soh <= 95
  {
    if cycles < 1000 then 95
    else if cycles < 2000 then 90
    else if cycles < 3000 then 85
    else if cycles < 5000 then 80
    else if cycles < 7000 then 75
    else 70
  }

  /** More cycles never give a higher estimate. */
  lemma CycleEstimateAntitone(a: int, b: int)
    requires a <= b
    ensures CycleEstimate(b) <= CycleEstimate(a)
  {
  }

  /** Third estimate: bands of the mean voltage (in volts) of a 48 V pack.
      A NaN mean takes the last band. */
  function VoltageEstimate(avg: Num): (soh: int)
    ensures 65 <= soh <= 95
  {
    if Greater(avg, Fin(51.0)) then 95
    else if Greater(avg, Fin(50.0)) then 88
    else if Greater(avg, Fin(49.0)) then 82
    else if Greater(avg, Fin(48.0)) then 75
    else 65
  }

  /** A higher finite mean voltage never gives a lower estimate. */
  lemma VoltageEstimateMonotone(a: real, b: real)
    requires a <= b
    ensures VoltageEstimate(Fin(a)) <= VoltageEstimate(Fin(b))
  {
  }

  /** The first (up to) fifty history entries the third estimate averages. */
  function EstimateWindow(h: seq<HistoryEntry>): seq<HistoryEntry> {
    if |h| <= 50 then h else h[..50]
  }

  /** The estimate made when the SOH statistic reads zero or is missing: from
      the power percentage (less ten, at least 70) when it is positive, else
      from the cycle count when it is positive, else from the mean voltage of
      the first fifty entries when there are more than ten, else 75. Each
      step runs only while the SOH is still zero, which is the value the
      statistic read on entry (EstimateStartsAtZero). */
  function Estimate(pp: Option<int>, cycles: Option<int>, h: seq<HistoryEntry>): (soh: int)
    ensures 65 <= soh
    ensures soh <= 95 || (pp.Some? && soh == pp.value - 10)
  {
    var s1 := if pp.Some? && pp.value > 0 then (if pp.value - 10 > 70 then pp.value - 10 else 70) else 0;
    var s2 := if s1 == 0 && cycles.Some? && cycles.value > 0 then CycleEstimate(cycles.value) else s1;
    var s3 := if s2 == 0 && |h| > 10 then VoltageEstimate(MeanVolts(EstimateWindow(h))) else s2;
    if s3 == 0 then 75 else s3
  }

  /** The SOH the analysis works with: the statistic when it reads non-zero,
      the estimate otherwise. */
  function Soh(b: Battery): (soh: Option<int>)
    ensures soh != Some(0)
    ensures NeedsEstimate(b.stats) ==> soh.Some? && 65 <= soh.value
  {
    if !NeedsEstimate(b.stats) then SohStat(b.stats, "0")
    else Some(Estimate(PowerPercentStat(b.stats), CycleStat(b.stats), b.history))
  }

  /** "0" reads as zero. */
  lemma ZeroReadsZero()
    ensures ParseInt("0") == Some(0)
  {
    ParseIntOfDecimal(0);
  }

  /** When an estimate is needed the SOH statistic reads 0. */
  lemma EstimateStartsAtZero(stats: map<string, string>)
    requires NeedsEstimate(stats)
    ensures SohStat(stats, "0") == Some(0)
  {
    ZeroReadsZero();
  }

  /** A non-zero SOH statistic is used as it reads. */
  lemma SohDirect(b: Battery)
    requires HasStat(b.stats, "SOH") && SohStat(b.stats, "0") != Some(0)
    ensures Soh(b) == SohStat(b.stats, "0")
  {
  }

  /** A positive power percentage decides the estimate: neither the cycle
      count nor the history is consulted. */
  lemma PowerPercentDecides(pp: Option<int>, c1: Option<int>, h1: seq<HistoryEntry>, c2: Option<int>, h2: seq<HistoryEntry>)
    requires pp.Some? && pp.value > 0
    ensures Estimate(pp, c1, h1) == if pp.value - 10 > 70 then pp.value - 10 else 70
    ensures Estimate(pp, c1, h1) == Estimate(pp, c2, h2)
  {
  }

  /** Without a positive power percentage, a positive cycle count decides
      the estimate, whatever the history. */
  lemma CyclesDecide(pp: Option<int>, cycles: Option<int>, h: seq<HistoryEntry>)
    requires !(pp.Some? && pp.value > 0)
    requires cycles.Some? && cycles.value > 0
    ensures Estimate(pp, cycles, h) == CycleEstimate(cycles.value)
  {
  }

  /** With neither a positive power percentage nor a positive cycle count,
      the mean voltage of the first fifty entries decides when there are more
      than ten entries, and the estimate is 75 otherwise. */
  lemma VoltageOrDefaultDecides(pp: Option<int>, cycles: Option<int>, h: seq<HistoryEntry>)
    requires !(pp.Some? && pp.value > 0) && !(cycles.Some? && cycles.value > 0)
    ensures Estimate(pp, cycles, h) == if |h| > 10 then VoltageEstimate(MeanVolts(EstimateWindow(h))) else 75
  {
  }

  /** Only the voltage estimate goes below 70: an estimated SOH is in the
      Critical band only when it is the lowest voltage band, 65. */
  lemma EstimateCriticalOnlyFromVoltage(pp: Option<int>, cycles: Option<int>, h: seq<HistoryEntry>)
    requires Estimate(pp, cycles, h) < 70
    ensures Estimate(pp, cycles, h) == 65
    ensures |h| > 10 && VoltageEstimate(MeanVolts(EstimateWindow(h))) == 65
  {
  }

  // ------------------------------------------------------- health score

  function RealMin(a: real, b: real): real { if a <= b then a else b }

  function RealMax(a: real, b: real): real { if a >= b then a else b }

  /** The cycle-count adjustment as written: up to 5 points beyond 6000
      cycles, up to 3 beyond 4000, up to 2 beyond 2000, each measured from
      the start of its own band. A NaN count loses nothing. */
  function CyclePenaltyAsWritten(cycles: Option<int>): (p: real)
    ensures 0.0 <= p <= 5.0
  {
    if cycles.None? then 0.0
    else
      var c := cycles.value as real;
      if c > 6000.0 then RealMin(5.0, (c - 6000.0) / 1000.0 * 2.0)
      else if c > 4000.0 then RealMin(3.0, (c - 4000.0) / 1000.0 * 1.5)
      else if c > 2000.0 then RealMin(2.0, (c - 2000.0) / 1000.0)
      else 0.0
  }

  /** Because each band restarts from zero, the adjustment as written drops
      when the count enters the next band: 3 points at 6000 cycles, 0.002 at
      6001, so a battery of SOH 90 scores 87 at 6000 cycles and 89.998 at
      6001. */
  lemma CyclePenaltyAsWrittenDrops()
    ensures CyclePenaltyAsWritten(Some(4000)) == 2.0 && CyclePenaltyAsWritten(Some(4001)) == 0.0015
    ensures CyclePenaltyAsWritten(Some(6000)) == 3.0 && CyclePenaltyAsWritten(Some(6001)) == 0.002
    ensures HealthScore(Some(90), CyclePenaltyAsWritten(Some(6000)), 0) == Fin(87.0)
    ensures HealthScore(Some(90), CyclePenaltyAsWritten(Some(6001)), 0) == Fin(89.998)
  {
  }

  /** The corrected cycle-count adjustment, used by `HealthOfCorrected`:
      the largest of the three band formulas the count has reached, which is
      the smallest adjustment that never decreases as cycles accumulate and
      is never less than the one written. */
  function CyclePenalty(cycles: Option<int>): (p: real)
    ensures 0.0 <= p <= 5.0
    ensures cycles.None? || cycles.value <= 2000 ==> p == 0.0
    ensures p >= CyclePenaltyAsWritten(cycles)
  {
    if cycles.None? then 0.0
    else
      var c := cycles.value as real;
      RealMax(0.0, RealMax(RealMin(2.0, (c - 2000.0) / 1000.0),
                           RealMax(RealMin(3.0, (c - 4000.0) / 1000.0 * 1.5),
                                   RealMin(5.0, (c - 6000.0) / 1000.0 * 2.0))))
  }

  /** More cycles never lose fewer points. */
  lemma CyclePenaltyMonotone(c1: int, c2: int)
    requires c1 <= c2
    ensures CyclePenalty(Some(c1)) <= CyclePenalty(Some(c2))
  {
  }

  /** The correction only differs from the written adjustment just past the
      4000- and 6000-cycle boundaries. */
  lemma CyclePenaltyCorrectionIsLocal(c: int)
    requires c <= 4000 || 5334 <= c <= 6000 || c >= 7500
    ensures CyclePenalty(Some(c)) == CyclePenaltyAsWritten(Some(c))
  {
  }

  /** Score points lost to critical alerts: three each, at most ten. */
  function AlertPenalty(critical: nat): (p: real)
    ensures 0.0 <= p <= 10.0
    ensures critical == 0 ==> p == 0.0
  {
    RealMin(3.0 * critical as real, 10.0)
  }

  /** The SOH less both penalties, clamped between `max(0, soh - 10)` and
      `min(100, soh + 5)`. */
  function HealthScore(soh: Option<int>, cyclePenalty: real, critical: nat): (score: Num)
    ensures score.NaN? <==> soh.None?
  {
    if soh.None? then NaN
    else
      var s := soh.value as real;
      var raw := s - cyclePenalty - AlertPenalty(critical);
      Fin(RealMax(RealMax(0.0, s - 10.0), RealMin(RealMin(100.0, s + 5.0), raw)))
  }

  /** The score never exceeds the SOH and never falls more than ten points
      (or below zero) under it. */
  lemma HealthScoreBounds(soh: int, cyclePenalty: real, critical: nat)
    requires soh >= 0 && cyclePenalty >= 0.0
    ensures HealthScore(Some(soh), cyclePenalty, critical).Fin?
    ensures RealMax(0.0, soh as real - 10.0) <= HealthScore(Some(soh), cyclePenalty, critical).v <= soh as real
  {
  }

  /** Without wear or critical alerts the score is the SOH (up to 100). */
  lemma HealthScoreUnpenalised(soh: int, cycles: Option<int>)
    requires 0 <= soh <= 100
    requires cycles.None? || cycles.value <= 2000
    ensures HealthScore(Some(soh), CyclePenaltyAsWritten(cycles), 0) == Fin(soh as real)
    ensures HealthScore(Some(soh), CyclePenalty(cycles), 0) == Fin(soh as real)
  {
  }

  /** More critical alerts never raise the score. */
  lemma HealthScoreAntitoneInAlerts(soh: int, cyclePenalty: real, k1: nat, k2: nat)
    requires k1 <= k2
    ensures HealthScore(Some(soh), cyclePenalty, k2).v <= HealthScore(Some(soh), cyclePenalty, k1).v
  {
  }

  /** A larger cycle penalty never raises the score. */
  lemma HealthScoreAntitoneInPenalty(soh: int, p1: real, p2: real, critical: nat)
    requires p1 <= p2
    ensures HealthScore(Some(soh), p2, critical).v <= HealthScore(Some(soh), p1, critical).v
  {
  }

  /** With the corrected penalty, more cycles never raise the score. */
  lemma HealthScoreAntitoneInCycles(soh: int, c1: int, c2: int, critical: nat)
    requires c1 <= c2
    ensures HealthScore(Some(soh), CyclePenalty(Some(c2)), critical).v
            <= HealthScore(Some(soh), CyclePenalty(Some(c1)), critical).v
  {
    CyclePenaltyMonotone(c1, c2);
  }

  /** `max(0, (8000 - cycles) / 365)`: years of rated cycle life left, at one
      cycle a day. */
  function LifeRemaining(cycles: Option<int>): (years: Num)
    ensures years.NaN? <==> cycles.None?
    ensures years.Fin? ==> years.v >= 0.0
    ensures cycles.Some? && cycles.value >= BatteryCycleLimit ==> years == Fin(0.0)
    ensures cycles.Some? && cycles.value < BatteryCycleLimit
            ==> years.Fin? && years.v * 365.0 + cycles.value as real == BatteryCycleLimit as real
  {
    if cycles.None? then NaN
    else Fin(RealMax(0.0, (BatteryCycleLimit - cycles.value) as real / 365.0))
  }

  // ----------------------------------------------------------- report

  datatype HealthReport = HealthReport(
    batteryId: string,
    displayName: string,
    soh: Option<int>,
    direct: bool,
    cycles: Option<int>,
    powerPercent: Option<int>,
    status: HealthStatus,
    score: Num,
    lifeRemaining: Num)

  function HealthOf(b: Battery): (r: HealthReport)
    ensures r.batteryId == b.batteryId && r.displayName == b.displayName
    ensures r.soh != Some(0)
    ensures r.direct <==> HasStat(b.stats, "SOH")
    ensures r.score.NaN? <==> r.soh.None?
  {
    var soh := Soh(b);
    var cycles := CycleStat(b.stats);
    HealthReport(
      b.batteryId, b.displayName, soh, HasStat(b.stats, "SOH"), cycles, PowerPercentStat(b.stats),
      StatusOf(soh), HealthScore(soh, CyclePenaltyAsWritten(cycles), CountSeverity(b.alerts, Alerts.Critical)),
      LifeRemaining(cycles))
  }

  /** The report with the corrected cycle penalty in place of the written
      one; every other field is the program's. */
  function HealthOfCorrected(b: Battery): (r: HealthReport)
    ensures r.score.NaN? <==> r.soh.None?
  {
    var cycles := CycleStat(b.stats);
    HealthOf(b).(score := HealthScore(Soh(b), CyclePenalty(cycles), CountSeverity(b.alerts, Alerts.Critical)))
  }

  /** The corrected report differs from the program's only in the score,
      which it never raises, and only for cycle counts just past 4000 and
      6000. */
  lemma HealthCorrectionOnlyLowersScore(b: Battery)
    ensures HealthOfCorrected(b) == HealthOf(b).(score := HealthOfCorrected(b).score)
    ensures HealthOfCorrected(b).score.Fin? ==> HealthOfCorrected(b).score.v <= HealthOf(b).score.v
    ensures var c := CycleStat(b.stats);
            c.None? || c.value <= 4000 || 5334 <= c.value <= 6000 || c.value >= 7500
            ==> HealthOfCorrected(b) == HealthOf(b)
  {
    var cycles := CycleStat(b.stats);
    var k := CountSeverity(b.alerts, Alerts.Critical);
    if Soh(b).Some? {
      HealthScoreAntitoneInPenalty(Soh(b).value, CyclePenaltyAsWritten(cycles), CyclePenalty(cycles), k);
    }
    if cycles.Some? && (cycles.value <= 4000 || 5334 <= cycles.value <= 6000 || cycles.value >= 7500) {
      CyclePenaltyCorrectionIsLocal(cycles.value);
    }
  }

  /** One report per battery, in order. */
  function AnalyzeBatteryHealth(bs: seq<Battery>): (r: seq<HealthReport>)
    ensures |r| == |bs|
    ensures forall i :: 0 <= i < |bs| ==> r[i] == HealthOf(bs[i])
  {
    seq(|bs|, i requires 0 <= i < |bs| => HealthOf(bs[i]))
  }
}
