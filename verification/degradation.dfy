/** Degradation trend (analyzeDegradation): the mean voltage and state of
    charge of the first fifty history entries are compared with those of
    the last fifty, and the relative drop is banded into a trend. */
module Degradation {
  import opened Options
  import opened JsNumbers
  import opened Records
  import opened Batteries
  import DateCorrection

  datatype Trend = Insufficient | RapidDegradation | ModerateDegradation | Improvement | Stable

  /** The averages behind a computed trend. */
  datatype Details = Details(socRate: Num, recentAvgVoltage: Num, olderAvgVoltage: Num)

  datatype DegradationReport = DegradationReport(
    batteryId: string,
    displayName: string,
    trend: Trend,
    rate: Num,
    details: Option<Details>)

  /** Fewer entries than this give no trend. */
  const MinEntries: nat := 10

  /** Size of each compared window. */
  function WindowSize(n: nat): (k: nat)
    ensures k <= n && k <= 50
    ensures k == n || k == 50
  {
    if n < 50 then n else 50
  }

  /** `history.slice(0, k)`: the window the analysis calls recent. */
  function RecentWindow(h: seq<HistoryEntry>): seq<HistoryEntry> {
    h[..WindowSize(|h|)]
  }

  /** `history.slice(-k)`: the window the analysis calls older. */
  function OlderWindow(h: seq<HistoryEntry>): seq<HistoryEntry> {
    h[|h| - WindowSize(|h|)..]
  }

  /** `(older - recent) / older * 100`: percentage drop from `older`. */
  function RelativeDrop(older: Num, recent: Num): Num {
    Mul(Div(Sub(older, recent), older), Fin(100.0))
  }

  /** Percentage drop of the mean voltage from the older window to the
      recent one. */
  function VoltageDrop(recent: seq<HistoryEntry>, older: seq<HistoryEntry>): Num {
    RelativeDrop(MeanVolts(older), MeanVolts(recent))
  }

  /** Percentage drop of the mean state of charge. */
  function SocDrop(recent: seq<HistoryEntry>, older: seq<HistoryEntry>): Num {
    RelativeDrop(MeanField(older, SocOf), MeanField(recent, SocOf))
  }

  /** Bands of the voltage drop `vd` and the charge drop `sd`, in percent.
      NaN drops compare false and fall through to Stable. */
  function TrendOf(vd: Num, sd: Num): Trend {
    if Greater(vd, Fin(2.0)) || Greater(sd, Fin(5.0)) then RapidDegradation
    else if Greater(vd, Fin(1.0)) || Greater(sd, Fin(2.0)) then ModerateDegradation
    else if Less(vd, Fin(-1.0)) then Improvement
    else Stable
  }

  function DegradationOf(b: Battery): (r: DegradationReport)
    ensures r.batteryId == b.batteryId && r.displayName == b.displayName
    ensures r.trend == Insufficient <==> |b.history| < MinEntries
    ensures r.trend == Insufficient ==> r.rate == Fin(0.0) && r.details.None?
    ensures !r.rate.NegInf? && (r.rate.Fin? ==> r.rate.v >= 0.0)
  {
    var h := b.history;
    if |h| < MinEntries then DegradationReport(b.batteryId, b.displayName, Insufficient, Fin(0.0), None)
    else
      var recent, older := RecentWindow(h), OlderWindow(h);
      var vd, sd := VoltageDrop(recent, older), SocDrop(recent, older);
      DegradationReport(
        b.batteryId, b.displayName, TrendOf(vd, sd), Abs(vd),
        Some(Details(Abs(sd), MeanVolts(recent), MeanVolts(older))))
  }

  /** One report per battery, in order. */
  function AnalyzeDegradation(bs: seq<Battery>): (r: seq<DegradationReport>)
    ensures |r| == |bs|
    ensures forall i :: 0 <= i < |bs| ==> r[i] == DegradationOf(bs[i])
  {
    seq(|bs|, i requires 0 <= i < |bs| => DegradationOf(bs[i]))
  }

  // ------------------------------------------------------------ properties

  /** A value's drop from itself is zero, or NaN when the value is zero, NaN
      or infinite. */
  lemma DropFromItself(x: Num)
    ensures RelativeDrop(x, x) == Fin(0.0) || RelativeDrop(x, x).NaN?
  {
  }

  /** Drops that are zero or NaN band as Stable. */
  lemma NoDropIsStable(vd: Num, sd: Num)
    requires vd == Fin(0.0) || vd.NaN?
    requires sd == Fin(0.0) || sd.NaN?
    ensures TrendOf(vd, sd) == Stable
  {
  }

  /** A window compared with itself is Stable. */
  lemma SameWindowIsStable(w: seq<HistoryEntry>)
    ensures TrendOf(VoltageDrop(w, w), SocDrop(w, w)) == Stable
  {
    DropFromItself(MeanVolts(w));
    DropFromItself(MeanField(w, SocOf));
    NoDropIsStable(VoltageDrop(w, w), SocDrop(w, w));
  }

  /** With between ten and fifty entries both windows are the whole history,
      so the trend is always Stable. */
  lemma ShortHistoryIsStable(b: Battery)
    requires MinEntries <= |b.history| <= 50
    ensures DegradationOf(b).trend == Stable
  {
    var h := b.history;
    assert RecentWindow(h) == h && OlderWindow(h) == h;
    SameWindowIsStable(h);
  }

  /** The mean voltage of a window whose voltages all parsed, in volts. */
  lemma MeanVoltsExact(w: seq<HistoryEntry>)
    requires |w| > 0 && AllParsed(w, VoltageOf)
    ensures MeanVolts(w) == Fin(IntSum(w, VoltageOf) as real / |w| as real / 1000.0)
  {
    MeanFieldExact(w, VoltageOf);
  }

  /** The drop between two finite values, the first non-zero. */
  lemma RelativeDropFinite(o: real, r: real)
    requires o != 0.0
    ensures RelativeDrop(Fin(o), Fin(r)) == Fin((o - r) / o * 100.0)
  {
  }

  /** Both windows have the same size, so when every voltage in them parsed
      the voltage drop is the relative difference of the two window sums. */
  lemma VoltageDropOfSums(recent: seq<HistoryEntry>, older: seq<HistoryEntry>)
    requires |recent| == |older| > 0
    requires AllParsed(recent, VoltageOf) && AllParsed(older, VoltageOf)
    requires IntSum(older, VoltageOf) != 0
    ensures VoltageDrop(recent, older)
            == Fin((IntSum(older, VoltageOf) - IntSum(recent, VoltageOf)) as real
                   / IntSum(older, VoltageOf) as real * 100.0)
  {
    MeanVoltsExact(recent);
    MeanVoltsExact(older);
    var k := |recent| as real;
    var o, r := IntSum(older, VoltageOf) as real, IntSum(recent, VoltageOf) as real;
    ScaledRatio(o, r, k);
    RelativeDropFinite(o / k / 1000.0, r / k / 1000.0);
  }

  /** Dividing both terms of a relative difference by the same positive
      number (and then by 1000) leaves it unchanged. */
  lemma ScaledRatio(o: real, r: real, k: real)
    requires o != 0.0 && k > 0.0
    ensures (o / k / 1000.0 - r / k / 1000.0) / (o / k / 1000.0) == (o - r) / o
  {
    var d := k * 1000.0;
    assert o / k / 1000.0 == o / d;
    assert r / k / 1000.0 == r / d;
    assert o / d - r / d == (o - r) / d;
  }

  /** In a history whose dates were reconstructed from the file's instant
      (the last line being the newest), once there are at least a hundred
      entries every entry of the window called recent is dated before
      every entry of the window called older. */
  lemma RecentWindowHoldsEarliest(history: seq<HistoryEntry>, fileMs: int, i: nat, j: nat)
    requires |history| >= 100
    requires i < WindowSize(|history|) && |history| - WindowSize(|history|) <= j < |history|
    ensures var c := DateCorrection.CorrectHistoryDates(history, Some(fileMs));
            DateCorrection.InstantOf(RecentWindow(c)[i]).value
            < DateCorrection.InstantOf(OlderWindow(c)[j - (|history| - WindowSize(|history|))]).value
  {
    var c := DateCorrection.CorrectHistoryDates(history, Some(fileMs));
    DateCorrection.EntryInstant(history, fileMs, i);
    DateCorrection.EntryInstant(history, fileMs, j);
    assert RecentWindow(c)[i] == c[i];
    assert OlderWindow(c)[j - (|history| - WindowSize(|history|))] == c[j];
  }
}
