/** Cell balance: the spread of one entry's cell voltages
    (calculateCellImbalance) and the balance status of a battery from the
    pack-level highest and lowest cell voltages of its first ten history
    entries (analyzeCellBalance). */
module Balance {
  import opened Options
  import opened JsNumbers
  import opened Records
  import opened Batteries

  // ---------------------------------------------- one entry's cell voltages

  function RealSum(xs: seq<real>): real
    decreases |xs|
  {
    if |xs| == 0 then 0.0 else RealSum(xs[..|xs| - 1]) + xs[|xs| - 1]
  }

  /** `Math.min(...xs)` of a non-empty list. */
  function RealMinOf(xs: seq<real>): (m: real)
    requires |xs| > 0
    ensures m in xs
    ensures forall i :: 0 <= i < |xs| ==> m <= xs[i]
    decreases |xs|
  {
    if |xs| == 1 then xs[0]
    else
      var m := RealMinOf(xs[..|xs| - 1]);
      assert m in xs[..|xs| - 1];
      if xs[|xs| - 1] < m then xs[|xs| - 1] else m
  }

  /** `Math.max(...xs)` of a non-empty list. */
  function RealMaxOf(xs: seq<real>): (m: real)
    requires |xs| > 0
    ensures m in xs
    ensures forall i :: 0 <= i < |xs| ==> xs[i] <= m
    decreases |xs|
  {
    if |xs| == 1 then xs[0]
    else
      var m := RealMaxOf(xs[..|xs| - 1]);
      assert m in xs[..|xs| - 1];
      if xs[|xs| - 1] > m then xs[|xs| - 1] else m
  }

  /** The spread of one entry's cell voltages, in volts. */
  datatype Imbalance = Imbalance(
    voltages: seq<real>,
    minVoltage: real,
    maxVoltage: real,
    avgVoltage: real,
    imbalance: real,
    cellCount: nat,
    timestamp: string)

  /** Cell voltages in volts. */
  function InVolts(mv: seq<int>): (v: seq<real>)
    ensures |v| == |mv|
    ensures forall i :: 0 <= i < |mv| ==> v[i] == mv[i] as real / 1000.0
  {
    seq(|mv|, i requires 0 <= i < |mv| => mv[i] as real / 1000.0)
  }

  /** `calculateCellImbalance`: nothing for an entry without cell data or
      without cell voltages; otherwise the lowest, highest and mean cell
      voltage and the difference between the extremes. */
  function CellImbalance(e: HistoryEntry): (r: Option<Imbalance>)
    ensures r.None? <==> e.cellData.None? || |e.cellData.value.voltages| == 0
  {
    if e.cellData.None? || |e.cellData.value.voltages| == 0 then None
    else
      var v := InVolts(e.cellData.value.voltages);
      var lo, hi := RealMinOf(v), RealMaxOf(v);
      Some(Imbalance(v, lo, hi, RealSum(v) / |v| as real, hi - lo, |v|, e.day + " " + e.time))
  }

  /** A sum of values that all lie in `[lo, hi]` lies between `n * lo` and
      `n * hi`. */
  lemma {:induction false} SumBetween(xs: seq<real>, lo: real, hi: real)
    requires forall i :: 0 <= i < |xs| ==> lo <= xs[i] <= hi
    ensures |xs| as real * lo <= RealSum(xs) <= |xs| as real * hi
    decreases |xs|
  {
    if |xs| > 0 {
      var m := (|xs| - 1) as real;
      SumBetween(xs[..|xs| - 1], lo, hi);
      assert |xs| as real * lo == m * lo + lo;
      assert |xs| as real * hi == m * hi + hi;
    }
  }

  /** Dividing by a positive count keeps a value between the bounds it was
      between before multiplying them by that count. */
  lemma QuotientBetween(s: real, n: real, lo: real, hi: real)
    requires n > 0.0 && n * lo <= s <= n * hi
    ensures lo <= s / n <= hi
  {
    var q := s / n;
    assert (q - lo) * n == s - n * lo;
    assert (hi - q) * n == n * hi - s;
  }

  /** A mean of values in `[lo, hi]` lies in `[lo, hi]`. */
  lemma MeanBetween(xs: seq<real>, lo: real, hi: real)
    requires |xs| > 0
    requires forall i :: 0 <= i < |xs| ==> lo <= xs[i] <= hi
    ensures lo <= RealSum(xs) / |xs| as real <= hi
  {
    SumBetween(xs, lo, hi);
    QuotientBetween(RealSum(xs), |xs| as real, lo, hi);
  }

  /** Every cell voltage lies between the reported minimum and maximum, both
      of which are cell voltages; the mean lies between them too, and the
      imbalance is their non-negative difference. */
  lemma CellImbalanceSpec(e: HistoryEntry)
    requires e.cellData.Some? && |e.cellData.value.voltages| > 0
    ensures var r := CellImbalance(e).value;
            && r.cellCount == |e.cellData.value.voltages|
            && r.voltages == InVolts(e.cellData.value.voltages)
            && r.minVoltage in r.voltages && r.maxVoltage in r.voltages
            && (forall i :: 0 <= i < |r.voltages| ==> r.minVoltage <= r.voltages[i] <= r.maxVoltage)
            && r.minVoltage <= r.avgVoltage <= r.maxVoltage
            && r.imbalance == r.maxVoltage - r.minVoltage >= 0.0
  {
    var v := InVolts(e.cellData.value.voltages);
    MeanBetween(v, RealMinOf(v), RealMaxOf(v));
  }

  // ----------------------------------------------------------- battery

  datatype BalanceStatus = Insufficient | CriticalImbalance | ModerateImbalance | SlightImbalance | Balanced

  /** Spreads behind a computed status, in millivolts. */
  datatype BalanceDetails = BalanceDetails(avgImbalance: Num, worstSpread: Num)

  datatype BalanceReport = BalanceReport(
    batteryId: string,
    displayName: string,
    status: BalanceStatus,
    imbalance: Num,
    details: Option<BalanceDetails>)

  /** The entries the status is computed from. */
  function BalanceWindow(h: seq<HistoryEntry>): (w: seq<HistoryEntry>)
    ensures |w| == if |h| < 10 then |h| else 10
  {
    if |h| < 10 then h else h[..10]
  }

  /** `(voltageHighest - voltageLowest) / 1000`, in volts. */
  function Spread(e: HistoryEntry): Num {
    Div(Sub(FromInt(e.voltageHighest), FromInt(e.voltageLowest)), Fin(1000.0))
  }

  /** `Math.max(...spreads)`, folded left to right. */
  function MaxSpread(w: seq<HistoryEntry>): Num
    requires |w| > 0
    decreases |w|
  {
    if |w| == 1 then Spread(w[0]) else Max(MaxSpread(w[..|w| - 1]), Spread(w[|w| - 1]))
  }

  /** `spreads.reduce((acc, v) => acc + v, 0)`. */
  function SumSpread(w: seq<HistoryEntry>): Num
    decreases |w|
  {
    if |w| == 0 then Fin(0.0) else Add(SumSpread(w[..|w| - 1]), Spread(w[|w| - 1]))
  }

  /** Bands of the largest spread, in volts: above 0.1, 0.05 and 0.02. A NaN
      spread compares false everywhere and reads Balanced. */
  function StatusOf(maxSpread: Num): BalanceStatus {
    if Greater(maxSpread, Fin(0.1)) then CriticalImbalance
    else if Greater(maxSpread, Fin(0.05)) then ModerateImbalance
    else if Greater(maxSpread, Fin(0.02)) then SlightImbalance
    else Balanced
  }

  function BalanceOf(b: Battery): (r: BalanceReport)
    ensures r.batteryId == b.batteryId && r.displayName == b.displayName
    ensures r.status == Insufficient <==> |b.history| == 0
    ensures r.status == Insufficient ==> r.imbalance == Fin(0.0) && r.details.None?
  {
    if |b.history| == 0 then BalanceReport(b.batteryId, b.displayName, Insufficient, Fin(0.0), None)
    else
      var w := BalanceWindow(b.history);
      var maxSpread := MaxSpread(w);
      var avgSpread := Div(SumSpread(w), Fin(|w| as real));
      var mv := Mul(maxSpread, Fin(1000.0));
      BalanceReport(b.batteryId, b.displayName, StatusOf(maxSpread), mv,
                    Some(BalanceDetails(Mul(avgSpread, Fin(1000.0)), mv)))
  }

  /** One report per battery, in order. */
  function AnalyzeCellBalance(bs: seq<Battery>): (r: seq<BalanceReport>)
    ensures |r| == |bs|
    ensures forall i :: 0 <= i < |bs| ==> r[i] == BalanceOf(bs[i])
  {
    seq(|bs|, i requires 0 <= i < |bs| => BalanceOf(bs[i]))
  }

  // ------------------------------------------------------------ properties

  /** Only the first ten entries count: cutting the history there changes
      nothing. */
  lemma OnlyFirstTenCount(b: Battery)
    ensures BalanceOf(b) == BalanceOf(b.(history := BalanceWindow(b.history)))
  {
    assert BalanceWindow(BalanceWindow(b.history)) == BalanceWindow(b.history);
  }

  /** Both pack-level readings of an entry parsed. */
  predicate Readable(e: HistoryEntry) {
    e.voltageHighest.Some? && e.voltageLowest.Some?
  }

  /** The spread of a readable entry, in millivolts. */
  function SpreadMv(e: HistoryEntry): int
    requires Readable(e)
  {
    e.voltageHighest.value - e.voltageLowest.value
  }

  /** Largest spread of readable entries, in millivolts. */
  function MaxSpreadMv(w: seq<HistoryEntry>): (m: int)
    requires |w| > 0 && forall i :: 0 <= i < |w| ==> Readable(w[i])
    ensures forall i :: 0 <= i < |w| ==> SpreadMv(w[i]) <= m
    ensures exists i :: 0 <= i < |w| && SpreadMv(w[i]) == m
    decreases |w|
  {
    if |w| == 1 then SpreadMv(w[0])
    else
      var m := MaxSpreadMv(w[..|w| - 1]);
      var last := SpreadMv(w[|w| - 1]);
      if last > m then last else m
  }

  /** Over readable entries the largest spread is exact. */
  lemma {:induction false} MaxSpreadExact(w: seq<HistoryEntry>)
    requires |w| > 0 && forall i :: 0 <= i < |w| ==> Readable(w[i])
    ensures MaxSpread(w) == Fin(MaxSpreadMv(w) as real / 1000.0)
    decreases |w|
  {
    if |w| > 1 {
      MaxSpreadExact(w[..|w| - 1]);
    }
  }

  /** One unreadable entry makes the largest spread NaN. */
  lemma {:induction false} MaxSpreadNaN(w: seq<HistoryEntry>, k: nat)
    requires k < |w| && !Readable(w[k])
    ensures MaxSpread(w).NaN?
    decreases |w|
  {
    if |w| > 1 && k < |w| - 1 {
      MaxSpreadNaN(w[..|w| - 1], k);
    }
  }

  /** Millivolt bands: above 100, 50 and 20 mV. */
  function StatusOfMv(mv: int): BalanceStatus {
    if mv > 100 then CriticalImbalance
    else if mv > 50 then ModerateImbalance
    else if mv > 20 then SlightImbalance
    else Balanced
  }

  /** The volt bands are the millivolt bands. */
  lemma StatusInMillivolts(mv: int)
    ensures StatusOf(Fin(mv as real / 1000.0)) == StatusOfMv(mv)
  {
  }

  /** When the first ten entries are all readable, the status is the band of
      their largest spread in millivolts, and the reported imbalance is that
      spread. */
  lemma BalanceFromMillivolts(b: Battery)
    requires |b.history| > 0
    requires forall i :: 0 <= i < |BalanceWindow(b.history)| ==> Readable(BalanceWindow(b.history)[i])
    ensures BalanceOf(b).status == StatusOfMv(MaxSpreadMv(BalanceWindow(b.history)))
    ensures BalanceOf(b).imbalance == Fin(MaxSpreadMv(BalanceWindow(b.history)) as real)
  {
    var w := BalanceWindow(b.history);
    MaxSpreadExact(w);
    StatusInMillivolts(MaxSpreadMv(w));
  }

  /** One entry among the first ten without both readings makes the largest
      spread NaN, and the battery then reads Balanced whatever the other
      spreads are. */
  lemma UnreadableEntryReadsBalanced(b: Battery, k: nat)
    requires k < |b.history| && k < 10 && !Readable(b.history[k])
    ensures BalanceOf(b).status == Balanced
    ensures BalanceOf(b).imbalance.NaN?
  {
    MaxSpreadNaN(BalanceWindow(b.history), k);
  }
}
