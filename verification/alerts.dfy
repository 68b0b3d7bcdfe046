/** The alert engine (src/services/alerts.js): every history entry is checked
    against configurable temperature and voltage thresholds, and the
    resulting alerts can be filtered by kind. Alert messages are represented
    by their kind and the reading they report. */
module Alerts {
  import opened Options
  import opened JsNumbers
  import opened Records
  import opened Seqs

  /** Limits in °C and V (src/constants/thresholds.js). */
  datatype Thresholds = Thresholds(
    tempWarning: real,
    tempCritical: real,
    voltageHigh: real,
    voltageLow: real,
    voltageHighCritical: real,
    voltageLowCritical: real)

  const DefaultThresholds: Thresholds := Thresholds(40.0, 45.0, 53.2, 48.0, 54.5, 46.0)

  /** The alert `type`; `InfoLevel` is the `'info'` type the filter knows of. */
  datatype Severity = InfoLevel | Warning | Critical

  /** The message family: a high temperature (`Température élevée`) or a
      high or low voltage (`Tension haute` / `Tension basse`). */
  datatype AlertKind = TempHigh | VoltHigh | VoltLow {
    predicate IsVoltage() { this != TempHigh }
  }

  /** The displayed timestamp: the corrected instant (rendered in the
      `fr-FR` locale) when the entry was date-corrected, else its raw day and
      time. */
  datatype Stamp = RawStamp(day: string, time: string) | CorrectedStamp(instantMs: int)

  datatype Alert = Alert(severity: Severity, kind: AlertKind, reading: Num, timestamp: Stamp, entry: HistoryEntry)

  function StampOf(e: HistoryEntry): (s: Stamp)
    ensures s.CorrectedStamp? <==> e.correction.Some?
  {
    if e.correction.Some? then CorrectedStamp(e.correction.value.instantMs) else RawStamp(e.day, e.time)
  }

  /** `entry.temperature / 1000` and `entry.voltage / 1000`: NaN when the
      field did not parse. */
  function Celsius(e: HistoryEntry): Num { Div(FromInt(e.temperature), Fin(1000.0)) }

  function Volts(e: HistoryEntry): Num { Div(FromInt(e.voltage), Fin(1000.0)) }

  predicate TooHot(e: HistoryEntry, th: Thresholds) {
    Greater(Celsius(e), Fin(th.tempWarning))
  }

  predicate VoltageOut(e: HistoryEntry, th: Thresholds) {
    Greater(Volts(e), Fin(th.voltageHigh)) || Less(Volts(e), Fin(th.voltageLow))
  }

  function TempAlerts(e: HistoryEntry, th: Thresholds): seq<Alert> {
    var c := Celsius(e);
    if TooHot(e, th) then
      [Alert(if Greater(c, Fin(th.tempCritical)) then Critical else Warning, TempHigh, c, StampOf(e), e)]
    else []
  }

  function VoltAlerts(e: HistoryEntry, th: Thresholds): seq<Alert> {
    var v := Volts(e);
    if VoltageOut(e, th) then
      [Alert(if Greater(v, Fin(th.voltageHighCritical)) || Less(v, Fin(th.voltageLowCritical)) then Critical else Warning,
             if Greater(v, Fin(th.voltageHigh)) then VoltHigh else VoltLow,
             v, StampOf(e), e)]
    else []
  }

  /** The alerts of one entry: the temperature alert, then the voltage one. */
  function EntryAlerts(e: HistoryEntry, th: Thresholds): (r: seq<Alert>)
    ensures |r| <= 2
    ensures forall i :: 0 <= i < |r| ==>
              r[i].severity != InfoLevel && r[i].entry == e && r[i].timestamp == StampOf(e)
  {
    TempAlerts(e, th) + VoltAlerts(e, th)
  }

  /** `generateAlerts`: the alerts of every entry, in history order. No
      alert has the `info` type, and each refers to an entry of the history. */
  function GenerateAlerts(history: seq<HistoryEntry>, th: Thresholds): (r: seq<Alert>)
    ensures |r| <= 2 * |history|
    ensures forall i :: 0 <= i < |r| ==> r[i].severity != InfoLevel && r[i].entry in history
    decreases |history|
  {
    if |history| == 0 then []
    else
      var rest := GenerateAlerts(history[1..], th);
      assert forall x :: x in history[1..] ==> x in history;
      EntryAlerts(history[0], th) + rest
  }

  // ------------------------------------------------ readings in device units

  /** A reading in thousandths (m°C, mV) that parsed and lies strictly above
      (below) a limit given in whole units. */
  predicate MilliAbove(x: Option<int>, limit: real) {
    x.Some? && x.value as real > 1000.0 * limit
  }

  predicate MilliBelow(x: Option<int>, limit: real) {
    x.Some? && x.value as real < 1000.0 * limit
  }

  lemma ScaledGreater(x: Option<int>, limit: real)
    ensures Greater(Div(FromInt(x), Fin(1000.0)), Fin(limit)) <==> MilliAbove(x, limit)
  {
  }

  lemma ScaledLess(x: Option<int>, limit: real)
    ensures Less(Div(FromInt(x), Fin(1000.0)), Fin(limit)) <==> MilliBelow(x, limit)
  {
  }

  /** The temperature alert in device units: raised exactly when the
      temperature parsed and exceeds the warning limit (a reading equal to
      the limit raises nothing), and critical exactly when it also exceeds
      the critical limit. */
  lemma TempAlertsSpec(e: HistoryEntry, th: Thresholds)
    ensures var r := TempAlerts(e, th);
            && (|r| == 1 <==> MilliAbove(e.temperature, th.tempWarning))
            && (|r| == 0 <==> !MilliAbove(e.temperature, th.tempWarning))
            && (|r| == 1 ==> r[0].kind == TempHigh
                             && (r[0].severity == Critical <==> MilliAbove(e.temperature, th.tempCritical)))
  {
    ScaledGreater(e.temperature, th.tempWarning);
    ScaledGreater(e.temperature, th.tempCritical);
  }

  /** The voltage alert in device units: raised exactly when the voltage is
      above the high limit or below the low one, reported as high exactly in
      the first case, and critical exactly beyond a critical limit. */
  lemma VoltAlertsSpec(e: HistoryEntry, th: Thresholds)
    ensures var r := VoltAlerts(e, th);
            var out := MilliAbove(e.voltage, th.voltageHigh) || MilliBelow(e.voltage, th.voltageLow);
            && (|r| == 1 <==> out)
            && (|r| == 0 <==> !out)
            && (|r| == 1 ==> r[0].kind.IsVoltage()
                             && (r[0].kind == VoltHigh <==> MilliAbove(e.voltage, th.voltageHigh))
                             && (r[0].severity == Critical <==>
                                   MilliAbove(e.voltage, th.voltageHighCritical)
                                   || MilliBelow(e.voltage, th.voltageLowCritical)))
  {
    ScaledGreater(e.voltage, th.voltageHigh);
    ScaledLess(e.voltage, th.voltageLow);
    ScaledGreater(e.voltage, th.voltageHighCritical);
    ScaledLess(e.voltage, th.voltageLowCritical);
  }

  /** With the default limits: 40 000 m°C raises nothing, 40 001 m°C a
      warning, 45 001 m°C a critical alert; 53 200 mV raises nothing,
      53 201 mV a high-voltage warning and 45 999 mV a critical low-voltage
      alert. */
  lemma DefaultBoundaries(e: HistoryEntry)
    ensures e.temperature == Some(40000) ==> |TempAlerts(e, DefaultThresholds)| == 0
    ensures e.temperature == Some(40001) ==>
              var r := TempAlerts(e, DefaultThresholds); |r| == 1 && r[0].severity == Warning
    ensures e.temperature == Some(45001) ==>
              var r := TempAlerts(e, DefaultThresholds); |r| == 1 && r[0].severity == Critical
    ensures e.voltage == Some(53200) ==> |VoltAlerts(e, DefaultThresholds)| == 0
    ensures e.voltage == Some(53201) ==>
              var r := VoltAlerts(e, DefaultThresholds);
              |r| == 1 && r[0].severity == Warning && r[0].kind == VoltHigh
    ensures e.voltage == Some(45999) ==>
              var r := VoltAlerts(e, DefaultThresholds);
              |r| == 1 && r[0].severity == Critical && r[0].kind == VoltLow
  {
    TempAlertsSpec(e, DefaultThresholds);
    VoltAlertsSpec(e, DefaultThresholds);
  }

  // ------------------------------------------------------------- history

  /** Alerts of a concatenated history are the concatenated alerts, so
      alerts appear in history order. */
  lemma {:induction false} GenerateAlertsAppend(a: seq<HistoryEntry>, b: seq<HistoryEntry>, th: Thresholds)
    ensures GenerateAlerts(a + b, th) == GenerateAlerts(a, th) + GenerateAlerts(b, th)
    decreases |a|
  {
    if |a| == 0 {
      assert a + b == b;
    } else {
      assert (a + b)[0] == a[0];
      assert (a + b)[1..] == a[1..] + b;
      GenerateAlertsAppend(a[1..], b, th);
    }
  }

  function CountKind(alerts: seq<Alert>, k: AlertKind): nat
    decreases |alerts|
  {
    if |alerts| == 0 then 0 else (if alerts[0].kind == k then 1 else 0) + CountKind(alerts[1..], k)
  }

  /** Entries whose temperature exceeds the warning limit. */
  function CountHot(history: seq<HistoryEntry>, th: Thresholds): nat
    decreases |history|
  {
    if |history| == 0 then 0
    else (if MilliAbove(history[0].temperature, th.tempWarning) then 1 else 0) + CountHot(history[1..], th)
  }

  lemma {:induction false} CountKindAppend(a: seq<Alert>, b: seq<Alert>, k: AlertKind)
    ensures CountKind(a + b, k) == CountKind(a, k) + CountKind(b, k)
    decreases |a|
  {
    if |a| == 0 {
      assert a + b == b;
    } else {
      assert (a + b)[0] == a[0];
      assert (a + b)[1..] == a[1..] + b;
      CountKindAppend(a[1..], b, k);
    }
  }

  lemma EntryTempCount(e: HistoryEntry, th: Thresholds)
    ensures CountKind(EntryAlerts(e, th), TempHigh) == if MilliAbove(e.temperature, th.tempWarning) then 1 else 0
  {
    TempAlertsSpec(e, th);
    VoltAlertsSpec(e, th);
    CountKindAppend(TempAlerts(e, th), VoltAlerts(e, th), TempHigh);
    var v := VoltAlerts(e, th);
    assert |v| == 1 ==> CountKind(v, TempHigh) == 0 by {
      if |v| == 1 {
        assert v[1..] == [];
      }
    }
  }

  /** One temperature alert per entry above the warning limit, and no other. */
  lemma {:induction false} TempAlertCount(history: seq<HistoryEntry>, th: Thresholds)
    ensures CountKind(GenerateAlerts(history, th), TempHigh) == CountHot(history, th)
    decreases |history|
  {
    if |history| > 0 {
      TempAlertCount(history[1..], th);
      EntryTempCount(history[0], th);
      CountKindAppend(EntryAlerts(history[0], th), GenerateAlerts(history[1..], th), TempHigh);
    }
  }

  // ------------------------------------------------------------- filters

  datatype Filters = Filters(
    temperatureAlert: bool,
    voltageAlert: bool,
    normalOnly: bool,
    showNormalOnly: bool,
    showAlertsOnly: bool)

  const DefaultFilters: Filters := Filters(true, true, false, false, false)

  /** Whether an alert survives the filters: `info` alerts are dropped when
      only alerts are shown, and temperature or voltage alerts when their
      kind is switched off. `normalOnly` and `showNormalOnly` play no part. */
  predicate Passes(f: Filters, a: Alert) {
    && !(f.showAlertsOnly && a.severity == InfoLevel)
    && !(!f.temperatureAlert && a.kind == TempHigh)
    && !(!f.voltageAlert && a.kind.IsVoltage())
  }

  function Keep(f: Filters): Alert -> bool {
    a => Passes(f, a)
  }

  /** `filterAlerts`: the alerts that pass, in their original order. */
  function FilterAlerts(alerts: seq<Alert>, f: Filters): (r: seq<Alert>)
    ensures |r| <= |alerts|
    ensures forall i :: 0 <= i < |r| ==> Passes(f, r[i])
    ensures forall a :: a in alerts && Passes(f, a) ==> a in r
    ensures forall a :: a in r ==> a in alerts
  {
    Filter(alerts, Keep(f))
  }

  /** The result keeps the input's order. */
  lemma FilterAlertsSubsequence(alerts: seq<Alert>, f: Filters)
    ensures IsSubsequence(FilterAlerts(alerts, f), alerts)
  {
    FilterIsSubsequence(alerts, Keep(f));
  }

  /** Filtering twice with the same filters is filtering once. */
  lemma FilterAlertsIdempotent(alerts: seq<Alert>, f: Filters)
    ensures FilterAlerts(FilterAlerts(alerts, f), f) == FilterAlerts(alerts, f)
  {
    FilterIdempotent(alerts, Keep(f));
  }

  /** With both kinds switched on and `info` alerts shown, nothing is
      dropped; in particular the default filters keep every alert. */
  lemma FilterAlertsIdentity(alerts: seq<Alert>, f: Filters)
    requires f.temperatureAlert && f.voltageAlert && !f.showAlertsOnly
    ensures FilterAlerts(alerts, f) == alerts
  {
    FilterAllKept(alerts, Keep(f));
  }

  /** Generated alerts never have the `info` type, so `showAlertsOnly` alone
      drops none of them. */
  lemma ShowAlertsOnlyKeepsGenerated(history: seq<HistoryEntry>, th: Thresholds, f: Filters)
    requires f.temperatureAlert && f.voltageAlert
    ensures FilterAlerts(GenerateAlerts(history, th), f) == GenerateAlerts(history, th)
  {
    FilterAllKept(GenerateAlerts(history, th), Keep(f));
  }

  /** Switching temperature alerts off removes exactly the temperature
      alerts: what remains are the voltage alerts, in order. */
  lemma TemperatureOffLeavesVoltage(alerts: seq<Alert>, f: Filters)
    requires !f.temperatureAlert && f.voltageAlert && !f.showAlertsOnly
    ensures forall i :: 0 <= i < |FilterAlerts(alerts, f)| ==> FilterAlerts(alerts, f)[i].kind.IsVoltage()
    ensures forall a :: a in alerts && a.kind.IsVoltage() ==> a in FilterAlerts(alerts, f)
  {
  }
}
