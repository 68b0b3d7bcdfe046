/** What the analysis engine reads from a loaded battery, and the numeric
    helpers it shares: reading a statistic with `parseInt`, counting alerts
    by type, and summing or averaging a history field the way
    `Array.prototype.reduce` does (src/services/analysis.js). */
module Batteries {
  import opened Options
  import opened Text
  import opened JsNumbers
  import opened Records
  import opened Alerts
  import Seqs

  /** A parsed file as the application loads it: with its battery id, its
      display name and the alerts generated from its history. */
  datatype Battery = Battery(
    batteryId: string,
    displayName: string,
    stats: map<string, string>,
    history: seq<HistoryEntry>,
    alerts: seq<Alert>)

  /** Rated cycle life of a battery (src/constants/thresholds.js). */
  const BatteryCycleLimit: int := 8000

  /** JavaScript truthiness of `stats[key]`. */
  predicate HasStat(stats: map<string, string>, key: string) {
    key in stats && stats[key] != ""
  }

  /** `stats[key]?.replace('%', '') || fallback` (or without the replace):
      the statistic, with its first `%` removed when asked, unless it is
      missing or ends up empty. */
  function StatText(stats: map<string, string>, key: string, stripPercent: bool, fallback: string): (t: string)
    ensures !HasStat(stats, key) ==> t == fallback
    ensures HasStat(stats, key) && !stripPercent ==> t == stats[key]
    ensures HasStat(stats, key) && stripPercent && '%' !in stats[key] ==> t == stats[key]
    ensures HasStat(stats, key) && stripPercent
            ==> t == (if RemoveFirst(stats[key], '%') == "" then fallback else RemoveFirst(stats[key], '%'))
  {
    if key !in stats then fallback
    else
      var v := if stripPercent then RemoveFirst(stats[key], '%') else stats[key];
      if v == "" then fallback else v
  }

  /** `parseInt` of the statistic; `None` is NaN. */
  function StatInt(stats: map<string, string>, key: string, stripPercent: bool, fallback: string): Option<int> {
    ParseInt(StatText(stats, key, stripPercent, fallback))
  }

  /** The statistics the analyses read: the state of health and the power
      percentage with their `%` removed, the cycle count as it is. */
  function SohStat(stats: map<string, string>, fallback: string): Option<int> {
    StatInt(stats, "SOH", true, fallback)
  }

  function CycleStat(stats: map<string, string>): Option<int> {
    StatInt(stats, "Charge Cnt.", false, "0")
  }

  function PowerPercentStat(stats: map<string, string>): Option<int> {
    StatInt(stats, "Pwr Percent", true, "100")
  }

  /** A missing statistic reads as its (decimal) fallback. */
  lemma MissingStatReadsFallback(stats: map<string, string>, key: string, stripPercent: bool, fallback: int)
    requires !HasStat(stats, key)
    ensures StatInt(stats, key, stripPercent, IntToString(fallback)) == Some(fallback)
  {
    ParseIntOfDecimal(fallback);
  }

  /** `alerts.filter(a => a.type === t).length`. */
  function CountSeverity(alerts: seq<Alert>, s: Severity): (n: nat)
    ensures n <= |alerts|
    decreases |alerts|
  {
    if |alerts| == 0 then 0
    else CountSeverity(alerts[..|alerts| - 1], s) + (if alerts[|alerts| - 1].severity == s then 1 else 0)
  }

  /** The count is the length of the alerts of that type, kept by a filter. */
  lemma {:induction false} CountSeverityIsFilterLength(alerts: seq<Alert>, s: Severity)
    ensures CountSeverity(alerts, s) == |Seqs.Filter(alerts, (a: Alert) => a.severity == s)|
    decreases |alerts|
  {
    if |alerts| > 0 {
      var pre, last := alerts[..|alerts| - 1], alerts[|alerts| - 1];
      CountSeverityIsFilterLength(pre, s);
      assert alerts == pre + [last];
      Seqs.FilterAppend(pre, [last], (a: Alert) => a.severity == s);
    }
  }

  /** `xs.reduce((acc, x) => acc + f(x), 0)`, left to right. */
  function SumField<T>(h: seq<T>, f: T -> Option<int>): (r: Num)
    ensures r.NaN? || r.Fin?
    decreases |h|
  {
    if |h| == 0 then Fin(0.0) else Add(SumField(h[..|h| - 1], f), FromInt(f(h[|h| - 1])))
  }

  /** Every element's field parsed. */
  predicate AllParsed<T>(h: seq<T>, f: T -> Option<int>) {
    forall i :: 0 <= i < |h| ==> f(h[i]).Some?
  }

  /** Integer sum of fields that all parsed. */
  function IntSum<T>(h: seq<T>, f: T -> Option<int>): int
    requires AllParsed(h, f)
    decreases |h|
  {
    if |h| == 0 then 0 else IntSum(h[..|h| - 1], f) + f(h[|h| - 1]).value
  }

  /** The sum is the integer sum when every field parsed, and NaN as soon as
      one did not. */
  lemma {:induction false} SumFieldExact<T>(h: seq<T>, f: T -> Option<int>)
    ensures AllParsed(h, f) ==> SumField(h, f) == Fin(IntSum(h, f) as real)
    ensures !AllParsed(h, f) ==> SumField(h, f).NaN?
    decreases |h|
  {
    if |h| > 0 {
      var pre := h[..|h| - 1];
      SumFieldExact(pre, f);
      assert AllParsed(h, f) ==> AllParsed(pre, f);
      assert forall i :: 0 <= i < |pre| ==> pre[i] == h[i];
      assert AllParsed(pre, f) && f(h[|h| - 1]).Some? ==> AllParsed(h, f);
    }
  }

  /** `sum / length` of a field. */
  function MeanField<T>(h: seq<T>, f: T -> Option<int>): Num {
    Div(SumField(h, f), Fin(|h| as real))
  }

  /** The mean of a field over entries that all parsed is the real mean. */
  lemma MeanFieldExact<T>(h: seq<T>, f: T -> Option<int>)
    requires |h| > 0 && AllParsed(h, f)
    ensures MeanField(h, f) == Fin(IntSum(h, f) as real / |h| as real)
  {
    SumFieldExact(h, f);
  }

  /** Field accessors used by the analyses. */
  function VoltageOf(e: HistoryEntry): Option<int> { e.voltage }

  function TemperatureOf(e: HistoryEntry): Option<int> { e.temperature }

  /** `parseInt(entry.soc || '0')`. */
  function SocOf(e: HistoryEntry): Option<int> {
    ParseInt(if Truthy(e.soc) then e.soc.value else "0")
  }

  /** `mean(voltage) / 1000`, in volts. */
  function MeanVolts(h: seq<HistoryEntry>): Num {
    Div(MeanField(h, VoltageOf), Fin(1000.0))
  }
}
