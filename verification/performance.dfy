/** Fleet comparison (comparePerformance): every battery gets a performance
    score from its SOH, cycle count, mean voltage, alert count and mean
    temperature; the batteries are sorted by decreasing score and ranked. */
module Performance {
  import opened Options
  import opened JsNumbers
  import opened Records
  import opened Batteries
  import opened Seqs
  import opened Sorting

  datatype Entry = Entry(
    batteryId: string,
    displayName: string,
    soh: Option<int>,
    cycles: Option<int>,
    avgVoltage: Num,
    avgTemp: Num,
    alerts: nat,
    score: Num)

  datatype Relative = Best | AboveAverage | BelowAverage

  datatype Ranked = Ranked(entry: Entry, rank: nat, relative: Relative)

  /** Mean of a field divided by 1000 (volts, degrees), or 0 without
      history. */
  function MeanOrZero(h: seq<HistoryEntry>, f: HistoryEntry -> Option<int>): Num {
    if |h| > 0 then Div(MeanField(h, f), Fin(1000.0)) else Fin(0.0)
  }

  /** Temperature term: 10 points strictly between 15 and 35 degrees,
      otherwise ten less the distance from 25 degrees, at least 0. */
  function TempTerm(avgTemp: Num): Num {
    if Greater(avgTemp, Fin(15.0)) && Less(avgTemp, Fin(35.0)) then Fin(10.0)
    else Max(Fin(0.0), Sub(Fin(10.0), Abs(Sub(avgTemp, Fin(25.0)))))
  }

  /** The performance score: 0.4 points per SOH percent, up to 30 for unused
      rated cycles, up to 20 for the mean voltage against 54 V, up to 20 less
      two per alert, and the temperature term. */
  function Score(soh: Option<int>, cycles: Option<int>, avgVoltage: Num, alerts: nat, avgTemp: Num): Num {
    var limit := Fin(BatteryCycleLimit as real);
    Add(Add(Add(Add(
      Mul(FromInt(soh), Fin(0.4)),
      Mul(Div(Sub(limit, FromInt(cycles)), limit), Fin(30.0))),
      Min(Mul(Div(avgVoltage, Fin(54.0)), Fin(20.0)), Fin(20.0))),
      Max(Fin((20 - alerts * 2) as real), Fin(0.0))),
      TempTerm(avgTemp))
  }

  function EntryOf(b: Battery): (e: Entry)
    ensures e.batteryId == b.batteryId && e.displayName == b.displayName
    ensures e.alerts == |b.alerts|
  {
    var soh := SohStat(b.stats, "0");
    var cycles := CycleStat(b.stats);
    var v := MeanOrZero(b.history, VoltageOf);
    var t := MeanOrZero(b.history, TemperatureOf);
    Entry(b.batteryId, b.displayName, soh, cycles, v, t, |b.alerts|, Score(soh, cycles, v, |b.alerts|, t))
  }

  /** Sort key of `(a, b) => b.score - a.score`: ascending negated score. A
      NaN score makes that comparator return NaN, which sorting reads as
      "equal"; the resulting order is left to the engine, and the model
      gives NaN scores the key of a zero score. */
  function SortKey(e: Entry): real {
    if e.score.Fin? then -e.score.v else 0.0
  }

  function RelativeOf(i: nat, n: nat): Relative {
    if i == 0 then Best else if 2 * i < n then AboveAverage else BelowAverage
  }

  function EntriesOf(bs: seq<Battery>): (es: seq<Entry>)
    ensures |es| == |bs|
  {
    seq(|bs|, i requires 0 <= i < |bs| => EntryOf(bs[i]))
  }

  /** The entries in rank order. */
  function Order(bs: seq<Battery>): seq<Entry> {
    SortBy(EntriesOf(bs), SortKey)
  }

  /** Ranks entries already in order: from 1, the first marked best and the
      rest above or below average by whether their index is below half the
      count. */
  function Rank(sorted: seq<Entry>): (r: seq<Ranked>)
    ensures |r| == |sorted|
    ensures forall i :: 0 <= i < |r| ==> r[i].entry == sorted[i] && r[i].rank == i + 1
    ensures forall i :: 0 <= i < |r| ==> (r[i].relative == Best <==> i == 0)
    ensures forall i :: 0 < i < |r| ==> (r[i].relative == AboveAverage <==> 2 * i < |r|)
  {
    seq(|sorted|, i requires 0 <= i < |sorted| => Ranked(sorted[i], i + 1, RelativeOf(i, |sorted|)))
  }

  /** `comparePerformance`: nothing for fewer than two batteries; otherwise
      every battery once, ranked in order of decreasing score. */
  function ComparePerformance(bs: seq<Battery>): (r: seq<Ranked>)
    ensures |bs| < 2 <==> r == []
    ensures |bs| >= 2 ==> |r| == |bs|
  {
    if |bs| < 2 then [] else Rank(Order(bs))
  }

  /** The entries of a ranking, in rank order. */
  function RankedEntries(r: seq<Ranked>): (es: seq<Entry>)
    ensures |es| == |r|
    ensures forall i :: 0 <= i < |r| ==> es[i] == r[i].entry
  {
    seq(|r|, i requires 0 <= i < |r| => r[i].entry)
  }

  lemma RankedEntriesAreOrder(bs: seq<Battery>)
    requires |bs| >= 2
    ensures RankedEntries(ComparePerformance(bs)) == Order(bs)
  {
    assert RankedEntries(Rank(Order(bs))) == Order(bs);
  }

  /** Every battery appears exactly once. */
  lemma RankingPermutes(bs: seq<Battery>)
    requires |bs| >= 2
    ensures multiset(RankedEntries(ComparePerformance(bs))) == multiset(EntriesOf(bs))
  {
    RankedEntriesAreOrder(bs);
    SortPermutes(EntriesOf(bs), SortKey);
  }

  /** Every entry has a numeric score. */
  predicate AllScored(es: seq<Entry>) {
    forall k :: 0 <= k < |es| ==> es[k].score.Fin?
  }

  /** When every score is a number, scores never increase down the
      ranking. */
  lemma RankingByScore(bs: seq<Battery>, i: nat, j: nat)
    requires |bs| >= 2 && AllScored(EntriesOf(bs))
    requires i < j < |bs|
    ensures ComparePerformance(bs)[i].entry.score.Fin? && ComparePerformance(bs)[j].entry.score.Fin?
    ensures ComparePerformance(bs)[j].entry.score.v <= ComparePerformance(bs)[i].entry.score.v
  {
    var es := EntriesOf(bs);
    var sorted := Order(bs);
    SortedKeepsScores(es);
    SortSorted(es, SortKey);
    assert SortKey(sorted[i]) <= SortKey(sorted[j]);
  }

  /** Sorting keeps every entry, so it keeps every score numeric. */
  lemma SortedKeepsScores(es: seq<Entry>)
    requires AllScored(es)
    ensures AllScored(SortBy(es, SortKey))
  {
    var sorted := SortBy(es, SortKey);
    SortPermutes(es, SortKey);
    forall k | 0 <= k < |sorted| ensures sorted[k].score.Fin? {
      assert sorted[k] in multiset(es);
    }
  }

  /** Batteries with equal scores keep their input order. */
  lemma TiesKeepInputOrder(bs: seq<Battery>, k: real)
    requires |bs| >= 2
    ensures Filter(RankedEntries(ComparePerformance(bs)), HasKey(SortKey, k))
            == Filter(EntriesOf(bs), HasKey(SortKey, k))
  {
    RankedEntriesAreOrder(bs);
    SortStable(EntriesOf(bs), SortKey, k);
  }

  // ------------------------------------------------------------- the score

  /** The score is NaN when the SOH or the cycle count did not parse. */
  lemma ScoreNeedsStatistics(soh: Option<int>, cycles: Option<int>, v: Num, alerts: nat, t: Num)
    requires soh.None? || cycles.None?
    ensures Score(soh, cycles, v, alerts, t).NaN?
  {
  }

  /** The temperature term on real numbers. */
  function TempReal(t: real): (p: real)
    ensures 0.0 <= p <= 10.0
  {
    if 15.0 < t < 35.0 then 10.0
    else
      var d := if t >= 25.0 then t - 25.0 else 25.0 - t;
      if 10.0 - d > 0.0 then 10.0 - d else 0.0
  }

  /** The score on real numbers. */
  function ScoreReal(soh: int, cycles: int, avgVoltage: real, alerts: nat, avgTemp: real): real {
    var limit := BatteryCycleLimit as real;
    var volt := avgVoltage / 54.0 * 20.0;
    0.4 * soh as real
    + (limit - cycles as real) / limit * 30.0
    + (if volt < 20.0 then volt else 20.0)
    + (if 20 - alerts * 2 > 0 then (20 - alerts * 2) as real else 0.0)
    + TempReal(avgTemp)
  }

  lemma TempTermFinite(t: real)
    ensures TempTerm(Fin(t)) == Fin(TempReal(t))
  {
  }

  /** With every input a number the score is a number: the real formula. */
  lemma ScoreFinite(soh: int, cycles: int, v: real, alerts: nat, t: real)
    ensures Score(Some(soh), Some(cycles), Fin(v), alerts, Fin(t)) == Fin(ScoreReal(soh, cycles, v, alerts, t))
  {
    TempTermFinite(t);
  }

  /** A higher SOH never lowers the score; more cycles or more alerts never
      raise it. */
  lemma ScoreReflectsCondition(s1: int, s2: int, c1: int, c2: int, v: real, a1: nat, a2: nat, t: real)
    requires s1 <= s2 && c2 <= c1 && a2 <= a1
    ensures ScoreReal(s1, c1, v, a1, t) <= ScoreReal(s2, c2, v, a2, t)
  {
  }

  /** A mean of readings that all parsed, scaled to volts or degrees. */
  lemma MeanOrZeroFinite(h: seq<HistoryEntry>, f: HistoryEntry -> Option<int>)
    requires AllParsed(h, f)
    ensures MeanOrZero(h, f).Fin?
  {
    if |h| > 0 {
      MeanFieldExact(h, f);
    }
  }

  /** A battery whose SOH, cycle count and voltage and temperature readings
      all parse gets a numeric score, so the ranking orders it by score. */
  lemma EntryScored(b: Battery)
    requires SohStat(b.stats, "0").Some? && CycleStat(b.stats).Some?
    requires AllParsed(b.history, VoltageOf) && AllParsed(b.history, TemperatureOf)
    ensures EntryOf(b).score.Fin?
  {
    var v := MeanOrZero(b.history, VoltageOf);
    var t := MeanOrZero(b.history, TemperatureOf);
    MeanOrZeroFinite(b.history, VoltageOf);
    MeanOrZeroFinite(b.history, TemperatureOf);
    ScoreFinite(SohStat(b.stats, "0").value, CycleStat(b.stats).value, v.v, |b.alerts|, t.v);
  }
}
