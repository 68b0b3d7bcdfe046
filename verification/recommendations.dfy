/** Maintenance recommendations (generateRecommendations): up to three per
    battery from its SOH, cycle count and critical alerts, one for the whole
    fleet when its mean SOH is low, all sorted by priority. */
module Recommendations {
  import opened Options
  import opened JsNumbers
  import opened Seqs
  import opened Sorting
  import Alerts
  import opened Batteries

  datatype Kind = UrgentReplacement | CloseMonitoring | PlanReplacement | ImmediateIntervention | FleetAgeing

  /** Whom a recommendation is about: a battery, by display name, or the
      fleet as a whole. */
  datatype Target = Named(name: string) | WholeFleet

  datatype Recommendation = Recommendation(severity: Alerts.Severity, target: Target, kind: Kind, priority: int)

  /** Mean SOH below which the fleet gets a recommendation. */
  const FleetSohLimit: real := 85.0

  /** The recommendations for a battery of display name `name`, in the
      order they are made: an SOH below 80 (urgent, priority 1) or below 90
      (monitor, priority 2), more than 5000 cycles (plan, priority 2), any
      critical alert (intervene, priority 1). */
  function Recommend(name: string, soh: Option<int>, cycles: Option<int>, critical: nat): (r: seq<Recommendation>)
    ensures |r| <= 3
    ensures forall i :: 0 <= i < |r| ==> r[i].target == Named(name)
    ensures forall i :: 0 <= i < |r| ==> r[i].kind != FleetAgeing
    ensures forall i :: 0 <= i < |r| ==> (r[i].priority == 1 <==> r[i].severity == Alerts.Critical)
  {
    SohRecommendation(name, soh)
    + (if cycles.Some? && cycles.value > 5000 then [Recommendation(Alerts.InfoLevel, Named(name), PlanReplacement, 2)] else [])
    + (if critical > 0 then [Recommendation(Alerts.Critical, Named(name), ImmediateIntervention, 1)] else [])
  }

  /** Some recommendation in `r` is of kind `k`. */
  predicate HasKind(r: seq<Recommendation>, k: Kind) {
    exists i :: 0 <= i < |r| && r[i].kind == k
  }

  lemma HasKindAppend(x: seq<Recommendation>, y: seq<Recommendation>, k: Kind)
    ensures HasKind(x + y, k) <==> HasKind(x, k) || HasKind(y, k)
  {
    if HasKind(x + y, k) {
      var i :| 0 <= i < |x + y| && (x + y)[i].kind == k;
      if i >= |x| { assert y[i - |x|] == (x + y)[i]; }
      else { assert x[i] == (x + y)[i]; }
    }
    if HasKind(x, k) {
      var i :| 0 <= i < |x| && x[i].kind == k;
      assert (x + y)[i] == x[i];
    }
    if HasKind(y, k) {
      var i :| 0 <= i < |y| && y[i].kind == k;
      assert (x + y)[|x| + i] == y[i];
    }
  }

  /** The recommendation made from the SOH alone. */
  function SohRecommendation(name: string, soh: Option<int>): seq<Recommendation> {
    if soh.Some? && soh.value < 80 then [Recommendation(Alerts.Critical, Named(name), UrgentReplacement, 1)]
    else if soh.Some? && soh.value < 90 then [Recommendation(Alerts.Warning, Named(name), CloseMonitoring, 2)]
    else []
  }

  /** Each per-battery recommendation is made exactly under its condition;
      a NaN SOH or cycle count triggers none. */
  lemma RecommendConditions(name: string, soh: Option<int>, cycles: Option<int>, critical: nat, k: Kind)
    ensures HasKind(Recommend(name, soh, cycles, critical), k) <==>
              match k
              case UrgentReplacement => soh.Some? && soh.value < 80
              case CloseMonitoring => soh.Some? && 80 <= soh.value < 90
              case PlanReplacement => cycles.Some? && cycles.value > 5000
              case ImmediateIntervention => critical > 0
              case FleetAgeing => false
  {
    var s := SohRecommendation(name, soh);
    var c: seq<Recommendation> :=
      if cycles.Some? && cycles.value > 5000 then [Recommendation(Alerts.InfoLevel, Named(name), PlanReplacement, 2)] else [];
    var a: seq<Recommendation> :=
      if critical > 0 then [Recommendation(Alerts.Critical, Named(name), ImmediateIntervention, 1)] else [];
    assert Recommend(name, soh, cycles, critical) == s + c + a;
    HasKindAppend(s + c, a, k);
    HasKindAppend(s, c, k);
    if s != [] { assert s[0].kind == k ==> HasKind(s, k); }
    if c != [] { assert c[0].kind == k ==> HasKind(c, k); }
    if a != [] { assert a[0].kind == k ==> HasKind(a, k); }
  }

  /** The SOH a recommendation reads: 100 when missing. */
  function SohOf(b: Battery): Option<int> {
    SohStat(b.stats, "100")
  }

  function BatteryRecommendations(b: Battery): seq<Recommendation> {
    Recommend(b.displayName, SohOf(b), CycleStat(b.stats), CountSeverity(b.alerts, Alerts.Critical))
  }

  /** The per-battery recommendations of every battery, battery by battery. */
  function AllBatteryRecommendations(bs: seq<Battery>): (r: seq<Recommendation>)
    ensures |r| <= 3 * |bs|
    ensures forall i :: 0 <= i < |r| ==> r[i].target.Named? && r[i].kind != FleetAgeing
    decreases |bs|
  {
    if |bs| == 0 then []
    else AllBatteryRecommendations(bs[..|bs| - 1]) + BatteryRecommendations(bs[|bs| - 1])
  }

  /** The SOH of every battery. */
  function Sohs(bs: seq<Battery>): (s: seq<Option<int>>)
    ensures |s| == |bs|
  {
    seq(|bs|, i requires 0 <= i < |bs| => SohOf(bs[i]))
  }

  function Parsed(soh: Option<int>): Option<int> { soh }

  /** A fleet with these SOHs is ageing when it has more than one battery
      and their mean is below 85 (a NaN mean never is). */
  predicate Ageing(sohs: seq<Option<int>>) {
    |sohs| > 1 && Less(MeanField(sohs, Parsed), Fin(FleetSohLimit))
  }

  predicate FleetAgeingDetected(bs: seq<Battery>) {
    Ageing(Sohs(bs))
  }

  const FleetRecommendation: Recommendation := Recommendation(Alerts.Warning, WholeFleet, FleetAgeing, 2)

  function FleetRecommendations(bs: seq<Battery>): (r: seq<Recommendation>)
    ensures |r| <= 1
  {
    if FleetAgeingDetected(bs) then [FleetRecommendation] else []
  }

  /** Everything recommended, before sorting. */
  function Unsorted(bs: seq<Battery>): seq<Recommendation> {
    AllBatteryRecommendations(bs) + FleetRecommendations(bs)
  }

  function PriorityKey(r: Recommendation): real {
    r.priority as real
  }

  /** `generateRecommendations`: all recommendations, stably sorted by
      priority. */
  function GenerateRecommendations(bs: seq<Battery>): (r: seq<Recommendation>)
    ensures |r| <= 3 * |bs| + 1
  {
    SortBy(Unsorted(bs), PriorityKey)
  }

  // ------------------------------------------------------------ properties

  /** Nothing is lost or added by sorting. */
  lemma RecommendationsPermute(bs: seq<Battery>)
    ensures multiset(GenerateRecommendations(bs)) == multiset(Unsorted(bs))
  {
    SortPermutes(Unsorted(bs), PriorityKey);
  }

  /** Priorities never decrease down the list, so every priority-1 item
      comes before every priority-2 item. */
  lemma RecommendationsByPriority(bs: seq<Battery>)
    ensures forall i, j :: 0 <= i < j < |GenerateRecommendations(bs)| ==>
              GenerateRecommendations(bs)[i].priority <= GenerateRecommendations(bs)[j].priority
  {
    SortSorted(Unsorted(bs), PriorityKey);
  }

  /** Recommendations of equal priority stay in the order they were made. */
  lemma EqualPrioritiesKeepOrder(bs: seq<Battery>, p: real)
    ensures Filter(GenerateRecommendations(bs), HasKey(PriorityKey, p)) == Filter(Unsorted(bs), HasKey(PriorityKey, p))
  {
    SortStable(Unsorted(bs), PriorityKey, p);
  }

  /** Sorting only per-battery recommendations yields no fleet-wide item. */
  lemma SortedWithoutFleet(a: seq<Recommendation>)
    requires forall i :: 0 <= i < |a| ==> a[i].target.Named?
    ensures forall i :: 0 <= i < |SortBy(a, PriorityKey)| ==> SortBy(a, PriorityKey)[i].target.Named?
  {
    var r := SortBy(a, PriorityKey);
    SortPermutes(a, PriorityKey);
    forall i | 0 <= i < |r| ensures r[i].target.Named? {
      assert r[i] in multiset(a);
    }
  }

  /** Sorting keeps an added fleet recommendation. */
  lemma SortedWithFleet(a: seq<Recommendation>) returns (i: nat)
    ensures i < |SortBy(a + [FleetRecommendation], PriorityKey)|
    ensures SortBy(a + [FleetRecommendation], PriorityKey)[i] == FleetRecommendation
  {
    var u := a + [FleetRecommendation];
    var r := SortBy(u, PriorityKey);
    SortPermutes(u, PriorityKey);
    assert FleetRecommendation in multiset(r) by {
      assert u[|a|] == FleetRecommendation;
    }
    i :| 0 <= i < |r| && r[i] == FleetRecommendation;
  }

  /** The list holds a fleet-wide recommendation exactly when the fleet is
      ageing. */
  lemma FleetRecommendationIff(bs: seq<Battery>)
    ensures (exists i :: 0 <= i < |GenerateRecommendations(bs)| && GenerateRecommendations(bs)[i].target == WholeFleet)
            <==> FleetAgeingDetected(bs)
  {
    var a := AllBatteryRecommendations(bs);
    var g := GenerateRecommendations(bs);
    if FleetAgeingDetected(bs) {
      assert g == SortBy(a + [FleetRecommendation], PriorityKey);
      var i := SortedWithFleet(a);
      assert g[i].target == WholeFleet;
    } else {
      assert g == SortBy(a, PriorityKey) by {
        assert Unsorted(bs) == a;
      }
      SortedWithoutFleet(a);
    }
  }

  /** When every SOH parses, the fleet is ageing exactly when there are
      several batteries and their SOHs sum to less than 85 per battery. */
  lemma AgeingBySum(sohs: seq<Option<int>>)
    requires AllParsed(sohs, Parsed)
    ensures Ageing(sohs) <==> |sohs| > 1 && IntSum(sohs, Parsed) as real < FleetSohLimit * |sohs| as real
  {
    if |sohs| > 1 {
      MeanFieldExact(sohs, Parsed);
      QuotientBelow(IntSum(sohs, Parsed) as real, |sohs| as real, FleetSohLimit);
    }
  }

  lemma QuotientBelow(s: real, n: real, limit: real)
    requires n > 0.0
    ensures s / n < limit <==> s < limit * n
  {
    assert (s / n) * n == s;
    assert (limit - s / n) * n == limit * n - s;
  }
}
