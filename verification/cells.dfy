/** Per-cell telemetry at the tail of a history line (`parseCellData`,
    src/services/parser.js). After the fixed columns a line may carry up to
    fifteen cell groups of six tokens each: cell number, voltage (mV),
    temperature (m°C), two state words and a percentage. */
module Cells {
  import opened Options
  import opened Text
  import opened JsNumbers
  import opened Records

  const MaxCells: nat := 15
  /** The search for the first cell group starts at this token. */
  const CellSearchFrom: nat := 17
  /** The token that usually precedes the first cell group. */
  const AnchorToken: string := "50000"

  // ----------------------------------------------- finding the first cell

  /** `50000` immediately followed by `1` at token `i`. */
  predicate AnchorAt(parts: seq<string>, i: int) {
    0 <= i && i + 1 < |parts| && parts[i] == AnchorToken && parts[i + 1] == "1"
  }

  /** A lone `1` at token `i` with at least five tokens after it. */
  predicate LooseStartAt(parts: seq<string>, i: int) {
    0 <= i && i + 5 < |parts| && parts[i] == "1"
  }

  /** The first anchor at or after `from`. */
  function FindAnchor(parts: seq<string>, from: nat): (r: Option<nat>)
    ensures r.Some? ==> from <= r.value && AnchorAt(parts, r.value)
    ensures r.Some? ==> forall k :: from <= k < r.value ==> !AnchorAt(parts, k)
    ensures r.None? ==> forall k :: from <= k ==> !AnchorAt(parts, k)
    decreases |parts| - from
  {
    if from + 1 >= |parts| then None
    else if AnchorAt(parts, from) then Some(from)
    else FindAnchor(parts, from + 1)
  }

  /** The first loose start at or after `from`. */
  function FindLooseStart(parts: seq<string>, from: nat): (r: Option<nat>)
    ensures r.Some? ==> from <= r.value && LooseStartAt(parts, r.value)
    ensures r.Some? ==> forall k :: from <= k < r.value ==> !LooseStartAt(parts, k)
    ensures r.None? ==> forall k :: from <= k ==> !LooseStartAt(parts, k)
    decreases |parts| - from
  {
    if from >= |parts| then None
    else if LooseStartAt(parts, from) then Some(from)
    else FindLooseStart(parts, from + 1)
  }

  /** Token index of cell 1: the `1` after the first anchor from token 17
      on, or failing any anchor, the first suitable lone `1` from token 17
      on. */
  function CellStart(parts: seq<string>): (r: Option<nat>)
    ensures r.Some? ==> CellSearchFrom <= r.value < |parts| && parts[r.value] == "1"
    ensures (exists k :: CellSearchFrom <= k && AnchorAt(parts, k)) ==>
              r.Some? && CellSearchFrom < r.value && AnchorAt(parts, r.value - 1)
              && forall k :: CellSearchFrom <= k < r.value - 1 ==> !AnchorAt(parts, k)
    ensures (forall k :: CellSearchFrom <= k ==> !AnchorAt(parts, k)) ==>
              (r.Some? <==> exists k :: CellSearchFrom <= k && LooseStartAt(parts, k))
    ensures (forall k :: CellSearchFrom <= k ==> !AnchorAt(parts, k)) && r.Some? ==>
              LooseStartAt(parts, r.value) && forall k :: CellSearchFrom <= k < r.value ==> !LooseStartAt(parts, k)
  {
    match FindAnchor(parts, CellSearchFrom)
    case Some(i) => Some(i + 1)
    case None => FindLooseStart(parts, CellSearchFrom)
  }

  // --------------------------------------------------- reading the groups

  /** `parseInt` of every token of the line. `parseCellData` parses the
      tokens it looks at one by one; parsing is pure, so reading them from
      this sequence is the same. */
  function ParseAll(parts: seq<string>): (nums: seq<Option<int>>)
    ensures |nums| == |parts|
  {
    seq(|parts|, k requires 0 <= k < |parts| => ParseInt(parts[k]))
  }

  lemma ParseAllIndex(parts: seq<string>, k: nat)
    requires k < |parts|
    ensures ParseAll(parts)[k] == ParseInt(parts[k])
  {
  }

  /** Cell group `k` (0-based) is read: all six tokens exist and the first
      one parses to the sequential cell number `k + 1`. */
  predicate CellPresent(nums: seq<Option<int>>, start: nat, k: nat) {
    start + 6 * k + 5 < |nums| && nums[start + 6 * k] == Some(k + 1)
  }

  /** Number of groups read from `start`, counting on from `k`: reading stops
      at the fifteenth group, at a group that runs past the line, or at a
      group whose number is out of sequence. */
  function CellsReadFrom(nums: seq<Option<int>>, start: nat, k: nat): (n: nat)
    requires k <= MaxCells && start + 6 * k <= |nums|
    ensures k <= n <= MaxCells && start + 6 * n <= |nums|
    ensures forall j :: k <= j < n ==> CellPresent(nums, start, j)
    ensures n < MaxCells ==> !CellPresent(nums, start, n)
    decreases MaxCells - k
  {
    if k == MaxCells || !CellPresent(nums, start, k) then k
    else CellsReadFrom(nums, start, k + 1)
  }

  /** Number of groups read from `start`. */
  function CellsRead(nums: seq<Option<int>>, start: nat): (n: nat)
    requires start <= |nums|
    ensures n <= MaxCells && start + 6 * n <= |nums|
    ensures forall j :: 0 <= j < n ==> CellPresent(nums, start, j)
    ensures n < MaxCells ==> !CellPresent(nums, start, n)
  {
    CellsReadFrom(nums, start, 0)
  }

  // ------------------------------------------- reference: column contents

  /** Token `offset` of each of the first `n` groups. */
  function Column<T>(xs: seq<T>, start: nat, n: nat, offset: nat): (c: seq<T>)
    requires offset < 6 && start + 6 * n <= |xs|
    ensures |c| == n
  {
    if n == 0 then [] else Column(xs, start, n - 1, offset) + [xs[start + 6 * (n - 1) + offset]]
  }

  function StatePairs(a: seq<string>, b: seq<string>): (r: seq<CellState>)
    requires |a| == |b|
    ensures |r| == |a|
  {
    if |a| == 0 then [] else StatePairs(a[..|a| - 1], b[..|b| - 1]) + [CellState(a[|a| - 1], b[|b| - 1])]
  }

  /** The readings that parsed to a positive number, in order. */
  function Positives(rs: seq<Option<int>>): (r: seq<int>)
    ensures |r| <= |rs|
    ensures forall i :: 0 <= i < |r| ==> r[i] > 0
    decreases |rs|
  {
    if |rs| == 0 then []
    else
      var last := rs[|rs| - 1];
      assert rs == rs[..|rs| - 1] + [last];
      Positives(rs[..|rs| - 1]) + (if last.Some? && last.value > 0 then [last.value] else [])
  }

  /** The readings that parsed at all, in order. */
  function Defined(rs: seq<Option<int>>): (r: seq<int>)
    ensures |r| <= |rs|
    decreases |rs|
  {
    if |rs| == 0 then []
    else
      var last := rs[|rs| - 1];
      assert rs == rs[..|rs| - 1] + [last];
      Defined(rs[..|rs| - 1]) + (if last.Some? then [last.value] else [])
  }

  /** What reading the first `n` groups yields, stated column by column:
      the positive voltages, the temperatures that parsed, the state pairs
      and the percentage tokens. */
  function CellsOf(parts: seq<string>, nums: seq<Option<int>>, start: nat, n: nat): CellData
    requires |nums| == |parts| && start + 6 * n <= |parts|
  {
    var volts := Positives(Column(nums, start, n, 1));
    CellData(volts,
             Defined(Column(nums, start, n, 2)),
             StatePairs(Column(parts, start, n, 3), Column(parts, start, n, 4)),
             Column(parts, start, n, 5),
             |volts|)
  }

  /** Cell data has one state and one percentage per group read, at most
      fifteen groups, at most one voltage and one temperature per group,
      only positive voltages, and a cell count equal to the number of
      voltages kept. */
  predicate WellShaped(c: CellData) {
    && |c.states| == |c.percentages| <= MaxCells
    && |c.voltages| <= |c.states| && |c.temperatures| <= |c.states|
    && (forall i :: 0 <= i < |c.voltages| ==> c.voltages[i] > 0)
    && c.cellCount == |c.voltages|
  }

  const NoCells: CellData := CellData([], [], [], [], 0)

  // ------------------------------------------------ the loop, as written

  /** The group at `base` appended to the partial result, as the loop body
      pushes it: the voltage only when it is a positive number, the
      temperature only when it is a number, the states and percentage
      always. */
  function PushCell(acc: CellData, parts: seq<string>, nums: seq<Option<int>>, base: nat): CellData
    requires |nums| == |parts| && base + 5 < |parts|
  {
    var v := nums[base + 1];
    var t := nums[base + 2];
    var volts := acc.voltages + (if v.Some? && v.value > 0 then [v.value] else []);
    CellData(volts,
             acc.temperatures + (if t.Some? then [t.value] else []),
             acc.states + [CellState(parts[base + 3], parts[base + 4])],
             acc.percentages + [parts[base + 5]],
             |volts|)
  }

  /** The `for cellNum` loop from iteration `k` on, with `acc` holding what
      the earlier iterations pushed. */
  function ScanCells(parts: seq<string>, nums: seq<Option<int>>, start: nat, k: nat, acc: CellData): CellData
    requires |nums| == |parts| && k <= MaxCells
    decreases MaxCells - k
  {
    if k == MaxCells then acc
    else
      var base := start + 6 * k;
      if base + 5 >= |parts| then acc
      else if nums[base] != Some(k + 1) then acc
      else ScanCells(parts, nums, start, k + 1, PushCell(acc, parts, nums, base))
  }

  lemma PositivesStep(rs: seq<Option<int>>, x: Option<int>)
    ensures Positives(rs + [x]) == Positives(rs) + (if x.Some? && x.value > 0 then [x.value] else [])
  {
    assert (rs + [x])[..|rs|] == rs;
  }

  lemma DefinedStep(rs: seq<Option<int>>, x: Option<int>)
    ensures Defined(rs + [x]) == Defined(rs) + (if x.Some? then [x.value] else [])
  {
    assert (rs + [x])[..|rs|] == rs;
  }

  lemma StatePairsStep(a: seq<string>, b: seq<string>, x: string, y: string)
    requires |a| == |b|
    ensures StatePairs(a + [x], b + [y]) == StatePairs(a, b) + [CellState(x, y)]
  {
    assert (a + [x])[..|a|] == a;
    assert (b + [y])[..|b|] == b;
  }

  lemma ColumnStep<T>(xs: seq<T>, start: nat, k: nat, offset: nat)
    requires offset < 6 && start + 6 * (k + 1) <= |xs|
    ensures Column(xs, start, k + 1, offset) == Column(xs, start, k, offset) + [xs[start + 6 * k + offset]]
  {
  }

  lemma VoltsStep(nums: seq<Option<int>>, start: nat, k: nat)
    requires start + 6 * (k + 1) <= |nums|
    ensures Positives(Column(nums, start, k + 1, 1))
            == Positives(Column(nums, start, k, 1)) + (var v := nums[start + 6 * k + 1]; if v.Some? && v.value > 0 then [v.value] else [])
  {
    ColumnStep(nums, start, k, 1);
    PositivesStep(Column(nums, start, k, 1), nums[start + 6 * k + 1]);
  }

  lemma TempsStep(nums: seq<Option<int>>, start: nat, k: nat)
    requires start + 6 * (k + 1) <= |nums|
    ensures Defined(Column(nums, start, k + 1, 2))
            == Defined(Column(nums, start, k, 2)) + (var t := nums[start + 6 * k + 2]; if t.Some? then [t.value] else [])
  {
    ColumnStep(nums, start, k, 2);
    DefinedStep(Column(nums, start, k, 2), nums[start + 6 * k + 2]);
  }

  lemma StatesStep(parts: seq<string>, start: nat, k: nat)
    requires start + 6 * (k + 1) <= |parts|
    ensures StatePairs(Column(parts, start, k + 1, 3), Column(parts, start, k + 1, 4))
            == StatePairs(Column(parts, start, k, 3), Column(parts, start, k, 4))
               + [CellState(parts[start + 6 * k + 3], parts[start + 6 * k + 4])]
  {
    ColumnStep(parts, start, k, 3);
    ColumnStep(parts, start, k, 4);
    StatePairsStep(Column(parts, start, k, 3), Column(parts, start, k, 4), parts[start + 6 * k + 3], parts[start + 6 * k + 4]);
  }

  /** One more group extends every column by that group's tokens. */
  lemma CellsOfStep(parts: seq<string>, nums: seq<Option<int>>, start: nat, k: nat)
    requires |nums| == |parts| && start + 6 * (k + 1) <= |parts|
    ensures CellsOf(parts, nums, start, k + 1) == PushCell(CellsOf(parts, nums, start, k), parts, nums, start + 6 * k)
  {
    VoltsStep(nums, start, k);
    TempsStep(nums, start, k);
    StatesStep(parts, start, k);
    ColumnStep(parts, start, k, 5);
  }

  /** The loop computes exactly the column-wise reference over the groups
      it reads. */
  lemma {:induction false} ScanCellsReadsColumns(parts: seq<string>, nums: seq<Option<int>>, start: nat, k: nat)
    requires |nums| == |parts| && k <= MaxCells && start + 6 * k <= |parts|
    ensures ScanCells(parts, nums, start, k, CellsOf(parts, nums, start, k))
            == CellsOf(parts, nums, start, CellsReadFrom(nums, start, k))
    decreases MaxCells - k
  {
    var acc := CellsOf(parts, nums, start, k);
    if k < MaxCells && CellPresent(nums, start, k) {
      var base := start + 6 * k;
      assert ScanCells(parts, nums, start, k, acc)
             == ScanCells(parts, nums, start, k + 1, PushCell(acc, parts, nums, base));
      CellsOfStep(parts, nums, start, k);
      ScanCellsReadsColumns(parts, nums, start, k + 1);
      assert CellsReadFrom(nums, start, k) == CellsReadFrom(nums, start, k + 1);
    } else {
      assert ScanCells(parts, nums, start, k, acc) == acc;
      assert CellsReadFrom(nums, start, k) == k;
    }
  }

  /** The column-wise reference is well shaped. */
  lemma ShapeOfCells(parts: seq<string>, nums: seq<Option<int>>, start: nat, n: nat)
    requires |nums| == |parts| && n <= MaxCells && start + 6 * n <= |parts|
    ensures WellShaped(CellsOf(parts, nums, start, n))
  {
  }

  /** `parseCellData`: the groups from the first cell on, read while they
      stay in sequence; no groups at all without a starting `1`. */
  function ParseCellData(parts: seq<string>): (r: CellData)
    ensures WellShaped(r)
    ensures CellStart(parts).None? ==> r == NoCells
    ensures CellStart(parts).Some? ==>
              var start := CellStart(parts).value;
              var nums := ParseAll(parts);
              r == CellsOf(parts, nums, start, CellsRead(nums, start))
  {
    match CellStart(parts)
    case None => NoCells
    case Some(start) =>
      var nums := ParseAll(parts);
      assert CellsOf(parts, nums, start, 0) == NoCells;
      ScanCellsReadsColumns(parts, nums, start, 0);
      ShapeOfCells(parts, nums, start, CellsRead(nums, start));
      ScanCells(parts, nums, start, 0, NoCells)
  }

  lemma {:induction false} ColumnIndex<T>(xs: seq<T>, start: nat, n: nat, offset: nat, k: nat)
    requires offset < 6 && start + 6 * n <= |xs| && k < n
    ensures Column(xs, start, n, offset)[k] == xs[start + 6 * k + offset]
    decreases n
  {
    if k < n - 1 {
      ColumnIndex(xs, start, n - 1, offset, k);
    }
  }

  lemma {:induction false} StatePairsIndex(a: seq<string>, b: seq<string>, k: nat)
    requires |a| == |b| && k < |a|
    ensures StatePairs(a, b)[k] == CellState(a[k], b[k])
    decreases |a|
  {
    if k < |a| - 1 {
      StatePairsIndex(a[..|a| - 1], b[..|b| - 1], k);
    }
  }

  lemma CellsOfCount(parts: seq<string>, nums: seq<Option<int>>, start: nat, n: nat)
    requires |nums| == |parts| && start + 6 * n <= |parts|
    ensures |CellsOf(parts, nums, start, n).states| == n
  {
  }

  /** Group `k` of the reference holds that group's state and percentage
      tokens. */
  lemma CellsOfIndex(parts: seq<string>, nums: seq<Option<int>>, start: nat, n: nat, k: nat)
    requires |nums| == |parts| && start + 6 * n <= |parts| && k < n
    ensures var c := CellsOf(parts, nums, start, n);
            && |c.states| == |c.percentages| == n
            && c.states[k] == CellState(parts[start + 6 * k + 3], parts[start + 6 * k + 4])
            && c.percentages[k] == parts[start + 6 * k + 5]
  {
    ColumnIndex(parts, start, n, 3, k);
    ColumnIndex(parts, start, n, 4, k);
    ColumnIndex(parts, start, n, 5, k);
    StatePairsIndex(Column(parts, start, n, 3), Column(parts, start, n, 4), k);
  }

  /** Groups numbered in sequence are all read, up to fifteen. */
  lemma {:induction false} SequentialGroupsCounted(nums: seq<Option<int>>, start: nat, k: nat, m: nat)
    requires start + 6 * m <= |nums|
    requires forall j :: 0 <= j < m ==> nums[start + 6 * j] == Some(j + 1)
    requires k <= m && k <= MaxCells
    ensures CellsReadFrom(nums, start, k) >= (if m < MaxCells then m else MaxCells)
    decreases MaxCells - k
  {
    if k < m && k < MaxCells {
      assert CellPresent(nums, start, k);
      SequentialGroupsCounted(nums, start, k + 1, m);
    }
  }

  /** Every group `parseCellData` reports holds the state and percentage
      tokens of the corresponding group of the line. */
  lemma ParsedGroupTokens(parts: seq<string>, k: nat)
    requires CellStart(parts).Some? && k < |ParseCellData(parts).states|
    ensures var start := CellStart(parts).value;
            var c := ParseCellData(parts);
            && start + 6 * k + 5 < |parts|
            && c.states[k] == CellState(parts[start + 6 * k + 3], parts[start + 6 * k + 4])
            && c.percentages[k] == parts[start + 6 * k + 5]
  {
    var start := CellStart(parts).value;
    var nums := ParseAll(parts);
    var n := CellsRead(nums, start);
    CellsOfIndex(parts, nums, start, n, k);
  }

  lemma NumbersParsed(parts: seq<string>, start: nat, m: nat)
    requires start + 6 * m <= |parts|
    requires forall k :: 0 <= k < m ==> ParseInt(parts[start + 6 * k]) == Some(k + 1)
    ensures forall k :: 0 <= k < m ==> ParseAll(parts)[start + 6 * k] == Some(k + 1)
  {
    forall k | 0 <= k < m ensures ParseAll(parts)[start + 6 * k] == Some(k + 1) {
      ParseAllIndex(parts, start + 6 * k);
    }
  }

  /** A well-formed block is read completely: when the `m` groups from the
      start all exist and are numbered 1, 2, ..., the first `m` of them are
      read, up to fifteen. */
  lemma SequentialGroupsRead(parts: seq<string>, m: nat)
    requires CellStart(parts).Some?
    requires var start := CellStart(parts).value;
             && start + 6 * m <= |parts|
             && forall k :: 0 <= k < m ==> ParseInt(parts[start + 6 * k]) == Some(k + 1)
    ensures |ParseCellData(parts).states| >= (if m < MaxCells then m else MaxCells)
  {
    var start := CellStart(parts).value;
    var nums := ParseAll(parts);
    NumbersParsed(parts, start, m);
    SequentialGroupsCounted(nums, start, 0, m);
    CellsOfCount(parts, nums, start, CellsRead(nums, start));
  }
}
