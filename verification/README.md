# Pylontech battery log parser — a Dafny model

This project models the core of a tool that reads the history logs of
Pylontech lithium batteries and analyses them.

- **Parser.** It reads the text a battery's console prints:
  - an `info` section and a `stat` section of `key : value` lines;
  - a `data history` section with one whitespace-separated record per line.

  A record may be followed by per-cell telemetry in 6-token groups.
- **Identity.** It derives a battery id and a date-time from the file name
  (`[HK]<serial>_history_<YYYYMMDDHHMMSS>.txt`).
- **Date correction.** It rebuilds each entry's instant from that date,
  assuming one entry per minute with the last line the newest.
- **Alerts.** It raises temperature and voltage alerts against six
  thresholds, and filters them.
- **Analyses.** It computes, per battery:
  - a health report (SOH read from the statistics or estimated, status,
    score, remaining life);
  - a degradation trend;
  - a cell-balance status;
  - a risk assessment.

  Across the fleet it computes a performance ranking and a list of
  maintenance recommendations sorted by priority.

## How JavaScript is modelled

- **Numbers.** `parseInt` gives an `Option<int>`, where `None` is `NaN`.
  Arithmetic on JavaScript numbers uses `JsNumbers.Num`, which is `NaN`, an
  infinity, or an exact real. This way `NaN` flows through the analyses as
  it does in the program:
  - every comparison with `NaN` is false;
  - `Math.max` of a list containing `NaN` is `NaN`.
- **Strings.** They are `seq<char>`:
  - `trim`, `split`, `includes`, `replace` and `toLowerCase` are defined in
    `Text`;
  - the regular expressions of the parser and of the file-name functions
    are written as predicates, with the matching functions proved against
    them.
- **Sorting.** `Array.prototype.sort` with a comparator that subtracts
  numeric keys is the stable insertion sort of `Sorting`. It is proved to
  permute, sort and keep equal keys in input order.
- **Clock.** The local-time conversion `new Date(y-m-dTh:m:s)` is the
  `localMs` parameter of `Parser.ParseFile`.

Modules follow the source files:

| source file | modules |
|---|---|
| `src/services/parser.js` | `Identity`, `DateCorrection`, `Cells`, `Parser` |
| `src/services/alerts.js` | `Alerts` |
| `src/services/analysis.js` | `Batteries` (shared reads of a loaded battery), `Health`, `Balance`, `Degradation`, `Performance`, `Risk`, `Recommendations`, `Advanced` |

The supporting modules are `Options`, `Text`, `Seqs`, `JsNumbers`, `Records`
and `Sorting`.

## Model

| member | source | states |
|---|---|---|
| Text.Trim | src/services/parser.js:158 | the trimmed line has no white space at either end and is the infix left after dropping leading white space |
| Text.TrimRemovesOnlySpace | src/services/parser.js:158 | everything `trim` drops, before and after the kept infix, is white space |
| Text.TrimIdempotent | src/services/parser.js:176 | trimming an already trimmed key or value changes nothing |
| Text.Contains | src/services/parser.js:160-170 | `includes` holds exactly when the needle occurs as an infix |
| Text.Split | src/services/parser.js:145 | the pieces hold no separator, joined with it give back the input, and there are at least two when the separator occurs |
| Text.SplitJoin | src/services/parser.js:176 | splitting a join of separator-free pieces gives back the pieces |
| Text.SplitWs | src/services/parser.js:194 | `split(/\s+/)`: space-free pieces whose concatenation is the line without white space; the first piece is the leading run; on a trimmed non-empty line no piece is empty |
| Text.SplitWsJoin | src/services/parser.js:194 | splitting a space-joined list of non-empty space-free tokens gives back the tokens |
| Text.RemoveFirst | src/services/analysis.js:40 | `replace('%', '')` removes only the first `%`, and leaves text without one unchanged |
| Text.AsciiLower | src/services/parser.js:180 | lower-casing keeps the length and maps each character to its lower case |
| Seqs.Filter | src/services/alerts.js:55-60 | the kept elements all satisfy the predicate, and are exactly the input's elements that do |
| Seqs.FilterIsSubsequence | src/services/alerts.js:55-60 | filtering keeps the input order |
| Sorting.SortPermutes | src/services/analysis.js:386 | sorting is a permutation of its input |
| Sorting.SortSorted | src/services/analysis.js:386 | the sorted keys never decrease |
| Sorting.SortStable | src/services/analysis.js:386 | for every key value, the elements with that key keep their input order |
| Sorting.SortOfSorted | src/services/analysis.js:240 | input already in key order is left unchanged |
| JsNumbers.ParseInt | src/services/parser.js:200-206 | `parseInt` yields a number only when the text holds a decimal digit |
| JsNumbers.ParseIntOfDecimal | src/services/parser.js:200-206 | reading back the decimal notation of any integer gives that integer |
| JsNumbers.NegativeDecimal | src/services/parser.js:200-206 | a minus sign followed by digits reads as the negated decimal value |
| JsNumbers.ParseIntLeadingDigits | src/services/parser.js:200-206 | `parseInt` reads the leading digits and ignores any non-digit suffix, as with `85%` |
| JsNumbers.UnsignedDigits | src/services/analysis.js:40-42 | text that starts with a run of digits parses to the value of that run |
| JsNumbers.FromInt | src/services/alerts.js:15-16 | a parsed integer is a finite number of the same value; a failed parse is `NaN` |
| JsNumbers.Abs | src/services/analysis.js:158 | `Math.abs` is never negative and is `NaN` exactly for `NaN` |
| JsNumbers.Min | src/services/analysis.js:95-97 | `Math.min` is `NaN` when an argument is; otherwise it is one of them and above neither |
| JsNumbers.Max | src/services/analysis.js:193 | `Math.max` is `NaN` when an argument is; otherwise it is one of them and below neither |
| Identity.MatchEnd | src/services/parser.js:13 | finds the end of a `[HK]([A-Z0-9]+)_history` match at a position, or shows there is none |
| Identity.CaptureIsRun | src/services/parser.js:13 | the captured serial is the whole run of `[A-Z0-9]` after the tag |
| Identity.FindIdMatch | src/services/parser.js:13 | returns the leftmost match, with no match before it, or shows there is none |
| Identity.GenerateBatteryId | src/services/parser.js:12-15 | the id is at most as long as the name and is made of ASCII letters and digits |
| Identity.BatteryIdOfMatch | src/services/parser.js:13-14 | with a match, the id is the capture of the leftmost match |
| Identity.BatteryIdFallback | src/services/parser.js:14 | without a match, the id is the first (at most) 12 alphanumeric characters of the name, in order |
| Identity.DatetimeShapeIff | src/services/parser.js:24 | the left-to-right test agrees with `/[HK][A-Z0-9]+_history_(\d{14})\.txt$/i` |
| Identity.ExtractFileDatetime | src/services/parser.js:23-37 | a date-time exactly for names the pattern matches, read from the 14 digits before `.txt` |
| Identity.ConventionalFileName | src/services/parser.js:12-37 | for `H`/`K` + serial + `_history_` + 14 digits + `.txt`, the id is the serial and the date is the digits' fields |
| Identity.GenerateDisplayName | src/services/parser.js:238-247 | "Batterie " followed by the device address, else the info's `Device address`, else the first 8 characters of the id |
| DateCorrection.CorrectEndingAt | src/services/parser.js:48-61 | entry `i` gets the instant `lastMs - (n-1-i)` minutes |
| DateCorrection.CorrectHistoryDates | src/services/parser.js:45-62 | keeps the length; unchanged without a file date; otherwise every entry is corrected |
| DateCorrection.LastEntryAtFileInstant | src/services/parser.js:51 | the last entry carries exactly the file's instant |
| DateCorrection.ConsecutiveEntriesOneIntervalApart | src/services/parser.js:51 | consecutive entries are exactly 60 000 ms apart |
| DateCorrection.EntryInstant | src/services/parser.js:51 | entry `i` lies `n-1-i` intervals before the file instant |
| DateCorrection.CorrectionKeepsRawFields | src/services/parser.js:53-60 | correction only adds the correction record, whose original day and time copy the raw ones |
| DateCorrection.CorrectionIdempotent | src/services/parser.js:45-62 | correcting twice with the same instant is correcting once |
| Cells.FindAnchor | src/services/parser.js:79-84 | the first `50000` followed by `1` at or after the start, or none |
| Cells.FindLooseStart | src/services/parser.js:87-94 | the first `1` with five tokens after it, at or after the start, or none |
| Cells.CellStart | src/services/parser.js:75-94 | the `1` just after the first anchor at token 17 or later; without such an anchor, the first loose start from token 17, and none exactly when there is none |
| Cells.CellsRead | src/services/parser.js:99-107 | groups are read while the group exists and is numbered in sequence, at most 15 |
| Cells.Positives | src/services/parser.js:114-116 | only positive parsed voltages are kept |
| Cells.ScanCellsReadsColumns | src/services/parser.js:99-126 | the cell loop computes the column-wise reference over the groups it reads |
| Cells.ShapeOfCells | src/services/parser.js:129-135 | one state and one percentage per group read, at most 15, with `cellCount` the number of voltages kept |
| Cells.ParseCellData | src/services/parser.js:69-136 | no cells without a start; otherwise the column-wise reading of the groups read |
| Cells.CellsOfIndex | src/services/parser.js:110-121 | group `k` contributes its own state pair and percentage tokens |
| Cells.SequentialGroupsCounted | src/services/parser.js:105-107 | groups numbered 1, 2, … in sequence are all read, up to 15 |
| Cells.ParsedGroupTokens | src/services/parser.js:110-121 | every reported state and percentage comes from the group at its index |
| Cells.SequentialGroupsRead | src/services/parser.js:99-126 | a well-numbered block of `m` groups yields at least `min(m, 15)` cells |
| Parser.HeaderOf | src/services/parser.js:160-173 | a header never selects "no section" |
| Parser.HeaderOfOccurrences | src/services/parser.js:160-173 | `info` wins over `stat`, which wins over `data history`/`datalist history`; a line with none of them is not a header |
| Parser.KeyValue | src/services/parser.js:175-177 | a stored key and value are non-empty, trimmed and colon-free |
| Parser.KeyValueSpec | src/services/parser.js:176-177 | a pair exists exactly when there is a colon and both trimmed sides are non-empty; it is the trimmed text before and after the first colon |
| Parser.KeyValueOfJoin | src/services/parser.js:176-178 | a line made of colon-free pieces stores its first two pieces, trimmed |
| Parser.IsRecordLine | src/services/parser.js:193 | `/^\d+\s+/`: the line starts with digits followed by white space |
| Parser.RecordLineIff | src/services/parser.js:193 | the leading-run test agrees with that pattern |
| Parser.At | src/services/parser.js:207-211 | a token past the end is absent (`undefined`) |
| Parser.RecordOf | src/services/parser.js:193-220 | an entry built from a line has a numeric id and well-shaped cell data |
| Parser.RecordOfSpec | src/services/parser.js:193-217 | an entry exactly for a record line of at least 10 tokens, with cell data exactly above 17 tokens |
| Parser.IdIsLeadingNumber | src/services/parser.js:193-197 | the id of a record is its leading digits |
| Parser.ScanGood | src/services/parser.js:157-222 | every reached state has clean maps, a tracked device address and raw entries |
| Parser.ScanAppend | src/services/parser.js:157-222 | reading `a + b` is reading `a`, then `b` |
| Parser.NoHeaderNoEffect | src/services/parser.js:155-193 | lines before any header change nothing |
| Parser.HeaderLineOnlySwitches | src/services/parser.js:160-173 | a header line only switches section, even when it contains a colon |
| Parser.InfoLineStored | src/services/parser.js:175-184 | an info pair is stored, except under the key `__proto__`, which a plain object drops; nothing else changes; a device-address key also sets the address |
| Parser.ProtoKeyIgnored | src/services/parser.js:175-191 | an info or stats line with the key `__proto__` changes nothing |
| Parser.IncompleteLineIgnored | src/services/parser.js:175-191 | an info or stats line without a key and a value changes nothing |
| Parser.RecordLineAppended | src/services/parser.js:193-220 | a history line of at least ten tokens appends the entry of those tokens |
| Parser.RecordAppended | src/services/parser.js:193-220 | a history line that yields an entry appends exactly it |
| Parser.RecordOfJoin | src/services/parser.js:193-212 | a record built from tokens reads back those tokens |
| Parser.ReadingsReadBack | src/services/parser.js:200-206 | readings written in decimal are read back exactly |
| Parser.ParseFile | src/services/parser.js:144-231 | keeps the filename; a file date exactly for a matching name; corrected dates exactly with a date and some history; clean maps; a tracked device address |
| Parser.ParsedHistory | src/services/parser.js:193-228 | the history is the scanned one, date-corrected exactly when the file has corrected dates |
| Parser.ParsedEntries | src/services/parser.js:196-228 | every entry has a numeric id and well-shaped cells, and is corrected exactly when the file is |
| Parser.NewestEntryAtFileDate | src/services/parser.js:225-228 | in a corrected file the last entry sits at the file's instant |
| Parser.EmptyContentScansToInitial | src/services/parser.js:145-157 | empty content is one empty line, which changes nothing |
| Parser.OutsideSectionsIgnored | src/services/parser.js:155-193 | before the first header, a non-header line changes nothing |
| Parser.ParseEmpty | src/services/parser.js:144-231 | empty content gives no info, no statistics and no history |
| Parser.ParsedMaps | src/services/parser.js:147-191 | the maps and the device address are those the loop builds, and neither map holds the key `__proto__` |
| Parser.DeviceAddressKey | src/services/parser.js:180 | the key `Device address` names the device address |
| Parser.DisplayNameOfTracked | src/services/parser.js:238-247 | with a tracked address the name is the address, else the id prefix |
| Parser.DisplayNameOfParsed | src/services/parser.js:238-247 | for a parsed file, the info fallback never decides the display name |
| Alerts.StampOf | src/services/alerts.js:19-21 | the corrected stamp exactly for a corrected entry |
| Alerts.EntryAlerts | src/services/alerts.js:14-42 | at most two alerts per entry, never `info`, each carrying the entry and its stamp |
| Alerts.GenerateAlerts | src/services/alerts.js:11-46 | at most two alerts per entry, never `info`, each about an entry of the history |
| Alerts.ScaledGreater | src/services/alerts.js:15-18 | `x / 1000 > limit` exactly when `x` parsed and `x > 1000 * limit` |
| Alerts.ScaledLess | src/services/alerts.js:16-31 | `x / 1000 < limit` exactly when `x` parsed and `x < 1000 * limit` |
| Alerts.TempAlertsSpec | src/services/alerts.js:18-29 | a temperature alert exactly above the warning limit, critical exactly above the critical limit |
| Alerts.VoltAlertsSpec | src/services/alerts.js:31-42 | a voltage alert exactly outside the band, high exactly above it, critical exactly outside the critical band |
| Alerts.DefaultBoundaries | src/constants/thresholds.js:5-12 | with the default limits: 40 000 m°C nothing, 40 001 a warning, 45 001 critical; 53 200 mV nothing, 53 201 a high warning, 45 999 a critical low |
| Alerts.GenerateAlertsAppend | src/services/alerts.js:14-43 | the alerts of a concatenated history are the concatenated alerts |
| Alerts.TempAlertCount | src/services/alerts.js:14-29 | one temperature alert per entry above the warning limit, and no other |
| Alerts.FilterAlerts | src/services/alerts.js:54-61 | the kept alerts all pass, and every passing alert is kept |
| Alerts.FilterAlertsSubsequence | src/services/alerts.js:55 | filtering keeps the order |
| Alerts.FilterAlertsIdempotent | src/services/alerts.js:54-61 | filtering twice is filtering once |
| Alerts.FilterAlertsIdentity | src/services/alerts.js:56-59 | with both kinds on and `info` shown, nothing is dropped |
| Alerts.ShowAlertsOnlyKeepsGenerated | src/services/alerts.js:56 | generated alerts are never `info`, so hiding `info` keeps them all |
| Alerts.TemperatureOffLeavesVoltage | src/services/alerts.js:57-58 | switching temperature off keeps exactly the voltage alerts |
| Batteries.StatText | src/services/analysis.js:40-42 | a missing statistic reads as the fallback; a present one as itself, or, when asked, as itself less its first `%`, falling back when that leaves nothing (`"%"`) |
| Batteries.MissingStatReadsFallback | src/services/analysis.js:40-42 | a missing statistic parses to the fallback number |
| Batteries.CountSeverity | src/services/analysis.js:100 | the count of alerts of a type is at most the number of alerts |
| Batteries.CountSeverityIsFilterLength | src/services/analysis.js:100 | the count is the length of `alerts.filter(a => a.type === t)` |
| Batteries.SumField | src/services/analysis.js:141 | the `reduce` sum is finite or `NaN`, never infinite |
| Batteries.SumFieldExact | src/services/analysis.js:141 | the sum is the integer sum when every value parsed, `NaN` otherwise |
| Batteries.MeanFieldExact | src/services/analysis.js:141-145 | the mean of values that all parsed is their integer sum over the count |
| Health.StatusCountsThresholds | src/services/analysis.js:82-92 | the status rank counts the thresholds 70, 80, 90, 95 the SOH reaches |
| Health.StatusMonotone | src/services/analysis.js:82-92 | a higher SOH never gets a worse status |
| Health.CycleEstimate | src/services/analysis.js:52-59 | a cycle-based estimate lies in 70..95 |
| Health.CycleEstimateAntitone | src/services/analysis.js:52-59 | more cycles never raise the estimate |
| Health.VoltageEstimate | src/services/analysis.js:62-72 | a voltage-based estimate lies in 65..95 |
| Health.VoltageEstimateMonotone | src/services/analysis.js:62-72 | a higher mean voltage never lowers the estimate |
| Health.Estimate | src/services/analysis.js:45-76 | an estimate is at least 65, and above 95 only as power percent less 10 |
| Health.Soh | src/services/analysis.js:40-76 | the SOH is never 0; an estimated one is at least 65 |
| Health.EstimateStartsAtZero | src/services/analysis.js:40-45 | whenever the estimate runs, the SOH read so far is 0 |
| Health.SohDirect | src/services/analysis.js:40-45 | a present non-zero SOH is used as read |
| Health.PowerPercentDecides | src/services/analysis.js:47-52 | a positive power percent alone decides the estimate, which is `max(70, pp - 10)` |
| Health.CyclesDecide | src/services/analysis.js:52-59 | otherwise a positive cycle count decides it |
| Health.VoltageOrDefaultDecides | src/services/analysis.js:62-76 | otherwise the mean voltage of the first fifty entries decides when there are more than ten entries, and the estimate is 75 when there are not |
| Health.EstimateCriticalOnlyFromVoltage | src/services/analysis.js:62-75 | an estimate below 70 is 65 and comes from the voltage of more than ten entries |
| Health.CyclePenaltyAsWritten | src/services/analysis.js:95-97 | the source's cycle penalty lies in 0..5 |
| Health.CyclePenaltyAsWrittenDrops | src/services/analysis.js:95-106 | that penalty drops from 2 to 0.0015 at 4001 cycles and from 3 to 0.002 at 6001, so at SOH 90 the score rises from 87 to 89.998 |
| Health.CyclePenalty | src/services/analysis.js:95-97 | the corrected penalty lies in 0..5, is 0 up to 2000 cycles or `NaN`, and is never below the source's |
| Health.CyclePenaltyMonotone | src/services/analysis.js:94-97 | more cycles never lower the corrected penalty |
| Health.CyclePenaltyCorrectionIsLocal | src/services/analysis.js:95-97 | the correction agrees with the source's penalty outside 4001..5333 and 6001..7499 cycles |
| Health.AlertPenalty | src/services/analysis.js:100-101 | the alert penalty lies in 0..10 and is 0 without critical alerts |
| Health.HealthScore | src/services/analysis.js:79-106 | the score is `NaN` exactly when the SOH is |
| Health.HealthScoreBounds | src/services/analysis.js:104-106 | for a numeric SOH of at least 0, the score lies between `max(0, soh - 10)` and the SOH |
| Health.HealthScoreUnpenalised | src/services/analysis.js:94-106 | up to 2000 cycles and without critical alerts, the score is the SOH, with the source's penalty and with the corrected one |
| Health.HealthScoreAntitoneInPenalty | src/services/analysis.js:104-106 | a larger cycle penalty never raises the score |
| Health.HealthScoreAntitoneInAlerts | src/services/analysis.js:100-106 | more critical alerts never raise the score |
| Health.HealthScoreAntitoneInCycles | src/services/analysis.js:94-106 | with the corrected penalty, more cycles never raise the score |
| Health.LifeRemaining | src/services/analysis.js:117 | `NaN` exactly for an unparsed count; otherwise never negative, 0 from 8000 cycles, and below that `years * 365 + cycles == 8000` |
| Health.HealthOf | src/services/analysis.js:38-118 | keeps id and name; the SOH is never 0; the source is direct exactly with an SOH statistic; the score, computed with the source's cycle penalty, is `NaN` exactly when the SOH is |
| Health.HealthOfCorrected | src/services/analysis.js:94-106 | the report with the corrected cycle penalty; its score is `NaN` exactly when the SOH is |
| Health.HealthCorrectionOnlyLowersScore | src/services/analysis.js:94-106 | the corrected report differs from the source's only in the score, never raises it, and equals it outside 4001..5333 and 6001..7499 cycles |
| Health.AnalyzeBatteryHealth | src/services/analysis.js:37-120 | one report per battery, each the battery's own |
| Degradation.WindowSize | src/services/analysis.js:138-139 | each window holds `min(50, n)` entries |
| Degradation.DegradationOf | src/services/analysis.js:127-165 | keeps id and name; insufficient exactly below 10 entries, with rate 0 and no details; the rate is never negative |
| Degradation.AnalyzeDegradation | src/services/analysis.js:127-128 | one report per battery, each the battery's own |
| Degradation.DropFromItself | src/services/analysis.js:147-148 | a value's drop from itself is 0, or `NaN` |
| Degradation.NoDropIsStable | src/services/analysis.js:150-153 | zero or `NaN` drops band as Stable |
| Degradation.SameWindowIsStable | src/services/analysis.js:138-153 | a window compared with itself is Stable |
| Degradation.ShortHistoryIsStable | src/services/analysis.js:129-153 | with 10 to 50 entries both windows are the whole history, so the trend is Stable |
| Degradation.MeanVoltsExact | src/services/analysis.js:141-142 | the mean voltage of parsed readings is their sum over the count, in volts |
| Degradation.RelativeDropFinite | src/services/analysis.js:147-148 | the drop between two finite values is `(o - r) / o * 100` |
| Degradation.VoltageDropOfSums | src/services/analysis.js:141-147 | the voltage drop is the relative difference of the two window sums |
| Degradation.RecentWindowHoldsEarliest | src/services/analysis.js:138-139 | from 100 corrected entries on, every entry of the window called recent is dated before every entry of the window called older |
| Balance.RealMinOf | src/services/analysis.js:16 | `Math.min(...)` is an element and below every element |
| Balance.RealMaxOf | src/services/analysis.js:17 | `Math.max(...)` is an element and above every element |
| Balance.InVolts | src/services/analysis.js:15 | every cell voltage divided by 1000 |
| Balance.CellImbalance | src/services/analysis.js:12-13 | no result exactly without cell data or voltages |
| Balance.MeanBetween | src/services/analysis.js:18 | the mean lies between any lower and upper bounds of the elements |
| Balance.CellImbalanceSpec | src/services/analysis.js:12-30 | min and max are cell voltages bounding all; the mean lies between them; the imbalance is their non-negative difference |
| Balance.BalanceWindow | src/services/analysis.js:185 | the first `min(10, n)` entries |
| Balance.BalanceOf | src/services/analysis.js:172-209 | keeps id and name; insufficient exactly without history, with imbalance 0 and no details |
| Balance.AnalyzeCellBalance | src/services/analysis.js:172-173 | one report per battery, each the battery's own |
| Balance.OnlyFirstTenCount | src/services/analysis.js:185 | entries after the tenth never affect the report |
| Balance.MaxSpreadExact | src/services/analysis.js:188-193 | for readable entries, the maximum spread is the largest millivolt spread, in volts |
| Balance.MaxSpreadNaN | src/services/analysis.js:193 | one unreadable entry makes the maximum `NaN` |
| Balance.StatusInMillivolts | src/services/analysis.js:195-198 | the volt bands 0.1, 0.05, 0.02 are the millivolt bands 100, 50, 20 |
| Balance.BalanceFromMillivolts | src/services/analysis.js:188-204 | for readable entries, status and imbalance come from the largest millivolt spread |
| Balance.UnreadableEntryReadsBalanced | src/services/analysis.js:188-198 | one unreadable entry among the first ten reads as balanced, with a `NaN` imbalance |
| Performance.EntryOf | src/services/analysis.js:219-236 | keeps id and name; the alert count is the number of alerts |
| Performance.Rank | src/services/analysis.js:242-247 | ranks from 1 in order; only the first is best; the others are above average exactly in the first half |
| Performance.ComparePerformance | src/services/analysis.js:216-248 | empty exactly below two batteries; otherwise one row per battery |
| Performance.RankedEntriesAreOrder | src/services/analysis.js:240-247 | the rows are the entries in sorted order |
| Performance.RankingPermutes | src/services/analysis.js:240 | every battery appears exactly once |
| Performance.RankingByScore | src/services/analysis.js:240 | with numeric scores, scores never increase down the ranking |
| Performance.TiesKeepInputOrder | src/services/analysis.js:240 | batteries with equal scores keep their input order |
| Performance.ScoreNeedsStatistics | src/services/analysis.js:220-235 | an unparsed SOH or cycle count makes the score `NaN` |
| Performance.TempReal | src/services/analysis.js:235 | the temperature term lies in 0..10 |
| Performance.TempTermFinite | src/services/analysis.js:235 | on numbers, the temperature term is its real formula |
| Performance.ScoreFinite | src/services/analysis.js:235 | on numbers, the score is its real formula |
| Performance.ScoreReflectsCondition | src/services/analysis.js:235 | a higher SOH never lowers the score; more cycles or alerts never raise it |
| Performance.MeanOrZeroFinite | src/services/analysis.js:222-225 | a mean of parsed readings is a number |
| Performance.EntryScored | src/services/analysis.js:219-235 | a battery whose statistics and readings all parse gets a numeric score |
| Risk.Factors | src/services/analysis.js:265-301 | at most four factors |
| Risk.SohFactorsPoints | src/services/analysis.js:266-275 | the SOH factor stands for the SOH points |
| Risk.CycleFactorsPoints | src/services/analysis.js:278-287 | the cycle factor stands for the cycle points |
| Risk.AlertFactorsPoints | src/services/analysis.js:290-301 | the alert factors stand for 20 per critical alert plus the warning points |
| Risk.ScoreIsSumOfFactors | src/services/analysis.js:265-301 | the raw score is the sum of the points of the recorded factors |
| Risk.NoFactorsIffNoPoints | src/services/analysis.js:257-301 | no factor exactly when the raw score is 0 |
| Risk.RiskOf | src/services/analysis.js:256-319 | keeps id and name; score in 0..100; the level bands the score; an excellent battery scores at most 10 and is Low; otherwise the score is `min(raw, 100)`; the factors as recorded |
| Risk.LevelMonotone | src/services/analysis.js:308-311 | a higher score is never a lower level |
| Risk.AssessRisk | src/services/analysis.js:255-256 | one report per battery, each the battery's own |
| Recommendations.Recommend | src/services/analysis.js:331-369 | at most three per battery, all naming it, none fleet-wide; priority 1 exactly for critical ones |
| Recommendations.RecommendConditions | src/services/analysis.js:336-368 | each kind is recommended exactly under its condition: SOH below 80, SOH in 80..89, more than 5000 cycles, a critical alert |
| Recommendations.AllBatteryRecommendations | src/services/analysis.js:331-369 | at most three per battery, none fleet-wide |
| Recommendations.FleetRecommendations | src/services/analysis.js:372-383 | at most one fleet recommendation |
| Recommendations.GenerateRecommendations | src/services/analysis.js:328-389 | at most three per battery plus one |
| Recommendations.RecommendationsPermute | src/services/analysis.js:386 | sorting loses and adds nothing |
| Recommendations.RecommendationsByPriority | src/services/analysis.js:386 | priorities never decrease down the list |
| Recommendations.EqualPrioritiesKeepOrder | src/services/analysis.js:386 | recommendations of equal priority stay in the order they were made |
| Recommendations.FleetRecommendationIff | src/services/analysis.js:372-386 | the list holds a fleet-wide recommendation exactly when the fleet is ageing |
| Recommendations.AgeingBySum | src/services/analysis.js:372-376 | with parsed SOHs, the fleet is ageing exactly with more than one battery and a sum below 85 per battery |
| Advanced.PerformAdvancedAnalysis | src/services/analysis.js:396-407 | nothing exactly without batteries; otherwise one health, degradation, balance and risk report per battery, each its own; the fleet ranking, empty exactly for one battery; and the fleet's sorted recommendations |

## Findings

| source | as written | input that shows it | evidently intended | confidence | as-written member | corrected member |
|---|---|---|---|---|---|---|
| src/services/analysis.js:95-97 | each cycle band's penalty restarts from 0 at the band's lower edge, so the penalty drops when a battery enters a higher band | SOH 90, no critical alert: the score is 87 at 6000 cycles and 89.998 at 6001 (penalty 3 falls to 0.002); likewise 2 falls to 0.0015 between 4000 and 4001 | a penalty that never decreases with wear, as the comment "sans inverser l'ordre" says | high (not executed) | Health.CyclePenaltyAsWritten, Health.CyclePenaltyAsWrittenDrops | Health.CyclePenalty, Health.CyclePenaltyMonotone |

The corrected penalty is the largest of the three band formulas, each capped
as in the source. It differs from the source only between 4001 and 5333
cycles and between 6001 and 7499 cycles. `Health.HealthOf`, and so
`Advanced.PerformAdvancedAnalysis`, keeps the source's penalty.
`Health.HealthOfCorrected` is the report with the corrected penalty.
`Health.HealthCorrectionOnlyLowersScore` relates the two reports.

## Left out

- The user interface (`src/App.js`) and its hooks are not part of this
  model. So are export, formatting, the database and the theme.
- Message texts (French, with `toFixed`-formatted readings) are modelled as
  structured kinds: `Alerts.AlertKind`, `Risk.RiskFactor` and
  `Recommendations.Kind`. The alert filter tests the kind, which is what
  the message's `Température`/`Tension` prefix encodes.
- `toFixed` strings are kept as numbers. These are display formatting.
  They occur in the degradation and balance reports, and in
  `comparePerformance`'s `avgVoltage.toFixed(2)` and `avgTemp.toFixed(1)`
  (src/services/analysis.js:232-233), which `Performance.Entry` keeps as
  `Num`. The `toLocaleDateString`/`toLocaleTimeString` renderings are kept
  as instants for the same reason.
- The constant `worstCells: []` of the balance report for a battery without
  history (src/services/analysis.js:180) is not a field of
  `Balance.BalanceReport`. It carries no information.
- Local-time conversion of the file date is the `localMs` parameter: it
  depends on the host time zone. An invalid calendar date (month 13) is
  passed through, as the source does.
- Floating point: numbers are exact reals. Rounding, `-0`, and overflow to
  infinity of huge sums are not modelled.
- Performance.SortKey: a `NaN` score makes the comparator return `NaN`, and
  the engine's resulting order is implementation-defined. The model sorts
  such an entry as if its score were 0. The order lemmas assume numeric
  scores.
- Text.AsciiLower: lower-cases ASCII letters only. Other characters whose
  lower case is ASCII cannot complete the needle `device address`, so
  `IsDeviceKey` is unaffected.
- `parseFile` returns an empty `alerts` list. Callers add `alerts`,
  `batteryId` and `displayName` to build a loaded battery
  (`Batteries.Battery`); that assembly is not modelled.
- `!battery.history` (a battery without a history array) cannot occur in the
  model, where every battery has a sequence.
- `hasCorrectedDates` is absent from the source's result when no correction
  happened; the model uses `false`.

## Notes on the source

- The display name starts with the French prefix "Batterie "
  (`src/services/parser.js:240-246`).
- The "recent" degradation window is the first fifty stored entries
  (`src/services/analysis.js:138`). Under date correction those are the
  oldest: `Degradation.RecentWindowHoldsEarliest` states this.
