/** Reconstruction of history timestamps from the file's creation instant
    (`correctHistoryDates`, src/services/parser.js). The device's own clock
    is unreliable, so the newest entry (the last line) is taken to be the
    file's instant and each earlier line one recording interval before the
    next. */
module DateCorrection {
  import opened Options
  import opened Records

  /** One history line per minute (src/constants/thresholds.js). */
  const HistoryEntryIntervalMs: int := 60000

  /** The entry with its reconstructed instant and a copy of its raw day and
      time attached. */
  function Corrected(e: HistoryEntry, instantMs: int): HistoryEntry {
    e.(correction := Some(Correction(instantMs, e.day, e.time)))
  }

  /** Corrects `h` so that its last entry lands on `lastMs`, walking back
      one interval per entry. */
  function CorrectEndingAt(h: seq<HistoryEntry>, lastMs: int): (r: seq<HistoryEntry>)
    ensures |r| == |h|
    ensures forall i :: 0 <= i < |h| ==>
              r[i] == Corrected(h[i], lastMs - (|h| - 1 - i) * HistoryEntryIntervalMs)
    decreases |h|
  {
    if |h| == 0 then []
    else CorrectEndingAt(h[..|h| - 1], lastMs - HistoryEntryIntervalMs) + [Corrected(h[|h| - 1], lastMs)]
  }

  /** `correctHistoryDates`: without a file instant, or with no entries, the
      history is returned as is; otherwise every entry is corrected, the
      last one to the file instant itself. */
  function CorrectHistoryDates(history: seq<HistoryEntry>, fileMs: Option<int>): (r: seq<HistoryEntry>)
    ensures |r| == |history|
    ensures fileMs.None? ==> r == history
    ensures fileMs.Some? ==> forall i :: 0 <= i < |history| ==> r[i].correction.Some?
  {
    if fileMs.None? || |history| == 0 then history
    else CorrectEndingAt(history, fileMs.value)
  }

  /** Instant attached to an entry, if any. */
  function InstantOf(e: HistoryEntry): Option<int> {
    if e.correction.Some? then Some(e.correction.value.instantMs) else None
  }

  /** The newest entry carries exactly the file instant. */
  lemma LastEntryAtFileInstant(history: seq<HistoryEntry>, fileMs: int)
    requires |history| > 0
    ensures InstantOf(CorrectHistoryDates(history, Some(fileMs))[|history| - 1]) == Some(fileMs)
  {
  }

  /** Consecutive entries are exactly one interval apart, so the corrected
      instants increase strictly along the history. */
  lemma ConsecutiveEntriesOneIntervalApart(history: seq<HistoryEntry>, fileMs: int, i: nat)
    requires i + 1 < |history|
    ensures var r := CorrectHistoryDates(history, Some(fileMs));
            && InstantOf(r[i]).Some? && InstantOf(r[i + 1]).Some?
            && InstantOf(r[i + 1]).value - InstantOf(r[i]).value == HistoryEntryIntervalMs
  {
  }

  /** The instant of entry `i` lies `|history| - 1 - i` intervals before the
      file instant. */
  lemma EntryInstant(history: seq<HistoryEntry>, fileMs: int, i: nat)
    requires i < |history|
    ensures InstantOf(CorrectHistoryDates(history, Some(fileMs))[i])
            == Some(fileMs - (|history| - 1 - i) * HistoryEntryIntervalMs)
  {
  }

  /** Correction only adds the correction record: every raw field, including
      the original day and time now copied into the record, is unchanged. */
  lemma CorrectionKeepsRawFields(history: seq<HistoryEntry>, fileMs: Option<int>, i: nat)
    requires i < |history|
    ensures var r := CorrectHistoryDates(history, fileMs);
            && r[i].(correction := history[i].correction) == history[i]
            && (r[i].correction.Some? && fileMs.Some? ==>
                  r[i].correction.value.originalDay == history[i].day
                  && r[i].correction.value.originalTime == history[i].time)
  {
  }

  /** Correcting an already corrected history with the same instant changes
      nothing, since the copied day and time are the untouched raw ones. */
  lemma CorrectionIdempotent(history: seq<HistoryEntry>, fileMs: Option<int>)
    ensures CorrectHistoryDates(CorrectHistoryDates(history, fileMs), fileMs)
            == CorrectHistoryDates(history, fileMs)
  {
    var once := CorrectHistoryDates(history, fileMs);
    var twice := CorrectHistoryDates(once, fileMs);
    if fileMs.Some? && |history| > 0 {
      forall i | 0 <= i < |history| ensures twice[i] == once[i] {
      }
    }
  }
}
