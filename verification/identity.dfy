/** Identity of a battery derived from its log file name and parsed
    metadata: the battery id, the creation date-time embedded in the name, and
    the default display name (src/services/parser.js). */
module Identity {
  import opened Options
  import opened Text
  import Seqs
  import opened Records

  // ------------------------------------------------------ battery id

  /** Characters of the class `[A-Z0-9]` (case-sensitive). */
  predicate IsSerialChar(c: char) { 'A' <= c <= 'Z' || IsDigit(c) }

  const HistoryMarker: string := "_history"

  /** The regular expression `/[HK]([A-Z0-9]+)_history/` matches at `i`, the
      capture group ending at `e`. */
  predicate IdMatch(s: string, i: int, e: int) {
    && 0 <= i && i + 1 < e && e + |HistoryMarker| <= |s|
    && (s[i] == 'H' || s[i] == 'K')
    && (forall k :: i + 1 <= k < e ==> IsSerialChar(s[k]))
    && s[e..e + |HistoryMarker|] == HistoryMarker
  }

  /** Decides whether the pattern matches at `i`. Since `_` is not a serial
      character, the greedy run of serial characters after the tag is the
      only candidate capture. */
  function MatchEnd(s: string, i: nat): (r: Option<nat>)
    requires i < |s|
    ensures r.Some? ==> IdMatch(s, i, r.value)
    ensures r.None? ==> forall e :: !IdMatch(s, i, e)
  {
    CaptureIsRun(s, i);
    if s[i] != 'H' && s[i] != 'K' then None
    else
      var e := RunEnd(s, i + 1, IsSerialChar);
      if e > i + 1 && e + |HistoryMarker| <= |s| && s[e..e + |HistoryMarker|] == HistoryMarker then Some(e)
      else None
  }

  /** A capture always ends where the run of serial characters after the tag
      ends, because `_` is not a serial character. */
  lemma CaptureIsRun(s: string, i: nat)
    requires i < |s|
    ensures forall e :: IdMatch(s, i, e) ==> e == RunEnd(s, i + 1, IsSerialChar)
  {
    forall e | IdMatch(s, i, e) ensures e == RunEnd(s, i + 1, IsSerialChar) {
      assert s[e] == HistoryMarker[0];
    }
  }

  /** The leftmost match at or after `from`, as the regular-expression engine
      scans start positions left to right. */
  function FindIdMatch(s: string, from: nat): (r: Option<(nat, nat)>)
    requires from <= |s|
    ensures r.Some? ==> from <= r.value.0 && IdMatch(s, r.value.0, r.value.1)
    ensures r.Some? ==> forall k, e :: from <= k < r.value.0 ==> !IdMatch(s, k, e)
    ensures r.None? ==> forall k, e :: from <= k ==> !IdMatch(s, k, e)
    decreases |s| - from
  {
    if from == |s| then None
    else match MatchEnd(s, from)
      case Some(e) => Some((from, e))
      case None => FindIdMatch(s, from + 1)
  }

  /** The file name with every character outside `[a-zA-Z0-9]` removed. */
  function AlnumOnly(s: string): string {
    Seqs.Filter(s, IsAsciiAlnum)
  }

  /** `generateBatteryId`: the serial of the leftmost `[HK]<serial>_history`
      in the file name, else the first twelve ASCII letters and digits of the
      name. Either way the id consists of ASCII letters and digits only. */
  function GenerateBatteryId(filename: string): (id: string)
    ensures |id| <= |filename|
    ensures forall k :: 0 <= k < |id| ==> IsAsciiAlnum(id[k])
  {
    match FindIdMatch(filename, 0)
    case Some((i, e)) => filename[i + 1..e]
    case None =>
      var kept := AlnumOnly(filename);
      kept[..if |kept| < 12 then |kept| else 12]
  }

  /** Match case: the id is the capture of the leftmost match. */
  lemma BatteryIdOfMatch(s: string, i: nat, e: nat)
    requires IdMatch(s, i, e)
    requires forall k, e' :: 0 <= k < i ==> !IdMatch(s, k, e')
    ensures GenerateBatteryId(s) == s[i + 1..e]
  {
    CaptureIsRun(s, i);
  }

  /** Fallback case: without a match the id is the first (at most twelve)
      ASCII letters and digits of the name, in order. */
  lemma BatteryIdFallback(s: string)
    requires forall k, e :: !IdMatch(s, k, e)
    ensures var id := GenerateBatteryId(s);
            && |id| <= 12
            && id == AlnumOnly(s)[..|id|]
            && (|AlnumOnly(s)| >= 12 ==> |id| == 12)
            && Seqs.IsSubsequence(id, s)
  {
    var id := GenerateBatteryId(s);
    var kept := AlnumOnly(s);
    Seqs.FilterIsSubsequence(s, IsAsciiAlnum);
    PrefixOfSubsequence(id, kept, s);
  }

  lemma {:induction false} PrefixOfSubsequence(p: string, a: string, b: string)
    requires |p| <= |a| && p == a[..|p|]
    requires Seqs.IsSubsequence(a, b)
    ensures Seqs.IsSubsequence(p, b)
    decreases |b|
  {
    if |p| > 0 && |b| > 0 {
      if a[0] == b[0] {
        PrefixOfSubsequence(p[1..], a[1..], b[1..]);
      } else {
        PrefixOfSubsequence(p, a, b[1..]);
      }
    }
  }

  // -------------------------------------------------- file date-time

  const DatetimeSuffix: nat := 27  // "_history_" + 14 digits + ".txt"

  predicate IsTagCi(c: char) { c == 'H' || c == 'K' || c == 'h' || c == 'k' }

  /** ASCII case-insensitive equality, as a non-Unicode `/i` regular
      expression compares characters. */
  predicate EqualsIgnoringCase(a: string, b: string) {
    |a| == |b| && forall k :: 0 <= k < |a| ==> LowerChar(a[k]) == LowerChar(b[k])
  }

  /** The regular expression `/[HK][A-Z0-9]+_history_(\d{14})\.txt$/i`
      matches `s` starting at `i`; the match always ends at the end of `s`. */
  ghost predicate DatetimeMatchAt(s: string, i: int) {
    var j := |s| - DatetimeSuffix;
    && 0 <= i && i + 2 <= j
    && IsTagCi(s[i])
    && (forall k :: i < k < j ==> IsAsciiAlnum(s[k]))
    && EqualsIgnoringCase(s[j..j + 9], "_history_")
    && IsDigits(s[j + 9..j + 23])
    && EqualsIgnoringCase(s[j + 23..], ".txt")
  }

  /** Whether some `i <= k` starts a tag followed by letters and digits up to
      `j`, scanning backwards from `k`. */
  function TagBefore(s: string, k: nat, j: nat): (b: bool)
    requires k < j <= |s|
    requires forall m :: k < m < j ==> IsAsciiAlnum(s[m])
    ensures b <==> exists i :: 0 <= i <= k && IsTagCi(s[i]) && forall m :: i < m < j ==> IsAsciiAlnum(s[m])
    decreases k
  {
    if IsTagCi(s[k]) then true
    else if !IsAsciiAlnum(s[k]) then false
    else if k == 0 then false
    else TagBefore(s, k - 1, j)
  }

  /** The six calendar fields of a `YYYYMMDDHHMMSS` block. */
  function DateFields(d: string): DateTime
    requires |d| == 14 && IsDigits(d)
  {
    DateTime(DecimalValue(d[0..4]), DecimalValue(d[4..6]), DecimalValue(d[6..8]),
             DecimalValue(d[8..10]), DecimalValue(d[10..12]), DecimalValue(d[12..14]))
  }

  /** The test `extractFileDatetime` performs, written as a left-to-right
      check of the fixed-length suffix followed by a backward scan for the
      tag. */
  predicate DatetimeShape(s: string) {
    && |s| >= DatetimeSuffix + 2
    && var j := |s| - DatetimeSuffix;
       && EqualsIgnoringCase(s[j..j + 9], "_history_")
       && IsDigits(s[j + 9..j + 23])
       && EqualsIgnoringCase(s[j + 23..], ".txt")
       && IsAsciiAlnum(s[j - 1])
       && TagBefore(s, j - 2, j)
  }

  /** The check agrees with the regular expression. */
  lemma DatetimeShapeIff(s: string)
    ensures DatetimeShape(s) <==> exists i :: DatetimeMatchAt(s, i)
  {
    if DatetimeShape(s) {
      var j := |s| - DatetimeSuffix;
      var i :| 0 <= i <= j - 2 && IsTagCi(s[i]) && forall m :: i < m < j ==> IsAsciiAlnum(s[m]);
      assert DatetimeMatchAt(s, i);
    }
    forall i | DatetimeMatchAt(s, i) ensures DatetimeShape(s) {
      var j := |s| - DatetimeSuffix;
      assert IsAsciiAlnum(s[j - 1]);
      assert TagBefore(s, j - 2, j);
    }
  }

  /** `extractFileDatetime`: the date-time of a name ending in
      `[HK]<letters/digits>_history_<14 digits>.txt` (any case), read from the
      digit groups 4/2/2/2/2/2; `None` for any other name. */
  function ExtractFileDatetime(filename: string): (r: Option<DateTime>)
    ensures r.Some? <==> exists i :: DatetimeMatchAt(filename, i)
    ensures r.Some? ==> |filename| >= DatetimeSuffix + 2
    ensures r.Some? ==> IsDigits(filename[|filename| - 18..|filename| - 4])
                        && r.value == DateFields(filename[|filename| - 18..|filename| - 4])
  {
    DatetimeShapeIff(filename);
    if DatetimeShape(filename) then
      var j := |filename| - DatetimeSuffix;
      assert filename[|filename| - 18..|filename| - 4] == filename[j + 9..j + 23];
      Some(DateFields(filename[j + 9..j + 23]))
    else None
  }

  /** A name that follows the device's convention exactly,
      `H|K` + serial + `_history_` + `YYYYMMDDHHMMSS` + `.txt`, yields the
      serial as battery id and the digit groups as the file date-time. */
  lemma ConventionalFileName(tag: char, serial: string, digits: string)
    requires tag == 'H' || tag == 'K'
    requires |serial| > 0 && forall k :: 0 <= k < |serial| ==> IsSerialChar(serial[k])
    requires |digits| == 14 && IsDigits(digits)
    ensures var name := [tag] + serial + "_history_" + digits + ".txt";
            && GenerateBatteryId(name) == serial
            && ExtractFileDatetime(name) == Some(DateFields(digits))
  {
    var name := [tag] + serial + "_history_" + digits + ".txt";
    var e := 1 + |serial|;
    assert name[1..e] == serial;
    assert name[e..e + |HistoryMarker|] == HistoryMarker;
    assert IdMatch(name, 0, e);
    BatteryIdOfMatch(name, 0, e);
    var j := |name| - DatetimeSuffix;
    assert j == e;
    assert name[j..j + 9] == "_history_";
    assert name[j + 9..j + 23] == digits;
    assert name[j + 23..] == ".txt";
    assert DatetimeMatchAt(name, 0);
    assert name[|name| - 18..|name| - 4] == digits;
  }

  // ---------------------------------------------------- display name

  const DisplayPrefix: string := "Batterie "

  /** `generateDisplayName`: "Batterie " followed by the first available of
      the parsed device address, the `Device address` info value, and the
      first eight characters of the battery id. */
  function GenerateDisplayName(doc: Document, batteryId: string): (name: string)
    ensures |name| >= |DisplayPrefix| && name[..|DisplayPrefix|] == DisplayPrefix
    ensures Truthy(doc.deviceAddress) ==> name[|DisplayPrefix|..] == doc.deviceAddress.value
    ensures !Truthy(doc.deviceAddress) && "Device address" in doc.info && doc.info["Device address"] != ""
            ==> name[|DisplayPrefix|..] == doc.info["Device address"]
    ensures !Truthy(doc.deviceAddress) && !("Device address" in doc.info && doc.info["Device address"] != "")
            ==> name[|DisplayPrefix|..] == batteryId[..if |batteryId| < 8 then |batteryId| else 8]
  {
    if Truthy(doc.deviceAddress) then DisplayPrefix + doc.deviceAddress.value
    else if "Device address" in doc.info && doc.info["Device address"] != "" then DisplayPrefix + doc.info["Device address"]
    else DisplayPrefix + batteryId[..if |batteryId| < 8 then |batteryId| else 8]
  }
}
