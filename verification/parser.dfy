/** `parseFile` (src/services/parser.js): a line-by-line state machine over
    the sections of a battery `history` dump. Header lines switch section,
    `key: value` lines of the info and stats sections fill two maps, and
    number-led lines of the history section become history entries. */
module Parser {
  import opened Options
  import opened Text
  import opened JsNumbers
  import opened Records
  import opened Cells
  import opened Identity
  import opened DateCorrection

  datatype Section = NoSection | InfoSection | StatsSection | HistorySection

  // ------------------------------------------------------------- headers

  /** The section a trimmed line opens, if it is a header: `info` is tested
      first, then `stat`, then `data history` / `datalist history`. */
  function HeaderOf(line: string): (r: Option<Section>)
    ensures r != Some(NoSection)
  {
    if Contains(line, "info") then Some(InfoSection)
    else if Contains(line, "stat") then Some(StatsSection)
    else if Contains(line, "data history") || Contains(line, "datalist history") then Some(HistorySection)
    else None
  }

  /** Header recognition in terms of occurrences: `info` wins over `stat`,
      which wins over the two history markers, and any other line is not a
      header. */
  lemma HeaderOfOccurrences(line: string)
    ensures HeaderOf(line) == Some(InfoSection) <==> Occurs("info", line)
    ensures HeaderOf(line) == Some(StatsSection) <==> !Occurs("info", line) && Occurs("stat", line)
    ensures HeaderOf(line) == Some(HistorySection) <==>
              && !Occurs("info", line) && !Occurs("stat", line)
              && (Occurs("data history", line) || Occurs("datalist history", line))
    ensures HeaderOf(line).None? <==>
              && !Occurs("info", line) && !Occurs("stat", line)
              && !Occurs("data history", line) && !Occurs("datalist history", line)
  {
  }

  // ---------------------------------------------------------- key: value

  /** The text before the first colon (all of `s` when there is none). */
  function BeforeColon(s: string): (r: string)
    ensures ':' !in r
  {
    s[..IndexOf(s, ':')]
  }

  /** The text between the first colon and the next one, or the end. */
  function AfterColon(s: string): (r: string)
    requires ':' in s
    ensures ':' !in r
  {
    BeforeColon(s[IndexOf(s, ':') + 1..])
  }

  /** A stored key or value: non-empty, trimmed and free of colons. */
  predicate Clean(s: string) {
    s != "" && IsTrimmed(s) && ':' !in s
  }

  /** `line.split(':').map(s => s.trim())` destructured as `[key, value]`:
      pieces after the second are dropped, so `a: b: c` yields `(a, b)`;
      `None` unless both the key and the value are non-empty. */
  function KeyValue(line: string): (r: Option<(string, string)>)
    ensures r.Some? ==> Clean(r.value.0) && Clean(r.value.1)
  {
    var parts := Split(line, ':');
    SplitHead(line);
    if |parts| < 2 then None
    else
      SplitSecond(line);
      TrimKeepsColonFree(parts[0]);
      TrimKeepsColonFree(parts[1]);
      var key, value := Trim(parts[0]), Trim(parts[1]);
      if key != "" && value != "" then Some((key, value)) else None
  }

  /** The key is the trimmed text before the first colon and the value the
      trimmed text between the first and the second colon; a pair is
      produced exactly when the line has a colon and both are non-empty. */
  lemma KeyValueSpec(line: string)
    ensures KeyValue(line).Some? <==>
              ':' in line && Trim(BeforeColon(line)) != "" && Trim(AfterColon(line)) != ""
    ensures KeyValue(line).Some? ==>
              KeyValue(line).value == (Trim(BeforeColon(line)), Trim(AfterColon(line)))
  {
    SplitHead(line);
    if ':' in line {
      SplitSecond(line);
    }
  }

  lemma SplitHead(s: string)
    ensures Split(s, ':')[0] == BeforeColon(s)
  {
  }

  lemma SplitSecond(s: string)
    requires ':' in s
    ensures |Split(s, ':')| >= 2 && Split(s, ':')[1] == AfterColon(s)
  {
    var i := IndexOf(s, ':');
    assert Split(s, ':') == [s[..i]] + Split(s[i + 1..], ':');
    SplitHead(s[i + 1..]);
  }

  /** Trimming cannot introduce a character. */
  lemma TrimKeepsColonFree(s: string)
    requires ':' !in s
    ensures ':' !in Trim(s)
  {
    var r := Trim(s);
    var a := |s| - |TrimStart(s)|;
    forall k | 0 <= k < |r| ensures r[k] != ':' {
      assert r[k] == s[a + k];
    }
  }

  /** A line written as colon-free pieces joined by colons stores its first
      two pieces, trimmed, as key and value; the rest is dropped. */
  lemma KeyValueOfJoin(parts: seq<string>)
    requires |parts| >= 2
    requires forall i :: 0 <= i < |parts| ==> ':' !in parts[i]
    requires Trim(parts[0]) != "" && Trim(parts[1]) != ""
    ensures KeyValue(Join(parts, ':')) == Some((Trim(parts[0]), Trim(parts[1])))
  {
    SplitJoin(parts, ':');
    var line := Join(parts, ':');
    assert ':' in line;
    KeyValueSpec(line);
    SplitHead(line);
    SplitSecond(line);
  }

  /** Keys whose lower-case form names the device address. */
  predicate IsDeviceKey(k: string) {
    Contains(AsciiLower(k), "device address")
  }

  // ------------------------------------------------------------- records

  /** `/^\d+\s+/`: the line starts with decimal digits followed by white space. */
  function IsRecordLine(line: string): (b: bool)
    ensures b <==> exists n :: 0 < n < |line| && IsDigits(line[..n]) && IsSpace(line[n])
  {
    RecordLineIff(line);
    var e := RunEnd(line, 0, IsDigit);
    0 < e < |line| && IsSpace(line[e])
  }

  lemma RecordLineIff(line: string)
    ensures var e := RunEnd(line, 0, IsDigit);
            (0 < e < |line| && IsSpace(line[e])) <==>
            exists n :: 0 < n < |line| && IsDigits(line[..n]) && IsSpace(line[n])
  {
    var e := RunEnd(line, 0, IsDigit);
    if 0 < e < |line| && IsSpace(line[e]) {
      assert IsDigits(line[..e]);
    }
    forall n | 0 < n < |line| && IsDigits(line[..n]) && IsSpace(line[n])
      ensures e == n
    {
      assert forall k :: 0 <= k < n ==> IsDigit(line[k]) by {
        forall k | 0 <= k < n ensures IsDigit(line[k]) {
          assert line[..n][k] == line[k];
        }
      }
      RunEndExact(line, 0, n, IsDigit);
    }
  }

  /** Token `i`, or `None` (JavaScript `undefined`) past the end. */
  function At(parts: seq<string>, i: nat): (r: Option<string>)
    ensures r.Some? <==> i < |parts|
    ensures r.Some? ==> r.value == parts[i]
  {
    if i < |parts| then Some(parts[i]) else None
  }

  /** The history entry built from the tokens of a record line: id, day and
      time from tokens 0-2, seven readings parsed from tokens 3-9, four
      states from tokens 10-13, the state of charge from token 16 (tokens 14
      and 15 are not read), and cell data only when there are more than 17
      tokens. */
  function EntryOf(parts: seq<string>): HistoryEntry
    requires |parts| >= 10
  {
    HistoryEntry(
      parts[0], parts[1], parts[2],
      ParseInt(parts[3]), ParseInt(parts[4]), ParseInt(parts[5]), ParseInt(parts[6]),
      ParseInt(parts[7]), ParseInt(parts[8]), ParseInt(parts[9]),
      At(parts, 10), At(parts, 11), At(parts, 12), At(parts, 13), At(parts, 16),
      if |parts| > 17 then Some(ParseCellData(parts)) else None,
      None)
  }

  /** An entry as the parser produces it: a numeric id, well-shaped cell
      data, and no date correction yet. */
  predicate RawEntry(e: HistoryEntry) {
    && e.id != "" && IsDigits(e.id)
    && (e.cellData.Some? ==> WellShaped(e.cellData.value))
    && e.correction.None?
  }

  /** The entry a trimmed history-section line adds, if any: the line must
      be a record line and split into at least 10 tokens. */
  function RecordOf(line: string): (r: Option<HistoryEntry>)
    ensures r.Some? ==> RawEntry(r.value)
  {
    if IsRecordLine(line) && |SplitWs(line)| >= 10 then
      var parts := SplitWs(line);
      IdIsLeadingNumber(line);
      Some(EntryOf(parts))
    else None
  }

  /** An entry is produced exactly for a record line of at least ten tokens;
      it has cell data exactly when there are more than 17 tokens. */
  lemma RecordOfSpec(line: string)
    ensures RecordOf(line).Some? <==> IsRecordLine(line) && |SplitWs(line)| >= 10
    ensures RecordOf(line).Some? ==>
              (RecordOf(line).value.cellData.Some? <==> |SplitWs(line)| > 17)
  {
  }

  /** The first token of a record line is its leading number. */
  lemma IdIsLeadingNumber(line: string)
    requires IsRecordLine(line)
    ensures var id := SplitWs(line)[0]; id != "" && IsDigits(id)
  {
    var e := RunEnd(line, 0, IsDigit);
    RunEndExact(line, 0, e, NotSpace);
    assert SplitWs(line)[0] == line[..e];
    assert IsDigits(line[..e]);
  }

  // ------------------------------------------------------- state machine

  datatype ParseState = ParseState(
    section: Section,
    info: map<string, string>,
    stats: map<string, string>,
    history: seq<HistoryEntry>,
    deviceAddress: Option<string>)

  const Initial: ParseState := ParseState(NoSection, map[], map[], [], None)

  /** One line of the loop. The line is trimmed; a header only switches
      section; otherwise the line is read according to the current section. */
  function Step(st: ParseState, raw: string): ParseState {
    var line := Trim(raw);
    match HeaderOf(line)
    case Some(s) => st.(section := s)
    case None =>
      if st.section == InfoSection then InfoLine(st, line)
      else if st.section == StatsSection then StatsLine(st, line)
      else if st.section == HistorySection then HistoryLine(st, line)
      else st
  }

  /** The key a plain object does not store: assigning a string to
      `obj['__proto__']` goes to the inherited setter, which ignores any value
      that is not an object. */
  const ProtoKey: string := "__proto__"

  /** `obj[k] = v` on a plain object holding string values. */
  function Assign(m: map<string, string>, k: string, v: string): (r: map<string, string>)
    ensures k != ProtoKey ==> r == m[k := v]
    ensures ProtoKey in r <==> ProtoKey in m
  {
    if k == ProtoKey then m else m[k := v]
  }

  /** An info line with a key and a value stores them; a device-address key
      also sets the device address. */
  function InfoLine(st: ParseState, line: string): ParseState {
    if ':' in line then
      match KeyValue(line)
      case Some((k, v)) =>
        st.(info := Assign(st.info, k, v),
            deviceAddress := if IsDeviceKey(k) then Some(v) else st.deviceAddress)
      case None => st
    else st
  }

  function StatsLine(st: ParseState, line: string): ParseState {
    if ':' in line then
      match KeyValue(line)
      case Some((k, v)) => st.(stats := Assign(st.stats, k, v))
      case None => st
    else st
  }

  function HistoryLine(st: ParseState, line: string): ParseState {
    match RecordOf(line)
    case Some(e) => st.(history := st.history + [e])
    case None => st
  }

  /** The loop over the lines, first to last. */
  function Scan(lines: seq<string>, st: ParseState): ParseState
    decreases |lines|
  {
    if |lines| == 0 then st else Scan(lines[1..], Step(st, lines[0]))
  }

  // ---------------------------------------------------------- invariants

  predicate CleanMap(m: map<string, string>) {
    forall k :: k in m ==> Clean(k) && Clean(m[k])
  }

  /** The device address is present exactly when some stored info key names
      it, and it is the value of such a key. */
  predicate DeviceTracked(info: map<string, string>, dev: Option<string>) {
    && (dev.Some? <==> exists k :: k in info && IsDeviceKey(k))
    && (dev.Some? ==> exists k :: k in info && IsDeviceKey(k) && info[k] == dev.value)
  }

  predicate RawHistory(h: seq<HistoryEntry>) {
    forall i :: 0 <= i < |h| ==> RawEntry(h[i])
  }

  predicate Good(st: ParseState) {
    && CleanMap(st.info) && CleanMap(st.stats) && DeviceTracked(st.info, st.deviceAddress) && RawHistory(st.history)
    && ProtoKey !in st.info && ProtoKey !in st.stats
  }

  lemma CleanMapUpdate(m: map<string, string>, k: string, v: string)
    requires CleanMap(m) && Clean(k) && Clean(v)
    ensures CleanMap(Assign(m, k, v))
  {
  }

  /** Storing a pair keeps the device address tracked. */
  lemma DeviceTrackedUpdate(info: map<string, string>, dev: Option<string>, k: string, v: string)
    requires DeviceTracked(info, dev)
    ensures DeviceTracked(Assign(info, k, v), if IsDeviceKey(k) then Some(v) else dev)
  {
    var info' := Assign(info, k, v);
    if k == ProtoKey {
      assert !IsDeviceKey(k);
    } else if IsDeviceKey(k) {
      assert k in info' && IsDeviceKey(k) && info'[k] == v;
    } else if dev.Some? {
      var k0 :| k0 in info && IsDeviceKey(k0) && info[k0] == dev.value;
      assert k0 in info' && info'[k0] == info[k0];
    } else {
      assert forall k0 :: k0 in info' && IsDeviceKey(k0) ==> k0 in info;
    }
  }

  lemma InfoLineGood(st: ParseState, line: string)
    requires Good(st)
    ensures Good(InfoLine(st, line))
  {
    if ':' in line && KeyValue(line).Some? {
      var (k, v) := KeyValue(line).value;
      CleanMapUpdate(st.info, k, v);
      DeviceTrackedUpdate(st.info, st.deviceAddress, k, v);
      assert InfoLine(st, line) == st.(info := Assign(st.info, k, v),
            deviceAddress := if IsDeviceKey(k) then Some(v) else st.deviceAddress);
    }
  }

  lemma StatsLineGood(st: ParseState, line: string)
    requires Good(st)
    ensures Good(StatsLine(st, line))
  {
    if ':' in line && KeyValue(line).Some? {
      var (k, v) := KeyValue(line).value;
      CleanMapUpdate(st.stats, k, v);
      assert StatsLine(st, line) == st.(stats := Assign(st.stats, k, v));
    }
  }

  lemma HistoryLineGood(st: ParseState, line: string)
    requires Good(st)
    ensures Good(HistoryLine(st, line))
  {
    if RecordOf(line).Some? {
      var e := RecordOf(line).value;
      assert HistoryLine(st, line) == st.(history := st.history + [e]);
      assert RawHistory(st.history + [e]);
    }
  }

  lemma StepGood(st: ParseState, raw: string)
    requires Good(st)
    ensures Good(Step(st, raw))
  {
    var line := Trim(raw);
    if HeaderOf(line).None? {
      if st.section == InfoSection {
        InfoLineGood(st, line);
      } else if st.section == StatsSection {
        StatsLineGood(st, line);
      } else if st.section == HistorySection {
        HistoryLineGood(st, line);
      }
    }
  }

  /** Every state the loop reaches keeps well-formed maps, a tracked device
      address and raw entries. */
  lemma {:induction false} ScanGood(lines: seq<string>, st: ParseState)
    requires Good(st)
    ensures Good(Scan(lines, st))
    decreases |lines|
  {
    if |lines| > 0 {
      StepGood(st, lines[0]);
      ScanGood(lines[1..], Step(st, lines[0]));
    }
  }

  /** Reading `a + b` is reading `a`, then `b`. */
  lemma {:induction false} ScanAppend(a: seq<string>, b: seq<string>, st: ParseState)
    ensures Scan(a + b, st) == Scan(b, Scan(a, st))
    decreases |a|
  {
    if |a| > 0 {
      assert (a + b)[1..] == a[1..] + b;
      ScanAppend(a[1..], b, Step(st, a[0]));
    } else {
      assert a + b == b;
    }
  }

  /** Without a header, nothing before the first header is read. */
  lemma {:induction false} NoHeaderNoEffect(lines: seq<string>)
    requires forall i :: 0 <= i < |lines| ==> HeaderOf(Trim(lines[i])).None?
    ensures Scan(lines, Initial) == Initial
    decreases |lines|
  {
    if |lines| > 0 {
      assert Step(Initial, lines[0]) == Initial;
      NoHeaderNoEffect(lines[1..]);
    }
  }

  // ------------------------------------------------------------ one line

  /** A header line only switches section, whatever it contains: a line
      holding `stat` is never stored, even in the info section. */
  lemma HeaderLineOnlySwitches(st: ParseState, raw: string)
    requires HeaderOf(Trim(raw)).Some?
    ensures Step(st, raw) == st.(section := HeaderOf(Trim(raw)).value)
    ensures Occurs("stat", Trim(raw)) ==> Step(st, raw).info == st.info && Step(st, raw).stats == st.stats
  {
  }

  /** An info-section line with a key and a value stores exactly that pair,
      unless the key is `__proto__`, and leaves the statistics and the
      history alone. */
  lemma InfoLineStored(st: ParseState, raw: string)
    requires st.section == InfoSection && HeaderOf(Trim(raw)).None?
    requires KeyValue(Trim(raw)).Some?
    ensures var (k, v) := KeyValue(Trim(raw)).value;
            var r := Step(st, raw);
            && (k != ProtoKey ==> r.info == st.info[k := v])
            && (k == ProtoKey ==> r.info == st.info)
            && r.stats == st.stats && r.history == st.history && r.section == st.section
            && (IsDeviceKey(k) ==> r.deviceAddress == Some(v))
            && (!IsDeviceKey(k) ==> r.deviceAddress == st.deviceAddress)
  {
    assert Step(st, raw) == InfoLine(st, Trim(raw));
  }

  /** A `__proto__ : value` line of the info or stats section changes
      nothing: the assignment is dropped and the key does not name the device
      address. */
  lemma ProtoKeyIgnored(st: ParseState, raw: string)
    requires st.section == InfoSection || st.section == StatsSection
    requires HeaderOf(Trim(raw)).None?
    requires KeyValue(Trim(raw)).Some? && KeyValue(Trim(raw)).value.0 == ProtoKey
    ensures Step(st, raw) == st
  {
    assert !IsDeviceKey(ProtoKey);
  }

  /** Lines of the info and stats sections without a key and a value change
      nothing. */
  lemma IncompleteLineIgnored(st: ParseState, raw: string)
    requires st.section == InfoSection || st.section == StatsSection
    requires HeaderOf(Trim(raw)).None? && KeyValue(Trim(raw)).None?
    ensures Step(st, raw) == st
  {
  }

  /** A history-section line made of at least ten space-free tokens, the
      first a number, adds one entry built from those tokens. */
  lemma RecordLineAppended(st: ParseState, tokens: seq<string>)
    requires st.section == HistorySection
    requires |tokens| >= 10
    requires forall i :: 0 <= i < |tokens| ==> |tokens[i]| > 0 && NoSpace(tokens[i])
    requires IsDigits(tokens[0])
    requires HeaderOf(Join(tokens, ' ')).None?
    ensures Step(st, Join(tokens, ' ')).history == st.history + [EntryOf(tokens)]
  {
    JoinIsItsTrim(tokens);
    RecordOfJoin(tokens);
    RecordAppended(st, Join(tokens, ' '));
  }

  lemma JoinIsItsTrim(tokens: seq<string>)
    requires |tokens| >= 1
    requires forall i :: 0 <= i < |tokens| ==> |tokens[i]| > 0 && NoSpace(tokens[i])
    ensures Trim(Join(tokens, ' ')) == Join(tokens, ' ')
  {
    JoinTrimmed(tokens);
    TrimmedIsFixpoint(Join(tokens, ' '));
  }

  /** A history-section line that yields an entry appends it. */
  lemma RecordAppended(st: ParseState, raw: string)
    requires st.section == HistorySection
    requires HeaderOf(Trim(raw)).None? && RecordOf(Trim(raw)).Some?
    ensures Step(st, raw).history == st.history + [RecordOf(Trim(raw)).value]
  {
    assert Step(st, raw) == HistoryLine(st, Trim(raw));
  }

  /** Such a line is a record line whose tokens are the given ones. */
  lemma RecordOfJoin(tokens: seq<string>)
    requires |tokens| >= 10
    requires forall i :: 0 <= i < |tokens| ==> |tokens[i]| > 0 && NoSpace(tokens[i])
    requires IsDigits(tokens[0])
    ensures RecordOf(Join(tokens, ' ')) == Some(EntryOf(tokens))
  {
    var line := Join(tokens, ' ');
    SplitWsJoin(tokens);
    RecordLineOfJoin(tokens);
  }

  lemma RecordLineOfJoin(tokens: seq<string>)
    requires |tokens| >= 2
    requires forall i :: 0 <= i < |tokens| ==> |tokens[i]| > 0 && NoSpace(tokens[i])
    requires IsDigits(tokens[0])
    ensures IsRecordLine(Join(tokens, ' '))
  {
    var line := Join(tokens, ' ');
    var n := |tokens[0]|;
    assert line == tokens[0] + [' '] + Join(tokens[1..], ' ');
    assert line[..n] == tokens[0];
    assert line[n] == ' ';
    assert 0 < n < |line| && IsDigits(line[..n]) && IsSpace(line[n]);
  }

  /** A join of non-empty space-free tokens has no white space at its ends. */
  lemma {:induction false} JoinTrimmed(tokens: seq<string>)
    requires |tokens| >= 1
    requires forall i :: 0 <= i < |tokens| ==> |tokens[i]| > 0 && NoSpace(tokens[i])
    ensures IsTrimmed(Join(tokens, ' '))
    ensures |Join(tokens, ' ')| > 0
    ensures Join(tokens, ' ')[|Join(tokens, ' ')| - 1] == tokens[|tokens| - 1][|tokens[|tokens| - 1]| - 1]
    decreases |tokens|
  {
    JoinStartsWith(tokens);
    if |tokens| > 1 {
      JoinTrimmed(tokens[1..]);
      assert Join(tokens, ' ') == tokens[0] + [' '] + Join(tokens[1..], ' ');
    }
  }

  /** Readings written in decimal are read back exactly. */
  lemma ReadingsReadBack(tokens: seq<string>, readings: seq<int>)
    requires |tokens| >= 10 && |readings| == 7
    requires forall j :: 0 <= j < 7 ==> tokens[3 + j] == IntToString(readings[j])
    ensures var e := EntryOf(tokens);
            && e.voltage == Some(readings[0]) && e.current == Some(readings[1])
            && e.temperature == Some(readings[2]) && e.tempLow == Some(readings[3])
            && e.tempHigh == Some(readings[4]) && e.voltageLowest == Some(readings[5])
            && e.voltageHighest == Some(readings[6])
  {
    ParseIntOfDecimal(readings[0]);
    ParseIntOfDecimal(readings[1]);
    ParseIntOfDecimal(readings[2]);
    ParseIntOfDecimal(readings[3]);
    ParseIntOfDecimal(readings[4]);
    ParseIntOfDecimal(readings[5]);
    ParseIntOfDecimal(readings[6]);
  }

  // ----------------------------------------------------------- parseFile

  /** `parseFile(content, filename)`. The file date is read from a non-empty
      file name; `localMs` turns a local calendar date-time into an instant
      in milliseconds (the JavaScript `Date` constructor in the time zone of
      the host). When the file has a date and at least one entry, the
      history is date-corrected. */
  function ParseFile(content: string, filename: Option<string>, localMs: DateTime -> int): (doc: Document)
    ensures doc.filename == filename
    ensures doc.fileDate.Some? <==> filename.Some? && exists i :: DatetimeMatchAt(filename.value, i)
    ensures doc.hasCorrectedDates <==> doc.fileDate.Some? && |doc.history| > 0
    ensures CleanMap(doc.info) && CleanMap(doc.stats)
    ensures DeviceTracked(doc.info, doc.deviceAddress)
  {
    var fileDate := if Truthy(filename) then ExtractFileDatetime(filename.value) else None;
    var st := Scan(Split(content, '\n'), Initial);
    ScanGood(Split(content, '\n'), Initial);
    if fileDate.Some? && |st.history| > 0 then
      Document(st.info, st.stats, CorrectHistoryDates(st.history, Some(localMs(fileDate.value))),
               filename, fileDate, st.deviceAddress, true)
    else
      Document(st.info, st.stats, st.history, filename, fileDate, st.deviceAddress, false)
  }

  /** The history of a parsed file is the scanned one, date-corrected exactly
      when the file has corrected dates: the newest entry at the file's
      instant, earlier ones one minute apart, raw fields untouched. */
  lemma ParsedHistory(content: string, filename: Option<string>, localMs: DateTime -> int)
    ensures var doc := ParseFile(content, filename, localMs);
            var raw := Scan(Split(content, '\n'), Initial).history;
            && |doc.history| == |raw|
            && (doc.hasCorrectedDates ==>
                  doc.history == CorrectHistoryDates(raw, Some(localMs(doc.fileDate.value))))
            && (!doc.hasCorrectedDates ==> doc.history == raw)
            && RawHistory(raw)
  {
    ScanGood(Split(content, '\n'), Initial);
  }

  /** Every parsed entry has a numeric id and well-shaped cell data, and
      carries a correction exactly when the file has corrected dates. */
  lemma ParsedEntries(content: string, filename: Option<string>, localMs: DateTime -> int, i: nat)
    requires i < |ParseFile(content, filename, localMs).history|
    ensures var e := ParseFile(content, filename, localMs).history[i];
            && e.id != "" && IsDigits(e.id)
            && (e.cellData.Some? ==> WellShaped(e.cellData.value))
            && (e.correction.Some? <==> ParseFile(content, filename, localMs).hasCorrectedDates)
  {
    var doc := ParseFile(content, filename, localMs);
    var raw := Scan(Split(content, '\n'), Initial).history;
    ParsedHistory(content, filename, localMs);
    assert RawEntry(raw[i]);
    if doc.hasCorrectedDates {
      CorrectionKeepsRawFields(raw, Some(localMs(doc.fileDate.value)), i);
    }
  }

  /** The newest entry of a date-corrected file sits at the file's instant. */
  lemma NewestEntryAtFileDate(content: string, filename: Option<string>, localMs: DateTime -> int)
    requires ParseFile(content, filename, localMs).hasCorrectedDates
    ensures var doc := ParseFile(content, filename, localMs);
            InstantOf(doc.history[|doc.history| - 1]) == Some(localMs(doc.fileDate.value))
  {
    var doc := ParseFile(content, filename, localMs);
    var raw := Scan(Split(content, '\n'), Initial).history;
    ParsedHistory(content, filename, localMs);
    LastEntryAtFileInstant(raw, localMs(doc.fileDate.value));
  }

  /** Empty content is one empty line, which changes nothing. */
  lemma EmptyContentScansToInitial()
    ensures Scan(Split("", '\n'), Initial) == Initial
  {
    assert Split("", '\n') == [""];
    EmptyLineIgnored();
  }

  lemma EmptyLineIgnored()
    ensures Step(Initial, "") == Initial
  {
    EmptyLineNoHeader();
    OutsideSectionsIgnored(Initial, "");
  }

  lemma EmptyLineNoHeader()
    ensures HeaderOf(Trim("")).None?
  {
    assert Trim("") == "";
  }

  /** Before the first header, a line that is not a header changes nothing. */
  lemma OutsideSectionsIgnored(st: ParseState, raw: string)
    requires st.section == NoSection && HeaderOf(Trim(raw)).None?
    ensures Step(st, raw) == st
  {
  }

  /** Empty content yields no info, no statistics and no history. */
  lemma ParseEmpty(filename: Option<string>, localMs: DateTime -> int)
    ensures var doc := ParseFile("", filename, localMs);
            doc.info == map[] && doc.stats == map[] && doc.history == [] && !doc.hasCorrectedDates
  {
    EmptyContentScansToInitial();
    ParsedMaps("", filename, localMs);
    ParsedHistory("", filename, localMs);
  }

  /** The maps and the device address of a parsed file are those the loop
      leaves; neither map holds the key `__proto__`, which a plain object
      never stores. */
  lemma ParsedMaps(content: string, filename: Option<string>, localMs: DateTime -> int)
    ensures var doc, st := ParseFile(content, filename, localMs), Scan(Split(content, '\n'), Initial);
            doc.info == st.info && doc.stats == st.stats && doc.deviceAddress == st.deviceAddress
    ensures var doc := ParseFile(content, filename, localMs);
            ProtoKey !in doc.info && ProtoKey !in doc.stats
  {
    var st := Scan(Split(content, '\n'), Initial);
    ScanGood(Split(content, '\n'), Initial);
    assert Good(st);
  }

  /** "Device address" is a device-address key. */
  lemma DeviceAddressKey()
    ensures IsDeviceKey("Device address")
  {
    var key := "Device address";
    assert AsciiLower(key) == "device address" by {
      forall i | 0 <= i < |key| ensures AsciiLower(key)[i] == "device address"[i] {
      }
    }
    assert OccursAt("device address", AsciiLower(key), 0);
  }

  /** When the device address is tracked over clean info, the
      `info['Device address']` fallback of `generateDisplayName` is never
      taken: such a key is a device-address key, so the device address is
      already set and non-empty. */
  lemma DisplayNameOfTracked(doc: Document, batteryId: string)
    requires CleanMap(doc.info) && DeviceTracked(doc.info, doc.deviceAddress)
    ensures var name := GenerateDisplayName(doc, batteryId);
            && (doc.deviceAddress.Some? ==> name == DisplayPrefix + doc.deviceAddress.value)
            && (doc.deviceAddress.None? ==>
                  name == DisplayPrefix + batteryId[..if |batteryId| < 8 then |batteryId| else 8])
  {
    DeviceAddressKey();
    if doc.deviceAddress.Some? {
      var k :| k in doc.info && IsDeviceKey(k) && doc.info[k] == doc.deviceAddress.value;
      assert Clean(doc.info[k]);
    } else {
      assert "Device address" !in doc.info;
    }
  }

  /** The display name of a parsed file is its device address when it has
      one and otherwise the first eight characters of the battery id. */
  lemma DisplayNameOfParsed(content: string, filename: Option<string>, localMs: DateTime -> int, batteryId: string)
    ensures var doc := ParseFile(content, filename, localMs);
            var name := GenerateDisplayName(doc, batteryId);
            && (doc.deviceAddress.Some? ==> name == DisplayPrefix + doc.deviceAddress.value)
            && (doc.deviceAddress.None? ==>
                  name == DisplayPrefix + batteryId[..if |batteryId| < 8 then |batteryId| else 8])
  {
    DisplayNameOfTracked(ParseFile(content, filename, localMs), batteryId);
  }
}
