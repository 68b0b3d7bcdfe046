/** The records the log parser produces. Raw numeric fields are integers in
    device units (mV, mA, m°C); `None` in an `Option<int>` field is the `NaN`
    that `parseInt` returns for a malformed token, and `None` in an
    `Option<string>` field is a token position past the end of the line. */
module Records {
  import opened Options

  /** Calendar fields of a local date-time, as written in a file name
      (month 1-12). Validity of the date is not checked, as in the source. */
  datatype DateTime = DateTime(year: int, month: int, day: int, hour: int, minute: int, second: int)

  /** What date correction adds to an entry: the reconstructed instant in
      milliseconds and a copy of the raw day and time. Its presence is the
      `useCorrectedDate` flag; the locale strings `correctedDay` and
      `correctedTime` are renderings of `instantMs`. */
  datatype Correction = Correction(instantMs: int, originalDay: string, originalTime: string)

  datatype CellState = CellState(state1: string, state2: string)

  /** Per-cell telemetry of one history line. */
  datatype CellData = CellData(
    voltages: seq<int>,
    temperatures: seq<int>,
    states: seq<CellState>,
    percentages: seq<string>,
    cellCount: int)

  /** One history record: the fixed token positions of a data line. */
  datatype HistoryEntry = HistoryEntry(
    id: string,
    day: string,
    time: string,
    voltage: Option<int>,
    current: Option<int>,
    temperature: Option<int>,
    tempLow: Option<int>,
    tempHigh: Option<int>,
    voltageLowest: Option<int>,
    voltageHighest: Option<int>,
    baseState: Option<string>,
    voltageState: Option<string>,
    currentState: Option<string>,
    tempState: Option<string>,
    soc: Option<string>,
    cellData: Option<CellData>,
    correction: Option<Correction>)

  /** One parsed log file. */
  datatype Document = Document(
    info: map<string, string>,
    stats: map<string, string>,
    history: seq<HistoryEntry>,
    filename: Option<string>,
    fileDate: Option<DateTime>,
    deviceAddress: Option<string>,
    hasCorrectedDates: bool)

  /** JavaScript truthiness of an optional string: present and non-empty. */
  predicate Truthy(s: Option<string>) {
    s.Some? && s.value != ""
  }
}
