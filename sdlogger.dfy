/** `SDLogger`: mounts the card, self-tests it, opens one timestamped CSV
    file, writes its header, and then appends one 13-field row per call,
    forcing a flush every tenth row and optionally mirroring rows to the
    serial console. The card's answers are a `Card` value, the clock a
    parameter; a ghost trace records what reaches the card and the console. */
module SdLogger {
  import opened Telemetry
  import Decimal
  import Text

  // ---------------------------------------------------------------- rows

  /** A value as printed by `print(value, precision)`: the number and its decimal places. */
  datatype Field = Field(value: real, precision: nat)

  type Row = seq<Field>

  const Columns: seq<string> := [
    "Time(s)", "Temp(C)", "Humidity(%)", "Pressure(Pa)",
    "AccelX(mg)", "AccelY(mg)", "AccelZ(mg)", "AccelTotal(mg)",
    "GyroX(dps)", "GyroY(dps)", "GyroZ(dps)",
    "BattVolt(V)", "BattPercent(%)"]

  const Precisions: seq<nat> := [1, 2, 1, 0, 1, 1, 1, 1, 2, 2, 2, 3, 1]

  const Title: string := "# ROCKET DATA LOG"

  /** The second header line: the column names after "# ", comma separated. */
  const ColumnLine: string := "# " + Text.Join(Columns, ',')

  lemma ColumnsCommaFree()
    ensures Text.Free(Columns, ',')
  {
  }

  /** The header's column line reads back as the column names, one per field of a row. */
  lemma ColumnLineNamesEveryField()
    ensures ColumnLine[..2] == "# "
    ensures Text.Split(ColumnLine[2..], ',') == Columns && |Columns| == |Precisions|
  {
    assert ColumnLine[2..] == Text.Join(Columns, ',');
    ColumnsCommaFree();
    Text.SplitJoin(Columns, ',');
  }

  function Values(row: Row): (vs: seq<real>)
    ensures |vs| == |row|
  {
    seq(|row|, i requires 0 <= i < |row| => row[i].value)
  }

  function PrecisionsOf(row: Row): (ps: seq<nat>)
    ensures |ps| == |row|
  {
    seq(|row|, i requires 0 <= i < |row| => row[i].precision)
  }

  /** The thirteen prints of one data row: elapsed seconds, then every measurement
      in the header's column order, each with its fixed number of decimals. */
  function RowOf(elapsed: real, d: SensorData): (row: Row)
    ensures |row| == |Columns| == |Precisions| == 13
    ensures PrecisionsOf(row) == Precisions
    ensures Values(row) == [elapsed] + Measurements(d)
  {
    [Field(elapsed, 1), Field(d.temperatureC, 2), Field(d.humidityPercent, 1), Field(d.pressurePa, 0),
     Field(d.accelXMg, 1), Field(d.accelYMg, 1), Field(d.accelZMg, 1), Field(d.accelTotalMg, 1),
     Field(d.gyroXDps, 2), Field(d.gyroYDps, 2), Field(d.gyroZDps, 2),
     Field(d.batteryVoltageV, 3), Field(d.batteryPercent, 1)]
  }

  /** Reads a row back into the elapsed time and a record carrying the given health flags. */
  function Decode(row: Row, health: (bool, bool, bool)): (real, SensorData)
    requires |row| == 13
  {
    var v := Values(row);
    (v[0], SensorData(v[1], v[2], v[3], v[4], v[5], v[6], v[7], v[8], v[9], v[10], v[11], v[12],
                      health.0, health.1, health.2))
  }

  /** No measurement is lost, duplicated or moved: a row decodes to exactly what was logged. */
  lemma RowRoundTrip(elapsed: real, d: SensorData)
    ensures Decode(RowOf(elapsed, d), Health(d)) == (elapsed, d)
  {
    var row := RowOf(elapsed, d);
    assert Values(row)[4] == d.accelXMg;
  }

  /** The text of a row on the card or the console: the printed fields separated by commas,
      then println's "\r\n". `fmt` stands for the float printer. */
  function RowText(row: Row, fmt: (real, nat) -> string): string {
    Text.Join(Printed(row, fmt), ',') + "\r\n"
  }

  function Printed(row: Row, fmt: (real, nat) -> string): (texts: seq<string>)
    ensures |texts| == |row|
  {
    seq(|row|, i requires 0 <= i < |row| => fmt(row[i].value, row[i].precision))
  }

  /** The float printer only emits digits, signs, a point or words such as "nan". */
  ghost predicate PrintsNoDelimiter(fmt: (real, nat) -> string) {
    forall v, p :: ',' !in fmt(v, p) && '\n' !in fmt(v, p)
  }

  /** Whatever the values, a row is one line holding exactly 13 comma-separated
      fields, each the value printed with its column's precision. */
  lemma RowTextFields(elapsed: real, d: SensorData, fmt: (real, nat) -> string)
    requires PrintsNoDelimiter(fmt)
    ensures var text := RowText(RowOf(elapsed, d), fmt);
      var line := text[..|text| - 2];
      && text == line + "\r\n"
      && '\n' !in line
      && Text.Split(line, ',') == Printed(RowOf(elapsed, d), fmt)
      && |Text.Split(line, ',')| == 13
      && forall i :: 0 <= i < 13 ==> Text.Split(line, ',')[i] == fmt(Values(RowOf(elapsed, d))[i], Precisions[i])
  {
    var row := RowOf(elapsed, d);
    var texts := Printed(row, fmt);
    var line := Text.Join(texts, ',');
    assert RowText(row, fmt)[..|RowText(row, fmt)| - 2] == line;
    Text.SplitJoin(texts, ',');
    Text.JoinFree(texts, ',', '\n');
  }

  // ------------------------------------------------------------ filename

  /** `millis()` returns an `unsigned long`, 32 bits wide on this board. */
  type Millis = n: nat | n < 0x1_0000_0000

  const Prefix: string := "DATA_"
  const Suffix: string := ".CSV"
  const MinDigits: nat := 6
  /** `char filename[20]` */
  const NameBufferSize: nat := 20

  /** `sprintf(filename, "DATA_%06lu.CSV", timestamp)`: the name and its terminating
      NUL always fit the buffer; the timestamp is padded, never cut. */
  function TimestampFilename(ms: Millis): (name: string)
    ensures |name| + 1 <= NameBufferSize
    ensures |Prefix| + MinDigits + |Suffix| <= |name|
    ensures name[..|Prefix|] == Prefix && name[|name| - |Suffix|..] == Suffix
    ensures Decimal.AllDigits(name[|Prefix|..|name| - |Suffix|])
  {
    Decimal.DigitsLength(ms, 10);
    var digits := Decimal.FormatUnsigned(ms, MinDigits);
    var name := Prefix + digits + Suffix;
    assert name[|Prefix|..|name| - |Suffix|] == digits;
    name
  }

  /** The timestamp a well-formed data file name encodes. */
  function TimestampOf(name: string): nat
    requires |Prefix| + |Suffix| <= |name|
    requires Decimal.AllDigits(name[|Prefix|..|name| - |Suffix|])
  {
    Decimal.Value(name[|Prefix|..|name| - |Suffix|])
  }

  lemma FilenameRoundTrip(ms: Millis)
    ensures TimestampOf(TimestampFilename(ms)) == ms
  {
    var name := TimestampFilename(ms);
    assert name[|Prefix|..|name| - |Suffix|] == Decimal.FormatUnsigned(ms, MinDigits);
    Decimal.FormatUnsignedValue(ms, MinDigits);
  }

  /** Distinct timestamps give distinct file names. */
  lemma FilenamesDistinct(a: Millis, b: Millis)
    requires a != b
    ensures TimestampFilename(a) != TimestampFilename(b)
  {
    FilenameRoundTrip(a);
    FilenameRoundTrip(b);
  }

  /** From six digits on, the timestamp is spelled out in full with no padding. */
  lemma FilenameUnpadded(ms: Millis)
    requires Decimal.Pow10(MinDigits - 1) <= ms
    ensures TimestampFilename(ms) == Prefix + Decimal.Digits(ms) + Suffix
  {
    Decimal.DigitsLengthAbove(ms, MinDigits - 1);
  }

  lemma FilenameExample()
    ensures TimestampFilename(1234) == "DATA_001234.CSV"
  {
    assert Decimal.Digits(1234) == "1234" by {
      assert Decimal.Digits(1) == "1";
      assert Decimal.Digits(12) == "12";
      assert Decimal.Digits(123) == "123";
    }
    assert Decimal.FormatUnsigned(1234, MinDigits) == "001234";
  }

  // ------------------------------------------------------------- storage

  datatype Mode = ReadMode | WriteMode

  /** What reaches the card and the console. */
  datatype Event =
    | Mount                        // SD.begin(pin)
    | Open(name: string, mode: Mode)
    | PrintMarker                  // testFile.println("TEST")
    | ReadBack                     // testFile.readString()
    | Close(name: string)
    | Remove(name: string)
    | FileHeader                   // Title and ColumnLine into the data file
    | FileRow(row: Row)
    | Flush
    | SerialHeader                 // Title and ColumnLine on the console
    | SerialRow(row: Row)

  predicate IsStorageOp(e: Event) {
    e.Open? || e.PrintMarker? || e.ReadBack? || e.Close? || e.Remove?
  }

  /** A storage operation on the self-test file only. */
  predicate IsTestFileOp(e: Event) {
    IsStorageOp(e) && ((e.Open? || e.Close? || e.Remove?) ==> e.name == TestFile)
  }

  const TestFile: string := "TEST.TMP"
  const Marker: string := "TEST"

  /** How the card answers during begin(): whether mounting and each open succeed,
      and what reading the test file back yields. */
  datatype Card = Card(mounts: bool, testWriteOpens: bool, testReadOpens: bool, readBack: string,
                       dataOpens: bool)

  datatype SelfTest = SelfTest(passed: bool, events: seq<Event>)

  /** testSDCard: write the marker, read the file back, remove it, and pass exactly when
      both opens worked and the marker occurs in what came back. The file is removed
      only when it could be opened for reading. */
  function TestSDCard(card: Card): (t: SelfTest)
    ensures t.passed <==> card.testWriteOpens && card.testReadOpens && Text.Contains(card.readBack, Marker)
    ensures Remove(TestFile) in t.events <==> card.testWriteOpens && card.testReadOpens
    ensures |t.events| >= 1 && t.events[0] == Open(TestFile, WriteMode)
    ensures forall i :: 0 <= i < |t.events| ==> IsTestFileOp(t.events[i])
  {
    var wrote := [Open(TestFile, WriteMode)];
    if !card.testWriteOpens then SelfTest(false, wrote)
    else
      var reopened := wrote + [PrintMarker, Close(TestFile), Open(TestFile, ReadMode)];
      if !card.testReadOpens then SelfTest(false, reopened)
      else
        SelfTest(Text.IndexOf(card.readBack, Marker) >= 0,
                 reopened + [ReadBack, Close(TestFile), Remove(TestFile)])
  }

  /** A card that returns what println wrote passes the self-test. */
  lemma FaithfulCardPasses(card: Card)
    requires card.testWriteOpens && card.testReadOpens && card.readBack == Marker + "\r\n"
    ensures TestSDCard(card).passed
  {
    assert Text.OccursAt(card.readBack, Marker, 0);
  }

  predicate BeginSucceeds(card: Card) {
    card.mounts && TestSDCard(card).passed && card.dataOpens
  }

  /** The storage steps of begin() between mounting and the header: the self-test,
      then, if it passed, opening the data file. */
  function SetupSteps(card: Card, ms: Millis): (steps: seq<Event>)
    ensures forall i :: 0 <= i < |steps| ==> IsStorageOp(steps[i])
  {
    if !card.mounts then []
    else
      var test := TestSDCard(card);
      test.events + if test.passed then [Open(TimestampFilename(ms), WriteMode)] else []
  }

  /** Everything begin() does to the card, stopping at the first failed step. */
  function BeginEvents(card: Card, ms: Millis): (es: seq<Event>)
    ensures |es| >= 1 && es[0] == Mount
  {
    [Mount] + SetupSteps(card, ms) + if BeginSucceeds(card) then [FileHeader, Flush] else []
  }

  /** Each step of begin() is attempted only if every earlier one succeeded. */
  lemma BeginStopsAtFirstFailure(card: Card, ms: Millis)
    ensures Open(TestFile, WriteMode) in BeginEvents(card, ms) <==> card.mounts
    ensures Open(TimestampFilename(ms), WriteMode) in BeginEvents(card, ms)
            <==> card.mounts && TestSDCard(card).passed
    ensures FileHeader in BeginEvents(card, ms) <==> BeginSucceeds(card)
    ensures forall i :: 0 <= i < |BeginEvents(card, ms)| ==> !BeginEvents(card, ms)[i].FileRow?
  {
    var name := TimestampFilename(ms);
    var setup := SetupSteps(card, ms);
    if card.mounts {
      var test := TestSDCard(card);
      assert name[0] == 'D' != TestFile[0];
      TestFileOpsOnly(test.events, Open(name, WriteMode));
      TestFileOpsOnly(test.events, FileHeader);
      assert setup[0] == Open(TestFile, WriteMode);
    }
    assert forall i :: 0 <= i < |setup| ==> !setup[i].FileRow? && !setup[i].FileHeader?;
  }

  lemma TestFileOpsOnly(es: seq<Event>, e: Event)
    requires forall i :: 0 <= i < |es| ==> IsTestFileOp(es[i])
    requires !IsTestFileOp(e)
    ensures e !in es
  {
  }

  /** On success the header is the last thing written and it is flushed at once. */
  lemma HeaderFlushedOnSuccess(card: Card, ms: Millis)
    requires BeginSucceeds(card)
    ensures var es := BeginEvents(card, ms);
      |es| >= 3 && es[|es| - 3..] == [Open(TimestampFilename(ms), WriteMode), FileHeader, Flush]
  {
  }

  lemma AppendAssoc<T>(a: seq<T>, b: seq<T>, c: seq<T>)
    ensures a + (b + c) == a + b + c
  {
  }

  /** begin()'s events at each of its four exits. */
  lemma BeginEventsByExit(card: Card, ms: Millis)
    ensures !card.mounts ==> BeginEvents(card, ms) == [Mount]
    ensures card.mounts && !TestSDCard(card).passed ==>
              BeginEvents(card, ms) == [Mount] + TestSDCard(card).events
    ensures card.mounts && TestSDCard(card).passed && !card.dataOpens ==>
              BeginEvents(card, ms) == [Mount] + TestSDCard(card).events + [Open(TimestampFilename(ms), WriteMode)]
    ensures BeginSucceeds(card) ==>
              BeginEvents(card, ms) == [Mount] + TestSDCard(card).events + [Open(TimestampFilename(ms), WriteMode)]
                                       + [FileHeader, Flush]
  {
    var s := SetupSteps(card, ms);
    if card.mounts {
      var test := TestSDCard(card);
      if test.passed {
        AppendAssoc([Mount], test.events, [Open(TimestampFilename(ms), WriteMode)]);
      } else {
        assert s == test.events;
      }
    }
  }

  // ----------------------------------------------------- trace counters

  /** The three things the logger's invariant counts over the trace. */
  datatype Tally =
    | UnflushedRows      // file rows since the last flush
    | SerialHeaders      // console headers since the last mount
    | SerialRows         // console rows since the last mount

  predicate Resets(k: Tally, e: Event) {
    if k == UnflushedRows then e.Flush? else e.Mount?
  }

  predicate Counts(k: Tally, e: Event) {
    match k
    case UnflushedRows => e.FileRow?
    case SerialHeaders => e.SerialHeader?
    case SerialRows => e.SerialRow?
  }

  /** How many events counted by `k` happened after the last event that resets `k`. */
  function CountSince(t: seq<Event>, k: Tally): nat {
    if t == [] then 0
    else if Resets(k, t[|t| - 1]) then 0
    else CountSince(t[..|t| - 1], k) + if Counts(k, t[|t| - 1]) then 1 else 0
  }

  lemma CountSinceStep(t: seq<Event>, e: Event, k: Tally)
    ensures CountSince(t + [e], k) == if Resets(k, e) then 0 else CountSince(t, k) + if Counts(k, e) then 1 else 0
  {
    assert (t + [e])[..|t|] == t;
  }

  /** Storage operations (opens, closes, reads, writes of the marker, removes) change none of the counts. */
  lemma {:induction false} StorageOpsNeutral(t: seq<Event>, es: seq<Event>, k: Tally)
    requires forall i :: 0 <= i < |es| ==> IsStorageOp(es[i])
    ensures CountSince(t + es, k) == CountSince(t, k)
    decreases |es|
  {
    if es != [] {
      var init := es[..|es| - 1];
      assert forall i :: 0 <= i < |init| ==> init[i] == es[i];
      StorageOpsNeutral(t, init, k);
      assert t + es == (t + init) + [es[|es| - 1]];
      CountSinceStep(t + init, es[|es| - 1], k);
    } else {
      assert t + es == t;
    }
  }

  /** What the logger's invariant demands of its trace: at most `w` rows since the last
      flush, the console header printed once since the last mount exactly when
      `headerPrinted`, and no console row since the last mount before that header. */
  ghost predicate CountsWithin(t: seq<Event>, w: int, headerPrinted: bool) {
    && CountSince(t, UnflushedRows) <= w
    && CountSince(t, SerialHeaders) == (if headerPrinted then 1 else 0)
    && (!headerPrinted ==> CountSince(t, SerialRows) == 0)
  }

  /** begin() opens a fresh console session: nothing printed since its mount, and the
      header it writes to the file is flushed at once. The count is over the trace: rows
      still unflushed in a previous data file are abandoned, not flushed (see
      BeginFlushesOnlyNewFile). */
  lemma BeginRestartsSession(t: seq<Event>, w: int, card: Card, ms: Millis)
    requires CountSince(t, UnflushedRows) <= w
    ensures CountsWithin(t + BeginEvents(card, ms), w, false)
  {
    var t1 := t + [Mount];
    CountSinceStep(t, Mount, UnflushedRows);
    CountSinceStep(t, Mount, SerialHeaders);
    CountSinceStep(t, Mount, SerialRows);
    var setup := SetupSteps(card, ms);
    var t2 := t1 + setup;
    StorageOpsNeutral(t1, setup, UnflushedRows);
    StorageOpsNeutral(t1, setup, SerialHeaders);
    StorageOpsNeutral(t1, setup, SerialRows);
    var tail := if BeginSucceeds(card) then [FileHeader, Flush] else [];
    AppendAssoc(t, [Mount] + setup, tail);
    AppendAssoc(t, [Mount], setup);
    if BeginSucceeds(card) {
      HeaderFlushes(t2);
    } else {
      assert t2 + tail == t2;
    }
  }

  /** The header leaves nothing unflushed and is not console output. */
  lemma HeaderFlushes(t: seq<Event>)
    ensures CountSince(t + [FileHeader, Flush], UnflushedRows) == 0
    ensures CountSince(t + [FileHeader, Flush], SerialHeaders) == CountSince(t, SerialHeaders)
    ensures CountSince(t + [FileHeader, Flush], SerialRows) == CountSince(t, SerialRows)
  {
    assert t + [FileHeader, Flush] == t + [FileHeader] + [Flush];
    CountSinceStep(t, FileHeader, SerialHeaders);
    CountSinceStep(t, FileHeader, SerialRows);
    CountSinceStep(t + [FileHeader], Flush, UnflushedRows);
    CountSinceStep(t + [FileHeader], Flush, SerialHeaders);
    CountSinceStep(t + [FileHeader], Flush, SerialRows);
  }

  /** The only flush begin() issues is the last event, after the new file's header: nothing
      flushes or closes a data file opened by an earlier begin(). */
  lemma BeginFlushesOnlyNewFile(card: Card, ms: Millis, previous: string)
    requires previous != TestFile
    ensures forall i :: 0 <= i < |BeginEvents(card, ms)| - 1 ==> BeginEvents(card, ms)[i] != Flush
    ensures Close(previous) !in BeginEvents(card, ms)
  {
    var setup := SetupSteps(card, ms);
    var tail := if BeginSucceeds(card) then [FileHeader, Flush] else [];
    var es := [Mount] + setup + tail;
    assert BeginEvents(card, ms) == es;
    if card.mounts {
      var test := TestSDCard(card);
      TestFileOpsOnly(test.events, Close(previous));
      assert Close(previous) !in setup;
    }
    assert forall i :: 0 <= i < 1 + |setup| ==> es[i] == ([Mount] + setup)[i];
  }

  /** A file row keeps the unflushed rows within the row counter's new value. */
  lemma FileRowKeepsCounts(t: seq<Event>, w: int, headerPrinted: bool, row: Row)
    requires 0 <= w && CountsWithin(t, w, headerPrinted)
    ensures CountsWithin(t + FileRowEvents(true, w, row), CountAfterRow(w), headerPrinted)
  {
    var t1 := t + [FileRow(row)];
    CountSinceStep(t, FileRow(row), UnflushedRows);
    CountSinceStep(t, FileRow(row), SerialHeaders);
    CountSinceStep(t, FileRow(row), SerialRows);
    if FlushesAfterRow(w) {
      assert t + FileRowEvents(true, w, row) == t1 + [Flush];
      CountSinceStep(t1, Flush, UnflushedRows);
      CountSinceStep(t1, Flush, SerialHeaders);
      CountSinceStep(t1, Flush, SerialRows);
    } else {
      assert t + FileRowEvents(true, w, row) == t1;
    }
  }

  /** A console row is always preceded by exactly one header since the last mount. */
  lemma SerialRowKeepsCounts(t: seq<Event>, w: int, headerPrinted: bool, row: Row)
    requires CountsWithin(t, w, headerPrinted)
    ensures CountsWithin(t + SerialRowEvents(true, headerPrinted, row), w, true)
  {
    var t1 := if headerPrinted then t else t + [SerialHeader];
    if !headerPrinted {
      CountSinceStep(t, SerialHeader, UnflushedRows);
      CountSinceStep(t, SerialHeader, SerialHeaders);
      CountSinceStep(t, SerialHeader, SerialRows);
    }
    assert t + SerialRowEvents(true, headerPrinted, row) == t1 + [SerialRow(row)];
    CountSinceStep(t1, SerialRow(row), UnflushedRows);
    CountSinceStep(t1, SerialRow(row), SerialHeaders);
  }

  // ------------------------------------------------------ flush cadence

  const FlushEvery: int := 10

  /** `writeCount++; if (writeCount >= 10) { flush; writeCount = 0; }` */
  function CountAfterRow(w: int): (c: int)
    ensures 0 <= w < FlushEvery ==> c == (w + 1) % FlushEvery
  {
    if w + 1 >= FlushEvery then 0 else w + 1
  }

  /** A flush is due exactly when the counter wraps round to 0. */
  predicate FlushesAfterRow(w: int): (due: bool)
    ensures 0 <= w < FlushEvery ==> (due <==> CountAfterRow(w) == 0)
  {
    w + 1 >= FlushEvery
  }

  function CountAfterRows(w: int, n: nat): int
    decreases n
  {
    if n == 0 then w else CountAfterRows(CountAfterRow(w), n - 1)
  }

  function FlushesInRows(w: int, n: nat): nat
    decreases n
  {
    if n == 0 then 0 else (if FlushesAfterRow(w) then 1 else 0) + FlushesInRows(CountAfterRow(w), n - 1)
  }

  /** Starting from a counter value w in [0, 9], n rows leave the counter at (w + n) mod 10
      and cause (w + n) div 10 flushes: one flush for every tenth row. */
  lemma {:induction false} FlushCadence(w: int, n: nat)
    requires 0 <= w < FlushEvery
    ensures CountAfterRows(w, n) == (w + n) % FlushEvery
    ensures FlushesInRows(w, n) == (w + n) / FlushEvery
    decreases n
  {
    if n > 0 {
      FlushCadence(CountAfterRow(w), n - 1);
    }
  }

  // -------------------------------------------------------------- logger

  /** The file half of logData: one row when writing, followed by a flush when one is due. */
  function FileRowEvents(writing: bool, w: int, row: Row): (es: seq<Event>)
    ensures !writing ==> es == []
    ensures writing ==> |es| >= 1 && es[0] == FileRow(row) && (Flush in es <==> FlushesAfterRow(w))
    ensures forall i :: 0 < i < |es| ==> es[i] == Flush
  {
    if !writing then [] else [FileRow(row)] + if FlushesAfterRow(w) then [Flush] else []
  }

  /** The console half of logData: in debug mode the row, preceded by the header when it is still due. */
  function SerialRowEvents(debugMode: bool, headerDone: bool, row: Row): (es: seq<Event>)
    ensures !debugMode ==> es == []
    ensures debugMode ==> |es| >= 1 && es[|es| - 1] == SerialRow(row) && (SerialHeader in es <==> !headerDone)
  {
    if !debugMode then [] else (if headerDone then [] else [SerialHeader]) + [SerialRow(row)]
  }

  class SDLogger {
    var loggingActive: bool
    var headerPrintedToSerial: bool
    /** Whether `dataFile` is an open file (`if (dataFile)`). */
    var fileValid: bool
    var filename: string
    /** The function-static row counter of logData: begin() never resets it. */
    var writeCount: int
    ghost var trace: seq<Event>

    /** The counter stays in [0, 9] and the rows written since the trace's last flush never
        exceed it; active implies an open file; the console header is printed at most once
        per begin() and before any console row. The count is over the trace, not per file:
        see BeginRestartsSession. */
    ghost predicate Valid()
      reads this
    {
      && 0 <= writeCount < FlushEvery
      && (loggingActive ==> fileValid)
      && CountsWithin(trace, writeCount, headerPrintedToSerial)
    }

    /** A global instance starts zero-initialised. */
    constructor ()
      ensures Valid()
      ensures !loggingActive && !headerPrintedToSerial && !fileValid && filename == ""
      ensures writeCount == 0 && trace == []
    {
      loggingActive := false;
      headerPrintedToSerial := false;
      fileValid := false;
      filename := "";
      writeCount := 0;
      trace := [];
    }

    /** isLogging() */
    function IsLogging(): (active: bool)
      reads this
      requires Valid()
      ensures active ==> fileValid
    {
      loggingActive
    }

    /** Both flags are cleared first; the logger becomes active exactly when mount,
        self-test and data-file open all succeed, and only after the header is written
        and flushed. The row counter carries over. */
    method Begin(card: Card, nowMs: Millis)
      requires Valid()
      modifies this
      ensures Valid()
      ensures trace == old(trace) + BeginEvents(card, nowMs)
      ensures loggingActive <==> BeginSucceeds(card)
      ensures !headerPrintedToSerial
      ensures writeCount == old(writeCount)
      ensures card.mounts && TestSDCard(card).passed ==>
                filename == TimestampFilename(nowMs) && fileValid == card.dataOpens
      ensures !(card.mounts && TestSDCard(card).passed) ==>
                filename == old(filename) && fileValid == old(fileValid)
    {
      BeginRestartsSession(trace, writeCount, card, nowMs);
      BeginEventsByExit(card, nowMs);
      loggingActive := false;
      headerPrintedToSerial := false;

      trace := trace + [Mount];
      if !card.mounts {
        return;
      }

      var test := TestSDCard(card);
      AppendAssoc(old(trace), [Mount], test.events);
      trace := trace + test.events;
      if !test.passed {
        return;
      }

      filename := TimestampFilename(nowMs);
      AppendAssoc(old(trace), [Mount] + test.events, [Open(filename, WriteMode)]);
      trace := trace + [Open(filename, WriteMode)];
      fileValid := card.dataOpens;
      if !fileValid {
        return;
      }

      AppendAssoc(old(trace), [Mount] + test.events + [Open(filename, WriteMode)], [FileHeader, Flush]);
      WriteHeader();
      loggingActive := true;
    }

    method WriteHeader()
      modifies this`trace
      ensures trace == old(trace) + [FileHeader, Flush]
    {
      trace := trace + [FileHeader, Flush];
    }

    /** The console header goes out only once per begin(). */
    method WriteHeaderToSerial()
      modifies this`headerPrintedToSerial, this`trace
      ensures headerPrintedToSerial
      ensures trace == old(trace) + if old(headerPrintedToSerial) then [] else [SerialHeader]
    {
      if !headerPrintedToSerial {
        trace := trace + [SerialHeader];
        headerPrintedToSerial := true;
      }
    }

    method LogDataToSerial(elapsed: real, d: SensorData)
      requires Valid()
      modifies this`headerPrintedToSerial, this`trace
      ensures Valid() && headerPrintedToSerial
      ensures trace == old(trace) + SerialRowEvents(true, old(headerPrintedToSerial), RowOf(elapsed, d))
    {
      var row := RowOf(elapsed, d);
      SerialRowKeepsCounts(trace, writeCount, headerPrintedToSerial, row);
      AppendAssoc(trace, if headerPrintedToSerial then [] else [SerialHeader], [SerialRow(row)]);
      WriteHeaderToSerial();
      trace := trace + [SerialRow(row)];
    }

    /** One row to the file when active (flushing on every tenth), nothing otherwise;
        and, in debug mode, the same row to the console whether or not the file is active. */
    method LogData(elapsed: real, d: SensorData, debugMode: bool)
      requires Valid()
      modifies this`writeCount, this`headerPrintedToSerial, this`trace
      ensures Valid()
      ensures writeCount == if old(loggingActive && fileValid) then CountAfterRow(old(writeCount)) else old(writeCount)
      ensures headerPrintedToSerial == (old(headerPrintedToSerial) || debugMode)
      ensures trace == old(trace)
                       + FileRowEvents(old(loggingActive && fileValid), old(writeCount), RowOf(elapsed, d))
                       + SerialRowEvents(debugMode, old(headerPrintedToSerial), RowOf(elapsed, d))
    {
      var row := RowOf(elapsed, d);
      if loggingActive && fileValid {
        FileRowKeepsCounts(trace, writeCount, headerPrintedToSerial, row);
        AppendAssoc(trace, [FileRow(row)], if FlushesAfterRow(writeCount) then [Flush] else []);
        trace := trace + [FileRow(row)];
        writeCount := writeCount + 1;
        if writeCount >= FlushEvery {
          trace := trace + [Flush];
          writeCount := 0;
        }
      }
      assert trace == old(trace) + FileRowEvents(old(loggingActive && fileValid), old(writeCount), row);
      if debugMode {
        LogDataToSerial(elapsed, d);
      }
    }
  }
}
