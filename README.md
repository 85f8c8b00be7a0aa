# Rocket data logger: sensor acquisition and SD-card logging

This project models the two stateful components of the SparkFun NINA-B306 rocket data
logger in Dafny and proves properties about them.

- **`SensorManager`** initialises three sensors: the MAX17048 fuel gauge, the BME280
  environmental sensor and the ISM330DHCX inertial unit. It then refreshes one
  `SensorData` record in place on every cycle.
- **`SDLogger`** prepares the SD card and then appends the record to a CSV file:
  - it mounts the card;
  - it self-tests the card with a write/read/remove of `TEST.TMP`;
  - it opens a file named after the clock (`DATA_%06lu.CSV`) and writes a two-line header;
  - it then appends one 13-field row per call, flushing every tenth row;
  - in debug mode it mirrors each row, and a once-per-session header, to the serial console.

The hardware is replaced by what it answers:

- Driver fetches are `Option` values. Probe results are booleans. The IMU's reset-status
  polls are a sequence of booleans.
- The card's behaviour during `begin()` is a `Card` value: whether the mount and each open
  succeed, and what reading the test file back yields.
- `millis()` is a `Millis` parameter, an unsigned 32-bit value.
- Floats are reals. The platform's `sqrt` is a function passed to `SensorManager`.
- `print(value, precision)` is a formatter function applied to (value, precision) fields.

Both classes keep a ghost trace:

- `SensorManager` records the driver calls it makes, in order.
- `SDLogger` records what reaches the card and the console: mounts, opens, closes,
  removes, header, rows, flushes, console header and console rows.

Modules:

| file | module | contents |
|---|---|---|
| wrappers.dfy | `Wrappers` | `Option` |
| telemetry.dfy | `Telemetry` | the `SensorData` record (field order of `sensors.h`); each read's effect as a function of the old record |
| sensors.dfy | `Sensors` | class `SensorManager`: `data` updated in place, driver-call trace, the IMU reset polling loop |
| decimal.dfy | `Decimal` | `%0<w>lu` rendering (digits, zero padding) and reading a digit string back |
| text.dfy | `Text` | `String::indexOf`, comma joining of printed fields, and splitting a line back |
| sdlogger.dfy | `SdLogger` | rows, the file name, the self-test, `begin()`'s event sequence, the flush cadence, class `SDLogger` |

`SDLogger`'s invariant, `Valid()`, checks these facts against its trace on every call:

- the row counter stays in [0, 9];
- the rows written since the last flush never exceed the counter;
- an active logger has an open file;
- since the last mount, the console header has gone out exactly when `headerPrintedToSerial` is set;
- since the last mount, no console row has gone out before that header.

## Model

| member | source | states |
|---|---|---|
| Telemetry.WithEnvironmental | SparkFun_Nina_B306/libraries/Restart/sensors.cpp:95-106 | the three environmental fields become the driver's values; inertial, battery fields and health flags are unchanged |
| Telemetry.WithInertial | SparkFun_Nina_B306/libraries/Restart/sensors.cpp:108-147 | when both fetches succeed, the axes are the raw accelerometer values, the total is sqrt of the stored axes' sum of squares, and gyro × 1000 is the raw gyro; otherwise all seven inertial fields are -999.0; other subsystems and flags unchanged |
| Telemetry.WithPower | SparkFun_Nina_B306/libraries/Restart/sensors.cpp:149-158 | voltage and state of charge become the gauge's values whatever the flag; everything else unchanged |
| Telemetry.AfterReadAll | SparkFun_Nina_B306/libraries/Restart/sensors.cpp:89-93 | after environmental, inertial and battery reads the flags are unchanged, the environmental and battery fields are the driver's values, and the seven inertial fields are exactly what readIMU produces (WithInertial: one consistent sample or all sentinels) |
| Telemetry.InertialAllOrNothing | SparkFun_Nina_B306/libraries/Restart/sensors.cpp:114-137 | for a genuine square root: either the total is non-negative, its square is x²+y²+z² and each gyro field is raw/1000, or all seven inertial fields equal the sentinel; never a mix |
| Telemetry.ReadAllForgetsHistory | SparkFun_Nina_B306/libraries/Restart/sensors.cpp:89-158 | the twelve measurements after a read cycle depend only on the driver values, not on the previous record |
| Telemetry.ReadsIgnoreHealthFlags | SparkFun_Nina_B306/libraries/Restart/sensors.cpp:95-158 | changing the health flags before a cycle changes nothing but the flags after it: no read consults them |
| Sensors.FirstTrue | SparkFun_Nina_B306/libraries/Restart/sensors.cpp:59-61 | the index of the first poll that reports the reset complete; all earlier polls reported false |
| Sensors.SensorManager.constructor | code/SparkFun_Nina_B306/libraries/Restart/sensors.h:40 | the global instance's record starts zero-initialised and no driver has been called |
| Sensors.SensorManager.Begin | SparkFun_Nina_B306/libraries/Restart/sensors.cpp:3-17 | bus, gauge, environmental and IMU initialisation run in that order, each whatever the others found; afterwards the whole record is zero and all three flags are false |
| Sensors.SensorManager.InitBattery | SparkFun_Nina_B306/libraries/Restart/sensors.cpp:19-31 | the battery flag becomes the probe result and nothing else in the record changes; the gauge is configured only when found |
| Sensors.SensorManager.InitEnvironmental | SparkFun_Nina_B306/libraries/Restart/sensors.cpp:33-44 | the address is set before the probe; the environmental flag becomes the probe result and nothing else changes |
| Sensors.SensorManager.InitIMU | SparkFun_Nina_B306/libraries/Restart/sensors.cpp:46-87 | a failed probe clears the flag and stops; otherwise one reset, then polls up to and including the first that answers true, then configuration, then the flag is set |
| Sensors.SensorManager.ReadAll | SparkFun_Nina_B306/libraries/Restart/sensors.cpp:89-93 | the record becomes AfterReadAll of the old one; the driver calls are the environmental, inertial and battery reads in that order |
| Sensors.SensorManager.ReadEnvironmental | SparkFun_Nina_B306/libraries/Restart/sensors.cpp:95-106 | the record becomes WithEnvironmental of the old one, after temperature, humidity and pressure reads |
| Sensors.SensorManager.ReadIMU | SparkFun_Nina_B306/libraries/Restart/sensors.cpp:108-147 | the record becomes WithInertial of the old one; the gyroscope is asked only when the accelerometer fetch succeeded |
| Sensors.SensorManager.ReadBattery | SparkFun_Nina_B306/libraries/Restart/sensors.cpp:149-158 | the record becomes WithPower of the old one, after a voltage and a state-of-charge read |
| Decimal.Digits | code/SparkFun_Nina_B306/main/sdlogger.cpp:50 | the decimal spelling of a number is non-empty, all digits, and has no leading zero unless the number is 0 |
| Decimal.ZeroPad | code/SparkFun_Nina_B306/main/sdlogger.cpp:50 | `%0<w>` padding: length max(w, \|s\|), the original digits at the end, only zeros before them, never truncated |
| Decimal.FormatUnsigned | code/SparkFun_Nina_B306/main/sdlogger.cpp:50 | `%0<w>lu`: Digits padded by ZeroPad; its properties are the contracts of ZeroPad and Digits and the lemma FormatUnsignedValue |
| Decimal.FormatUnsignedValue | code/SparkFun_Nina_B306/main/sdlogger.cpp:50 | the padded rendering is all digits and reads back as the number it renders |
| Decimal.DigitsLength | code/SparkFun_Nina_B306/main/sdlogger.cpp:48-50 | a number below 10^k has at most k digits |
| Decimal.DigitsLengthAbove | code/SparkFun_Nina_B306/main/sdlogger.cpp:50 | a number of at least 10^k has more than k digits |
| Text.IndexOf | code/SparkFun_Nina_B306/main/sdlogger.cpp:86 | non-negative exactly when the pattern occurs; then it is the least index of an occurrence; otherwise -1 |
| Text.SplitJoin | code/SparkFun_Nina_B306/main/sdlogger.cpp:121-145 | fields printed with "," between them split back into the same fields when none contains a comma |
| Text.JoinFree | code/SparkFun_Nina_B306/main/sdlogger.cpp:121-145 | a comma-joined line contains a character other than the comma only if some field does |
| SdLogger.ColumnLineNamesEveryField | code/SparkFun_Nina_B306/main/sdlogger.cpp:56 | the header's column line is "# " followed by text that splits at commas into exactly the 13 column names, one per row field |
| SdLogger.RowOf | code/SparkFun_Nina_B306/main/sdlogger.cpp:121-145 | a row has 13 fields; the precisions are [1,2,1,0,1,1,1,1,2,2,2,3,1]; the values are the elapsed time then the twelve measurements in the header's column order |
| SdLogger.RowRoundTrip | code/SparkFun_Nina_B306/main/sdlogger.cpp:121-145 | decoding a row gives back the elapsed time and the whole record: nothing lost, duplicated or moved |
| SdLogger.RowTextFields | code/SparkFun_Nina_B306/main/sdlogger.cpp:89-117 | for a float printer that emits no comma or newline, a row's text is one line ending in "\r\n" that splits into exactly 13 fields, field i being value i printed with precision i |
| SdLogger.TimestampFilename | code/SparkFun_Nina_B306/main/sdlogger.cpp:47-52 | for any 32-bit timestamp the name plus its NUL fits the 20-byte buffer; it starts with "DATA_", ends with ".CSV" and holds at least 6 digits between them |
| SdLogger.FilenameRoundTrip | code/SparkFun_Nina_B306/main/sdlogger.cpp:47-52 | the digits of a name read back as the timestamp it was made from |
| SdLogger.FilenamesDistinct | code/SparkFun_Nina_B306/main/sdlogger.cpp:47-52 | distinct timestamps give distinct file names |
| SdLogger.FilenameUnpadded | code/SparkFun_Nina_B306/main/sdlogger.cpp:50 | from six digits on, the timestamp appears in full with no padding |
| SdLogger.FilenameExample | code/SparkFun_Nina_B306/main/sdlogger.cpp:50 | 1234 ms gives "DATA_001234.CSV" |
| SdLogger.TestSDCard | code/SparkFun_Nina_B306/main/sdlogger.cpp:68-87 | passes exactly when both opens succeed and "TEST" occurs in the read-back text; the file is removed exactly when both opens succeed; it starts with the write open and touches only TEST.TMP |
| SdLogger.FaithfulCardPasses | code/SparkFun_Nina_B306/main/sdlogger.cpp:74-86 | a card that returns what println wrote ("TEST\r\n") passes |
| SdLogger.SetupSteps | code/SparkFun_Nina_B306/main/sdlogger.cpp:25-39 | the steps between mount and header are storage operations only |
| SdLogger.BeginEvents | code/SparkFun_Nina_B306/main/sdlogger.cpp:5-45 | begin()'s card events always start with the mount; BeginStopsAtFirstFailure, BeginEventsByExit and HeaderFlushedOnSuccess state which steps follow |
| SdLogger.BeginFlushesOnlyNewFile | code/SparkFun_Nina_B306/main/sdlogger.cpp:31-43 | the only flush begin() issues is its last event, after the new file's header, and it never closes a previously opened data file |
| SdLogger.BeginStopsAtFirstFailure | code/SparkFun_Nina_B306/main/sdlogger.cpp:19-43 | the self-test is attempted iff the mount succeeded; the data file is opened iff the mount and the self-test succeeded; the header is written iff every step succeeded; begin() writes no data row |
| SdLogger.BeginEventsByExit | code/SparkFun_Nina_B306/main/sdlogger.cpp:19-45 | begin()'s events at each of its four exits |
| SdLogger.HeaderFlushedOnSuccess | code/SparkFun_Nina_B306/main/sdlogger.cpp:35-58 | on success the last three events are the data-file open, the header and a flush |
| SdLogger.HeaderFlushes | code/SparkFun_Nina_B306/main/sdlogger.cpp:54-58 | after the header and its flush no row is unflushed, and the console counts are unchanged |
| SdLogger.BeginRestartsSession | code/SparkFun_Nina_B306/main/sdlogger.cpp:5-45 | whatever begin() does, afterwards no console header or row has gone out since its mount, and the unflushed rows stay within the counter |
| SdLogger.FileRowKeepsCounts | code/SparkFun_Nina_B306/main/sdlogger.cpp:147-152 | after a file row, and a flush when the counter reaches 10, the unflushed rows stay within the counter's new value |
| SdLogger.SerialRowKeepsCounts | code/SparkFun_Nina_B306/main/sdlogger.cpp:89-117 | after a console row exactly one console header has gone out since the last mount, before that row |
| SdLogger.CountAfterRow | code/SparkFun_Nina_B306/main/sdlogger.cpp:147-152 | from a counter in [0,9], one file row leaves it at (w+1) mod 10 |
| SdLogger.FlushesAfterRow | code/SparkFun_Nina_B306/main/sdlogger.cpp:149-152 | from a counter in [0,9], a flush is due exactly when the counter wraps round to 0 |
| SdLogger.FileRowEvents | code/SparkFun_Nina_B306/main/sdlogger.cpp:120-153 | nothing when not writing; otherwise the row first, then at most a flush, and a flush exactly when one is due |
| SdLogger.SerialRowEvents | code/SparkFun_Nina_B306/main/sdlogger.cpp:155-157 | nothing outside debug mode; otherwise ends with the row, and holds the console header exactly when it was not yet printed |
| SdLogger.FlushCadence | code/SparkFun_Nina_B306/main/sdlogger.cpp:147-152 | from a counter w in [0,9], n file rows leave it at (w+n) mod 10 and cause (w+n) div 10 flushes |
| SdLogger.SDLogger.constructor | code/SparkFun_Nina_B306/main/sdlogger.h:15-18 | the global instance starts inactive, with no header printed, no file and a zero counter |
| SdLogger.SDLogger.IsLogging | code/SparkFun_Nina_B306/main/sdlogger.h:12 | reports the active flag; an active logger has an open data file |
| SdLogger.SDLogger.Begin | code/SparkFun_Nina_B306/main/sdlogger.cpp:5-45 | keeps Valid; both flags cleared; active iff mount, self-test and data-file open all succeed; the trace grows by exactly begin()'s events; the file name is set once the self-test passes; the row counter carries over |
| SdLogger.SDLogger.WriteHeader | code/SparkFun_Nina_B306/main/sdlogger.cpp:54-58 | the header goes to the file followed by a flush |
| SdLogger.SDLogger.WriteHeaderToSerial | code/SparkFun_Nina_B306/main/sdlogger.cpp:60-66 | the console header goes out only if it has not already; afterwards the flag is set |
| SdLogger.SDLogger.LogDataToSerial | code/SparkFun_Nina_B306/main/sdlogger.cpp:89-117 | keeps Valid; the console gets the header if still due, then the row |
| SdLogger.SDLogger.LogData | code/SparkFun_Nina_B306/main/sdlogger.cpp:119-158 | keeps Valid; the file gets exactly one row, plus a flush when the counter reaches 10, when active and open, and nothing otherwise; the counter advances only with a file row; in debug mode the console gets the same row whether or not the file is active |

## Left out

- Serial diagnostic text, `pinMode`, `digitalWrite`, `delay` and the chip-select pin: console messages and timing only. The console output the logger produces as data (header and rows) is in the trace.
- `Wire.begin()`, the SD/SPI/FAT libraries and the sensor drivers: they are foreign code. Each appears as the outcome it returns, or as a named call in a ghost trace.
- The vendor configuration calls (`setThreshold`, `clearAlert`, data-rate, full-scale and filter setters): they pass through to unseen drivers. Each group appears as a single call in the trace (`GaugeConfigure`, `ImuConfigure`).
- Sensors.SensorManager.InitIMU: the `getDeviceReset()` wait has no bound in the code. The model requires that some poll eventually reports the reset complete, so a device that never finishes its reset (the code would hang) is not modelled.
- Telemetry.WithInertial: single-precision float arithmetic is modelled as real arithmetic, and `sqrt` is a function parameter. `InertialAllOrNothing` states the norm exactly, assuming a true square root; float rounding is not modelled.
- SdLogger.RowTextFields: how `print(value, precision)` renders a float is a formatter parameter. The row is proved to be its 13 (value, precision) fields; the digits printed are not modelled.
- SdLogger.TestSDCard: the read-back text is a plain character sequence. Arduino `String`'s handling of embedded NUL bytes and of allocation failure is not modelled.
- The text of the two header lines is a constant (`Title`, `ColumnLine`). The trace records the header as one event, not as characters.
- The `1==1` guards in `readIMU` and `readBattery` are always true. Their `else` branches (all sentinels) can never run, so they are not modelled. `readBattery` therefore never produces a sentinel.
- File sizes, card capacity and write errors: the code never checks the result of a row write, a header write or a flush, so the model assumes they all succeed.
- SdLogger.BeginRestartsSession: the count of unflushed rows is over the trace, not per file. A successful re-run of begin() replaces the open data file without flushing or closing it (BeginFlushesOnlyNewFile), so up to nine rows of the old file may never be flushed, yet the count drops to 0 at the new file's header flush.
- SdLogger.SDLogger.constructor: in the code `writeCount` is a function-static shared by every `SDLogger`; the model gives each instance its own counter, which is exact only for the single global instance. The `debugMode = false` default argument of logData becomes an explicit parameter.
- begin() may be called again: nothing in the code makes a failed begin() permanent, every step is re-run, and the function-static row counter carries over.
- Activation does not depend on the header write, whose result is never checked; it depends only on the mount, the self-test and the data-file open.
- The battery sentinel branch of `readBattery` is unreachable (the `1==1` guard above), so battery fields always hold the gauge's values.
