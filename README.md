# SD speed test: a Dafny model of the measurement protocol

SD Speed Test is an Android app. It measures how fast a storage folder
can be written and read. For the external storage folder (only when that
storage is mounted read-write) and then for the app's internal files
folder, it runs three payload sizes: 10 000, 100 000 and 1 000 000
bytes. For each size it runs a write test and then a read test, and shows
one table row with a label (`10KB`, `100KB`, `1MB`) and two speeds,
shown in kB/s (the model keeps bytes per second).

- **Write test.** Creates a fresh `test.dat` in the folder. It then
  overwrites the file with `size` zero bytes again and again, timing each
  write, until more than 5000 ms have passed since the start and more
  than one earlier pass has completed. Finally it deletes the file.
- **Read test.** Creates a fresh `test.dat` and writes it once (the
  "prep" write). It then reads it from the start again and again under
  the same stop rule, and deletes it.
- **Speed.** Both tests report `size * count / (time / 1000)`, where
  `time` is the sum of the timed durations.
- **Failure.** When the test file cannot be created, the test shows a
  Toast and reports 0.0 without doing anything else. The model treats the
  Toast as returning normally (see "Left out").

The model has three modules:

- `FileUtils` (`FileUtils.dfy`):
  - the external-storage state checks;
  - an abstract filesystem: directories, regular files with their bytes,
    and paths the medium refuses;
  - `File.exists`, `mkdir`, `delete`, `createNewFile`, `writeBytes` and
    `RandomAccessFile(…, "rw")` over it;
  - `createTestFile`.
- `Measurement` (`Measurement.dfy`):
  - the clock, seen as an oracle;
  - the timed write loop (`executeWrite`) and read loop (`executeRead`),
    written as imperative methods with loop invariants and proved against
    specification functions:
    - `MeasuredTime` is the sum of the per-pass durations;
    - `TimeUp`, `NoStopBefore` and `FirstStop` give the stop rule;
    - `AvgSpeed` is the speed formula.
- `SpeedTest` (`SpeedTest.dfy`): the size schedule, the labels,
  `runWriteTest`, `runReadTest`, `runLoops`, `runExternal` and `runAll`.

**The clock.** `System.currentTimeMillis()` is modelled as a function
`clock: nat -> int` read in order. Each call takes the next reading, and
`measureTimeMillis` takes two. Each operation receives the index of its
first reading and returns the index after its last. A loop whose
`startTime` is reading `s` reads:

- before pass `n`'s transfer: `s + 1 + 3n`;
- after it: `s + 2 + 3n`;
- for the stop test: `s + 3 + 3n`.

The stop test is not read in prep mode. The clock is assumed monotone
(`Monotone`). `System.currentTimeMillis()` is wall-clock time and can step
backwards, so the facts that every measured duration and `time` are
non-negative, and hence that a speed is never negative, hold only under
this assumption. To terminate a timed loop it must eventually pass the 5000 ms bound
(`Passes`). `KeepsRunning` says it does so from every reading on.

**Filesystem effects.** The filesystem is a value that each operation
takes and returns.

- The state every test leaves is `Settled(fs, folder)`: the folder is
  made (when it could be) and no `test.dat` is left.
- Settling is idempotent, and it does not change whether `test.dat` can
  be created. So for one folder, either every test fails with 0.0 or
  none does.

**Two consequences of the code worth knowing.**

- `count > 1` is tested before `count++`, so the earliest stop is on the
  third pass: every timed loop runs at least three passes, with at least
  two completed before the stop test can succeed. `ExecuteWrite` and
  `ExecuteRead` ensure `count >= 3`.
- Nothing guards `time == 0`, so the Double division gives Infinity, or
  NaN when nothing was moved. `AvgSpeed` keeps those values.

## Model

Source paths are relative to the repository root. `MainActivity.kt`
stands for `app/src/main/java/com/asicerik/sdspeedtest/MainActivity.kt`
and `FileUtils.kt` for `app/src/main/java/com/asicerik/sdspeedtest/FileUtils.kt`
in the prose; the table gives the full paths.

| member | source | states |
|---|---|---|
| FileUtils.IsExternalStorageReadable | app/src/main/java/com/asicerik/sdspeedtest/FileUtils.kt:17-20 | Readable exactly in the two mounted states, read-write or read-only. |
| FileUtils.IsExternalStorageWritable | app/src/main/java/com/asicerik/sdspeedtest/FileUtils.kt:22-24 | Writable exactly when mounted read-write, and then also readable. |
| FileUtils.WritableImpliesReadable | app/src/main/java/com/asicerik/sdspeedtest/FileUtils.kt:17-24 | Writable storage is always readable. Readable-but-not-writable holds exactly for a read-only mount. |
| FileUtils.DeleteIdempotent | app/src/main/java/com/asicerik/sdspeedtest/FileUtils.kt:53-55 | Deleting `test.dat` twice leaves the same state as deleting it once. |
| FileUtils.SettledValid | app/src/main/java/com/asicerik/sdspeedtest/FileUtils.kt:45-55 | Making the folder and deleting any old `test.dat` keeps the filesystem well formed. No regular file `test.dat` is left, no other file changes, and the refused paths stay the same. When `test.dat` can be created, nothing at all is left at its path; only a non-empty directory named `test.dat` survives. |
| FileUtils.SettledIdempotent | app/src/main/java/com/asicerik/sdspeedtest/FileUtils.kt:45-55 | Settling a folder that a previous test already settled changes nothing. |
| FileUtils.SettledKeepsCreatable | app/src/main/java/com/asicerik/sdspeedtest/FileUtils.kt:44-60 | Whether `createTestFile` succeeds is the same before and after a test has settled the folder. |
| FileUtils.CreateTestFile | app/src/main/java/com/asicerik/sdspeedtest/FileUtils.kt:44-60 | Succeeds exactly when the folder exists or can be made, no non-empty directory occupies `test.dat`, and the medium allows it. On success it returns `folder/test.dat` and leaves that file present and empty. "Could not create test folder" is thrown exactly when mkdir fails or `createNewFile` returns false; the IOException of `createNewFile` passes through. A failed mkdir changes nothing, an existing folder is not re-made, and nothing outside the folder and `test.dat` changes. |
| Measurement.MeasuredTimeWithinWindow | app/src/main/java/com/asicerik/sdspeedtest/MainActivity.kt:134-144 | The accumulated `time` after k passes is non-negative. It never exceeds the wall-clock span from `startTime` to the k-th stop-test reading. |
| Measurement.TimeUpFrom | app/src/main/java/com/asicerik/sdspeedtest/MainActivity.kt:141-142 | Once a reading exceeds `startTime + 5000`, the stop test holds for every pass from 2 on whose stop reading comes at or after it. |
| Measurement.FirstStopExists | app/src/main/java/com/asicerik/sdspeedtest/MainActivity.kt:135-145 | With a monotone clock that passes the 5000 ms bound, some pass is the first to satisfy the stop test, and that pass is never pass 0 or 1. |
| Measurement.AvgSpeed | app/src/main/java/com/asicerik/sdspeedtest/MainActivity.kt:149 | The speed is a finite non-negative rate exactly when time > 0. It is positive exactly when something was transferred. Division by zero gives Infinity when bytes were moved, otherwise NaN. |
| Measurement.AvgSpeedAccountsBytes | app/src/main/java/com/asicerik/sdspeedtest/MainActivity.kt:149 | When time > 0, the rate times the time in ms equals size·count·1000: the speed accounts for exactly the bytes moved. |
| Measurement.RateAtLeastWindowRate | app/src/main/java/com/asicerik/sdspeedtest/MainActivity.kt:149 | The reported speed is at least the bytes moved divided by any window no shorter than the accumulated time. |
| Measurement.Zeros | app/src/main/java/com/asicerik/sdspeedtest/MainActivity.kt:130 | The `ByteArray(size)` buffer holds `size` zero bytes. |
| Measurement.TimedWrite | app/src/main/java/com/asicerik/sdspeedtest/MainActivity.kt:136-138 | One timed write leaves the file holding exactly the buffer. It adds that pass's measured duration to `time`, and it consumes two clock readings. |
| Measurement.StopCheck | app/src/main/java/com/asicerik/sdspeedtest/MainActivity.kt:141-143 | The stop test reads the clock once. It holds exactly when more than 5000 ms have passed and `count > 1`. If it holds, this is the first pass to stop; if not, no pass so far has stopped. |
| Measurement.ExecuteWrite | app/src/main/java/com/asicerik/sdspeedtest/MainActivity.kt:129-151 | In prep mode: exactly one write, the file keeps `size` zero bytes, and three clock readings are taken. Otherwise: at least 3 writes, stopping at the first pass whose stop test holds, and the file is deleted. In both modes `time` is the sum of the measured durations and the speed is `AvgSpeed(size, count, time)`. |
| Measurement.ReadCount | app/src/main/java/com/asicerik/sdspeedtest/MainActivity.kt:162-165 | `raf.read(data)` after `seek(0)` returns 0 for an empty buffer, -1 for an empty file, and otherwise between 1 and the smaller of the buffer and file sizes (the buffer size when the file is at least that long). |
| Measurement.ReadInto | app/src/main/java/com/asicerik/sdspeedtest/MainActivity.kt:162-165 | After the read, the buffer holds the file's leading bytes and keeps its zeros past the end of the file. |
| Measurement.TimedRead | app/src/main/java/com/asicerik/sdspeedtest/MainActivity.kt:162-165 | One timed read fills the buffer as `ReadInto` says and returns what `ReadCount` says. It adds that pass's measured duration to `time`. |
| Measurement.ExecuteRead | app/src/main/java/com/asicerik/sdspeedtest/MainActivity.kt:154-174 | Opens the file (creating it if missing) and reads it at least 3 times, stopping at the first pass whose stop test holds. `time` is the sum of the read durations and the speed is `AvgSpeed(size, count, time)`. The last read saw the file's bytes. Afterwards the file is gone and nothing else changed. |
| SpeedTest.SizeFor | app/src/main/java/com/asicerik/sdspeedtest/MainActivity.kt:77-81 | Every size is 10 000, 100 000 or 1 000 000 bytes; 10 000 exactly for row 1 and 100 000 exactly for row 2. |
| SpeedTest.Decimal | app/src/main/java/com/asicerik/sdspeedtest/MainActivity.kt:85 | The decimal rendering of a number is a non-empty string of digits with no leading zero. |
| SpeedTest.DecimalRoundTrip | app/src/main/java/com/asicerik/sdspeedtest/MainActivity.kt:85 | Reading the rendered digits back gives the number. |
| SpeedTest.Label | app/src/main/java/com/asicerik/sdspeedtest/MainActivity.kt:84-88 | A label is at least three characters long and ends in "KB" exactly below 1 000 000 bytes and in "MB" otherwise. |
| SpeedTest.LabelMeaning | app/src/main/java/com/asicerik/sdspeedtest/MainActivity.kt:84-88 | The digits before the unit read back as the size in whole kilobytes or megabytes. |
| SpeedTest.ScheduleLabels | app/src/main/java/com/asicerik/sdspeedtest/MainActivity.kt:77-88 | The three rows are labelled "10KB", "100KB" and "1MB". |
| SpeedTest.RunWriteTest | app/src/main/java/com/asicerik/sdspeedtest/MainActivity.kt:103-113 | If `createTestFile` fails: 0.0, no timed write, no clock reading. Otherwise the write loop runs from the given reading with at least 3 writes, stopping at the first stop, and the speed is its average (`Timed`). Either way the folder is left settled: no regular file `test.dat`, and nothing at that path when creation succeeded. For a non-empty payload the result is 0.0 exactly when creation failed. |
| SpeedTest.RunReadTest | app/src/main/java/com/asicerik/sdspeedtest/MainActivity.kt:115-126 | Same failure rule as the write test. Otherwise one prep write (three readings) precedes the read loop, whose speed is its average over the reads (`Timed`, starting three readings later). The read loop reads a file holding exactly the `size` zero bytes the prep wrote (`readFrom`), and the last read sees all of them and returns `size`. The folder is left settled as for the write test. |
| SpeedTest.RunRow | app/src/main/java/com/asicerik/sdspeedtest/MainActivity.kt:76-99 | One loop pass appends row i (one more than the rows so far) and keeps the whole table `RowsRan`; the earlier rows and their clock bounds are unchanged. The new row gets its size and label (`Shows`). Its write column is the speed of a write test timed from the reading where the previous row ended, and its read column is the speed of the read test that follows it (`RowRan`). Each column shows 0.0 exactly when the test file cannot be created, and then no clock reading is taken. The folder is left settled. |
| SpeedTest.RunLoops | app/src/main/java/com/asicerik/sdspeedtest/MainActivity.kt:74-101 | Three rows for 10 000, 100 000 and 1 000 000 bytes, each with its label (`Shows`). They are measured one after the other on the clock (`TableRan`): row k's write test, then its read test, then row k + 1. Each column holds its own test's speed, and every column shows 0.0 exactly when the test file cannot be created, in which case no clock reading is taken. No regular file `test.dat` is left in the folder. When `test.dat` can be created, nothing at all is left at its path; only a non-empty directory named `test.dat` survives. |
| SpeedTest.RunExternal | app/src/main/java/com/asicerik/sdspeedtest/MainActivity.kt:59-67 | The external folder is tested exactly when the storage is mounted read-write, giving runLoops' table (`TableRan`) and settled folder. Otherwise the state is unchanged and no time passes; the Toast is taken to return normally. |
| SpeedTest.RunAll | app/src/main/java/com/asicerik/sdspeedtest/MainActivity.kt:49-72 | The external tests (if mounted read-write) are measured on the clock from the start up to reading `mid`, and the internal tests from `mid` on, on the state the external tests left; both are full tables (`TableRan`). The final state is the two folders settled in that order, with no `test.dat` left in a tested folder. The internal folder is reached because the Toast is taken to return normally. |

## Left out

- Toasts on the worker thread: `runWriteTest`, `runReadTest` and `runExternal` call `Toast.makeText(...).show()` from inside `GlobalScope.async`, on a thread without a Looper. Android throws there, and the exception silently ends the un-awaited coroutine. So in the app a failed `createTestFile` or an unusable external storage ends the whole run, without showing 0.0 and without testing the internal folder. The model follows the evident intent, in which the Toast returns normally and the run continues.
- The user interface is not part of this model: table cells, status text, Toasts and the "%3.1f" formatting of `res / 1000`. A row keeps the raw speeds in bytes per second.
- Storage permissions (`hasPermissions`, `requestPermission`, `onRequestPermissionsResult`) are not modelled: the model starts where `init` calls `runAll`.
- The coroutine (`GlobalScope.async`) and the hand-off to the UI thread are not modelled. The model runs the tests sequentially, as the coroutine body does.
- The real clock and real I/O are replaced by the clock oracle and the filesystem value. `Environment.getExternalStorageState()`, `FileUtils.getPath()` and `filesDir` are inputs (`state`, `externalFolder`, `internalFolder`).
- Clock termination and direction: a timed loop is only modelled for a monotone clock that passes the 5000 ms bound (`Passes`, `KeepsRunning`). With a clock that never advances, the Kotlin loop never ends, and the model has no such run. A wall clock that steps backwards is not modelled either; such a step can make a measured duration, `time` and the speed negative in the app, so the non-negativity in `MeasuredTimeWithinWindow`, `TimedWrite` and `AvgSpeed` rests on `Monotone`.
- Measurement.ExecuteWrite, Measurement.ExecuteRead: `writeBytes`, `RandomAccessFile` and `read` are not modelled as failing. They require `CanOpen`, which the freshly created `test.dat` always satisfies, and an exception from them would escape the app's code uncaught.
- The `RandomAccessFile` handle is never closed; handles are not modelled.
- `File.delete()` is modelled as failing only on a non-empty directory. Other delete failures (permissions, a busy file) are not modelled.
- Integer widths: `count` (Int) and `time` (Long) are unbounded here. `count` would overflow only after more than 2^31 - 1 passes of the loop. `time` is a Long holding milliseconds, which overflows only after about 2.9 * 10^8 years of accumulated time. Neither wrap-around is modelled.
- Measurement.AvgSpeed: the speed is computed exactly over the reals. The double rounding of `size.toDouble() * count / (time.toDouble() / 1000.0)` is not modelled; the division-by-zero results Infinity and NaN are kept.
- The speed of the prep write in `runReadTest` is computed and discarded by the app. The model computes and discards it too.
- The storage-size getters `internalStorageSizeGB` and `externalStorageSizeGB` are not used by the measurement protocol and are not modelled.
