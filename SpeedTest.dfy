/** The test protocol of MainActivity.kt: a write test and a read test per
    payload size, three sizes per storage folder, external storage only when
    it is mounted read-write. */
module SpeedTest {
  import opened FileUtils
  import opened Measurement

  /** The payload size of row i of the table (the `when` in runLoops):
      10 000 bytes for row 1, 100 000 for row 2 and 1 000 000 otherwise, so
      the size tells the row. */
  function SizeFor(i: int): (size: nat)
    ensures size == 10_000 || size == 100_000 || size == 1_000_000
    ensures size == 10_000 <==> i == 1
    ensures size == 100_000 <==> i == 2
  {
    if i == 1 then 10_000
    else if i == 2 then 100_000
    else 1_000_000
  }

  function DigitChar(d: nat): (c: char)
    requires d < 10
    ensures '0' <= c <= '9'
  {
    "0123456789"[d]
  }

  /** Kotlin's decimal rendering of a non-negative Int. */
  function Decimal(n: nat): (s: string)
    ensures |s| > 0
    ensures forall i | 0 <= i < |s| :: '0' <= s[i] <= '9'
    ensures n > 0 ==> s[0] != '0'
    decreases n
  {
    if n < 10 then [DigitChar(n)] else Decimal(n / 10) + [DigitChar(n % 10)]
  }

  /** The number a string of decimal digits denotes. */
  function DecimalValue(s: string): nat
    requires forall i | 0 <= i < |s| :: '0' <= s[i] <= '9'
  {
    if s == [] then 0
    else DecimalValue(s[..|s| - 1]) * 10 + ((s[|s| - 1] as int) - ('0' as int))
  }

  /** The rendered number reads back as the number. */
  lemma {:induction false} DecimalRoundTrip(n: nat)
    ensures DecimalValue(Decimal(n)) == n
    decreases n
  {
    if n >= 10 {
      DecimalRoundTrip(n / 10);
      var s := Decimal(n);
      assert s[..|s| - 1] == Decimal(n / 10);
      assert s[|s| - 1] == DigitChar(n % 10);
      assert "0123456789"[n % 10] as int - '0' as int == n % 10;
    } else {
      assert "0123456789"[n] as int - '0' as int == n;
    }
  }

  /** The label of a row: whole kilobytes below a million bytes, whole
      megabytes from there on. The unit, KB or MB, is the last two
      characters. */
  function Label(size: nat): (title: string)
    ensures |title| >= 3 && title[|title| - 1] == 'B'
    ensures title[|title| - 2] == if size < 1_000_000 then 'K' else 'M'
  {
    if size < 1_000_000 then Decimal(size / 1000) + "KB" else Decimal(size / 1_000_000) + "MB"
  }

  /** The digits before the unit read back as the whole number of units. */
  lemma LabelMeaning(size: nat)
    ensures var title := Label(size);
              DecimalValue(title[..|title| - 2]) == if size < 1_000_000 then size / 1000 else size / 1_000_000
  {
    var title := Label(size);
    if size < 1_000_000 {
      assert title[..|title| - 2] == Decimal(size / 1000);
      DecimalRoundTrip(size / 1000);
    } else {
      assert title[..|title| - 2] == Decimal(size / 1_000_000);
      DecimalRoundTrip(size / 1_000_000);
    }
  }

  /** The three rows are labelled 10KB, 100KB and 1MB. */
  lemma ScheduleLabels()
    ensures Label(SizeFor(1)) == "10KB"
    ensures Label(SizeFor(2)) == "100KB"
    ensures Label(SizeFor(3)) == "1MB"
  {
    assert DigitChar(0) == '0' && DigitChar(1) == '1';
    assert Decimal(1) == "1";
    assert Decimal(10) == Decimal(1) + "0" == "10";
    assert Decimal(100) == Decimal(10) + "0" == "100";
    assert SizeFor(1) / 1000 == 10 && SizeFor(2) / 1000 == 100 && SizeFor(3) / 1_000_000 == 1;
  }

  /** The run of one test folder and one payload size. */
  datatype Row = Row(size: nat, title: string, write: Speed, read: Speed)

  /** A timed test whose loop took its startTime at reading `start`: it ran
      to its first stop, at least three passes, ended before reading `next`,
      and reported the average speed over the measured time. */
  ghost predicate Timed(clock: Clock, start: nat, size: nat, speed: Speed, next: nat) {
    exists count: nat, time: nat ::
      && count >= 3 && FirstStop(clock, start, count - 1)
      && next == start + 1 + 3 * count
      && time == MeasuredTime(clock, start, count)
      && speed == AvgSpeed(size, count, time)
  }

  /** runWriteTest (MainActivity.kt): create the test file, then time writes of
      `size` bytes; 0.0 when the file cannot be created. `timedWrites` and
      `time` are the write loop's final count and accumulated time. */
  method RunWriteTest(fs: FileSystem, rootFolder: Path, size: nat, clock: Clock, start: nat)
    returns (fs': FileSystem, speed: Speed, next: nat, ghost timedWrites: nat, ghost time: nat)
    requires Valid(fs)
    requires Monotone(clock) && Passes(clock, start)
    ensures Valid(fs') && fs' == Settled(fs, rootFolder)
    ensures TestFile(rootFolder) !in fs'.files
    ensures TestFileCreatable(fs, rootFolder) ==> !Exists(fs', TestFile(rootFolder))
    ensures !TestFileCreatable(fs, rootFolder) ==> speed == Rate(0.0) && timedWrites == 0 && time == 0 && next == start
    ensures TestFileCreatable(fs, rootFolder) ==>
              timedWrites >= 3 && next == start + 1 + 3 * timedWrites &&
              FirstStop(clock, start, timedWrites - 1) &&
              time == MeasuredTime(clock, start, timedWrites) &&
              speed == AvgSpeed(size, timedWrites, time)
    ensures TestFileCreatable(fs, rootFolder) ==> Timed(clock, start, size, speed, next)
    ensures size > 0 ==> (speed == Rate(0.0) <==> !TestFileCreatable(fs, rootFolder))
  {
    var created, file := CreateTestFile(fs, rootFolder);
    SettledValid(fs, rootFolder);
    if file.Err? {
      return created, Rate(0.0), start, 0, 0;
    }
    TestFileNotFolder(rootFolder);
    fs', speed, timedWrites, time, next := ExecuteWrite(created, file.value, size, false, clock, start);
    assert fs' == Settled(fs, rootFolder);
  }

  /** runReadTest (MainActivity.kt): create the test file, write `size` bytes
      into it once (prep mode), then time reads of it; 0.0 when the file cannot
      be created. `timedReads` and `time` are the read loop's final count and
      accumulated time, and `data` and `got` are what
      the last read put into the buffer and returned. */
  method RunReadTest(fs: FileSystem, rootFolder: Path, size: nat, clock: Clock, start: nat)
    returns (fs': FileSystem, speed: Speed, next: nat,
             ghost timedReads: nat, ghost time: nat, ghost data: seq<bv8>, ghost got: int,
             ghost readFrom: seq<bv8>)
    requires Valid(fs)
    requires Monotone(clock) && Passes(clock, start + 3)
    ensures Valid(fs') && fs' == Settled(fs, rootFolder)
    ensures TestFile(rootFolder) !in fs'.files
    ensures TestFileCreatable(fs, rootFolder) ==> !Exists(fs', TestFile(rootFolder))
    ensures !TestFileCreatable(fs, rootFolder) ==> speed == Rate(0.0) && timedReads == 0 && time == 0 && next == start
    ensures TestFileCreatable(fs, rootFolder) ==>
              timedReads >= 3 && next == start + 4 + 3 * timedReads &&
              FirstStop(clock, start + 3, timedReads - 1) &&
              time == MeasuredTime(clock, start + 3, timedReads) &&
              speed == AvgSpeed(size, timedReads, time)
    // the read loop takes its startTime after the prep write's three readings
    ensures TestFileCreatable(fs, rootFolder) ==> Timed(clock, start + 3, size, speed, next)
    // the read loop reads a file of exactly the `size` zero bytes the prep
    // write left, and its last timed read sees all of them
    ensures TestFileCreatable(fs, rootFolder) ==> readFrom == Zeros(size)
    ensures TestFileCreatable(fs, rootFolder) ==>
              data == ReadInto(size, readFrom) && got == ReadCount(size, readFrom)
    ensures TestFileCreatable(fs, rootFolder) ==> data == Zeros(size) && got == (if size == 0 then 0 else size)
    ensures size > 0 ==> (speed == Rate(0.0) <==> !TestFileCreatable(fs, rootFolder))
  {
    var created, file := CreateTestFile(fs, rootFolder);
    SettledValid(fs, rootFolder);
    if file.Err? {
      return created, Rate(0.0), start, 0, 0, [], 0, [];
    }
    TestFileNotFolder(rootFolder);
    var prepared, _, _, _, afterPrep := ExecuteWrite(created, file.value, size, true, clock, start);
    WriteBytesValid(created, file.value, Zeros(size));
    readFrom := Content(prepared, file.value);
    fs', speed, timedReads, time, next, data, got := ExecuteRead(prepared, file.value, size, clock, afterPrep);
    assert Content(prepared, file.value) == Zeros(size);
    assert ReadInto(size, Zeros(size)) == Zeros(size);
    assert fs' == Settled(fs, rootFolder);
  }

  /** The clock passes the test interval after every reading from `start` on. */
  ghost predicate KeepsRunning(clock: Clock, start: nat) {
    Monotone(clock) && forall t: nat :: t >= start ==> Passes(clock, t)
  }

  /** Row i of the table: its size from the schedule, its label, and a
      speed of 0.0 in both columns exactly when the test file cannot be
      created. */
  predicate Shows(row: Row, i: int, creatable: bool) {
    && row.size == SizeFor(i) && row.title == Label(row.size)
    && (row.write == Rate(0.0) <==> !creatable)
    && (row.read == Rate(0.0) <==> !creatable)
  }

  /** How a row's two speeds came about between readings `start` and `next`:
      the write test's loop from `start` to `mid`, then the read test (a prep
      write of three readings, then the read loop) from `mid` to `next`. When
      the test file cannot be created both tests report 0.0 without reading
      the clock. */
  ghost predicate RowRan(clock: Clock, start: nat, mid: nat, next: nat, row: Row, creatable: bool) {
    if creatable then
      Timed(clock, start, row.size, row.write, mid) && Timed(clock, mid + 3, row.size, row.read, next)
    else
      row.write == Rate(0.0) && row.read == Rate(0.0) && mid == start && next == start
  }

  /** Row i as shown and as measured between readings `start` and `next`. */
  ghost predicate RowOk(clock: Clock, start: nat, mid: nat, next: nat, row: Row, i: int, creatable: bool) {
    Shows(row, i, creatable) && RowRan(clock, start, mid, next, row, creatable)
  }

  /** The rows so far, in order: row k shows size k + 1 and ran between
      readings bounds[k] and bounds[k + 1], its read test starting at
      mids[k]. */
  ghost predicate RowsRan(clock: Clock, rows: seq<Row>, bounds: seq<nat>, mids: seq<nat>, creatable: bool) {
    && |bounds| == |rows| + 1 && |mids| == |rows|
    && forall k | 0 <= k < |rows| :: RowOk(clock, bounds[k], mids[k], bounds[k + 1], rows[k], k + 1, creatable)
  }

  /** The table runLoops fills: three rows, measured from reading `start` up
      to reading `next`. */
  ghost predicate TableRan(clock: Clock, start: nat, next: nat, rows: seq<Row>, creatable: bool,
                           bounds: seq<nat>, mids: seq<nat>) {
    RowsRan(clock, rows, bounds, mids, creatable) && |rows| == 3 && bounds[0] == start && bounds[3] == next
  }

  /** Every row recorded as run shows its size, label and speeds. */
  lemma RowsShow(clock: Clock, rows: seq<Row>, bounds: seq<nat>, mids: seq<nat>, creatable: bool)
    requires RowsRan(clock, rows, bounds, mids, creatable)
    ensures forall k | 0 <= k < |rows| :: Shows(rows[k], k + 1, creatable)
  {
    forall k | 0 <= k < |rows|
      ensures Shows(rows[k], k + 1, creatable)
    {
      assert RowOk(clock, bounds[k], mids[k], bounds[k + 1], rows[k], k + 1, creatable);
    }
  }

  /** A row measured from where the previous rows ended extends the table. */
  lemma RowsRanExtend(clock: Clock, rows: seq<Row>, bounds: seq<nat>, mids: seq<nat>, creatable: bool,
                      row: Row, mid: nat, next: nat)
    requires RowsRan(clock, rows, bounds, mids, creatable)
    requires RowOk(clock, bounds[|rows|], mid, next, row, |rows| + 1, creatable)
    ensures RowsRan(clock, rows + [row], bounds + [next], mids + [mid], creatable)
  {
    var rows', bounds', mids' := rows + [row], bounds + [next], mids + [mid];
    forall k | 0 <= k < |rows'|
      ensures RowOk(clock, bounds'[k], mids'[k], bounds'[k + 1], rows'[k], k + 1, creatable)
    {
      if k < |rows| {
        assert rows'[k] == rows[k] && bounds'[k] == bounds[k] && bounds'[k + 1] == bounds[k + 1] && mids'[k] == mids[k];
      }
    }
  }

  /** One pass of the loop in runLoops: fill row i of the table (i is one
      more than the rows filled so far) with its size and label, then with
      the speeds of a write test and of the read test that follows it. */
  method RunRow(fs: FileSystem, rootFolder: Path, clock: Clock, rows: seq<Row>, start: nat,
                ghost bounds: seq<nat>, ghost mids: seq<nat>)
    returns (fs': FileSystem, rows': seq<Row>, next: nat, ghost bounds': seq<nat>, ghost mids': seq<nat>)
    requires RowsRan(clock, rows, bounds, mids, TestFileCreatable(fs, rootFolder))
    requires bounds[|rows|] == start
    requires Valid(fs) && KeepsRunning(clock, start)
    ensures Valid(fs') && fs' == Settled(fs, rootFolder)
    ensures RowsRan(clock, rows', bounds', mids', TestFileCreatable(fs, rootFolder))
    ensures |rows'| == |rows| + 1 && rows'[..|rows|] == rows
    ensures bounds'[..|bounds|] == bounds && bounds'[|rows'|] == next >= start
    ensures !TestFileCreatable(fs, rootFolder) ==> next == start
  {
    var size := SizeFor(|rows| + 1);
    var title := Label(size);
    var settled, write, mid, read;
    ghost var count, time, data, got, readFrom;
    settled, write, mid, count, time := RunWriteTest(fs, rootFolder, size, clock, start);
    SettledKeepsCreatable(fs, rootFolder);
    SettledIdempotent(fs, rootFolder);
    fs', read, next, count, time, data, got, readFrom := RunReadTest(settled, rootFolder, size, clock, mid);
    var row := Row(size, title, write, read);
    RowsRanExtend(clock, rows, bounds, mids, TestFileCreatable(fs, rootFolder), row, mid, next);
    rows', bounds', mids' := rows + [row], bounds + [next], mids + [mid];
    assert rows'[..|rows|] == rows && bounds'[..|bounds|] == bounds;
  }

  /** runLoops (MainActivity.kt): for the sizes 10 000, 100 000 and 1 000 000
      bytes, in that order, a write test and then a read test against
      `rootFolder`, giving one labelled row of speeds per size. `bounds` and
      `mids` are the clock readings at which each row's tests started. */
  method RunLoops(fs: FileSystem, rootFolder: Path, clock: Clock, start: nat)
    returns (fs': FileSystem, rows: seq<Row>, next: nat, ghost bounds: seq<nat>, ghost mids: seq<nat>)
    requires Valid(fs) && KeepsRunning(clock, start)
    ensures Valid(fs') && fs' == Settled(fs, rootFolder)
    ensures TestFile(rootFolder) !in fs'.files
    ensures TestFileCreatable(fs, rootFolder) ==> !Exists(fs', TestFile(rootFolder))
    ensures |rows| == 3
    ensures rows[0].size == 10_000 && rows[1].size == 100_000 && rows[2].size == 1_000_000
    ensures forall k | 0 <= k < 3 :: Shows(rows[k], k + 1, TestFileCreatable(fs, rootFolder))
    ensures TableRan(clock, start, next, rows, TestFileCreatable(fs, rootFolder), bounds, mids)
    ensures next >= start && (!TestFileCreatable(fs, rootFolder) ==> next == start)
  {
    fs' := fs;
    rows := [];
    bounds := [start];
    mids := [];
    ghost var creatable := TestFileCreatable(fs, rootFolder);
    ghost var settled := Settled(fs, rootFolder);
    SettledValid(fs, rootFolder);
    SettledKeepsCreatable(fs, rootFolder);
    SettledIdempotent(fs, rootFolder);
    next := start;
    for i := 1 to 4
      invariant |rows| == i - 1 && RowsRan(clock, rows, bounds, mids, creatable)
      invariant bounds[0] == start && bounds[i - 1] == next >= start && (!creatable ==> next == start)
      invariant fs' == if i == 1 then fs else settled
      invariant TestFileCreatable(fs', rootFolder) == creatable
    {
      ghost var before := bounds;
      fs', rows, next, bounds, mids := RunRow(fs', rootFolder, clock, rows, next, bounds, mids);
      assert bounds[0] == before[0];
    }
    RowsShow(clock, rows, bounds, mids, creatable);
  }

  /** runExternal (MainActivity.kt): the external folder is tested only when
      the storage is both readable and writable, that is, mounted read-write. */
  method RunExternal(fs: FileSystem, state: StorageState, externalFolder: Path, clock: Clock, start: nat)
    returns (fs': FileSystem, rows: seq<Row>, next: nat, ghost bounds: seq<nat>, ghost mids: seq<nat>)
    requires Valid(fs) && KeepsRunning(clock, start)
    ensures Valid(fs') && next >= start
    ensures rows != [] <==> state == Mounted
    ensures state != Mounted ==> fs' == fs && next == start
    ensures state == Mounted ==> TestFile(externalFolder) !in fs'.files
    ensures state == Mounted ==> fs' == Settled(fs, externalFolder) &&
                                 TableRan(clock, start, next, rows, TestFileCreatable(fs, externalFolder), bounds, mids)
  {
    if !IsExternalStorageReadable(state) || !IsExternalStorageWritable(state) {
      return fs, [], start, [], [];
    }
    fs', rows, next, bounds, mids := RunLoops(fs, externalFolder, clock, start);
  }

  /** runAll (MainActivity.kt): the external folder, then the internal one,
      one after the other (runInternall tests the internal folder
      unconditionally). `mid` is the clock reading at which the internal
      tests start. */
  method RunAll(fs: FileSystem, state: StorageState, externalFolder: Path, internalFolder: Path,
                clock: Clock, start: nat)
    returns (fs': FileSystem, external: seq<Row>, internal: seq<Row>, next: nat,
             mid: nat, ghost extBounds: seq<nat>, ghost extMids: seq<nat>,
             ghost intBounds: seq<nat>, ghost intMids: seq<nat>)
    requires Valid(fs) && KeepsRunning(clock, start)
    ensures Valid(fs') && start <= mid <= next
    ensures external != [] <==> state == Mounted
    ensures state == Mounted ==>
              TableRan(clock, start, mid, external, TestFileCreatable(fs, externalFolder), extBounds, extMids)
    ensures state != Mounted ==> mid == start
    // the internal tests run on what the external tests left
    ensures TableRan(clock, mid, next, internal,
                     TestFileCreatable(if state == Mounted then Settled(fs, externalFolder) else fs, internalFolder),
                     intBounds, intMids)
    ensures fs' == Settled(if state == Mounted then Settled(fs, externalFolder) else fs, internalFolder)
    // no test file is left behind in a folder that was tested
    ensures TestFile(internalFolder) !in fs'.files
    ensures state == Mounted ==> TestFile(externalFolder) !in fs'.files
    ensures TestFileCreatable(if state == Mounted then Settled(fs, externalFolder) else fs, internalFolder) ==>
              !Exists(fs', TestFile(internalFolder))
  {
    var afterExternal;
    afterExternal, external, mid, extBounds, extMids := RunExternal(fs, state, externalFolder, clock, start);
    fs', internal, next, intBounds, intMids := RunLoops(afterExternal, internalFolder, clock, mid);
    SettledValid(afterExternal, internalFolder);
    if state == Mounted {
      SettledValid(fs, externalFolder);
    }
  }
}
