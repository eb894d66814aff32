/** The timed measurement loops of MainActivity.kt (executeWrite and
    executeRead): repeat a whole-file write or read, add up the measured
    durations, and stop once more than five seconds have passed since the
    start and more than one earlier pass has completed. */
module Measurement {
  import opened FileUtils

  const MinTestIntervalMs: int := 5000

  /** The millisecond clock as an oracle: reading number i returns clock(i).
      Each call of System.currentTimeMillis() takes the next reading; a loop is
      given the index of its first reading and returns the index after its last. */
  type Clock = nat -> int

  /** Reading i is no later than reading j. */
  predicate InOrder(clock: Clock, i: nat, j: nat) {
    clock(i) <= clock(j)
  }

  /** The clock never runs backwards. */
  ghost predicate Monotone(clock: Clock) {
    forall i: nat, j: nat :: i <= j ==> InOrder(clock, i, j)
  }

  /** Some reading after `start` lies more than MinTestIntervalMs past it. */
  ghost predicate Passes(clock: Clock, start: nat) {
    exists k: nat :: clock(k) > clock(start) + MinTestIntervalMs
  }

  // Layout of the readings of a loop whose startTime is reading `start`:
  // pass n reads the clock before its transfer (start + 1 + 3n), after it
  // (start + 2 + 3n) and, outside prep mode, for the stop test (start + 3 + 3n).

  /** The duration measureTimeMillis reports for pass n. */
  function PassTime(clock: Clock, start: nat, n: nat): int {
    clock(start + 2 + 3 * n) - clock(start + 1 + 3 * n)
  }

  /** The accumulated `time` after k passes. */
  function MeasuredTime(clock: Clock, start: nat, k: nat): int {
    if k == 0 then 0 else MeasuredTime(clock, start, k - 1) + PassTime(clock, start, k - 1)
  }

  /** The stop test of pass n, evaluated while `count` still holds n. */
  predicate TimeUp(clock: Clock, start: nat, n: nat) {
    clock(start + 3 + 3 * n) - clock(start) > MinTestIntervalMs && n > 1
  }

  /** No pass before pass n passes its stop test. */
  ghost predicate NoStopBefore(clock: Clock, start: nat, n: nat) {
    forall m: nat :: m < n ==> !TimeUp(clock, start, m)
  }

  /** Pass n is the first whose stop test holds. */
  ghost predicate FirstStop(clock: Clock, start: nat, n: nat) {
    TimeUp(clock, start, n) && NoStopBefore(clock, start, n)
  }

  /** The accumulated time is never negative and never more than the wall-clock
      time from the start to the k-th pass's stop reading. */
  lemma {:induction false} MeasuredTimeWithinWindow(clock: Clock, start: nat, k: nat)
    requires Monotone(clock)
    ensures 0 <= MeasuredTime(clock, start, k) <= clock(start + 3 * k) - clock(start)
  {
    if k > 0 {
      MeasuredTimeWithinWindow(clock, start, k - 1);
      assert InOrder(clock, start + 1 + 3 * (k - 1), start + 2 + 3 * (k - 1));
      assert InOrder(clock, start + 3 * (k - 1), start + 1 + 3 * (k - 1));
      assert InOrder(clock, start + 2 + 3 * (k - 1), start + 3 * k);
    }
  }

  /** Once a reading has passed the interval, every pass from 2 on whose stop
      reading comes at or after it ends the loop. */
  lemma TimeUpFrom(clock: Clock, start: nat, k: nat, n: nat)
    requires Monotone(clock)
    requires clock(k) > clock(start) + MinTestIntervalMs
    requires n >= 2 && start + 3 + 3 * n >= k
    ensures TimeUp(clock, start, n)
  {
    assert InOrder(clock, k, start + 3 + 3 * n);
  }

  /** With a clock that passes the interval, the loop has a first stop, and no
      pass before 2 is it. */
  lemma FirstStopExists(clock: Clock, start: nat)
    requires Monotone(clock) && Passes(clock, start)
    ensures exists n: nat :: FirstStop(clock, start, n)
    ensures forall n: nat :: FirstStop(clock, start, n) ==> n >= 2
  {
    var k: nat :| clock(k) > clock(start) + MinTestIntervalMs;
    var bound := if k < 2 then 2 else k;
    TimeUpFrom(clock, start, k, bound);
    var n := LeastTimeUp(clock, start, bound);
    assert FirstStop(clock, start, n);
  }

  /** Searches down from a pass whose stop test holds for the first such pass. */
  lemma {:induction false} LeastTimeUp(clock: Clock, start: nat, n: nat) returns (m: nat)
    requires TimeUp(clock, start, n)
    ensures m <= n && FirstStop(clock, start, m)
    decreases n
  {
    if i: nat :| i < n && TimeUp(clock, start, i) {
      m := LeastTimeUp(clock, start, i);
    } else {
      m := n;
    }
  }

  /** The speed Kotlin computes as (size * count) / (time / 1000.0): bytes per
      second when time is positive; division by zero gives Infinity, or NaN
      when nothing was transferred either. */
  datatype Speed = Rate(bytesPerSec: real) | Infinity | NaN

  function AvgSpeed(size: nat, count: nat, time: nat): (s: Speed)
    ensures s.Rate? <==> time > 0
    ensures s.Rate? ==> s.bytesPerSec >= 0.0
    ensures s.Rate? ==> (s.bytesPerSec > 0.0 <==> size > 0 && count > 0)
    ensures s == Infinity <==> time == 0 && size > 0 && count > 0
  {
    if time > 0 then Rate((size as real) * (count as real) / ((time as real) / 1000.0))
    else if size * count > 0 then Infinity
    else NaN
  }

  /** The rate over `time` milliseconds accounts for exactly size * count bytes. */
  lemma AvgSpeedAccountsBytes(size: nat, count: nat, time: nat)
    requires time > 0
    ensures AvgSpeed(size, count, time).bytesPerSec * (time as real) == (size as real) * (count as real) * 1000.0
  {
    var bytes := (size as real) * (count as real);
    var t := time as real;
    assert AvgSpeed(size, count, time).bytesPerSec == bytes / (t / 1000.0);
    assert bytes / (t / 1000.0) * (t / 1000.0) == bytes;
  }

  /** The reported speed is at least the rate over the wall-clock window, since
      the accumulated time never exceeds the window. */
  lemma RateAtLeastWindowRate(size: nat, count: nat, time: nat, window: int)
    requires 0 < time <= window
    ensures AvgSpeed(size, count, time).bytesPerSec
              >= (size as real) * (count as real) * 1000.0 / (window as real)
  {
    var bytes := (size as real) * (count as real);
    assert bytes / ((time as real) / 1000.0) == bytes * 1000.0 / (time as real);
    DivideBySmaller(bytes * 1000.0, time as real, window as real);
  }

  lemma DivideBySmaller(a: real, t: real, w: real)
    requires a >= 0.0 && 0.0 < t <= w
    ensures a / t >= a / w
  {
    var x, y := a / t, a / w;
    assert x * t == a && y * w == a;
    assert y * t <= y * w;
    assert (y - x) * t <= 0.0;
  }

  function Zeros(size: nat): (data: seq<bv8>)
    ensures |data| == size && forall i | 0 <= i < size :: data[i] == 0
  {
    seq(size, _ => 0)
  }

  /** measureTimeMillis { file.writeBytes(data) }: the clock is read before
      and after the write, and the difference is reported. */
  method TimedWrite(fs: FileSystem, file: Path, data: seq<bv8>, clock: Clock, start: nat,
                    count: nat, time: nat, tick: nat)
    returns (fs': FileSystem, time': nat, next: nat)
    requires Monotone(clock)
    requires tick == start + 1 + 3 * count && time == MeasuredTime(clock, start, count)
    ensures fs' == WriteBytes(fs, file, data)
    ensures time' == MeasuredTime(clock, start, count + 1) && next == tick + 2
  {
    var before := clock(tick);
    fs' := WriteBytes(fs, file, data);
    assert InOrder(clock, tick, tick + 1);
    var after := clock(tick + 1);
    time' := time + (after - before);
    next := tick + 2;
  }

  /** The stop test at the end of a pass of either loop: the clock is read
      once more and the loop stops when more than the minimum test interval
      has gone by since `startTime` and the pass is at least the third. */
  method StopCheck(clock: Clock, start: nat, startTime: int, count: nat, tick: nat, ghost bound: nat)
    returns (stop: bool, next: nat)
    requires startTime == clock(start) && tick == start + 3 + 3 * count
    requires NoStopBefore(clock, start, count) && count <= bound && TimeUp(clock, start, bound)
    ensures stop <==> TimeUp(clock, start, count)
    ensures stop ==> FirstStop(clock, start, count)
    ensures !stop ==> NoStopBefore(clock, start, count + 1) && count + 1 <= bound
    ensures next == tick + 1
  {
    var now := clock(tick);
    stop := now - startTime > MinTestIntervalMs && count > 1;
    next := tick + 1;
  }

  /** executeWrite (MainActivity.kt): overwrite the file with `size` zero bytes
      once in prep mode, otherwise until the stop test holds, then delete the
      file unless in prep mode. `count` and `time` are the loop's counters. */
  method ExecuteWrite(fs: FileSystem, file: Path, size: nat, readPrep: bool, clock: Clock, start: nat)
    returns (fs': FileSystem, speed: Speed, count: nat, time: nat, next: nat)
    requires CanOpen(fs, file)
    requires Monotone(clock)
    requires readPrep || Passes(clock, start)
    ensures speed == AvgSpeed(size, count, time)
    ensures time == MeasuredTime(clock, start, count)
    ensures readPrep ==> count == 1 && next == start + 3
    ensures readPrep ==> fs' == WriteBytes(fs, file, Zeros(size))
    ensures !readPrep ==> count >= 3 && FirstStop(clock, start, count - 1)
    ensures !readPrep ==> next == start + 1 + 3 * count
    ensures !readPrep ==> fs' == fs.(files := fs.files - {file})
  {
    var data := Zeros(size);
    var done := false;
    count := 0;
    time := 0;
    var startTime := clock(start);
    next := start + 1;
    fs' := fs;
    ghost var bound := 1;
    if !readPrep {
      ghost var k: nat :| clock(k) > clock(start) + MinTestIntervalMs;
      bound := if k < 2 then 2 else k;
      TimeUpFrom(clock, start, k, bound);
    }
    while !done
      invariant readPrep ==> (done <==> count == 1) && next == start + 1 + 2 * count
      invariant !readPrep ==> next == start + 1 + 3 * count
      invariant time == MeasuredTime(clock, start, count)
      invariant count == 0 ==> fs' == fs
      invariant count > 0 ==> fs' == WriteBytes(fs, file, data)
      invariant !done ==> count <= bound
      invariant !readPrep ==> TimeUp(clock, start, bound)
      invariant !readPrep && !done ==> NoStopBefore(clock, start, count)
      invariant !readPrep && done ==> count >= 1 && FirstStop(clock, start, count - 1)
      decreases if done then 0 else bound + 1 - count
    {
      WriteBytesTwice(fs, file, data);
      fs', time, next := TimedWrite(fs', file, data, clock, start, count, time, next);
      if readPrep {
        done := true;
      } else {
        done, next := StopCheck(clock, start, startTime, count, next, bound);
      }
      count := count + 1;
    }
    if !readPrep {
      fs' := Delete(fs', file);
    }
    speed := AvgSpeed(size, count, time);
  }

  /** What RandomAccessFile.read(data) returns after seek(0) on a file holding
      `content`, with a buffer of `size` bytes: the bytes read, 0 for an empty
      buffer, or -1 at the end of the file. */
  function ReadCount(size: nat, content: seq<bv8>): (n: int)
    ensures size == 0 ==> n == 0
    ensures size > 0 && content == [] ==> n == -1
    ensures size > 0 && content != [] ==> 0 < n <= size && n <= |content|
    ensures size > 0 && |content| >= size ==> n == size
  {
    if size == 0 then 0
    else if |content| == 0 then -1
    else if |content| < size then |content|
    else size
  }

  /** The buffer of `size` zero bytes after RandomAccessFile.read(data) has
      filled it from the start of the file. */
  function ReadInto(size: nat, content: seq<bv8>): (data: seq<bv8>)
    ensures |data| == size
    ensures forall i | 0 <= i < size :: data[i] == if i < |content| then content[i] else 0
  {
    var n := if |content| < size then |content| else size;
    content[..n] + Zeros(size - n)
  }

  /** measureTimeMillis { raf.read(data) }: the clock is read before and after
      the read, and the difference is reported with the bytes read. */
  method TimedRead(content: seq<bv8>, size: nat, clock: Clock, start: nat,
                   count: nat, time: nat, tick: nat)
    returns (data: seq<bv8>, got: int, time': nat, next: nat)
    requires Monotone(clock)
    requires tick == start + 1 + 3 * count && time == MeasuredTime(clock, start, count)
    ensures data == ReadInto(size, content) && got == ReadCount(size, content)
    ensures time' == MeasuredTime(clock, start, count + 1) && next == tick + 2
  {
    var before := clock(tick);
    data, got := ReadInto(size, content), ReadCount(size, content);
    var after := clock(tick + 1);
    assert InOrder(clock, tick, tick + 1);
    time' := time + (after - before);
    next := tick + 2;
  }

  /** executeRead (MainActivity.kt): open the file, read it from the start
      until the stop test holds, then delete it. The file is only read, so
      every pass sees the same bytes; `data` and `got` are the buffer and the
      byte count of the last read. */
  method ExecuteRead(fs: FileSystem, file: Path, size: nat, clock: Clock, start: nat)
    returns (fs': FileSystem, speed: Speed, count: nat, time: nat, next: nat,
             ghost data: seq<bv8>, ghost got: int)
    requires CanOpen(fs, file)
    requires Monotone(clock) && Passes(clock, start)
    ensures speed == AvgSpeed(size, count, time)
    ensures time == MeasuredTime(clock, start, count)
    ensures count >= 3 && FirstStop(clock, start, count - 1)
    ensures next == start + 1 + 3 * count
    ensures data == ReadInto(size, Content(fs, file)) && got == ReadCount(size, Content(fs, file))
    ensures fs' == fs.(files := fs.files - {file})
  {
    fs' := OpenReadWrite(fs, file);
    var content := Content(fs', file);
    data := Zeros(size);
    got := 0;
    var done := false;
    count := 0;
    var startTime := clock(start);
    next := start + 1;
    time := 0;
    ghost var k: nat :| clock(k) > clock(start) + MinTestIntervalMs;
    ghost var bound := if k < 2 then 2 else k;
    TimeUpFrom(clock, start, k, bound);
    while !done
      invariant next == start + 1 + 3 * count
      invariant time == MeasuredTime(clock, start, count)
      invariant count > 0 ==> data == ReadInto(size, content) && got == ReadCount(size, content)
      invariant !done ==> count <= bound
      invariant !done ==> NoStopBefore(clock, start, count)
      invariant done ==> count >= 1 && FirstStop(clock, start, count - 1)
      decreases if done then 0 else bound + 1 - count
    {
      data, got, time, next := TimedRead(content, size, clock, start, count, time, next);
      done, next := StopCheck(clock, start, startTime, count, next, bound);
      count := count + 1;
    }
    assert fs'.files - {file} == fs.files - {file};
    fs' := Delete(fs', file);
    speed := AvgSpeed(size, count, time);
  }
}
