/** `HashComputer` (Managers/HashComputer.swift): the chunked read loop of
    `computeSHA512`, its throttled progress reports, the hex form of the
    digest and the two figures a `HashProgress` shows.

    The file and the clock are inputs: `chunks` are the lengths
    `readData(ofLength:)` returns, one per call (a call past the end of the
    sequence returns no data), and `ticks[i]` is `DispatchTime.now()` in
    nanoseconds right after the `i`-th non-empty read, `start` the reading
    taken before the loop. The digest bytes are an input too: SHA-512 itself
    is not part of this model. */
module HashComputer {
  import opened Wrappers

  /** `chunkLength`: 4 KiB per read. */
  const ChunkLength: nat := 0x1000

  /** `minReportLoop`. */
  const MinReportLoop: nat := 2000

  /** `minReportLength`: 16 MiB. */
  const MinReportLength: nat := 0x1000000

  /** `minReportNanoseconds`: one second. */
  const MinReportNanoseconds: nat := 1_000_000_000

  const NanosecondsPerSecond: nat := 1_000_000_000

  const MaxUInt64: nat := 0xFFFF_FFFF_FFFF_FFFF

  newtype byte = x: int | 0 <= x < 256

  /** What `reportProgress` receives. */
  datatype HashProgress = HashProgress(
    totalLength: nat,
    totalUpdatedLength: nat,
    updatedLength: nat,
    elapsedNanoseconds: nat)

  /** The loop's counters and the progress reports made so far. */
  datatype ReadState = ReadState(
    totalReadLength: nat,
    progressReadLength: nat,
    progressLoopCount: nat,
    totalElapsedNanoseconds: nat,
    reports: seq<HashProgress>)

  const InitialState := ReadState(0, 0, 0, 0, [])

  // ---------------------------------------------------------------------------
  // Inputs

  /** The number of chunks the loop consumes before the first empty one. */
  function FirstEmpty(chunks: seq<nat>): (n: nat)
    ensures n <= |chunks|
    ensures forall i :: 0 <= i < n ==> chunks[i] > 0
    ensures n < |chunks| ==> chunks[n] == 0
  {
    if chunks == [] || chunks[0] == 0 then 0 else 1 + FirstEmpty(chunks[1..])
  }

  /** A monotonic clock: no reading goes back in time. */
  predicate ClockOk(start: nat, ticks: seq<nat>) {
    (forall i :: 0 <= i < |ticks| ==> start <= ticks[i]) &&
    (forall i, j :: 0 <= i <= j < |ticks| ==> ticks[i] <= ticks[j])
  }

  function Sum(s: seq<nat>): nat {
    if s == [] then 0 else Sum(s[..|s| - 1]) + s[|s| - 1]
  }

  // ---------------------------------------------------------------------------
  // The loop as a fold

  /** One turn of the loop for a non-empty chunk of `len` bytes read when
      `elapsed` nanoseconds have passed since the start. A report is made
      only when all three thresholds are exceeded; it resets the byte and
      loop counters and moves the time baseline to now. */
  function Step(s: ReadState, len: nat, elapsed: nat, fileSize: nat): (r: ReadState)
    requires s.totalElapsedNanoseconds <= elapsed
    ensures r.totalReadLength == s.totalReadLength + len
    ensures |r.reports| == |s.reports| + 1 <==>
      s.progressLoopCount + 1 >= MinReportLoop && s.progressReadLength + len > MinReportLength &&
      elapsed - s.totalElapsedNanoseconds > MinReportNanoseconds
    ensures |r.reports| == |s.reports| ==>
      (r.reports == s.reports &&
       r.progressReadLength == s.progressReadLength + len && r.progressLoopCount == s.progressLoopCount + 1 &&
       r.totalElapsedNanoseconds == s.totalElapsedNanoseconds)
    ensures |r.reports| != |s.reports| ==>
      (r.reports == s.reports + [HashProgress(fileSize, r.totalReadLength,
         s.progressReadLength + len, elapsed - s.totalElapsedNanoseconds)] &&
       r.progressReadLength == 0 && r.progressLoopCount == 0 && r.totalElapsedNanoseconds == elapsed)
  {
    var total := s.totalReadLength + len;
    var progress := s.progressReadLength + len;
    var loops := s.progressLoopCount + 1;
    var progressElapsed := elapsed - s.totalElapsedNanoseconds;
    if loops >= MinReportLoop && progress > MinReportLength && progressElapsed > MinReportNanoseconds then
      ReadState(total, 0, 0, elapsed, s.reports + [HashProgress(fileSize, total, progress, progressElapsed)])
    else
      ReadState(total, progress, loops, s.totalElapsedNanoseconds, s.reports)
  }

  /** The state after the first `n` chunks. */
  function Run(chunks: seq<nat>, start: nat, ticks: seq<nat>, fileSize: nat, n: nat): (r: ReadState)
    requires n <= |chunks| && n <= |ticks| && ClockOk(start, ticks)
    ensures n > 0 ==> r.totalElapsedNanoseconds <= ticks[n - 1] - start
  {
    if n == 0 then InitialState
    else Step(Run(chunks, start, ticks, fileSize, n - 1), chunks[n - 1], ticks[n - 1] - start, fileSize)
  }

  // ---------------------------------------------------------------------------
  // The loop

  /** `computeSHA512`: reads chunks until the first empty one, reporting progress
      on the way, and returns the digest in hex. */
  method ComputeSha512(chunks: seq<nat>, start: nat, ticks: seq<nat>, fileSize: nat, digest: seq<byte>)
    returns (hash: string, reports: seq<HashProgress>)
    requires FirstEmpty(chunks) <= |ticks| && ClockOk(start, ticks)
    ensures reports == Run(chunks, start, ticks, fileSize, FirstEmpty(chunks)).reports
    ensures hash == Hex(digest)
  {
    var totalReadLength: nat := 0;
    var progressReadLength: nat := 0;
    var progressLoopCount: nat := 0;
    var totalElapsedNanoseconds: nat := 0;
    reports := [];
    var i := 0;
    while true
      invariant i <= FirstEmpty(chunks)
      invariant Run(chunks, start, ticks, fileSize, i) ==
        ReadState(totalReadLength, progressReadLength, progressLoopCount, totalElapsedNanoseconds, reports)
      decreases |chunks| - i
    {
      var dataCount := if i < |chunks| then chunks[i] else 0;
      if dataCount == 0 {
        break;
      }
      totalReadLength := totalReadLength + dataCount;
      progressReadLength := progressReadLength + dataCount;
      progressLoopCount := progressLoopCount + 1;
      var elapsed := ticks[i] - start;
      var progressElapsedNanoseconds := elapsed - totalElapsedNanoseconds;
      if progressLoopCount >= MinReportLoop && progressReadLength > MinReportLength
        && progressElapsedNanoseconds > MinReportNanoseconds
      {
        totalElapsedNanoseconds := elapsed;
        reports := reports + [HashProgress(fileSize, totalReadLength, progressReadLength, progressElapsedNanoseconds)];
        progressReadLength := 0;
        progressLoopCount := 0;
      }
      i := i + 1;
    }
    hash := Hex(digest);
  }

  // ---------------------------------------------------------------------------
  // What the reports say

  function UpdatedSum(reports: seq<HashProgress>): nat {
    if reports == [] then 0 else UpdatedSum(reports[..|reports| - 1]) + reports[|reports| - 1].updatedLength
  }

  /** Every report exceeded the byte and time thresholds and carries the file
      size. */
  predicate ThresholdsExceeded(p: HashProgress, fileSize: nat) {
    p.updatedLength > MinReportLength && p.elapsedNanoseconds > MinReportNanoseconds && p.totalLength == fileSize
  }

  /** Successive reports have strictly increasing cumulative lengths. */
  predicate Increasing(reports: seq<HashProgress>) {
    forall i, j :: 0 <= i < j < |reports| ==> reports[i].totalUpdatedLength < reports[j].totalUpdatedLength
  }

  /** The read total is the sum of the chunks. */
  lemma {:induction false} TotalIsSum(chunks: seq<nat>, start: nat, ticks: seq<nat>, fileSize: nat, n: nat)
    requires n <= |chunks| && n <= |ticks| && ClockOk(start, ticks)
    ensures Run(chunks, start, ticks, fileSize, n).totalReadLength == Sum(chunks[..n])
  {
    if n > 0 {
      TotalIsSum(chunks, start, ticks, fileSize, n - 1);
      assert chunks[..n][..n - 1] == chunks[..n - 1];
    }
  }

  /** The read total splits into the bytes reported so far and the bytes
      read since the last report. */
  lemma {:induction false} RunAccounts(chunks: seq<nat>, start: nat, ticks: seq<nat>, fileSize: nat, n: nat)
    requires n <= |chunks| && n <= |ticks| && ClockOk(start, ticks)
    ensures UpdatedSum(Run(chunks, start, ticks, fileSize, n).reports) + Run(chunks, start, ticks, fileSize, n).progressReadLength
      == Run(chunks, start, ticks, fileSize, n).totalReadLength
  {
    if n > 0 {
      RunAccounts(chunks, start, ticks, fileSize, n - 1);
      var s := Run(chunks, start, ticks, fileSize, n - 1);
      var r := Run(chunks, start, ticks, fileSize, n);
      if |r.reports| != |s.reports| {
        assert r.reports[..|r.reports| - 1] == s.reports;
      }
    }
  }

  /** Every report exceeded the thresholds, the reports' cumulative lengths
      increase strictly, and the last one is the total read at that point. */
  lemma {:induction false} RunReports(chunks: seq<nat>, start: nat, ticks: seq<nat>, fileSize: nat, n: nat)
    requires n <= |chunks| && n <= |ticks| && ClockOk(start, ticks)
    ensures forall p :: p in Run(chunks, start, ticks, fileSize, n).reports ==> ThresholdsExceeded(p, fileSize)
    ensures Increasing(Run(chunks, start, ticks, fileSize, n).reports)
    ensures Run(chunks, start, ticks, fileSize, n).progressReadLength <= Run(chunks, start, ticks, fileSize, n).totalReadLength
    ensures forall p :: p in Run(chunks, start, ticks, fileSize, n).reports ==>
      p.totalUpdatedLength <= Run(chunks, start, ticks, fileSize, n).totalReadLength - Run(chunks, start, ticks, fileSize, n).progressReadLength
  {
    if n > 0 {
      RunReports(chunks, start, ticks, fileSize, n - 1);
    }
  }

  /** A file of at most 16 MiB never gets a progress report. */
  lemma NoReportUpTo16MiB(chunks: seq<nat>, start: nat, ticks: seq<nat>, fileSize: nat)
    requires FirstEmpty(chunks) <= |ticks| && ClockOk(start, ticks)
    requires Sum(chunks[..FirstEmpty(chunks)]) <= MinReportLength
    ensures Run(chunks, start, ticks, fileSize, FirstEmpty(chunks)).reports == []
  {
    var n := FirstEmpty(chunks);
    var r := Run(chunks, start, ticks, fileSize, n);
    TotalIsSum(chunks, start, ticks, fileSize, n);
    RunAccounts(chunks, start, ticks, fileSize, n);
    RunReports(chunks, start, ticks, fileSize, n);
    ReportedBeyondThreshold(r.reports, fileSize);
  }

  /** Any report alone exceeds 16 MiB. */
  lemma ReportedBeyondThreshold(reports: seq<HashProgress>, fileSize: nat)
    ensures reports != [] && (forall p :: p in reports ==> ThresholdsExceeded(p, fileSize)) ==>
      UpdatedSum(reports) > MinReportLength
  {
    if reports != [] {
      assert reports[|reports| - 1] in reports;
    }
  }

  /** The reported lengths add up to at most the bytes read, and no report
      claims more than was read. */
  lemma ReportsWithinTotal(chunks: seq<nat>, start: nat, ticks: seq<nat>, fileSize: nat)
    requires FirstEmpty(chunks) <= |ticks| && ClockOk(start, ticks)
    ensures UpdatedSum(Run(chunks, start, ticks, fileSize, FirstEmpty(chunks)).reports) <= Sum(chunks[..FirstEmpty(chunks)])
    ensures forall p :: p in Run(chunks, start, ticks, fileSize, FirstEmpty(chunks)).reports ==>
      p.totalUpdatedLength <= Sum(chunks[..FirstEmpty(chunks)])
  {
    TotalIsSum(chunks, start, ticks, fileSize, FirstEmpty(chunks));
    RunAccounts(chunks, start, ticks, fileSize, FirstEmpty(chunks));
    RunReports(chunks, start, ticks, fileSize, FirstEmpty(chunks));
  }

  // ---------------------------------------------------------------------------
  // `HashProgress`

  /** `percentage`, before formatting: 1 (100%) for an empty file, otherwise
      the fraction of the file hashed so far. */
  function Percentage(p: HashProgress): (r: real)
    ensures p.totalLength == 0 ==> r == 1.0
    ensures p.totalLength > 0 ==> r * p.totalLength as real == p.totalUpdatedLength as real
    ensures 0.0 <= r
  {
    if p.totalLength == 0 then 1.0 else p.totalUpdatedLength as real / p.totalLength as real
  }

  /** While the file is no longer than its size as measured before the loop,
      no report shows more than 100%. */
  lemma ReportsAtMostWhole(chunks: seq<nat>, start: nat, ticks: seq<nat>, fileSize: nat)
    requires FirstEmpty(chunks) <= |ticks| && ClockOk(start, ticks)
    requires Sum(chunks[..FirstEmpty(chunks)]) <= fileSize
    ensures forall p :: p in Run(chunks, start, ticks, fileSize, FirstEmpty(chunks)).reports ==> Percentage(p) <= 1.0
  {
    ReportsWithinTotal(chunks, start, ticks, fileSize);
    RunReports(chunks, start, ticks, fileSize, FirstEmpty(chunks));
    forall p | p in Run(chunks, start, ticks, fileSize, FirstEmpty(chunks)).reports
      ensures Percentage(p) <= 1.0
    {
      assert ThresholdsExceeded(p, fileSize);
      if p.totalLength > 0 {
        FractionAtMostOne(p.totalUpdatedLength, p.totalLength);
      }
    }
  }

  lemma FractionAtMostOne(a: nat, b: nat)
    requires 0 < b && a <= b
    ensures a as real / b as real <= 1.0
  {
  }

  /** `lengthPerSecond` as written, before formatting: the product
      `1_000_000_000 * updatedLength` is a `UInt64` multiplication, which
      traps (here: `None`) once it exceeds the largest `UInt64`. */
  function LengthPerSecondAsWritten(p: HashProgress): (r: Option<nat>)
    requires p.updatedLength <= MaxUInt64 && p.elapsedNanoseconds <= MaxUInt64
    ensures r.None? <==> p.elapsedNanoseconds > 0 && NanosecondsPerSecond * p.updatedLength > MaxUInt64
    ensures r.Some? ==> r.value == LengthPerSecond(p)
  {
    if p.elapsedNanoseconds == 0 then Some(p.updatedLength)
    else if NanosecondsPerSecond * p.updatedLength > MaxUInt64 then None
    else Some(NanosecondsPerSecond * p.updatedLength / p.elapsedNanoseconds)
  }

  /** `lengthPerSecond` with the product taken without overflow: the bytes
      hashed per second over the report's interval, rounded down, or the
      bytes themselves when no time was measured. Over an interval of at
      least a second the rate is no larger than the bytes, so it fits a
      `UInt64` whenever they do. */
  function LengthPerSecond(p: HashProgress): (r: nat)
    ensures p.elapsedNanoseconds == 0 ==> r == p.updatedLength
    ensures p.elapsedNanoseconds > 0 ==>
      r * p.elapsedNanoseconds <= NanosecondsPerSecond * p.updatedLength < (r + 1) * p.elapsedNanoseconds
    ensures p.elapsedNanoseconds >= NanosecondsPerSecond ==> r <= p.updatedLength
  {
    if p.elapsedNanoseconds == 0 then p.updatedLength
    else
      var r := NanosecondsPerSecond * p.updatedLength / p.elapsedNanoseconds;
      RateBounds(NanosecondsPerSecond * p.updatedLength, p.elapsedNanoseconds, p.updatedLength);
      r
  }

  lemma RateBounds(a: nat, e: nat, u: nat)
    requires e > 0 && a == NanosecondsPerSecond * u
    ensures (a / e) * e <= a < (a / e + 1) * e
    ensures e >= NanosecondsPerSecond ==> a / e <= u
  {
    if e >= NanosecondsPerSecond {
      assert (a / e) * e <= a;
      assert (a / e) * NanosecondsPerSecond <= (a / e) * e;
    }
  }

  /** The overflow is reached: a report of 18_446_744_074 bytes over two
      seconds traps, where the rate is about 9.2 GB per second. */
  lemma LengthPerSecondTraps()
    ensures LengthPerSecondAsWritten(HashProgress(0, 18_446_744_074, 18_446_744_074, 2 * NanosecondsPerSecond)).None?
    ensures LengthPerSecond(HashProgress(0, 18_446_744_074, 18_446_744_074, 2 * NanosecondsPerSecond)) == 9_223_372_037
  {
  }

  // ---------------------------------------------------------------------------
  // The hex form of the digest

  const HexDigits: string := "0123456789abcdef"

  predicate IsLowerHexDigit(c: char) {
    '0' <= c <= '9' || 'a' <= c <= 'f'
  }

  predicate IsLowerHex(s: string) {
    forall i :: 0 <= i < |s| ==> IsLowerHexDigit(s[i])
  }

  /** `String(format: "%02x", b)`: two lower-case hex digits, high nibble
      first. */
  function HexByte(b: byte): (s: string)
    ensures |s| == 2 && IsLowerHexDigit(s[0]) && IsLowerHexDigit(s[1])
  {
    [HexDigits[b as int / 16], HexDigits[b as int % 16]]
  }

  /** The digest bytes as `map { String(format: "%02x", $0) }.joined()`. */
  function Hex(bytes: seq<byte>): (s: string)
    ensures |s| == 2 * |bytes| && IsLowerHex(s)
  {
    if bytes == [] then "" else HexByte(bytes[0]) + Hex(bytes[1..])
  }

  /** The value of a lower-case hex digit (0 for any other character). */
  function DigitValue(c: char): (v: nat)
    ensures v < 16
    ensures IsLowerHexDigit(c) ==> HexDigits[v] == c
  {
    if '0' <= c <= '9' then c as int - '0' as int
    else if 'a' <= c <= 'f' then c as int - 'a' as int + 10
    else 0
  }

  /** Reads bytes back from a hex form, two digits per byte; a last odd
      digit is ignored. */
  function Unhex(s: string): (bytes: seq<byte>)
    ensures |bytes| * 2 <= |s| < |bytes| * 2 + 2
  {
    if |s| < 2 then []
    else [(16 * DigitValue(s[0]) + DigitValue(s[1])) as byte] + Unhex(s[2..])
  }

  /** The hex form loses nothing: reading it back gives the digest. */
  lemma {:induction false} HexRoundTrip(bytes: seq<byte>)
    ensures Unhex(Hex(bytes)) == bytes
  {
    if bytes != [] {
      UnhexFirstByte(bytes[0], Hex(bytes[1..]));
      HexRoundTrip(bytes[1..]);
    }
  }

  /** The two digits of a byte in front of a hex text read back as that byte
      in front of the text's bytes. */
  lemma UnhexFirstByte(b: byte, rest: string)
    ensures Unhex(HexByte(b) + rest) == [b] + Unhex(rest)
  {
    var s := HexByte(b) + rest;
    var hi, lo := b as int / 16, b as int % 16;
    assert s[0] == HexDigits[hi] && s[1] == HexDigits[lo];
    assert s[2..] == rest;
    DigitOfHex(hi);
    DigitOfHex(lo);
    assert 16 * hi + lo == b as int;
  }

  /** Conversely, an even-length lower-case hex text is the hex form of the
      bytes read from it. */
  lemma {:induction false} UnhexRoundTrip(s: string)
    requires IsLowerHex(s) && |Unhex(s)| * 2 == |s|
    ensures Hex(Unhex(s)) == s
    decreases |s|
  {
    if |s| >= 2 {
      var hi, lo := DigitValue(s[0]), DigitValue(s[1]);
      var b := (16 * hi + lo) as byte;
      assert b as int / 16 == hi && b as int % 16 == lo;
      assert HexByte(b) == s[..2];
      assert IsLowerHex(s[2..]) by {
        forall i | 0 <= i < |s[2..]| ensures IsLowerHexDigit(s[2..][i]) {
          assert s[2..][i] == s[i + 2];
        }
      }
      UnhexRoundTrip(s[2..]);
      assert s == s[..2] + s[2..];
    }
  }

  /** Each hex digit reads back as its value. */
  lemma DigitOfHex(k: nat)
    requires k < 16
    ensures DigitValue(HexDigits[k]) == k
  {
  }

  /** Distinct digests have distinct hex forms. */
  lemma HexInjective(a: seq<byte>, b: seq<byte>)
    requires Hex(a) == Hex(b)
    ensures a == b
  {
    HexRoundTrip(a);
    HexRoundTrip(b);
  }
}
