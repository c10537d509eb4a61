/**
 * The dry-run estimate for large files (`estimateRemovalsFast`) and the line
 * count extrapolation it uses (`getFileLineCount`), as the loops the source
 * runs, each proved equal to a declarative definition.
 *
 * The file is its content `c`, one character per byte: `fseek` is a position
 * in `c` and `fgets` reads up to the next line feed (`Lines.NextLineStart`).
 * The ratios are exact rationals (`real`) rather than IEEE doubles.
 */
module Estimator {
  import opened Wrappers
  import opened Lines
  import opened LogDates
  import opened Retention
  import opened Entries
  import opened Limits

  /** Beginning, middle and near the end. */
  const SampleIntervals: nat := 3
  /** `(int)(2000 / 3)`: the most lines one sample counts. */
  const MaxLinesPerSample: nat := LargeFileSampleSize / SampleIntervals
  /** `getFileLineCount` keeps reading lines while fewer bytes than this were read. */
  const LineCountSampleBytes: nat := 100000

  /** How many of the lines are expired. */
  function CountOld(ls: seq<string>, cutoff: int, parse: Parser): (r: nat)
    ensures r <= CountDated(ls)
  {
    if ls == [] then 0
    else (if IsLogLineOld(ls[0], cutoff, parse) then 1 else 0) + CountOld(ls[1..], cutoff, parse)
  }

  lemma {:induction false} CountOldAppend(a: seq<string>, b: seq<string>, cutoff: int, parse: Parser)
    ensures CountOld(a + b, cutoff, parse) == CountOld(a, cutoff, parse) + CountOld(b, cutoff, parse)
  {
    if a == [] {
      assert a + b == b;
    } else {
      TailOfAppend(a, b);
      CountOldAppend(a[1..], b, cutoff, parse);
    }
  }

  lemma {:induction false} CountDatedAtMostLength(ls: seq<string>)
    ensures CountDated(ls) <= |ls|
  {
    if ls != [] {
      CountDatedAtMostLength(ls[1..]);
    }
  }

  // ---------------------------------------------------------------------------
  // The samples.

  /**
   * Division rounding down, as `(int)` truncates a non-negative product; by
   * repeated subtraction, so that its only property in use is the one stated.
   */
  function FloorDiv(a: nat, d: nat): (q: nat)
    requires d > 0
    ensures q * d <= a < q * d + d
    decreases a
  {
    if a < d then 0 else 1 + FloorDiv(a - d, d)
  }

  /** The three offsets `0`, `(int)(size * 0.5)` and `(int)(size * 0.8)`. */
  function SamplePositions(size: nat): (ps: seq<nat>)
    ensures |ps| == SampleIntervals
    ensures forall k :: 0 <= k < |ps| ==> ps[k] <= size
    ensures ps[0] == 0 && ps[0] <= ps[1] <= ps[2]
  {
    [0, FloorDiv(size, 2), FloorDiv(size * 4, 5)]
  }

  /** Where counting starts: the beginning, or after the (possibly partial) line the offset falls in. */
  function SampleStart(c: string, p: nat): (q: nat)
    requires p <= |c|
    ensures p <= q <= |c|
    ensures q == 0 || c[q - 1] == '\n' || q == |c|
  {
    if p > 0 then NextLineStart(c, p) else 0
  }

  /** The lines one sample counts: the first (at most 666) lines from its start. */
  function Window(c: string, p: nat): (w: seq<string>)
    requires p <= |c|
    ensures |w| <= MaxLinesPerSample
    ensures |w| <= |LinesFrom(c, SampleStart(c, p))| && w == LinesFrom(c, SampleStart(c, p))[..|w|]
    ensures |w| < MaxLinesPerSample ==> w == LinesFrom(c, SampleStart(c, p))
  {
    var ls := LinesFrom(c, SampleStart(c, p));
    if |ls| <= MaxLinesPerSample then ls else ls[..MaxLinesPerSample]
  }

  /** One sample's counters: expired dated lines, dated lines, lines read. */
  datatype Sample = Sample(removed: nat, entries: nat, lines: nat)

  predicate Consistent(s: Sample) {
    s.removed <= s.entries <= s.lines
  }

  /** The counters of a run of lines: its expired lines, its dated lines, and how many lines it has. */
  function Count(w: seq<string>, cutoff: int, parse: Parser): (s: Sample)
    ensures Consistent(s) && s.lines == |w|
  {
    CountDatedAtMostLength(w);
    Sample(CountOld(w, cutoff, parse), CountDated(w), |w|)
  }

  /**
   * The counters of the sample taken at offset `p`: those of the first (at
   * most 666) lines `fgets` returns after the partial line is skipped.
   */
  function SampleAt(c: string, p: nat, cutoff: int, parse: Parser): (s: Sample)
    requires p <= |c|
    ensures Consistent(s)
    ensures s.lines <= MaxLinesPerSample
  {
    Count(Window(c, p), cutoff, parse)
  }

  /** The three samples of the file, in the order they are taken. */
  function Samples(c: string, cutoff: int, parse: Parser): (ss: seq<Sample>)
    ensures |ss| == SampleIntervals
    ensures forall k :: 0 <= k < |ss| ==> Consistent(ss[k]) && ss[k].lines <= MaxLinesPerSample
    ensures forall k :: 0 <= k < |ss| ==> ss[k] == SampleAt(c, SamplePositions(|c|)[k], cutoff, parse)
  {
    var ps := SamplePositions(|c|);
    seq(SampleIntervals, k requires 0 <= k < SampleIntervals => SampleAt(c, ps[k], cutoff, parse))
  }

  /** The running totals over the samples. */
  datatype Totals = Totals(removed: nat, entries: nat, lines: nat, valid: nat)

  /** Sums over the samples that saw at least one dated line; the others are discarded. */
  function Accumulate(ss: seq<Sample>): (t: Totals)
    requires forall k :: 0 <= k < |ss| ==> Consistent(ss[k])
    ensures t.removed <= t.entries <= t.lines
    ensures t.valid <= |ss|
    ensures t.entries == 0 <==> t.valid == 0
  {
    if ss == [] then Totals(0, 0, 0, 0)
    else
      var t := Accumulate(ss[..|ss| - 1]);
      var s := ss[|ss| - 1];
      assert Consistent(s);
      if s.entries > 0 then Totals(t.removed + s.removed, t.entries + s.entries, t.lines + s.lines, t.valid + 1)
      else t
  }

  /** Taking one more sample into account. */
  lemma AccumulateStep(ss: seq<Sample>, k: nat)
    requires k < |ss| && forall j :: 0 <= j < |ss| ==> Consistent(ss[j])
    ensures var t := Accumulate(ss[..k]);
      var s := ss[k];
      Accumulate(ss[..k + 1]) ==
        if s.entries > 0 then Totals(t.removed + s.removed, t.entries + s.entries, t.lines + s.lines, t.valid + 1)
        else t
  {
    assert ss[..k + 1][..k] == ss[..k];
  }

  /** A sample without a dated line changes none of the totals. */
  lemma UndatedSampleDiscarded(ss: seq<Sample>, s: Sample)
    requires forall k :: 0 <= k < |ss| ==> Consistent(ss[k])
    requires Consistent(s) && s.entries == 0
    ensures Accumulate(ss + [s]) == Accumulate(ss)
  {
    assert (ss + [s])[..|ss|] == ss;
  }

  lemma {:induction false} AccumulateLinesBounded(ss: seq<Sample>, bound: nat)
    requires forall k :: 0 <= k < |ss| ==> Consistent(ss[k]) && ss[k].lines <= bound
    ensures Accumulate(ss).lines <= |ss| * bound
  {
    if ss != [] {
      var init := ss[..|ss| - 1];
      assert forall k :: 0 <= k < |init| ==> init[k] == ss[k];
      AccumulateLinesBounded(init, bound);
      assert (|ss| - 1) * bound + bound == |ss| * bound;
    }
  }

  /** The three samples together count at most 3 * 666 lines. */
  lemma TotalsBounded(c: string, cutoff: int, parse: Parser)
    ensures Accumulate(Samples(c, cutoff, parse)).lines <= SampleIntervals * MaxLinesPerSample
  {
    AccumulateLinesBounded(Samples(c, cutoff, parse), MaxLinesPerSample);
  }

  // ---------------------------------------------------------------------------
  // Rounding and the extrapolation.

  /** PHP `round` on a non-negative value: halves go up. */
  function Round(x: real): (n: nat)
    requires x >= 0.0
    ensures n as real <= x + 0.5 < n as real + 1.0
  {
    (x + 0.5).Floor
  }

  lemma RoundMonotone(x: real, y: real)
    requires 0.0 <= x <= y
    ensures Round(x) <= Round(y)
  {
  }

  lemma RoundOfNat(n: nat)
    ensures Round(n as real) == n
  {
  }

  /** `num / den` as PHP computes it, exactly. */
  function Ratio(num: nat, den: nat): (q: real)
    requires den > 0
    ensures 0.0 <= q && (num > 0 ==> q > 0.0)
    ensures num <= den ==> q <= 1.0
    ensures q * den as real == num as real
  {
    num as real / den as real
  }

  /** A count times a ratio. */
  function Scaled(a: nat, q: real): (x: real)
    requires 0.0 <= q
    ensures 0.0 <= x
  {
    a as real * q
  }

  lemma MulAtMostOne(a: real, q: real)
    requires 0.0 <= a && 0.0 <= q <= 1.0
    ensures 0.0 <= a * q <= a
  {
  }

  lemma MulMonotone(a: real, b: real, q: real)
    requires 0.0 <= a <= b && 0.0 <= q
    ensures a * q <= b * q
  {
  }

  /** Multiplying by a ratio of at most one never increases a value. */
  lemma ScaleDown(a: nat, num: nat, den: nat)
    requires num <= den && 0 < den
    ensures 0.0 <= Scaled(a, Ratio(num, den)) <= a as real
    ensures a <= den ==> Scaled(a, Ratio(num, den)) <= num as real
  {
    var q := Ratio(num, den);
    MulAtMostOne(a as real, q);
    if a <= den {
      assert q * den as real == num as real;
      MulMonotone(a as real, den as real, q);
    }
  }

  /** Scaling a whole number by a ratio of at most one, then rounding, never increases it. */
  lemma RoundScaledDown(a: nat, num: nat, den: nat)
    requires num <= den && 0 < den
    ensures 0.0 <= Scaled(a, Ratio(num, den))
    ensures Round(Scaled(a, Ratio(num, den))) <= a
    ensures a <= den ==> Round(Scaled(a, Ratio(num, den))) <= num
  {
    var x := Scaled(a, Ratio(num, den));
    ScaleDown(a, num, den);
    RoundMonotone(x, a as real);
    RoundOfNat(a);
    if a <= den {
      RoundMonotone(x, num as real);
      RoundOfNat(num);
    }
  }

  lemma SignOfFactor(y: real, q: real)
    requires q > 0.0 && y * q >= 0.0
    ensures y >= 0.0
  {
  }

  /** Dividing a size by its own average line length gives back the line count. */
  lemma RoundAverageExact(size: nat, n: nat)
    requires size > 0 && n > 0
    ensures size as real / Ratio(size, n) >= 0.0
    ensures Round(size as real / Ratio(size, n)) == n
  {
    var q := Ratio(size, n);
    var x := size as real / q;
    assert x * q == size as real;
    assert (x - n as real) * q == 0.0;
    assert x == n as real;
    RoundOfNat(n);
  }

  /** Extrapolating from a prefix of `b` bytes never gives fewer lines than the prefix had. */
  lemma RoundAverageAtLeast(size: nat, b: nat, n: nat)
    requires 0 < b <= size && n > 0
    ensures size as real / Ratio(b, n) >= 0.0
    ensures Round(size as real / Ratio(b, n)) >= n
  {
    var q := Ratio(b, n);
    var x := size as real / q;
    assert x * q == size as real;
    assert (x - n as real) * q == size as real - b as real;
    SignOfFactor(x - n as real, q);
    RoundMonotone(n as real, x);
    RoundOfNat(n);
  }

  /** `round($totalFileLines * $avgEntryToLineRatio)`: dated lines extrapolated to the whole file. */
  function EstimatedTotal(t: Totals, fileLines: nat): nat
    requires 0 < t.entries <= t.lines
  {
    Round(Scaled(fileLines, Ratio(t.entries, t.lines)))
  }

  /** `round($estimatedTotalEntries * $removalRatio)`: the estimate before the batch cap. */
  function Unscaled(t: Totals, fileLines: nat): nat
    requires t.removed <= t.entries && 0 < t.entries <= t.lines
  {
    Round(Scaled(EstimatedTotal(t, fileLines), Ratio(t.removed, t.entries)))
  }

  /** The extrapolation from the sample totals, the line count and the entries processable under the cap. */
  function Extrapolate(t: Totals, fileLines: nat, maxProcessable: nat): nat
    requires t.removed <= t.entries <= t.lines
  {
    if t.entries == 0 || t.valid == 0 then 0
    else if t.removed == 0 then 0
    else
      var estimatedTotal := EstimatedTotal(t, fileLines);
      var estimated := Unscaled(t, fileLines);
      if estimatedTotal > maxProcessable then
        Round(Scaled(estimated, Ratio(maxProcessable, estimatedTotal)))
      else estimated
  }

  /**
   * The estimate never exceeds the estimated number of entries nor the number of
   * entries the cap lets a real run process; when the cap applies it is scaled
   * down, never up; and it is positive only if some sampled dated line was expired.
   */
  lemma ExtrapolateBounds(t: Totals, fileLines: nat, maxProcessable: nat)
    requires t.removed <= t.entries <= t.lines
    ensures var r := Extrapolate(t, fileLines, maxProcessable);
      && r <= maxProcessable
      && (t.entries > 0 ==> r <= EstimatedTotal(t, fileLines))
      && (t.entries > 0 && EstimatedTotal(t, fileLines) > maxProcessable ==> r <= Unscaled(t, fileLines))
      && (r > 0 ==> t.removed > 0 && t.valid > 0)
  {
    if t.entries > 0 && t.valid > 0 && t.removed > 0 {
      var total := EstimatedTotal(t, fileLines);
      var est := Unscaled(t, fileLines);
      RoundScaledDown(total, t.removed, t.entries);
      if total > maxProcessable {
        RoundScaledDown(est, maxProcessable, total);
      }
    }
  }

  // ---------------------------------------------------------------------------
  // The line count.

  /** The lines `getFileLineCount` reads from byte `i` on: it stops at the end or once 100000 bytes are read. */
  function LinesCounted(c: string, i: nat): nat
    requires i <= |c|
    decreases |c| - i
  {
    if i == |c| || i >= LineCountSampleBytes then 0 else 1 + LinesCounted(c, NextLineStart(c, i))
  }

  /** The byte position at which `getFileLineCount` stops reading. */
  function BytesCounted(c: string, i: nat): (b: nat)
    requires i <= |c|
    ensures i <= b <= |c|
    decreases |c| - i
  {
    if i == |c| || i >= LineCountSampleBytes then i else BytesCounted(c, NextLineStart(c, i))
  }

  /** `getFileLineCount`: the file size divided by the average length of the lines read. */
  function FileLineCount(c: string): nat {
    var n := LinesCounted(c, 0);
    var b := BytesCounted(c, 0);
    if n == 0 || b == 0 then 0 else Round(|c| as real / Ratio(b, n))
  }

  lemma {:induction false} SmallFileCountsAll(c: string, i: nat)
    requires i <= |c| <= LineCountSampleBytes
    ensures LinesCounted(c, i) == |LinesFrom(c, i)|
    ensures BytesCounted(c, i) == |c|
    decreases |c| - i
  {
    if i < |c| {
      SmallFileCountsAll(c, NextLineStart(c, i));
    }
  }

  /** A file of at most 100000 bytes is read to the end, so its line count is exact. */
  lemma SmallFileLineCountExact(c: string)
    requires |c| <= LineCountSampleBytes
    ensures FileLineCount(c) == |ReadLines(c)|
  {
    SmallFileCountsAll(c, 0);
    var n := LinesCounted(c, 0);
    assert ReadLines(c) == LinesFrom(c, 0);
    if c != [] {
      assert n >= 1;
      RoundAverageExact(|c|, n);
    }
  }

  lemma {:induction false} CountedLinesBytes(c: string, i: nat)
    requires i <= |c|
    ensures LinesCounted(c, i) <= BytesCounted(c, i) - i
    decreases |c| - i
  {
    if i < |c| && i < LineCountSampleBytes {
      CountedLinesBytes(c, NextLineStart(c, i));
    }
  }

  /** The extrapolated count is never below the number of lines actually read, so a non-empty file has at least one. */
  lemma LineCountAtLeastRead(c: string)
    ensures FileLineCount(c) >= LinesCounted(c, 0)
    ensures c != [] ==> FileLineCount(c) >= 1
  {
    var n := LinesCounted(c, 0);
    var b := BytesCounted(c, 0);
    CountedLinesBytes(c, 0);
    if c != [] {
      assert n >= 1 && b >= 1;
    }
    if n > 0 && b > 0 {
      RoundAverageAtLeast(|c|, b, n);
    }
  }

  // ---------------------------------------------------------------------------
  // The estimate.

  /** `estimateRemovalsFast`: zero for a missing or unreadable file (`None`), otherwise the extrapolation. */
  function EstimatedRemovals(file: Option<string>, cutoff: int, parse: Parser): nat {
    match file
    case None => 0
    case Some(c) =>
      Extrapolate(Accumulate(Samples(c, cutoff, parse)), FileLineCount(c), MaxBatchesForFile(true, |c|) * BatchSize)
  }

  /**
   * The zero cases: a missing or unreadable file, no dated line in any
   * sample, or no expired line in any sample.
   */
  lemma EstimateZeroCases(file: Option<string>, cutoff: int, parse: Parser)
    ensures file.None? ==> EstimatedRemovals(file, cutoff, parse) == 0
    ensures file.Some? && Accumulate(Samples(file.value, cutoff, parse)).entries == 0 ==>
      EstimatedRemovals(file, cutoff, parse) == 0
    ensures file.Some? && Accumulate(Samples(file.value, cutoff, parse)).removed == 0 ==>
      EstimatedRemovals(file, cutoff, parse) == 0
  {
  }

  /** The estimate never exceeds what a real batch run could process: 30000 entries for a large file. */
  lemma EstimateWithinCap(c: string, cutoff: int, parse: Parser)
    ensures EstimatedRemovals(Some(c), cutoff, parse) <= MaxBatchesForFile(true, |c|) * BatchSize
    ensures ShouldUseBatchProcessing(true, |c|) ==> EstimatedRemovals(Some(c), cutoff, parse) <= 30000
  {
    ExtrapolateBounds(Accumulate(Samples(c, cutoff, parse)), FileLineCount(c), MaxBatchesForFile(true, |c|) * BatchSize);
  }

  // ---------------------------------------------------------------------------
  // The loops.

  /** Counting one more line. */
  lemma CountSnoc(read: seq<string>, line: string, cutoff: int, parse: Parser)
    ensures var s := Count(read, cutoff, parse);
      Count(read + [line], cutoff, parse) ==
        Sample(s.removed + (if IsLogLineOld(line, cutoff, parse) then 1 else 0),
               s.entries + (if IsHeader(line) then 1 else 0),
               s.lines + 1)
    ensures IsLogLineOld(line, cutoff, parse) ==> IsHeader(line)
  {
    CountOldAppend(read, [line], cutoff, parse);
    CountDatedAppend(read, [line]);
    if IsLogLineOld(line, cutoff, parse) {
      OldLineIsHeader(line, cutoff, parse);
    }
  }

  /** The lines read before the loop stopped are the sample's window. */
  lemma ReadIsWindow(c: string, p: nat, pos: nat, read: seq<string>)
    requires p <= |c| && pos <= |c|
    requires read + LinesFrom(c, pos) == LinesFrom(c, SampleStart(c, p))
    requires |read| <= MaxLinesPerSample
    requires pos == |c| || |read| == MaxLinesPerSample
    ensures Window(c, p) == read
  {
    var ls := LinesFrom(c, SampleStart(c, p));
    if pos == |c| {
      assert read + [] == read;
    } else {
      assert ls[..MaxLinesPerSample] == read;
    }
  }

  /** One sample: seek, skip the partial line unless at the start, then count up to 666 lines. */
  method ReadSample(c: string, p: nat, cutoff: int, parse: Parser) returns (s: Sample)
    requires p <= |c|
    ensures s == SampleAt(c, p, cutoff, parse)
  {
    var pos := p;
    if pos > 0 {
      pos := NextLineStart(c, pos);
    }
    ghost var read: seq<string> := [];
    var removed := 0;
    var entries := 0;
    var linesRead := 0;
    // The source's `fgets` also consumes the line on which the limit is reached;
    // the next sample seeks afresh, so that line is never observed.
    while pos < |c| && linesRead < MaxLinesPerSample
      invariant pos <= |c| && linesRead <= MaxLinesPerSample
      invariant read + LinesFrom(c, pos) == LinesFrom(c, SampleStart(c, p))
      invariant Sample(removed, entries, linesRead) == Count(read, cutoff, parse)
      decreases |c| - pos
    {
      var next := NextLineStart(c, pos);
      var line := RTrimEol(c[pos..next]);
      CountSnoc(read, line, cutoff, parse);
      ConcatAssoc(read, [line], LinesFrom(c, next));
      read := read + [line];
      pos := next;
      linesRead := linesRead + 1;
      if ExtractDate(line) != None {
        entries := entries + 1;
        if IsLogLineOld(line, cutoff, parse) {
          removed := removed + 1;
        }
      }
    }
    ReadIsWindow(c, p, pos, read);
    s := Sample(removed, entries, linesRead);
  }

  /** `getFileLineCount`: count the lines of the first 100000 bytes, then extrapolate to the file size. */
  method CountFileLines(c: string) returns (n: nat)
    ensures n == FileLineCount(c)
  {
    var bytesRead := 0;
    var sampleLines := 0;
    var pos := 0;
    while pos < |c| && bytesRead < LineCountSampleBytes
      invariant pos <= |c| && bytesRead == pos
      invariant sampleLines + LinesCounted(c, pos) == LinesCounted(c, 0)
      invariant BytesCounted(c, pos) == BytesCounted(c, 0)
      decreases |c| - pos
    {
      var next := NextLineStart(c, pos);
      bytesRead := bytesRead + (next - pos);
      sampleLines := sampleLines + 1;
      pos := next;
    }
    if sampleLines == 0 || bytesRead == 0 {
      return 0;
    }
    var avgLineLength := Ratio(bytesRead, sampleLines);
    n := Round(|c| as real / avgLineLength);
  }

  lemma EstimateOfContent(c: string, cutoff: int, parse: Parser)
    ensures EstimatedRemovals(Some(c), cutoff, parse) ==
      Extrapolate(Accumulate(Samples(c, cutoff, parse)), FileLineCount(c), MaxBatchesForFile(true, |c|) * BatchSize)
  {
  }

  lemma ExtrapolateZero(t: Totals, fileLines: nat, maxProcessable: nat)
    requires t.removed <= t.entries <= t.lines
    requires t.entries == 0 || t.valid == 0 || t.removed == 0
    ensures Extrapolate(t, fileLines, maxProcessable) == 0
  {
  }

  /** The sampling phase of `estimateRemovalsFast`: the three samples, summed over those with a dated line. */
  method SampleTotals(c: string, cutoff: int, parse: Parser) returns (t: Totals)
    ensures t == Accumulate(Samples(c, cutoff, parse))
  {
    var positions := SamplePositions(|c|);
    ghost var expected := Samples(c, cutoff, parse);
    ghost var seen: seq<Sample> := [];
    var totalRemoved: nat := 0;
    var totalEntries: nat := 0;
    var totalLines: nat := 0;
    var validSamples: nat := 0;
    var k := 0;
    while k < |positions|
      invariant k <= |positions|
      invariant seen == expected[..k]
      invariant Totals(totalRemoved, totalEntries, totalLines, validSamples) == Accumulate(seen)
    {
      var s := ReadSample(c, positions[k], cutoff, parse);
      assert s == expected[k];
      PrefixSnoc(expected, k);
      ghost var next := seen + [s];
      AccumulateStep(expected, k);
      if s.entries > 0 {
        totalRemoved := totalRemoved + s.removed;
        totalEntries := totalEntries + s.entries;
        totalLines := totalLines + s.lines;
        validSamples := validSamples + 1;
      }
      seen := next;
      k := k + 1;
    }
    assert expected[..k] == expected;
    t := Totals(totalRemoved, totalEntries, totalLines, validSamples);
  }

  /** `estimateRemovalsFast`: the samples, the early zero returns, then the capped extrapolation. */
  method EstimateRemovalsFast(file: Option<string>, cutoff: int, parse: Parser) returns (r: nat)
    ensures r == EstimatedRemovals(file, cutoff, parse)
  {
    if file == None {
      return 0;
    }
    var c := file.value;
    var t := SampleTotals(c, cutoff, parse);
    EstimateOfContent(c, cutoff, parse);
    if t.entries == 0 || t.valid == 0 {
      ExtrapolateZero(t, FileLineCount(c), MaxBatchesForFile(true, |c|) * BatchSize);
      return 0;
    }
    if t.removed == 0 {
      ExtrapolateZero(t, FileLineCount(c), MaxBatchesForFile(true, |c|) * BatchSize);
      return 0;
    }
    var totalFileLines := CountFileLines(c);
    var maxBatches := MaxBatchesForFile(true, |c|);
    r := Extrapolate(t, totalFileLines, maxBatches * BatchSize);
  }
}
