/**
 * The streaming batch compactor (`cleanLogFileInBatches`): the same entry
 * assembly over the lines `fgets` returns, writing each kept entry to a
 * temporary buffer as its lines joined by line feeds plus a final line feed,
 * with counters and a cap on the number of batches.
 *
 * `BatchRun` states declaratively what one run produces, including the two
 * behaviours of the cap as the source has them: once the cap is reached no
 * line after the header that triggered it is copied, and the entry flushed at
 * the cap is flushed a second time by the end-of-input block.
 */
module Streaming {
  import opened Wrappers
  import opened Lines
  import opened LogDates
  import opened Retention
  import opened Entries
  import opened WholeFile

  /** What a run returns, plus the temporary file's content (`output`). */
  datatype BatchResult = BatchResult(
    output: string,
    totalEntries: nat,
    removedEntries: nat,
    processedEntries: nat,
    batchesProcessed: nat,
    maxBatchesLimit: nat,
    stoppedEarly: bool)

  /** Each kept entry written as `implode("\n", $entry) . "\n"`. */
  function Written(es: seq<Entry>, cutoff: int, parse: Parser): string {
    Terminated(Flatten(Kept(es, cutoff, parse)))
  }

  /**
   * `maxBatches * batchSize`: how many entries a run processes before the cap
   * stops it. Written as repeated addition; `BatchArithmetic` states the product.
   */
  function CapEntries(maxBatches: nat, batchSize: nat): (n: nat)
    ensures maxBatches > 0 ==> n >= batchSize
  {
    if maxBatches == 0 then 0 else CapEntries(maxBatches - 1, batchSize) + batchSize
  }

  /**
   * How many batches `k` processed entries complete: `intdiv(k, batchSize)`,
   * written as repeated subtraction; `BatchArithmetic` states the quotient.
   */
  function CompleteBatches(k: nat, batchSize: nat): nat
    requires batchSize > 0
    decreases k
  {
    if k < batchSize then 0 else 1 + CompleteBatches(k - batchSize, batchSize)
  }

  /**
   * One run over `lines`. With `n = maxBatches * batchSize`: when the input
   * holds at most `n` entries every entry is processed once; otherwise the run
   * stops after the n-th entry, which the end-of-input block processes again.
   */
  function BatchRun(lines: seq<string>, cutoff: int, parse: Parser, batchSize: nat, maxBatches: nat): BatchResult
    requires batchSize > 0 && maxBatches > 0
  {
    RunOver(Group(lines), cutoff, parse, batchSize, maxBatches)
  }

  /** The same run, given the entries the assembly makes of the lines. */
  function RunOver(g: seq<Entry>, cutoff: int, parse: Parser, batchSize: nat, maxBatches: nat): BatchResult
    requires batchSize > 0 && maxBatches > 0
  {
    var n := CapEntries(maxBatches, batchSize);
    if |g| <= n then
      BatchResult(Written(g, cutoff, parse), |g|, |Dropped(g, cutoff, parse)|, |g|,
                  if g == [] then 0 else CompleteBatches(|g| - 1, batchSize), maxBatches, false)
    else
      var e := g[..n];
      var again := Keep(e[n - 1], cutoff, parse);
      BatchResult(Written(e, cutoff, parse) + (if again then Terminated(e[n - 1]) else []),
                  n + 1, |Dropped(e, cutoff, parse)| + (if again then 0 else 1), n + 1,
                  maxBatches, maxBatches, true)
  }

  // ---------------------------------------------------------------------------
  // Arithmetic of the batch counter.

  lemma MulDist(x: int, y: int, b: int)
    ensures (x - y) * b == x * b - y * b
  {
  }

  lemma MulPos(k: int, b: int)
    requires k >= 1 && b > 0
    ensures k * b >= b
  {
  }

  lemma DivModUnique(m: int, b: int, q: int, r: int)
    requires b > 0 && 0 <= r < b && m == q * b + r
    ensures m / b == q && m % b == r
  {
    var q', r' := m / b, m % b;
    assert m == q' * b + r';
    if q' > q {
      MulPos(q' - q, b);
      MulDist(q', q, b);
    } else if q' < q {
      MulPos(q - q', b);
      MulDist(q, q', b);
    }
  }

  /** The repeated addition and subtraction above are the product and the integer quotient. */
  lemma {:induction false} BatchArithmetic(k: nat, batchSize: nat, maxBatches: nat)
    requires batchSize > 0
    ensures CompleteBatches(k, batchSize) == k / batchSize
    ensures CapEntries(maxBatches, batchSize) == maxBatches * batchSize
    decreases k + maxBatches
  {
    if k < batchSize {
      DivModUnique(k, batchSize, 0, k);
    } else {
      BatchArithmetic(k - batchSize, batchSize, 0);
      var q := (k - batchSize) / batchSize;
      DivModUnique(k - batchSize, batchSize, q, (k - batchSize) % batchSize);
      DivModUnique(k, batchSize, q + 1, (k - batchSize) % batchSize);
    }
    if maxBatches > 0 {
      BatchArithmetic(0, batchSize, maxBatches - 1);
      MulDist(maxBatches, 1, batchSize);
    }
  }

  /** One more processed entry completes a batch exactly when it is a multiple of the batch size. */
  lemma BatchStep(m: nat, b: nat)
    requires b > 0
    ensures CompleteBatches(m + 1, b) == CompleteBatches(m, b) + (if (m + 1) % b == 0 then 1 else 0)
  {
    BatchArithmetic(m, b, 0);
    BatchArithmetic(m + 1, b, 0);
    var q, r := m / b, m % b;
    assert m == q * b + r;
    if r + 1 < b {
      DivModUnique(m + 1, b, q, r + 1);
    } else {
      assert m + 1 == (q + 1) * b;
      DivModUnique(m + 1, b, q + 1, 0);
    }
  }

  /** The batch counter reaches the cap exactly when `k` reaches `cap * b` entries. */
  lemma ReachesCap(k: nat, b: nat, cap: nat)
    requires b > 0
    ensures CompleteBatches(k, b) >= cap <==> k >= CapEntries(cap, b)
  {
    BatchArithmetic(k, b, cap);
    var q, r := k / b, k % b;
    assert k == q * b + r;
    if q >= cap {
      MulDist(q, cap, b);
      if q > cap {
        MulPos(q - cap, b);
      }
    } else {
      MulDist(cap, q, b);
      MulPos(cap - q, b);
    }
  }

  /** The cap is a whole number of batches. */
  lemma CapIsMultiple(b: nat, cap: nat)
    requires b > 0
    ensures CapEntries(cap, b) % b == 0 && CompleteBatches(CapEntries(cap, b), b) == cap
  {
    BatchArithmetic(CapEntries(cap, b), b, cap);
    DivModUnique(cap * b, b, cap, 0);
  }

  /** One entry short of the cap, the batch counter is one short of it. */
  lemma CapMinusOne(b: nat, cap: nat)
    requires b > 0 && cap > 0
    ensures CapEntries(cap, b) >= 1 && CompleteBatches(CapEntries(cap, b) - 1, b) == cap - 1
  {
    BatchArithmetic(CapEntries(cap, b) - 1, b, cap);
    MulPos(cap, b);
    MulDist(cap, 1, b);
    DivModUnique(cap * b - 1, b, cap - 1, b - 1);
  }

  // ---------------------------------------------------------------------------
  // The loop.

  /** The variables of the read loop, and whether the cap has stopped it. */
  datatype Scan = Scan(
    output: string,
    current: seq<string>,
    keep: bool,
    total: nat,
    removed: nat,
    processed: nat,
    batchCount: nat,
    stopped: bool)

  /**
   * The flush inside the loop: the held entry is written when kept and counted
   * as removed otherwise, and every `batchSize`-th flush completes a batch.
   */
  function Flush(s: Scan, batchSize: nat): Scan
    requires batchSize > 0
  {
    var processed := s.processed + 1;
    s.(output := if s.keep then s.output + Join(s.current) + "\n" else s.output,
       total := s.total + 1,
       removed := if s.keep then s.removed else s.removed + 1,
       processed := processed,
       batchCount := if processed % batchSize == 0 then s.batchCount + 1 else s.batchCount)
  }

  /**
   * One line read by the loop: a header flushes the held entry (stopping when
   * that completes the last allowed batch, before the header opens an entry),
   * any other line extends the held entry. Once stopped, no line is read.
   */
  function ReadLine(s: Scan, line: string, cutoff: int, parse: Parser, batchSize: nat, maxBatches: nat): Scan
    requires batchSize > 0
  {
    if s.stopped then s
    else if IsHeader(line) then
      if s.current != [] then
        var f := Flush(s, batchSize);
        if f.processed % batchSize == 0 && f.batchCount >= maxBatches then f.(stopped := true)
        else f.(current := [line], keep := !IsLogLineOld(line, cutoff, parse))
      else
        s.(current := [line], keep := !IsLogLineOld(line, cutoff, parse))
    else
      s.(current := s.current + [line])
  }

  /** The loop variables after the first `i` lines have been offered to the loop. */
  function ScanLines(lines: seq<string>, i: nat, cutoff: int, parse: Parser, batchSize: nat, maxBatches: nat): Scan
    requires i <= |lines| && batchSize > 0
  {
    if i == 0 then Scan([], [], true, 0, 0, 0, 0, false)
    else ReadLine(ScanLines(lines, i - 1, cutoff, parse, batchSize, maxBatches), lines[i - 1],
                  cutoff, parse, batchSize, maxBatches)
  }

  /** The end-of-input block: the open entry, if any, is flushed once more. */
  function Finish(s: Scan, maxBatches: nat): BatchResult {
    var f := s.current != [];
    BatchResult(if f && s.keep then s.output + Join(s.current) + "\n" else s.output,
                if f then s.total + 1 else s.total,
                if f && !s.keep then s.removed + 1 else s.removed,
                if f then s.processed + 1 else s.processed,
                s.batchCount, maxBatches, s.batchCount >= maxBatches)
  }

  /** The loop variables once the entries `closed` have been flushed, none of them twice, while `open` is held. */
  function Progress(closed: seq<Entry>, open: Entry, stopped: bool, cutoff: int, parse: Parser, batchSize: nat): Scan
    requires batchSize > 0
  {
    Scan(Written(closed, cutoff, parse), open, Keep(open, cutoff, parse), |closed|,
         |Dropped(closed, cutoff, parse)|, |closed|, CompleteBatches(|closed|, batchSize), stopped)
  }

  /**
   * The loop variables after `i` lines, stated by the entries those lines form:
   * every entry but the last has been flushed and the last is held; once an
   * entry beyond the first `n = maxBatches * batchSize` has begun, the run has
   * stopped with those `n` flushed and the n-th still held.
   */
  function Expected(lines: seq<string>, i: nat, cutoff: int, parse: Parser, batchSize: nat, maxBatches: nat): Scan
    requires i <= |lines| && batchSize > 0 && maxBatches > 0
  {
    var g := Group(lines[..i]);
    var n := CapEntries(maxBatches, batchSize);
    if g == [] then Scan([], [], true, 0, 0, 0, 0, false)
    else if |g| <= n then Progress(g[..|g| - 1], g[|g| - 1], false, cutoff, parse, batchSize)
    else Progress(g[..n], g[n - 1], true, cutoff, parse, batchSize)
  }

  /** Flushing one more entry: written when kept, counted as removed otherwise. */
  lemma FlushWritten(es: seq<Entry>, e: Entry, cutoff: int, parse: Parser)
    requires e != []
    ensures Written(es + [e], cutoff, parse) ==
      Written(es, cutoff, parse) + (if Keep(e, cutoff, parse) then Join(e) + "\n" else [])
  {
    var all := es + [e];
    assert all[..|all| - 1] == es && all[|all| - 1] == e;
    FlushLast(all, cutoff, parse);
    if Keep(e, cutoff, parse) {
      TerminatedAppend(Flatten(Kept(es, cutoff, parse)), e);
      TerminatedIsJoinPlusLineFeed(e);
    } else {
      assert Flatten(Kept(es, cutoff, parse)) + [] == Flatten(Kept(es, cutoff, parse));
    }
  }

  lemma FlushDropped(es: seq<Entry>, e: Entry, cutoff: int, parse: Parser)
    ensures |Dropped(es + [e], cutoff, parse)| == |Dropped(es, cutoff, parse)| + (if Keep(e, cutoff, parse) then 0 else 1)
  {
    DroppedAppend(es, [e], cutoff, parse);
    assert [e][1..] == [];
    assert Dropped([e], cutoff, parse) == (if Keep(e, cutoff, parse) then [] else [e]) + Dropped([], cutoff, parse);
  }

  /** A header line at `i` closes the open entry: the entries seen so far are the first entries of the whole input. */
  lemma GroupPrefixAtHeader(lines: seq<string>, i: nat)
    requires i < |lines| && IsHeader(lines[i])
    ensures |Group(lines)| > |Group(lines[..i])|
    ensures Group(lines)[..|Group(lines[..i])|] == Group(lines[..i])
  {
    assert lines == lines[..i] + lines[i..];
    GroupAppend(lines[..i], lines[i..]);
    GroupWellFormed(lines[i..]);
  }

  /** The entries after one more line, by `GroupSnoc`, with the lines' prefix spelled out. */
  lemma GroupNext(lines: seq<string>, i: nat)
    requires i < |lines|
    ensures var g := Group(lines[..i]);
      Group(lines[..i + 1]) ==
        if i == 0 || IsHeader(lines[i]) then g + [[lines[i]]]
        else g[..|g| - 1] + [g[|g| - 1] + [lines[i]]]
    ensures i > 0 ==> Group(lines[..i]) != [] && IsEntry(Group(lines[..i])[|Group(lines[..i])| - 1])
  {
    assert lines[..i + 1] == lines[..i] + [lines[i]];
    GroupSnoc(lines[..i], lines[i]);
    GroupWellFormed(lines[..i]);
  }

  /** After the cap nothing changes: later lines only extend entries past the n-th. */
  lemma ReadAfterCap(lines: seq<string>, i: nat, cutoff: int, parse: Parser, batchSize: nat, maxBatches: nat)
    requires batchSize > 0 && maxBatches > 0 && i < |lines|
    requires |Group(lines[..i])| > CapEntries(maxBatches, batchSize)
    ensures Expected(lines, i + 1, cutoff, parse, batchSize, maxBatches) == Expected(lines, i, cutoff, parse, batchSize, maxBatches)
  {
    var g := Group(lines[..i]);
    var n := CapEntries(maxBatches, batchSize);
    GroupNext(lines, i);
    var g2 := Group(lines[..i + 1]);
    assert |g2| >= |g|;
    assert g2[..n] == g[..n];
    assert g2[n - 1] == g[n - 1];
  }

  /** With nothing flushed yet, the counters are zero and the buffer empty. */
  lemma StartProgress(open: Entry, cutoff: int, parse: Parser, batchSize: nat)
    requires batchSize > 0
    ensures Progress([], open, false, cutoff, parse, batchSize) == Scan([], open, Keep(open, cutoff, parse), 0, 0, 0, 0, false)
  {
    assert Kept([], cutoff, parse) == [] && Dropped([], cutoff, parse) == [];
  }

  /** Flushing the held entry moves it to the flushed entries. */
  lemma FlushProgress(closed: seq<Entry>, open: Entry, cutoff: int, parse: Parser, batchSize: nat)
    requires batchSize > 0 && open != []
    ensures Flush(Progress(closed, open, false, cutoff, parse, batchSize), batchSize)
         == Progress(closed + [open], open, false, cutoff, parse, batchSize)
  {
    FlushWritten(closed, open, cutoff, parse);
    FlushDropped(closed, open, cutoff, parse);
    BatchStep(|closed|, batchSize);
  }

  /** A line that is not a header, read first, opens an entry that is kept. */
  lemma ReadFirstLine(lines: seq<string>, cutoff: int, parse: Parser, batchSize: nat, maxBatches: nat)
    requires batchSize > 0 && maxBatches > 0 && 0 < |lines| && !IsHeader(lines[0])
    ensures ReadLine(Expected(lines, 0, cutoff, parse, batchSize, maxBatches), lines[0], cutoff, parse, batchSize, maxBatches)
         == Expected(lines, 1, cutoff, parse, batchSize, maxBatches)
  {
    GroupNext(lines, 0);
    assert lines[..0] == [];
    StartProgress([lines[0]], cutoff, parse, batchSize);
  }

  /** A line other than a header extends the held entry, which keeps its first line and so its fate. */
  lemma ReadContinuation(lines: seq<string>, i: nat, cutoff: int, parse: Parser, batchSize: nat, maxBatches: nat)
    requires batchSize > 0 && maxBatches > 0 && 0 < i < |lines| && !IsHeader(lines[i])
    requires |Group(lines[..i])| <= CapEntries(maxBatches, batchSize)
    ensures ReadLine(Expected(lines, i, cutoff, parse, batchSize, maxBatches), lines[i], cutoff, parse, batchSize, maxBatches)
         == Expected(lines, i + 1, cutoff, parse, batchSize, maxBatches)
  {
    var g := Group(lines[..i]);
    var m := |g|;
    GroupNext(lines, i);
    var held := g[m - 1] + [lines[i]];
    DropSnoc(g[..m - 1], held);
    assert held[0] == g[m - 1][0];
  }

  /** A header as the first line opens the first entry. */
  lemma ReadFirstHeader(lines: seq<string>, cutoff: int, parse: Parser, batchSize: nat, maxBatches: nat)
    requires batchSize > 0 && maxBatches > 0 && 0 < |lines| && IsHeader(lines[0])
    ensures ReadLine(Expected(lines, 0, cutoff, parse, batchSize, maxBatches), lines[0], cutoff, parse, batchSize, maxBatches)
         == Expected(lines, 1, cutoff, parse, batchSize, maxBatches)
  {
    GroupNext(lines, 0);
    assert lines[..0] == [];
    StartProgress([lines[0]], cutoff, parse, batchSize);
  }

  /**
   * A header closing the held entry flushes it; the run stops exactly when the
   * flushed count reaches `n`, before the header opens an entry.
   */
  lemma FlushCounters(g: seq<Entry>, line: string, cutoff: int, parse: Parser, batchSize: nat, maxBatches: nat)
    requires batchSize > 0 && maxBatches > 0 && g != [] && g[|g| - 1] != []
    requires IsHeader(line) && |g| <= CapEntries(maxBatches, batchSize)
    ensures var s := Progress(g[..|g| - 1], g[|g| - 1], false, cutoff, parse, batchSize);
      ReadLine(s, line, cutoff, parse, batchSize, maxBatches)
      == if |g| == CapEntries(maxBatches, batchSize) then Progress(g, g[|g| - 1], true, cutoff, parse, batchSize)
         else Progress(g, [line], false, cutoff, parse, batchSize)
  {
    var m := |g|;
    FlushProgress(g[..m - 1], g[m - 1], cutoff, parse, batchSize);
    SnocLast(g);
    var f := Progress(g, g[m - 1], false, cutoff, parse, batchSize);
    assert f.processed == m && f.batchCount == CompleteBatches(m, batchSize);
    ReachesCap(m, batchSize, maxBatches);
    if m == CapEntries(maxBatches, batchSize) {
      CapIsMultiple(batchSize, maxBatches);
    }
  }

  /** A header after the first line closes the held entry, below the cap or at it. */
  lemma ReadClosingHeader(lines: seq<string>, i: nat, cutoff: int, parse: Parser, batchSize: nat, maxBatches: nat)
    requires batchSize > 0 && maxBatches > 0 && 0 < i < |lines| && IsHeader(lines[i])
    requires |Group(lines[..i])| <= CapEntries(maxBatches, batchSize)
    ensures ReadLine(Expected(lines, i, cutoff, parse, batchSize, maxBatches), lines[i], cutoff, parse, batchSize, maxBatches)
         == Expected(lines, i + 1, cutoff, parse, batchSize, maxBatches)
  {
    var g := Group(lines[..i]);
    GroupNext(lines, i);
    FlushCounters(g, lines[i], cutoff, parse, batchSize, maxBatches);
    DropSnoc(g, [lines[i]]);
  }

  /** Reading one line takes the expected state after `i` lines to the one after `i + 1`. */
  lemma ReadLineStep(lines: seq<string>, i: nat, cutoff: int, parse: Parser, batchSize: nat, maxBatches: nat)
    requires batchSize > 0 && maxBatches > 0 && i < |lines|
    ensures ReadLine(Expected(lines, i, cutoff, parse, batchSize, maxBatches), lines[i], cutoff, parse, batchSize, maxBatches)
         == Expected(lines, i + 1, cutoff, parse, batchSize, maxBatches)
  {
    if |Group(lines[..i])| > CapEntries(maxBatches, batchSize) {
      ReadAfterCap(lines, i, cutoff, parse, batchSize, maxBatches);
    } else if !IsHeader(lines[i]) {
      if i == 0 {
        ReadFirstLine(lines, cutoff, parse, batchSize, maxBatches);
      } else {
        ReadContinuation(lines, i, cutoff, parse, batchSize, maxBatches);
      }
    } else if i == 0 {
      ReadFirstHeader(lines, cutoff, parse, batchSize, maxBatches);
    } else {
      ReadClosingHeader(lines, i, cutoff, parse, batchSize, maxBatches);
    }
  }

  /** The loop, run over the first `i` lines, is in the expected state. */
  lemma {:induction false} ScanIsExpected(lines: seq<string>, i: nat, cutoff: int, parse: Parser,
                                          batchSize: nat, maxBatches: nat)
    requires batchSize > 0 && maxBatches > 0 && i <= |lines|
    ensures ScanLines(lines, i, cutoff, parse, batchSize, maxBatches) == Expected(lines, i, cutoff, parse, batchSize, maxBatches)
    decreases i
  {
    if i == 0 {
      assert lines[..0] == [];
    } else {
      ScanIsExpected(lines, i - 1, cutoff, parse, batchSize, maxBatches);
      ReadLineStep(lines, i - 1, cutoff, parse, batchSize, maxBatches);
    }
  }

  /** Once stopped, the loop reads nothing more. */
  lemma {:induction false} StoppedStays(lines: seq<string>, k: nat, j: nat, cutoff: int, parse: Parser,
                                        batchSize: nat, maxBatches: nat)
    requires batchSize > 0 && k <= j <= |lines|
    requires ScanLines(lines, k, cutoff, parse, batchSize, maxBatches).stopped
    ensures ScanLines(lines, j, cutoff, parse, batchSize, maxBatches) == ScanLines(lines, k, cutoff, parse, batchSize, maxBatches)
    decreases j
  {
    if j > k {
      StoppedStays(lines, k, j - 1, cutoff, parse, batchSize, maxBatches);
    }
  }

  /** Below the cap, the end-of-input block flushes the held entry once and every entry has been processed. */
  lemma FinishBelowCap(g: seq<Entry>, cutoff: int, parse: Parser, batchSize: nat, maxBatches: nat)
    requires batchSize > 0 && maxBatches > 0 && g != [] && g[|g| - 1] != []
    requires |g| <= CapEntries(maxBatches, batchSize)
    ensures Finish(Progress(g[..|g| - 1], g[|g| - 1], false, cutoff, parse, batchSize), maxBatches)
         == RunOver(g, cutoff, parse, batchSize, maxBatches)
  {
    var m := |g|;
    FlushWritten(g[..m - 1], g[m - 1], cutoff, parse);
    FlushDropped(g[..m - 1], g[m - 1], cutoff, parse);
    SnocLast(g);
    ReachesCap(m - 1, batchSize, maxBatches);
  }

  /** After the cap, the end-of-input block flushes the n-th entry a second time. */
  lemma FinishAtCap(g: seq<Entry>, cutoff: int, parse: Parser, batchSize: nat, maxBatches: nat)
    requires batchSize > 0 && maxBatches > 0
    requires |g| > CapEntries(maxBatches, batchSize) && g[CapEntries(maxBatches, batchSize) - 1] != []
    ensures var n := CapEntries(maxBatches, batchSize);
      Finish(Progress(g[..n], g[n - 1], true, cutoff, parse, batchSize), maxBatches)
      == RunOver(g, cutoff, parse, batchSize, maxBatches)
  {
    var n := CapEntries(maxBatches, batchSize);
    TerminatedIsJoinPlusLineFeed(g[n - 1]);
    CapIsMultiple(batchSize, maxBatches);
  }

  /** After all lines, the end-of-input block completes `BatchRun`. */
  lemma FinishExpected(lines: seq<string>, cutoff: int, parse: Parser, batchSize: nat, maxBatches: nat)
    requires batchSize > 0 && maxBatches > 0
    ensures Finish(Expected(lines, |lines|, cutoff, parse, batchSize, maxBatches), maxBatches)
         == BatchRun(lines, cutoff, parse, batchSize, maxBatches)
  {
    assert lines[..|lines|] == lines;
    var g := Group(lines);
    var n := CapEntries(maxBatches, batchSize);
    GroupWellFormed(lines);
    if g == [] {
      assert Kept([], cutoff, parse) == [] && Dropped([], cutoff, parse) == [];
    } else if |g| <= n {
      assert IsEntry(g[|g| - 1]);
      FinishBelowCap(g, cutoff, parse, batchSize, maxBatches);
    } else {
      assert IsEntry(g[n - 1]);
      FinishAtCap(g, cutoff, parse, batchSize, maxBatches);
    }
  }

  /** Where the loop ends (the end of input, or the cap), the end-of-input block completes `BatchRun`. */
  lemma ScanRun(lines: seq<string>, k: nat, cutoff: int, parse: Parser, batchSize: nat, maxBatches: nat)
    requires batchSize > 0 && maxBatches > 0 && k <= |lines|
    requires k == |lines| || ScanLines(lines, k, cutoff, parse, batchSize, maxBatches).stopped
    ensures Finish(ScanLines(lines, k, cutoff, parse, batchSize, maxBatches), maxBatches)
         == BatchRun(lines, cutoff, parse, batchSize, maxBatches)
  {
    if k < |lines| {
      StoppedStays(lines, k, |lines|, cutoff, parse, batchSize, maxBatches);
    }
    ScanIsExpected(lines, |lines|, cutoff, parse, batchSize, maxBatches);
    FinishExpected(lines, cutoff, parse, batchSize, maxBatches);
  }

  /** `cleanLogFileInBatches` over the lines read from the file; `output` is the temporary file's content. */
  method CleanInBatches(lines: seq<string>, cutoff: int, parse: Parser, batchSize: nat, maxBatches: nat)
    returns (res: BatchResult)
    requires batchSize > 0 && maxBatches > 0
    ensures res == BatchRun(lines, cutoff, parse, batchSize, maxBatches)
  {
    var output: string := [];
    var current: seq<string> := [];
    var keep := true;
    var processed: nat, removed: nat, total: nat, batchCount: nat := 0, 0, 0, 0;
    var i := 0;
    ghost var capped := false;
    while i < |lines|
      invariant i <= |lines| && !capped
      invariant ScanLines(lines, i, cutoff, parse, batchSize, maxBatches)
             == Scan(output, current, keep, total, removed, processed, batchCount, false)
    {
      var line := lines[i];
      ghost var next := ReadLine(Scan(output, current, keep, total, removed, processed, batchCount, false),
                                 line, cutoff, parse, batchSize, maxBatches);
      assert ScanLines(lines, i + 1, cutoff, parse, batchSize, maxBatches) == next;
      if ExtractDate(line) != None {
        if current != [] {
          total := total + 1;
          if keep {
            output := output + Join(current) + "\n";
          } else {
            removed := removed + 1;
          }
          processed := processed + 1;
          if processed % batchSize == 0 {
            batchCount := batchCount + 1;
            if batchCount >= maxBatches {
              capped := true;
              assert next == Scan(output, current, keep, total, removed, processed, batchCount, true);
              break;
            }
          }
        }
        current := [line];
        keep := !IsLogLineOld(line, cutoff, parse);
      } else {
        current := current + [line];
      }
      assert next == Scan(output, current, keep, total, removed, processed, batchCount, false);
      i := i + 1;
    }
    if capped {
      ScanRun(lines, i + 1, cutoff, parse, batchSize, maxBatches);
    } else {
      ScanRun(lines, i, cutoff, parse, batchSize, maxBatches);
    }
    if current != [] {
      total := total + 1;
      if keep {
        output := output + Join(current) + "\n";
      } else {
        removed := removed + 1;
      }
      processed := processed + 1;
    }
    res := BatchResult(output, total, removed, processed, batchCount, maxBatches, batchCount >= maxBatches);
  }

  // ---------------------------------------------------------------------------
  // What a run reports.

  /**
   * The counters: nothing is removed that was not processed, every processed
   * entry is counted once in the total, the batch counter is the number of
   * entries flushed inside the loop divided by the batch size, and the run
   * stops early exactly when the input holds more than `maxBatches * batchSize`
   * entries. Below the cap the total is one per dated line, plus one for
   * undated lines at the front of the input.
   */
  lemma BatchCounters(lines: seq<string>, cutoff: int, parse: Parser, batchSize: nat, maxBatches: nat)
    requires batchSize > 0 && maxBatches > 0
    ensures var r := BatchRun(lines, cutoff, parse, batchSize, maxBatches);
      && r.removedEntries <= r.totalEntries
      && r.totalEntries == r.processedEntries
      && r.batchesProcessed <= maxBatches
      && r.maxBatchesLimit == maxBatches
      && (r.processedEntries == 0 ==> r.batchesProcessed == 0)
      && (r.processedEntries > 0 ==> r.batchesProcessed == CompleteBatches(r.processedEntries - 1, batchSize))
      && (r.stoppedEarly <==> r.batchesProcessed >= maxBatches)
      && (r.stoppedEarly <==> |Group(lines)| > CapEntries(maxBatches, batchSize))
      && (!r.stoppedEarly ==>
            r.totalEntries == CountDated(lines) + (if lines != [] && !IsHeader(lines[0]) then 1 else 0))
  {
    var g := Group(lines);
    var n := CapEntries(maxBatches, batchSize);
    if |g| <= n {
      KeptDroppedPartition(g, cutoff, parse);
      GroupCount(lines);
      if g != [] {
        ReachesCap(|g| - 1, batchSize, maxBatches);
      }
    } else {
      KeptDroppedPartition(g[..n], cutoff, parse);
      CapIsMultiple(batchSize, maxBatches);
    }
  }

  /** The first `k` entries of a well-formed split are themselves well formed. */
  lemma WellFormedPrefix(es: seq<Entry>, k: nat)
    requires WellFormed(es) && k <= |es|
    ensures WellFormed(es[..k])
  {
    forall i | 0 <= i < k ensures IsEntry(es[..k][i]) && (i >= 1 ==> IsHeader(es[..k][i][0])) {
      assert es[..k][i] == es[i];
    }
  }

  /**
   * The lines of the first `maxBatches * batchSize` entries, when the input has
   * more: the input is those lines followed by lines that open with the header
   * at which the run stops.
   */
  lemma CapSplit(lines: seq<string>, n: nat)
    requires 0 < n < |Group(lines)|
    ensures var pre := Flatten(Group(lines)[..n]);
      && |pre| < |lines| && lines[..|pre|] == pre && IsHeader(lines[|pre|])
      && Group(pre) == Group(lines)[..n]
  {
    var g := Group(lines);
    GroupWellFormed(lines);
    assert g == g[..n] + g[n..];
    FlattenAppend(g[..n], g[n..]);
    var pre := Flatten(g[..n]);
    var post := Flatten(g[n..]);
    assert g[n..][0] == g[n] && IsEntry(g[n]);
    FlattenHead(g[n..]);
    assert lines == pre + post;
    assert lines[|pre|] == post[0];
    WellFormedPrefix(g, n);
    GroupOfFlatten(g[..n]);
  }

  /**
   * Once the cap is reached nothing from the triggering header on matters:
   * replacing the rest of the input by any lines that open with a header gives
   * the same run, so the lines after the cap are never copied and are lost
   * when the temporary file replaces the original.
   */
  lemma CapIgnoresRest(lines: seq<string>, rest: seq<string>, cutoff: int, parse: Parser,
                       batchSize: nat, maxBatches: nat)
    requires batchSize > 0 && maxBatches > 0
    requires BatchRun(lines, cutoff, parse, batchSize, maxBatches).stoppedEarly
    requires rest != [] && IsHeader(rest[0])
    ensures var n := CapEntries(maxBatches, batchSize);
      BatchRun(Flatten(Group(lines)[..n]) + rest, cutoff, parse, batchSize, maxBatches)
      == BatchRun(lines, cutoff, parse, batchSize, maxBatches)
  {
    var n := CapEntries(maxBatches, batchSize);
    CapSplit(lines, n);
    var pre := Flatten(Group(lines)[..n]);
    GroupAppend(pre, rest);
    GroupWellFormed(rest);
    var g2 := Group(pre + rest);
    assert g2 == Group(lines)[..n] + Group(rest);
    assert g2[..n] == Group(lines)[..n];
  }

  /**
   * A run that reaches the cap is the run over the first `maxBatches *
   * batchSize` entries alone, which does not reach it, with the last of those
   * entries processed once more: written twice when kept, counted as removed
   * twice otherwise. Its batch counter is one higher, because the n-th entry
   * was flushed inside the loop rather than by the end-of-input block.
   */
  lemma CapRepeatsLastEntry(lines: seq<string>, cutoff: int, parse: Parser, batchSize: nat, maxBatches: nat)
    requires batchSize > 0 && maxBatches > 0
    requires BatchRun(lines, cutoff, parse, batchSize, maxBatches).stoppedEarly
    ensures var n := CapEntries(maxBatches, batchSize);
      var e := Group(lines)[..n];
      var last := e[n - 1];
      var r := BatchRun(lines, cutoff, parse, batchSize, maxBatches);
      var p := RunOver(e, cutoff, parse, batchSize, maxBatches);
      && !p.stoppedEarly
      && r.output == p.output + (if Keep(last, cutoff, parse) then Join(last) + "\n" else [])
      && r.totalEntries == p.totalEntries + 1
      && r.removedEntries == p.removedEntries + (if Keep(last, cutoff, parse) then 0 else 1)
      && r.batchesProcessed == p.batchesProcessed + 1
  {
    var n := CapEntries(maxBatches, batchSize);
    var g := Group(lines);
    var e := g[..n];
    assert |g| > n && |e| == n;
    GroupWellFormed(lines);
    assert IsEntry(e[n - 1]);
    TerminatedIsJoinPlusLineFeed(e[n - 1]);
    CapMinusOne(batchSize, maxBatches);
    var p := RunOver(e, cutoff, parse, batchSize, maxBatches);
    assert p.output == Written(e, cutoff, parse);
    assert p.batchesProcessed == CompleteBatches(n - 1, batchSize);
  }

  /** The first `maxBatches * batchSize` entries are what the assembly makes of their own lines. */
  lemma CapPrefixRun(lines: seq<string>, cutoff: int, parse: Parser, batchSize: nat, maxBatches: nat)
    requires batchSize > 0 && maxBatches > 0
    requires |Group(lines)| > CapEntries(maxBatches, batchSize)
    ensures var e := Group(lines)[..CapEntries(maxBatches, batchSize)];
      BatchRun(Flatten(e), cutoff, parse, batchSize, maxBatches) == RunOver(e, cutoff, parse, batchSize, maxBatches)
  {
    CapSplit(lines, CapEntries(maxBatches, batchSize));
  }

  // ---------------------------------------------------------------------------
  // Streaming against the whole-file compactor.

  /** An empty last line (what `explode` adds after a final line feed) joins the last entry and shares its fate. */
  lemma CleanLinesSnocEmpty(ls: seq<string>, cutoff: int, parse: Parser)
    requires ls != []
    ensures var g := Group(ls);
      && g != []
      && CleanLines(ls + [[]], cutoff, parse) ==
           CleanLines(ls, cutoff, parse) + (if Keep(g[|g| - 1], cutoff, parse) then [[]] else [])
      && (Keep(g[|g| - 1], cutoff, parse) ==> CleanLines(ls, cutoff, parse) != [])
  {
    var g := Group(ls);
    GroupWellFormed(ls);
    var n := |g|;
    var last := g[n - 1];
    assert IsEntry(last);
    NoDateWithoutDigitOrBracket([]);
    GroupSnoc(ls, []);
    var g2 := g[..n - 1] + [last + [[]]];
    assert Group(ls + [[]]) == g2;
    DropSnoc(g[..n - 1], last + [[]]);
    assert (last + [[]])[0] == last[0];
    FlushLast(g2, cutoff, parse);
    FlushLast(g, cutoff, parse);
    var f := Flatten(Kept(g[..n - 1], cutoff, parse));
    if Keep(last, cutoff, parse) {
      ConcatAssoc(f, last, [[]]);
    } else {
      assert f + [] == f;
    }
  }

  /**
   * Below the cap, on content without carriage returns, the streamed file is
   * what `cleanLogContent` returns, except that it always ends with a line
   * feed after the last kept line: the two agree when the content ends with a
   * line feed and its last entry is kept, and otherwise the streamed file has
   * one more line feed (unless nothing is kept at all).
   */
  lemma StreamedVersusWholeFile(c: string, cutoff: int, parse: Parser, batchSize: nat, maxBatches: nat)
    requires batchSize > 0 && maxBatches > 0 && '\r' !in c
    requires !BatchRun(ReadLines(c), cutoff, parse, batchSize, maxBatches).stoppedEarly
    ensures var rl := ReadLines(c);
      var g := Group(rl);
      var out := BatchRun(rl, cutoff, parse, batchSize, maxBatches).output;
      var w := CleanContent(c, cutoff, parse);
      if EndsAtLineBoundary(c) && (g == [] || Keep(g[|g| - 1], cutoff, parse)) then out == w
      else out == (if CleanLines(rl, cutoff, parse) == [] then w else w + "\n")
  {
    var rl := ReadLines(c);
    assert BatchRun(rl, cutoff, parse, batchSize, maxBatches).output == Terminated(CleanLines(rl, cutoff, parse));
    SplitIsReadLines(c, 0);
    assert c[0..] == c;
    var L := CleanLines(rl, cutoff, parse);
    if EndsAtLineBoundary(c) {
      assert Split(c) == rl + [[]];
      assert CleanContent(c, cutoff, parse) == Join(CleanLines(rl + [[]], cutoff, parse));
      TerminatedVersusJoinAtBoundary(rl, cutoff, parse);
    } else {
      assert Split(c) == rl by {
        assert rl + [] == rl;
      }
      assert CleanContent(c, cutoff, parse) == Join(L);
      TerminatedVersusJoin(L);
    }
  }

  lemma TerminatedVersusJoin(L: seq<string>)
    ensures Terminated(L) == if L == [] then Join(L) else Join(L) + "\n"
  {
    if L != [] {
      TerminatedIsJoinPlusLineFeed(L);
    }
  }

  /** The exploded lines of content ending in a line feed are the streamed lines plus one empty line. */
  lemma TerminatedVersusJoinAtBoundary(rl: seq<string>, cutoff: int, parse: Parser)
    ensures var g := Group(rl);
      var L := CleanLines(rl, cutoff, parse);
      var w := Join(CleanLines(rl + [[]], cutoff, parse));
      if g == [] || Keep(g[|g| - 1], cutoff, parse) then Terminated(L) == w
      else Terminated(L) == (if L == [] then w else w + "\n")
  {
    var L := CleanLines(rl, cutoff, parse);
    var g := Group(rl);
    TerminatedVersusJoin(L);
    if rl == [] {
      assert rl + [[]] == [[]];
      NoDateWithoutDigitOrBracket([]);
      UndatedUnchanged([[]], cutoff, parse);
      assert L == [] by {
        assert Kept([], cutoff, parse) == [];
      }
    } else {
      CleanLinesSnocEmpty(rl, cutoff, parse);
      if Keep(g[|g| - 1], cutoff, parse) {
        JoinSnocEmpty(L);
      } else {
        assert L + [] == L;
      }
    }
  }
}
