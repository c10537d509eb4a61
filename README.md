# Log cleaner: a verified model

A model of the retention-based log compactor of the Magento module
`LR_LogCleaner` and of the cron job that runs it over `var/log`.

A log file is a sequence of entries. An entry is a line that carries a date
(`[2025-09-17T09:35:19.378887+00:00] ...`, `2025-09-01T06:09:00+00:00 ...` or
`2025-01-01 ...`) followed by the undated lines after it, such as a stack trace.
Undated lines at the very top of a file form an entry of their own. Compaction
drops every entry whose date line is older than the retention cutoff and keeps
everything else, in order and whole.

The model follows the source file by file:

| module | models |
|---|---|
| `LogDates` | `extractDateFromLogLine`, written as explicit character-class checks instead of the four regular expressions |
| `Retention` | the two retention timestamps and `isLogLineOld` |
| `Limits` | the constants, `shouldUseBatchProcessing`, `getMaxBatchesForFile`, `getBatchSize` |
| `Lines` | `explode`/`implode` on `"\n"`, and the lines `fgets` plus `rtrim` return |
| `Entries` | what an entry is, declaratively: `Group` splits lines into entries; `Kept`/`Dropped` partition them |
| `WholeFile` | `cleanLogContent` and `countLogEntries` as the loops the source runs, each proved equal to the declarative definition |
| `Streaming` | `cleanLogFileInBatches` as a loop over the streamed lines, proved equal to a declarative run `BatchRun` that includes the cap's behaviour as written |
| `Estimator` | `estimateRemovalsFast` and `getFileLineCount` as loops, proved equal to declarative definitions, plus bounds on the estimate |
| `Files` | the `.log` extension filter, `shouldCleanFile`, and the backup file name |
| `Directory`, `BackupPruning` | directory entries; the deletion loop of `cleanupBackups` |
| `Cleanup` | one pass of the `cleanupLogs` loop body per file mode, the whole loop, `cleanupBackups` and `executeInternal`, as functions on a `Disk` value |
| `Cron` | class `LogCleaner`, whose fields are the log directory, the backup directory and whether the latter exists. Its methods change those fields as the source changes the disk, and each is proved to do what the matching `Cleanup` function states |

External inputs become parameters of the model:
- `strtotime` is an uninterpreted `parse: string -> Option<int>`.
- `time()` is `now`.
- The `date('Y-m-d_H-i-s')` stamp is `stamp`.
- The `DirectoryIterator` listings are `order` (for `var/log`) and `border` (for `var/log/backup`).
- The outcome of each file operation is a flag:
  - `readable`: `fopen`/`file_get_contents` succeed;
  - `writable`: `file_put_contents` and `rename` onto the file succeed;
  - `tempCreatable`: the temporary file can be opened;
  - `backupStorable`: the backup file can be written;
  - `logDirListable`: the log directory can be listed.

## Model

| member | source | states |
|---|---|---|
| LogDates.ExtractDate | Helper/Data.php:173-184 | A found date is 19 characters (a date-time) or 10 (a date). Inside a leading `[` it is characters 1 to 19 of the line; otherwise it is a prefix of the line. |
| LogDates.ExtractDateIsFirstCapture | Helper/Data.php:153-184 | The three-outcome extractor returns the capture of the first of the four patterns that matches. Wherever pattern 1 matches, pattern 2 matches with the same capture, so pattern 1 never changes the result. |
| LogDates.ExtractBracketed | Helper/Data.php:157-159 | `[` plus a date-time yields exactly its 19 characters, whatever fraction, offset or message follows. |
| LogDates.ExtractBareDateTime | Helper/Data.php:161 | An unbracketed date-time prefix yields its 19 characters. |
| LogDates.ExtractBareDate | Helper/Data.php:163 | A bare date that is not followed by `T` and a time yields its 10 characters. |
| LogDates.ExtractDateReadsPrefix | Helper/Data.php:155-164 | The patterns are anchored: text after the 20th character never changes the result. |
| LogDates.NoDateWithoutDigitOrBracket | Helper/Data.php:173-184 | A line starting with neither `[` nor a digit, or an empty line, carries no date. |
| LogDates.BracketedDateOnlyIsUndated | Helper/Data.php:157-163 | `[2025-01-01]` matches no pattern. |
| LogDates.MonologLineExample | Helper/Data.php:156-157 | A Monolog line with microseconds and an offset yields the date-time without either. |
| Retention.RetentionTimestamp | Helper/Data.php:127-131 | The cutoff is `now` minus the retention days times 86400; it is not after `now` for a non-negative period. |
| Retention.BackupRetentionTimestamp | Helper/Data.php:139-146 | Zero when the backup retention is zero days or less; otherwise `now` minus the period. |
| Retention.IsLogLineOldIff | Helper/Data.php:193-211 | Both directions: a line is expired exactly when a date is extracted, it parses, and the parsed time is strictly before the cutoff. |
| Retention.OldLineIsHeader | Helper/Data.php:195-199 | Only a dated line can be expired. |
| Retention.UnparsableIsKept | Helper/Data.php:201-205 | A date that does not parse never expires its line. |
| Retention.OldMonotone | Helper/Data.php:207 | A later cutoff expires every line an earlier one does. |
| Retention.MoreRetentionExpiresLess | Helper/Data.php:127-131 | More retention days never expire more lines. |
| Limits.MaxBatchesForFile | Helper/Data.php:440-455 | The cap is 300 or `PHP_INT_MAX`, and always positive. |
| Limits.BatchRoutingIff | Helper/Data.php:405-412 | Both directions: batch mode exactly for an existing file of more than 52428800 bytes. A file of exactly 52428800 bytes is read whole. |
| Limits.CapMatchesRouting | Helper/Data.php:440-455 | For an existing file, the cap is 300 exactly when it is routed to batch mode, and `PHP_INT_MAX` otherwise. A missing file gets 300 and standard mode. |
| Limits.RoutingMonotone | Helper/Data.php:405-412 | A larger file is never routed back to standard mode. |
| Limits.LargeFileEntryCap | Helper/Data.php:419-455 | A batch-routed file's entry cap is 300 batches of 100 = 30000 entries. At the cap the 30000th entry is processed twice (`Streaming.CapRepeatsLastEntry`). |
| Lines.JoinSplit | Helper/Data.php:222 | Imploding the exploded content gives back the content. |
| Lines.SplitJoin | Helper/Data.php:249 | Exploding imploded lines that hold no line feed gives back the lines. |
| Lines.TerminatedIsJoinPlusLineFeed | Helper/Data.php:289 | Writing entries one by one, each with a final line feed, is the imploded lines plus one line feed. |
| Lines.NextLineStart | Helper/Data.php:280 | `fgets` returns the bytes up to and including the next line feed, or up to the end. |
| Lines.RTrimEol | Helper/Data.php:281 | `rtrim($line, "\r\n")` returns a prefix that ends in neither character, and everything it removes is `\r` or `\n`: exactly the trailing run of those characters goes. |
| Lines.SplitIsReadLines | Helper/Data.php:280-281 | For content without `\r`, the streamed lines are the exploded lines. `explode` adds one empty last line when the content is empty or ends in a line feed. |
| Entries.GroupWellFormed | Helper/Data.php:227-242 | The entry assembly loses no line, keeps order, and makes entries that each open with a date line, except possibly the first. |
| Entries.GroupOfFlatten | Helper/Data.php:227-242 | Any split with that shape is the assembly's own split of its lines, so entries are unique. |
| Entries.GroupSnoc | Helper/Data.php:230-241 | Adding a line: a dated line (or a first line) opens a new entry; any other line extends the last entry. |
| Entries.GroupAppend | Helper/Data.php:227-242 | Assembling `a + b`, where `b` opens with a dated line, is assembling `a` then `b`. |
| Entries.KeptIsSubseq | Helper/Data.php:232-247 | Kept entries are whole entries of the input, in input order. |
| Entries.CleanLinesSubseq | Helper/Data.php:220-250 | Surviving lines are an order-preserving subsequence of the input lines. |
| Entries.KeptDroppedPartition | Helper/Data.php:232-247 | Every entry is kept whole or dropped whole, and the counts add up. |
| Entries.KeptKept | Helper/Data.php:232-247 | Keeping the kept entries again changes nothing. |
| Entries.KeptWellFormed | Helper/Data.php:232-247 | Leaving out entries keeps the split well formed. |
| Entries.CleanLinesIdempotent | Helper/Data.php:220-250 | Compacting compacted lines again with the same cutoff changes nothing. |
| Entries.NothingOldUnchanged | Helper/Data.php:227-247 | When no line is expired, compaction returns the lines unchanged. |
| Entries.UndatedUnchanged | Helper/Data.php:227-247 | Lines without any date are returned unchanged. |
| Entries.LeadingUndatedKept | Helper/Data.php:224-247 | The undated lines before the first dated line are always kept, at the front of the output, because `keepCurrentEntry` starts out true. |
| Entries.CountDroppedEntries | Helper/Data.php:389-394 | Each dropped entry removes exactly one dated line. |
| Entries.CleanLinesCount | Helper/Data.php:380-397 | The input's dated lines are the output's dated lines plus the dropped entries. |
| Entries.GroupCount | Helper/Data.php:286-287 | The assembly makes one entry per dated line, plus one for undated lines at the front. |
| WholeFile.AssemblyFirst | Helper/Data.php:227-241 | After the first line, the open entry is that line and the loop state matches the declarative split. |
| WholeFile.AssemblyHeader | Helper/Data.php:230-237 | A dated line adds the open entry's lines when kept, and opens a new entry whose fate is its own line's. |
| WholeFile.AssemblyContinuation | Helper/Data.php:238-241 | Any other line joins the open entry, which keeps its fate. |
| WholeFile.AssemblyFinish | Helper/Data.php:244-247 | Closing the last open entry yields exactly the lines of the kept entries. |
| WholeFile.CleanLogContent | Helper/Data.php:220-250 | The loop returns the kept entries' lines imploded with `"\n"`. |
| WholeFile.CountLogEntries | Helper/Data.php:380-397 | The loop returns the number of dated exploded lines, and 0 for empty content. |
| WholeFile.SplitCleanContent | Helper/Data.php:249 | Exploding the returned content gives back the kept lines, or a single empty line when nothing is kept. |
| WholeFile.CleanContentIdempotent | Helper/Data.php:220-250 | Cleaning cleaned content again with the same cutoff returns it unchanged. |
| WholeFile.UndatedContentUnchanged | Helper/Data.php:220-250 | Content without a dated line is returned unchanged. |
| WholeFile.RemovedIsDropped | Cron/CleanupLogs.php:257-261 | Dated lines before minus dated lines after equals the number of dropped entries, so it is never negative. |
| Streaming.BatchArithmetic | Helper/Data.php:293-297 | The batch counter after `k` flushes is `k div batchSize`, and the cap is `maxBatches × batchSize` entries. |
| Streaming.BatchStep | Helper/Data.php:293-297 | One more flush completes a batch exactly when the processed count becomes a multiple of the batch size. |
| Streaming.ReachesCap | Helper/Data.php:303-309 | The counter reaches the cap exactly when `maxBatches × batchSize` entries have been flushed. |
| Streaming.ReadLineStep | Helper/Data.php:284-338 | Reading one more line moves the loop from the expected state after `i` lines to the expected state after `i + 1`. |
| Streaming.ScanIsExpected | Helper/Data.php:280-339 | After `i` lines: every entry but the last is flushed and the last is held. Once an entry beyond the first `maxBatches × batchSize` has begun, the loop has stopped with the n-th entry still held. |
| Streaming.StoppedStays | Helper/Data.php:308 | After the `break`, no further line changes anything. |
| Streaming.FinishAtCap | Helper/Data.php:341-350 | At the cap, the end-of-input block flushes the n-th entry a second time. |
| Streaming.FinishExpected | Helper/Data.php:341-350 | The end-of-input block completes the declarative run. |
| Streaming.ScanRun | Helper/Data.php:339-350 | Wherever the loop ends (end of input or the cap), the end-of-input block completes the declarative run. |
| Streaming.CleanInBatches | Helper/Data.php:271-350 | The loop computes the declarative run: the temporary file's content and the five returned values. |
| Streaming.BatchCounters | Helper/Data.php:364-371 | removed ≤ total = processed, and batches ≤ maxBatches. The batch count is the number of entries flushed in the loop, divided by the batch size. `stopped_early` holds iff batches ≥ maxBatches, iff the input has more than `maxBatches × batchSize` entries. Below the cap, total is one per dated line, plus one for undated lines at the front. |
| Streaming.CapSplit | Helper/Data.php:303-309 | Past the cap, the input is the lines of the first n entries followed by the dated line that triggered the stop. |
| Streaming.CapIgnoresRest | Helper/Data.php:303-309 | After the cap, replacing everything from the triggering line on leaves the run unchanged. So those lines are never copied, and they are lost when the temporary file replaces the log. |
| Streaming.CapRepeatsLastEntry | Helper/Data.php:341-350 | A capped run is the run over the first n entries, with the n-th entry processed once more. It is written twice when kept, or counted as removed twice; total and batch counts are one higher. |
| Streaming.StreamedVersusWholeFile | Helper/Data.php:284-350 | Below the cap, on content without `\r`, the streamed output is the output of `cleanLogContent`, except for one extra final line feed. The two are equal when the content ends in a line feed and its last entry is kept. |
| Estimator.FloorDiv | Helper/Data.php:554-555 | The `(int)` truncation of a non-negative quotient: the largest `q` with `q × d ≤ a`. |
| Estimator.SamplePositions | Helper/Data.php:552-556 | Three offsets within the file, the first 0, in non-decreasing order. |
| Estimator.SampleStart | Helper/Data.php:564-569 | Counting starts at the beginning, or just after the partial line the offset falls in. |
| Estimator.Window | Helper/Data.php:574-587 | A sample is the first `min(666, available)` streamed lines from its start. |
| Estimator.Samples | Helper/Data.php:563-595 | Three samples, each consistent (removed ≤ dated ≤ lines ≤ 666), taken at the three offsets. |
| Estimator.Accumulate | Helper/Data.php:589-594 | The totals keep removed ≤ entries ≤ lines. No valid sample means no entries. |
| Estimator.UndatedSampleDiscarded | Helper/Data.php:589-594 | A sample without a dated line changes none of the totals. |
| Estimator.TotalsBounded | Helper/Data.php:574-587 | The three samples count at most 3 × 666 lines. |
| Estimator.Round | Helper/Data.php:612 | PHP `round` on a non-negative value: the nearest integer, halves up. |
| Estimator.Ratio | Helper/Data.php:611 | An exact quotient: positive for a positive numerator, at most 1 when numerator ≤ denominator. |
| Estimator.RoundScaledDown | Helper/Data.php:619-625 | Scaling by a ratio of at most one and rounding never increases a count. |
| Estimator.ExtrapolateBounds | Helper/Data.php:609-627 | The estimate is at most the processable entries and at most the estimated total. Once the cap scales it, it is no larger than the unscaled estimate. It is positive only if some sampled dated line was old. |
| Estimator.EstimateZeroCases | Helper/Data.php:536-607 | Zero for a missing or unopenable file, when no sampled line is dated, or when no sampled dated line is old. |
| Estimator.EstimateWithinCap | Helper/Data.php:616-625 | The estimate never exceeds what a real batch run could process: 30000 entries for a large file. |
| Estimator.CountSnoc | Helper/Data.php:578-586 | Counting one more line: an expired line is dated, so it adds to both counters. |
| Estimator.ReadSample | Helper/Data.php:563-587 | The seek-skip-read loop computes the counters of the sample's window. |
| Estimator.SampleTotals | Helper/Data.php:558-595 | The outer loop sums the samples that saw a dated line. |
| Estimator.EstimateRemovalsFast | Helper/Data.php:536-628 | The method returns the declarative estimate, with the early zero returns. |
| Estimator.CountFileLines | Helper/Data.php:637-664 | The line-count loop computes the declarative extrapolated line count. |
| Estimator.SmallFileLineCountExact | Helper/Data.php:644-663 | A file of at most 100000 bytes is read to the end, so its line count is exact. |
| Estimator.LineCountAtLeastRead | Helper/Data.php:656-663 | The extrapolated count is never below the lines read, and a non-empty file has at least one line. |
| Files.AfterLastDotIsSuffix | Cron/CleanupLogs.php:171 | `AfterLastDot` is the dot-free suffix after the last dot, or the whole name when there is none. `Extension`, like `getExtension`, is empty for a name without a dot. |
| Files.LogSuffixPasses | Cron/CleanupLogs.php:171-173 | Any name followed by `.log` passes the filter. |
| Files.PassingNameEndsInLog | Cron/CleanupLogs.php:171-173 | A name that passes the filter ends in `.log`. |
| Files.IsLogNameIff | Cron/CleanupLogs.php:171-173 | Both directions: the extension is exactly `log` iff the name ends in `.log`. |
| Files.RotatedAndUpperCaseSkipped | Cron/CleanupLogs.php:171-173 | `x.log.1` and `x.LOG` are skipped; `x.log` and `a.1.log` pass. |
| Files.ShouldCleanFileIff | Cron/CleanupLogs.php:319-326 | Both directions: a file is selected iff the selection is empty, contains `all`, or contains its name. |
| Files.Sanitize | Cron/CleanupLogs.php:347 | Same length. Every `/` and `\` becomes `_`; every other character is unchanged. |
| Files.BackupName | Cron/CleanupLogs.php:346-348 | The stamp, `_`, the sanitized name and `.gz`, by length. |
| Files.BackupNameInjective | Cron/CleanupLogs.php:346-348 | Within one stamp, names without separators get distinct backups. |
| Files.BackupNameHasNoSeparators | Cron/CleanupLogs.php:347-348 | A backup name holds no separator beyond those of the stamp. |
| Files.BackslashNamesShareBackup | Cron/CleanupLogs.php:347-348 | `a\b.log` and `a_b.log` share a backup name within one second. |
| BackupPruning.PrunedExactly | Cron/CleanupLogs.php:385-398 | After the listed names, the backups left are exactly those not both listed and expired, each unchanged. |
| Cleanup.TempNameIsNotLog | Helper/Data.php:263 | The temporary file's extension is `tmp`, so the loop's filter never picks it up. |
| Cleanup.BatchFileFrame | Cron/CleanupLogs.php:192-245 | Batch mode touches no log entry but the file and its `.tmp` file, and no backup but its own. |
| Cleanup.StandardFileFrame | Cron/CleanupLogs.php:246-299 | Standard mode touches no log entry but the file, and no backup but its own. |
| Cleanup.CleanFileFrame | Cron/CleanupLogs.php:170-306 | A name the filter rejects is left alone entirely; any other pass touches only its file, its temporary file and its backup. |
| Cleanup.FatalIff | Cron/CleanupLogs.php:198-201 | The only abort is a batch-mode file that cannot be read while backups are on and this is not a dry run. An aborted pass changes nothing. |
| Cleanup.DryRunStep | Cron/CleanupLogs.php:192-299 | A dry-run pass writes no log file, stores no backup and never aborts. |
| Cleanup.BatchBackedUpFirst | Cron/CleanupLogs.php:198-204 | Batch mode: the backup is taken first. See `BackupBeforeRewrite`. |
| Cleanup.BatchBackupUnconditional | Cron/CleanupLogs.php:198-201 | In batch mode, with backups on, a readable file and a storable backup, the original content is stored whatever the rewrite then does: removing entries, removing none, or failing. |
| Cleanup.StandardBackedUpFirst | Cron/CleanupLogs.php:263-268 | Standard mode: the backup is taken before the write. See `BackupBeforeRewrite`. |
| Cleanup.BackupBeforeRewrite | Cron/CleanupLogs.php:192-291 | With backups on and not a dry run, a pass that changes the log file has stored the original content under its backup name. A failed backup changes nothing and counts nothing. With backups off or in a dry run, no backup is stored. |
| Cleanup.StandardFileOutcome | Cron/CleanupLogs.php:246-299 | Standard mode on a readable file: the count is the number of dropped entries. See `StandardOutcome`. |
| Cleanup.StandardOutcome | Cron/CleanupLogs.php:257-291 | Removed = dated lines before minus after = dropped entries. The file is rewritten with the compacted content only when that is positive and this is not a dry run. A failed write leaves the log directory and the totals unchanged. A dry run counts the same number. |
| Cleanup.UnreadableStandardSkipped | Cron/CleanupLogs.php:248-255 | An unreadable file in standard mode is skipped without any change. |
| Cleanup.BatchOutcome | Cron/CleanupLogs.php:203-213 | Batch mode, when everything succeeds: the file holds the streaming output, the temporary file is gone, and the count is the removed entries. |
| Cleanup.BatchFailure | Cron/CleanupLogs.php:203-231 | When the streaming compactor throws, the file keeps its content and nothing is counted. If only the log file could not be opened, an empty temporary file remains. |
| Cleanup.DryBatchEstimate | Cron/CleanupLogs.php:232-244 | A batch-mode dry run counts the fast estimate, which is at most 30000. |
| Cleanup.SweptTotals | Cron/CleanupLogs.php:170-309 | At most one counted file per listed name. Each counted file adds at least one entry, and there are no entries without a counted file. |
| Cleanup.SweptStep | Cron/CleanupLogs.php:203-281 | One more name adds the pass's count, and counts the file only when that count is positive. A zero count changes neither total. |
| Cleanup.AbortIsFinal | Cron/CleanupLogs.php:198-201 | Once the run aborts, the rest of the listing is never looked at. |
| Cleanup.SweptDryRun | Cron/CleanupLogs.php:151-310 | A dry run leaves both directories as they were and never aborts. |
| Cleanup.SweptUntouched | Cron/CleanupLogs.php:170-179 | An entry that is neither a selected `*.log` name nor a `*.tmp` name is exactly as it was after the loop. |
| Cleanup.CleanupBackupsKeepsRecent | Cron/CleanupLogs.php:366-408 | A retention of zero days or less deletes nothing. Otherwise, when the listing names every backup, exactly the regular files older than the cutoff are deleted. The log directory is never touched. |
| Cleanup.ExecuteFacts | Cron/CleanupLogs.php:80-140 | Disabled: zero counts and `success=false` to the console, nothing to cron, nothing touched. A dry run touches nothing and never crashes. Reported totals count at most the listed files, each with at least one entry. |
| Cron.LogCleaner.CreateBackup | Cron/CleanupLogs.php:337-359 | Stores the content under the stamped name and creates the directory, or fails without any change to the modelled state. |
| Cron.LogCleaner.CleanLogFileInBatches | Helper/Data.php:261-372 | Opens the temporary file, streams, then renames or deletes, leaving the directory as `RewriteInBatches` states. |
| Cron.LogCleaner.ProcessLargeFile | Cron/CleanupLogs.php:192-245 | The batch branch changes the directories, and counts, as `BatchFile` states. |
| Cron.LogCleaner.ProcessFile | Cron/CleanupLogs.php:246-299 | The standard branch changes the directories, and counts, as `StandardFile` states. |
| Cron.LogCleaner.VisitFile | Cron/CleanupLogs.php:170-306 | One pass of the loop body, as `CleanFile` states. |
| Cron.LogCleaner.CountFile | Cron/CleanupLogs.php:181-306 | One iteration: the loop state after `i + 1` names is the declarative loop after `i + 1` names. |
| Cron.LogCleaner.CleanupLogs | Cron/CleanupLogs.php:151-310 | The loop ends in the state, totals and abort flag of `CleanupLogsRun`. |
| Cron.LogCleaner.CleanupBackups | Cron/CleanupLogs.php:366-408 | The deletion loop ends with the backups and the count of `CleanupBackupsRun`. |
| Cron.LogCleaner.Execute | Cron/CleanupLogs.php:80-140 | The run ends in the directories and the outcome of `Cleanup.Execute`. |

## Left out

- Memory management is not modelled. That covers `performMemoryCleanup`, `gc_collect_cycles`, `memory_get_usage`, `getMemoryLimitBytes` and the 80% warning. It is advisory and never changes output.
- `formatBytes` is not modelled. It uses floating `log` and only formats messages.
- Console and log messages (`writeln`, the PSR logger) are not modelled. They change no state.
- The console command `CleanLogsCommand`, `LogFiles.php` (the admin dropdown) and `registration.php` are not part of this model.
- Configuration getters through the store scope are not modelled. The enabled flag, the retention periods, the backup flag and the file selection are fields of `Settings`.
- `strtotime`, `time()` and `date()` are parameters (`parse`, `now`, `stamp`). No calendar arithmetic or time zone is modelled.
- Directory listings are snapshot parameters. The model does not capture which order `DirectoryIterator` returns, or a file that appears or vanishes during the loop.
- Each character is one byte. Sizes are content lengths, and no encoding is modelled.
- `gzencode` is not modelled: a backup holds the original content uncompressed.
- Failures of `mkdir` and `unlink` are not modelled. A backup deletion always succeeds, and `mkdir` is assumed to succeed whenever a backup is stored.
- The `fclose` calls are not modelled.
- Exceptions from `cleanupBackups` itself are not modelled: its own `try` only logs them.
- The estimator uses exact rationals (`real`), not IEEE doubles. `(int)($fileSize * 0.5)` and `(int)($fileSize * 0.8)` are exact integer fractions.
- PHP's 64-bit overflow is not modelled: integers are unbounded. `PHP_INT_MAX × 100` is the exact product, not a float.
- Estimator.EstimatedRemovals: proved bounds only, not that the estimate approximates the number of entries a real run would remove. The source does not promise that.
- Streaming.CleanInBatches: the `$output` messages inside the loop are not modelled. They never affect what is written or counted.
- Cleanup.CleanupBackupsKeepsRecent: the deletion count is not related to the number of expired backups. Only the backups that remain are stated.
- Cleanup.Execute: a dry run without console output, which no entry point makes, is modelled like a console dry run. In the source, `execute()` never dry-runs and `executeWithOutput` always passes an output. On that input, the unguarded `$output->writeln` calls of a batch-mode dry run (CleanupLogs.php:241-243) would raise an uncaught error. So what `Cleanup.ExecuteFacts` states about dry runs describes that input only as modelled.
- Cron.LogCleaner.CreateBackup: one flag, `backupStorable`, covers every way a backup can fail. Which write failed is not distinguished. In the source `mkdir` (CleanupLogs.php:342-344) runs before the write that can fail (:352), so a failed write can leave a new, empty `var/log/backup` behind; the model keeps `backupDir` unchanged then. No count or log outcome depends on it.
