/**
 * The per-file decisions of the cron job's `cleanupLogs` loop and of
 * `cleanupBackups`, as functions of the directory's state.
 *
 * The log directory and the backup directory are maps from file name to a
 * record; the order `DirectoryIterator` yields the names in is a parameter
 * (`order`), read once before the loop. What the file system answers (can a
 * file be read, written, replaced; can the temporary file be created; can a
 * backup be stored) is part of the records and of `Env`. The clock and the
 * `date()` stamp are `Env` fields too.
 *
 * `CleanFile` is one pass of the loop body, `Swept` the loop, `Pruned` the
 * backup loop and `Execute` the whole run of `executeInternal`.
 */
module Cleanup {
  import opened Wrappers
  import opened Lines
  import opened Retention
  import opened Entries
  import opened WholeFile
  import opened Streaming
  import opened Limits
  import opened Estimator
  import opened Files
  import opened Directory
  import opened BackupPruning

  /** The configuration the helper reads: enabled flag, retention periods, backup flag, selected files. */
  datatype Settings = Settings(
    enabled: bool,
    retentionDays: int,
    backupEnabled: bool,
    backupRetentionDays: int,
    selected: seq<string>)

  /**
   * What the environment answers during one run: `time()`, the
   * `date('Y-m-d_H-i-s')` stamp, `strtotime`, whether `var/log` is a directory
   * and can be listed, whether a temporary file can be created beside a log
   * file, and whether a backup file can be stored.
   */
  datatype Env = Env(
    now: int,
    stamp: string,
    parse: Parser,
    logDirExists: bool,
    logDirListable: bool,
    tempCreatable: bool,
    backupStorable: bool)

  /** The log directory, the backup directory, and whether the backup directory exists. */
  datatype Disk = Disk(logs: map<string, FileRec>, backups: map<string, FileRec>, backupDir: bool)

  /**
   * The effect of the loop body on one name: the new disk, the number of
   * entries added to the totals (the file is counted exactly when it is
   * positive), and whether PHP aborted the whole run.
   */
  datatype Step = Step(disk: Disk, counted: nat, fatal: bool)

  /** The loop's state: the disk, `$processedFiles`, `$totalEntriesRemoved`, and whether the run aborted. */
  datatype Tally = Tally(disk: Disk, processedFiles: nat, entriesRemoved: nat, aborted: bool)

  /** The name the streaming compactor writes its output under before renaming it over the log file. */
  function TempName(name: string): string {
    name + ".tmp"
  }

  /** The loop's filter: a regular file named `*.log` that the configuration selects. */
  predicate Considered(d: Disk, name: string, selected: seq<string>) {
    name in d.logs && d.logs[name].isFile && IsLogName(name) && ShouldCleanFile(name, selected)
  }

  /** `createBackup`: store `content` under the stamped name, or fail, which the source reports by throwing. */
  function Backup(d: Disk, name: string, content: string, env: Env): Option<Disk> {
    if env.backupStorable then
      Some(Disk(d.logs, d.backups[BackupName(env.stamp, name) := FileRec(content, true, true, true, env.now)], true))
    else None
  }

  /** The backup the loop takes before touching a file: only when backups are on and this is not a dry run. */
  function BackupIfEnabled(d: Disk, name: string, content: string, s: Settings, env: Env, dry: bool): Option<Disk> {
    if s.backupEnabled && !dry then Backup(d, name, content, env) else Some(d)
  }

  /**
   * `cleanLogFileInBatches` as the loop sees it: the temporary file is opened
   * first, then the log file; either failing throws (leaving an empty
   * temporary file behind when only the second failed). Otherwise the output
   * replaces the log file, or, when the rename fails, the temporary file is
   * deleted and the call throws.
   */
  function RewriteInBatches(d: Disk, name: string, f: FileRec, cutoff: int, env: Env): Step {
    var temp := TempName(name);
    if !env.tempCreatable then Step(d, 0, false)
    else if !f.readable then Step(d.(logs := d.logs[temp := FileRec([], true, true, true, env.now)]), 0, false)
    else
      var res := BatchRun(ReadLines(f.content), cutoff, env.parse, BatchSize, MaxBatchesForFile(true, |f.content|));
      if f.writable then
        Step(d.(logs := (d.logs - {temp})[name := f.(content := res.output, mtime := env.now)]), res.removedEntries, false)
      else
        Step(d.(logs := d.logs - {temp}), 0, false)
  }

  /**
   * Batch mode. With backups on and not a dry run, `file_get_contents` runs
   * first; on an unreadable file it returns `false`, which under strict types
   * is a `TypeError` for `createBackup`'s string parameter. That error is not
   * an `Exception`, so no handler catches it and the run aborts.
   */
  function BatchFile(d: Disk, name: string, s: Settings, env: Env, cutoff: int, dry: bool): Step
    requires name in d.logs
  {
    var f := d.logs[name];
    if s.backupEnabled && !dry && !f.readable then Step(d, 0, true)
    else
      var b := BackupIfEnabled(d, name, f.content, s, env, dry);
      if b.None? then Step(d, 0, false)
      else if dry then Step(d, EstimatedRemovals(if f.readable then Some(f.content) else None, cutoff, env.parse), false)
      else RewriteInBatches(b.value, name, f, cutoff, env)
  }

  /** How many entries the whole-file compactor removes from `content`, as the loop computes it. */
  function RemovedByCleaning(content: string, cutoff: int, parse: Parser): int {
    CountDated(Split(content)) - CountDated(Split(CleanContent(content, cutoff, parse)))
  }

  /**
   * Standard mode: an unreadable file is skipped; otherwise, when cleaning
   * removes something, a backup (when enabled) precedes the write, a dry run
   * only counts, and a failed write counts nothing.
   */
  function StandardFile(d: Disk, name: string, s: Settings, env: Env, cutoff: int, dry: bool): Step
    requires name in d.logs
  {
    var f := d.logs[name];
    if !f.readable then Step(d, 0, false)
    else
      var removed := RemovedByCleaning(f.content, cutoff, env.parse);
      if removed <= 0 then Step(d, 0, false)
      else
        var b := BackupIfEnabled(d, name, f.content, s, env, dry);
        if b.None? then Step(d, 0, false)
        else if dry then Step(d, removed, false)
        else if f.writable then
          Step(b.value.(logs := b.value.logs[name := f.(content := CleanContent(f.content, cutoff, env.parse), mtime := env.now)]),
               removed, false)
        else Step(b.value, 0, false)
  }

  /** One pass of the `cleanupLogs` loop body on `name`. */
  function CleanFile(d: Disk, name: string, s: Settings, env: Env, cutoff: int, dry: bool): Step {
    if !Considered(d, name, s.selected) then Step(d, 0, false)
    else if ShouldUseBatchProcessing(true, |d.logs[name].content|) then BatchFile(d, name, s, env, cutoff, dry)
    else StandardFile(d, name, s, env, cutoff, dry)
  }

  /** One pass of the loop body as a value: what it does to a disk, given the name. */
  type Visitor = (Disk, string) -> Step

  /** The pass the cron job runs, for one run's settings, environment, cutoff and mode. */
  function Pass(s: Settings, env: Env, cutoff: int, dry: bool): Visitor {
    (d: Disk, name: string) => CleanFile(d, name, s, env, cutoff, dry)
  }

  /** Folds one step into the totals: a file is counted when it contributes entries. */
  function Visit(t: Tally, name: string, visit: Visitor): Tally {
    var r := visit(t.disk, name);
    Tally(r.disk, t.processedFiles + (if r.counted > 0 then 1 else 0), t.entriesRemoved + r.counted, r.fatal)
  }

  /** The loop after the first `i` names of the listing; an abort ends it. */
  function Swept(d: Disk, order: seq<string>, i: nat, visit: Visitor): Tally
    requires i <= |order|
  {
    if i == 0 then Tally(d, 0, 0, false)
    else
      var t := Swept(d, order, i - 1, visit);
      if t.aborted then t else Visit(t, order[i - 1], visit)
  }

  /** `cleanupLogs`: zero totals when `var/log` is not a directory, otherwise the loop over the listing. */
  function CleanupLogsRun(d: Disk, order: seq<string>, s: Settings, env: Env, cutoff: int, dry: bool): Tally {
    if !env.logDirExists then Tally(d, 0, 0, false) else Swept(d, order, |order|, Pass(s, env, cutoff, dry))
  }

  // ---------------------------------------------------------------------------
  // Backup pruning.

  /**
   * `cleanupBackups`: nothing when the backup cutoff is not positive or the
   * directory does not exist; otherwise the expired listed backups are
   * deleted. Returns the new disk and `$deletedBackups`.
   */
  function CleanupBackupsRun(d: Disk, border: seq<string>, s: Settings, env: Env): (Disk, nat) {
    var cutoff := BackupRetentionTimestamp(env.now, s.backupRetentionDays);
    if cutoff <= 0 || !d.backupDir then (d, 0)
    else
      var p := Pruned(d.backups, border, |border|, cutoff);
      (d.(backups := p.kept), p.deleted)
  }

  // ---------------------------------------------------------------------------
  // The whole run.

  /**
   * What `executeInternal` hands back: the array (console mode), nothing
   * (cron mode), an exception rethrown to the console command, or the
   * uncaught error that ends the process.
   */
  datatype Outcome = Report(success: bool, filesProcessed: nat, entriesRemoved: nat) | Silent | Rethrown | Crashed

  datatype Run = Run(disk: Disk, outcome: Outcome)

  /**
   * `executeInternal`. A listing failure is an exception thrown inside the
   * `try`: the console caller gets it back, the cron job only logs it.
   * Backups are pruned after the loop when backups are on and this is not a
   * dry run. `border` is the backup directory's listing at that point.
   */
  function Execute(d: Disk, order: seq<string>, border: seq<string>, s: Settings, env: Env, console: bool, dry: bool): Run {
    if !s.enabled then Run(d, if console then Report(false, 0, 0) else Silent)
    else if env.logDirExists && !env.logDirListable then Run(d, if console then Rethrown else Silent)
    else
      var t := CleanupLogsRun(d, order, s, env, RetentionTimestamp(env.now, s.retentionDays), dry);
      if t.aborted then Run(t.disk, Crashed)
      else
        var d' := if s.backupEnabled && !dry then CleanupBackupsRun(t.disk, border, s, env).0 else t.disk;
        Run(d', if console then Report(true, t.processedFiles, t.entriesRemoved) else Silent)
  }

  // ---------------------------------------------------------------------------
  // One pass of the loop body.

  /** The temporary file never passes the `.log` filter: its extension is `tmp`. */
  lemma TempNameIsNotLog(name: string)
    ensures Extension(TempName(name)) == "tmp" && !IsLogName(TempName(name))
  {
    ThreeLetterExtension(name, 't', 'm', 'p');
  }

  /** `d'` has the same log-directory entry `k` as `d`: both lack it, or both hold the same record. */
  predicate SameLog(d: Disk, d': Disk, k: string) {
    (k in d'.logs <==> k in d.logs) && (k in d.logs ==> d'.logs[k] == d.logs[k])
  }

  /** `r` differs from `d` at most in the log entries `name` and `temp` and in the backup `backup`. */
  predicate Touches(d: Disk, r: Disk, name: string, temp: string, backup: string, k: string) {
    && (k != name && k != temp ==> SameLog(d, r, k))
    && (k != backup ==> (k in r.backups <==> k in d.backups) && (k in d.backups ==> r.backups[k] == d.backups[k]))
  }

  lemma BatchFileFrame(d: Disk, name: string, s: Settings, env: Env, cutoff: int, dry: bool, k: string)
    requires name in d.logs
    ensures Touches(d, BatchFile(d, name, s, env, cutoff, dry).disk, name, TempName(name), BackupName(env.stamp, name), k)
  {
    var f := d.logs[name];
    if !(s.backupEnabled && !dry && !f.readable) {
      var b := BackupIfEnabled(d, name, f.content, s, env, dry);
      if b.Some? && !dry {
        assert Touches(d, b.value, name, TempName(name), BackupName(env.stamp, name), k);
      }
    }
  }

  lemma StandardFileFrame(d: Disk, name: string, s: Settings, env: Env, cutoff: int, dry: bool, k: string)
    requires name in d.logs
    ensures Touches(d, StandardFile(d, name, s, env, cutoff, dry).disk, name, name, BackupName(env.stamp, name), k)
  {
    var f := d.logs[name];
    if f.readable && RemovedByCleaning(f.content, cutoff, env.parse) > 0 {
      var b := BackupIfEnabled(d, name, f.content, s, env, dry);
      if b.Some? && !dry {
        assert Touches(d, b.value, name, name, BackupName(env.stamp, name), k);
      }
    }
  }

  /**
   * A pass touches no log-directory entry but the file itself and its
   * temporary file, and no backup but the one named after the file and the
   * stamp; a name the filter rejects is left alone entirely.
   */
  lemma CleanFileFrame(d: Disk, name: string, s: Settings, env: Env, cutoff: int, dry: bool, k: string)
    ensures var r := CleanFile(d, name, s, env, cutoff, dry);
      && (!Considered(d, name, s.selected) ==> r == Step(d, 0, false))
      && Touches(d, r.disk, name, TempName(name), BackupName(env.stamp, name), k)
  {
    if Considered(d, name, s.selected) {
      if ShouldUseBatchProcessing(true, |d.logs[name].content|) {
        BatchFileFrame(d, name, s, env, cutoff, dry, k);
      } else {
        StandardFileFrame(d, name, s, env, cutoff, dry, k);
      }
    }
  }

  /**
   * The only abort: a batch-mode file that cannot be read while backups are
   * on and this is not a dry run. An aborted pass changes nothing.
   */
  lemma FatalIff(d: Disk, name: string, s: Settings, env: Env, cutoff: int, dry: bool)
    ensures var r := CleanFile(d, name, s, env, cutoff, dry);
      && (r.fatal <==> Considered(d, name, s.selected) && ShouldUseBatchProcessing(true, |d.logs[name].content|)
                       && s.backupEnabled && !dry && !d.logs[name].readable)
      && (r.fatal ==> r.disk == d && r.counted == 0)
  {
  }

  /** A dry run neither writes a log file nor stores a backup, and never aborts. */
  lemma DryRunStep(d: Disk, name: string, s: Settings, env: Env, cutoff: int)
    ensures var r := CleanFile(d, name, s, env, cutoff, true);
      r.disk == d && !r.fatal
  {
  }

  /**
   * The backup comes first: in a run with backups on, a pass that changes the
   * log file has stored the file's original content under its backup name;
   * one whose backup could not be stored has changed nothing and counts
   * nothing; and without backups (or in a dry run) no backup is stored.
   */
  predicate BackedUpFirst(d: Disk, name: string, s: Settings, env: Env, dry: bool, r: Step)
    requires name in d.logs
  {
    && (s.backupEnabled && !dry && (name !in r.disk.logs || r.disk.logs[name] != d.logs[name]) ==>
          BackupName(env.stamp, name) in r.disk.backups
          && r.disk.backups[BackupName(env.stamp, name)].content == d.logs[name].content)
    && (s.backupEnabled && !dry && !env.backupStorable ==> r.disk == d && r.counted == 0)
    && (!s.backupEnabled || dry ==> r.disk.backups == d.backups)
  }

  lemma BatchBackedUpFirst(d: Disk, name: string, s: Settings, env: Env, cutoff: int, dry: bool)
    requires name in d.logs
    ensures BackedUpFirst(d, name, s, env, dry, BatchFile(d, name, s, env, cutoff, dry))
  {
  }

  /**
   * In batch mode the backup does not depend on the outcome: with backups on,
   * a readable file and a storable backup, the original content is stored
   * whether the rewrite then removes entries, removes none, or fails.
   */
  lemma BatchBackupUnconditional(d: Disk, name: string, s: Settings, env: Env, cutoff: int)
    requires Considered(d, name, s.selected) && ShouldUseBatchProcessing(true, |d.logs[name].content|)
    requires s.backupEnabled && d.logs[name].readable && env.backupStorable
    ensures var r := CleanFile(d, name, s, env, cutoff, false);
      && BackupName(env.stamp, name) in r.disk.backups
      && r.disk.backups[BackupName(env.stamp, name)].content == d.logs[name].content
      && !r.fatal
  {
  }

  lemma StandardBackedUpFirst(d: Disk, name: string, s: Settings, env: Env, cutoff: int, dry: bool)
    requires name in d.logs
    ensures BackedUpFirst(d, name, s, env, dry, StandardFile(d, name, s, env, cutoff, dry))
  {
  }

  lemma BackupBeforeRewrite(d: Disk, name: string, s: Settings, env: Env, cutoff: int, dry: bool)
    requires name in d.logs
    ensures BackedUpFirst(d, name, s, env, dry, CleanFile(d, name, s, env, cutoff, dry))
  {
    if Considered(d, name, s.selected) {
      if ShouldUseBatchProcessing(true, |d.logs[name].content|) {
        BatchBackedUpFirst(d, name, s, env, cutoff, dry);
      } else {
        StandardBackedUpFirst(d, name, s, env, cutoff, dry);
      }
    }
  }

  /**
   * Standard mode on a readable file: the count is the number of entries the
   * whole-file compactor drops; the file is rewritten with the compacted
   * content, and counted, only when that number is positive and this is not
   * a dry run; a failed write leaves the file and the totals as they were;
   * a dry run counts the same number without writing.
   */
  lemma StandardOutcome(d: Disk, name: string, s: Settings, env: Env, cutoff: int, dry: bool)
    requires Considered(d, name, s.selected) && !ShouldUseBatchProcessing(true, |d.logs[name].content|)
    requires d.logs[name].readable
    requires s.backupEnabled && !dry ==> env.backupStorable
    ensures StandardCounts(d, name, env, cutoff, dry, CleanFile(d, name, s, env, cutoff, dry))
  {
    StandardFileOutcome(d, name, s, env, cutoff, dry);
  }

  /** What `StandardOutcome` states of one step `r` on `name`. */
  predicate StandardCounts(d: Disk, name: string, env: Env, cutoff: int, dry: bool, r: Step)
    requires name in d.logs
  {
    var f := d.logs[name];
    var dropped := |Dropped(Group(Split(f.content)), cutoff, env.parse)|;
    && (dropped == 0 ==> r == Step(d, 0, false))
    && (dry ==> r.counted == dropped)
    && (!dry && f.writable ==> r.counted == dropped)
    && (!dry && f.writable && dropped > 0 ==>
          name in r.disk.logs && r.disk.logs[name].content == CleanContent(f.content, cutoff, env.parse))
    && (!dry && !f.writable ==> r.counted == 0 && r.disk.logs == d.logs)
  }

  lemma StandardFileOutcome(d: Disk, name: string, s: Settings, env: Env, cutoff: int, dry: bool)
    requires name in d.logs && d.logs[name].readable
    requires s.backupEnabled && !dry ==> env.backupStorable
    ensures StandardCounts(d, name, env, cutoff, dry, StandardFile(d, name, s, env, cutoff, dry))
  {
    RemovedIsDropped(d.logs[name].content, cutoff, env.parse);
  }

  /**
   * An unreadable file in standard mode is skipped: a warning and on to the
   * next name.
   */
  lemma UnreadableStandardSkipped(d: Disk, name: string, s: Settings, env: Env, cutoff: int, dry: bool)
    requires name in d.logs && !ShouldUseBatchProcessing(true, |d.logs[name].content|) && !d.logs[name].readable
    ensures CleanFile(d, name, s, env, cutoff, dry) == Step(d, 0, false)
  {
  }

  /**
   * Batch mode, not a dry run, everything succeeding: the log file now holds
   * the streaming compactor's output, the temporary file is gone, and the
   * count is the compactor's removed entries.
   */
  lemma BatchOutcome(d: Disk, name: string, s: Settings, env: Env, cutoff: int)
    requires Considered(d, name, s.selected) && ShouldUseBatchProcessing(true, |d.logs[name].content|)
    requires d.logs[name].readable && d.logs[name].writable && env.tempCreatable
    requires s.backupEnabled ==> env.backupStorable
    ensures var f := d.logs[name];
      var res := BatchRun(ReadLines(f.content), cutoff, env.parse, 100, 300);
      var r := CleanFile(d, name, s, env, cutoff, false);
      && name in r.disk.logs && r.disk.logs[name].content == res.output
      && TempName(name) !in r.disk.logs
      && r.counted == res.removedEntries && !r.fatal
  {
    TempNameIsNotLog(name);
    assert TempName(name) != name;
  }

  /**
   * Batch mode when the streaming compactor throws: the file keeps its
   * content and nothing is counted. When only the log file could not be
   * opened, an empty temporary file is left beside it.
   */
  lemma BatchFailure(d: Disk, name: string, s: Settings, env: Env, cutoff: int)
    requires Considered(d, name, s.selected) && ShouldUseBatchProcessing(true, |d.logs[name].content|)
    requires !env.tempCreatable || !d.logs[name].writable || (!d.logs[name].readable && !s.backupEnabled)
    ensures var r := CleanFile(d, name, s, env, cutoff, false);
      && r.counted == 0
      && (!r.fatal ==> name in r.disk.logs && r.disk.logs[name] == d.logs[name])
      && (env.tempCreatable && !d.logs[name].readable && !r.fatal ==>
            TempName(name) in r.disk.logs && r.disk.logs[TempName(name)].content == [])
  {
    TempNameIsNotLog(name);
    assert TempName(name) != name;
  }

  /** A dry run in batch mode counts the estimate, which never exceeds the 30000 entries a real run could reach. */
  lemma DryBatchEstimate(d: Disk, name: string, s: Settings, env: Env, cutoff: int)
    requires Considered(d, name, s.selected) && ShouldUseBatchProcessing(true, |d.logs[name].content|)
    ensures var f := d.logs[name];
      var r := CleanFile(d, name, s, env, cutoff, true);
      && r.counted == EstimatedRemovals(if f.readable then Some(f.content) else None, cutoff, env.parse)
      && r.counted <= 30000
  {
    var f := d.logs[name];
    if f.readable {
      EstimateWithinCap(f.content, cutoff, env.parse);
    }
  }

  // ---------------------------------------------------------------------------
  // The loop.

  /**
   * The totals: no more files counted than names listed, each counted file
   * adding at least one entry, and no entries without a counted file.
   */
  lemma {:induction false} SweptTotals(d: Disk, order: seq<string>, i: nat, visit: Visitor)
    requires i <= |order|
    ensures var t := Swept(d, order, i, visit);
      t.processedFiles <= i && t.entriesRemoved >= t.processedFiles && (t.processedFiles == 0 <==> t.entriesRemoved == 0)
  {
    if i > 0 {
      SweptTotals(d, order, i - 1, visit);
    }
  }

  /** A loop whose every pass leaves the disk alone and never aborts leaves the disk alone and is never aborted. */
  lemma {:induction false} SweptIdle(d: Disk, order: seq<string>, i: nat, visit: Visitor)
    requires i <= |order|
    requires forall d': Disk, name: string :: visit(d', name).disk == d' && !visit(d', name).fatal
    ensures var t := Swept(d, order, i, visit);
      t.disk == d && !t.aborted
  {
    if i > 0 {
      SweptIdle(d, order, i - 1, visit);
    }
  }

  /** The dry-run pass leaves the disk alone and never aborts. */
  lemma DryPassIdle(s: Settings, env: Env, cutoff: int)
    ensures forall d': Disk, name: string :: Pass(s, env, cutoff, true)(d', name).disk == d' && !Pass(s, env, cutoff, true)(d', name).fatal
  {
    forall d': Disk, name: string
      ensures Pass(s, env, cutoff, true)(d', name).disk == d' && !Pass(s, env, cutoff, true)(d', name).fatal
    {
      DryRunStep(d', name, s, env, cutoff);
    }
  }

  /** A dry run leaves both directories as they were and is never aborted. */
  lemma SweptDryRun(d: Disk, order: seq<string>, s: Settings, env: Env, cutoff: int)
    ensures var t := CleanupLogsRun(d, order, s, env, cutoff, true);
      t.disk == d && !t.aborted
  {
    DryPassIdle(s, env, cutoff);
    SweptIdle(d, order, |order|, Pass(s, env, cutoff, true));
  }

  /** An entry no pass changes is the same after the loop. */
  lemma {:induction false} SweptKeeps(d: Disk, order: seq<string>, i: nat, visit: Visitor, k: string)
    requires i <= |order|
    requires forall d': Disk, name: string :: SameLog(d', visit(d', name).disk, k)
    ensures SameLog(d, Swept(d, order, i, visit).disk, k)
  {
    if i > 0 {
      SweptKeeps(d, order, i - 1, visit, k);
    }
  }

  /** No pass touches an entry that is neither a selected `*.log` name nor a `*.tmp` name. */
  lemma PassKeeps(s: Settings, env: Env, cutoff: int, dry: bool, k: string)
    requires !(IsLogName(k) && ShouldCleanFile(k, s.selected)) && Extension(k) != "tmp"
    ensures forall d': Disk, name: string :: SameLog(d', Pass(s, env, cutoff, dry)(d', name).disk, k)
  {
    forall d': Disk, name: string
      ensures SameLog(d', Pass(s, env, cutoff, dry)(d', name).disk, k)
    {
      TempNameIsNotLog(name);
      CleanFileFrame(d', name, s, env, cutoff, dry, k);
    }
  }

  /**
   * An entry the loop has no business with (not a selected `*.log` name, and
   * not a `*.tmp` name the compactor could use) is exactly as it was.
   */
  lemma SweptUntouched(d: Disk, order: seq<string>, s: Settings, env: Env, cutoff: int, dry: bool, k: string)
    requires !(IsLogName(k) && ShouldCleanFile(k, s.selected)) && Extension(k) != "tmp"
    ensures SameLog(d, CleanupLogsRun(d, order, s, env, cutoff, dry).disk, k)
  {
    PassKeeps(s, env, cutoff, dry, k);
    SweptKeeps(d, order, |order|, Pass(s, env, cutoff, dry), k);
  }

  /** One more name: the pass's counts are added, the file counted when they are positive. */
  lemma SweptStep(d: Disk, order: seq<string>, i: nat, visit: Visitor, t: Tally, r: Step)
    requires i < |order|
    requires Swept(d, order, i, visit) == t && !t.aborted
    requires visit(t.disk, order[i]) == r
    ensures Swept(d, order, i + 1, visit)
            == Tally(r.disk, t.processedFiles + (if r.counted > 0 then 1 else 0), t.entriesRemoved + r.counted, r.fatal)
  {
  }

  /** Once aborted, the rest of the listing is never looked at. */
  lemma {:induction false} AbortIsFinal(d: Disk, order: seq<string>, i: nat, j: nat, visit: Visitor)
    requires i <= j <= |order|
    requires Swept(d, order, i, visit).aborted
    ensures Swept(d, order, j, visit) == Swept(d, order, i, visit)
    decreases j
  {
    if j > i {
      AbortIsFinal(d, order, i, j - 1, visit);
    }
  }

  // ---------------------------------------------------------------------------
  // Backup pruning.

  /**
   * `cleanupBackups`: with a backup retention of zero days or less it deletes
   * nothing; otherwise, when the listing names every backup, it keeps exactly
   * the backups that are not regular files older than the cutoff.
   */
  lemma CleanupBackupsKeepsRecent(d: Disk, border: seq<string>, s: Settings, env: Env)
    ensures s.backupRetentionDays <= 0 ==> CleanupBackupsRun(d, border, s, env) == (d, 0)
    ensures var (d', n) := CleanupBackupsRun(d, border, s, env);
      var cutoff := BackupRetentionTimestamp(env.now, s.backupRetentionDays);
      && d'.logs == d.logs
      && (cutoff > 0 && d.backupDir && (forall k :: k in d.backups ==> k in border) ==>
            forall k :: k in d'.backups <==> k in d.backups && !Expired(d.backups[k], cutoff))
  {
    var cutoff := BackupRetentionTimestamp(env.now, s.backupRetentionDays);
    PrunedExactly(d.backups, border, |border|, cutoff);
    assert border[..|border|] == border;
  }

  // ---------------------------------------------------------------------------
  // The whole run.

  /**
   * `executeInternal`: a disabled module reports zero counts and failure to
   * the console, nothing to cron, and touches nothing; a dry run touches
   * nothing and never crashes; reported totals count no file without entries.
   */
  lemma ExecuteFacts(d: Disk, order: seq<string>, border: seq<string>, s: Settings, env: Env, console: bool, dry: bool)
    ensures var run := Execute(d, order, border, s, env, console, dry);
      && (!s.enabled ==> run.disk == d && run.outcome == (if console then Report(false, 0, 0) else Silent))
      && (dry ==> run.disk == d && !run.outcome.Crashed?)
      && (!console ==> run.outcome.Silent? || run.outcome.Crashed?)
      && (run.outcome.Report? && run.outcome.success ==>
            run.outcome.filesProcessed <= |order| && run.outcome.entriesRemoved >= run.outcome.filesProcessed)
  {
    var cutoff := RetentionTimestamp(env.now, s.retentionDays);
    SweptTotals(d, order, |order|, Pass(s, env, cutoff, dry));
    if dry {
      SweptDryRun(d, order, s, env, cutoff);
    }
  }
}
