/**
 * The cron job `CleanupLogs` as a class over the two directories it changes
 * in place. Each method is proved to do what the corresponding function of
 * module `Cleanup` states, so every property proved there holds of it.
 */
module Cron {
  import opened Wrappers
  import opened Lines
  import opened Retention
  import opened WholeFile
  import opened Streaming
  import opened Limits
  import opened Estimator
  import opened Files
  import opened Directory
  import opened BackupPruning
  import opened Cleanup

  class LogCleaner {
    /** `var/log`, by file name. */
    var logs: map<string, FileRec>
    /** `var/log/backup`, by file name. */
    var backups: map<string, FileRec>
    /** Whether `var/log/backup` exists. */
    var backupDir: bool

    function State(): Disk
      reads this
    {
      Disk(logs, backups, backupDir)
    }

    constructor (d: Disk)
      ensures State() == d
    {
      logs := d.logs;
      backups := d.backups;
      backupDir := d.backupDir;
    }

    /** `createBackup`: `false` is the exception the source throws when the backup cannot be stored. */
    method CreateBackup(name: string, content: string, env: Env) returns (ok: bool)
      modifies this
      ensures Backup(old(State()), name, content, env) == if ok then Some(State()) else None
      ensures !ok ==> State() == old(State())
    {
      if !env.backupStorable {
        return false;
      }
      backups := backups[BackupName(env.stamp, name) := FileRec(content, true, true, true, env.now)];
      backupDir := true;
      return true;
    }

    /**
     * The file handling of `cleanLogFileInBatches` around the streaming
     * compactor: `None` is the exception thrown when a handle cannot be
     * opened or the rename fails.
     */
    method CleanLogFileInBatches(name: string, f: FileRec, cutoff: int, env: Env) returns (res: Option<BatchResult>)
      modifies this
      ensures RewriteInBatches(old(State()), name, f, cutoff, env)
              == Step(State(), if res.Some? then res.value.removedEntries else 0, false)
    {
      var temp := TempName(name);
      if !env.tempCreatable {
        return None;
      }
      RemoveAfterUpdate(logs, temp, FileRec([], true, true, true, env.now));
      logs := logs[temp := FileRec([], true, true, true, env.now)];
      if !f.readable {
        return None;
      }
      var r := CleanInBatches(ReadLines(f.content), cutoff, env.parse, BatchSize, MaxBatchesForFile(true, |f.content|));
      ghost var created := logs;
      logs := logs[temp := FileRec(r.output, true, true, true, env.now)];
      RemoveAfterUpdate(created, temp, FileRec(r.output, true, true, true, env.now));
      if f.writable {
        logs := (logs - {temp})[name := f.(content := r.output, mtime := env.now)];
        return Some(r);
      } else {
        logs := logs - {temp};
        return None;
      }
    }

    /** The batch-mode branch of the loop body, for a file that passed the filter. */
    method ProcessLargeFile(name: string, s: Settings, env: Env, cutoff: int, dry: bool) returns (counted: nat, fatal: bool)
      requires name in logs
      modifies this
      ensures BatchFile(old(State()), name, s, env, cutoff, dry) == Step(State(), counted, fatal)
    {
      var f := logs[name];
      if s.backupEnabled && !dry {
        if !f.readable {
          return 0, true;
        }
        var ok := CreateBackup(name, f.content, env);
        if !ok {
          return 0, false;
        }
      }
      if !dry {
        var res := CleanLogFileInBatches(name, f, cutoff, env);
        if res.Some? && res.value.removedEntries > 0 {
          return res.value.removedEntries, false;
        }
        return 0, false;
      } else {
        var estimate := EstimateRemovalsFast(if f.readable then Some(f.content) else None, cutoff, env.parse);
        return estimate, false;
      }
    }

    /** The standard-mode branch of the loop body, for a file that passed the filter. */
    method ProcessFile(name: string, s: Settings, env: Env, cutoff: int, dry: bool) returns (counted: nat)
      requires name in logs
      modifies this
      ensures StandardFile(old(State()), name, s, env, cutoff, dry) == Step(State(), counted, false)
    {
      var f := logs[name];
      if !f.readable {
        return 0;
      }
      var cleaned := CleanLogContent(f.content, cutoff, env.parse);
      var originalEntries := CountLogEntries(f.content);
      var cleanedEntries := CountLogEntries(cleaned);
      var removed := originalEntries as int - cleanedEntries as int;
      if removed <= 0 {
        return 0;
      }
      if s.backupEnabled && !dry {
        var ok := CreateBackup(name, f.content, env);
        if !ok {
          return 0;
        }
      }
      if !dry && f.writable {
        logs := logs[name := f.(content := cleaned, mtime := env.now)];
        return removed;
      } else if dry {
        return removed;
      }
      return 0;
    }

    /** One pass of the loop body: the filter, then the routing by size. */
    method VisitFile(name: string, s: Settings, env: Env, cutoff: int, dry: bool) returns (counted: nat, fatal: bool)
      modifies this
      ensures CleanFile(old(State()), name, s, env, cutoff, dry) == Step(State(), counted, fatal)
    {
      if !(name in logs && logs[name].isFile && IsLogName(name) && ShouldCleanFile(name, s.selected)) {
        return 0, false;
      }
      if ShouldUseBatchProcessing(true, |logs[name].content|) {
        counted, fatal := ProcessLargeFile(name, s, env, cutoff, dry);
      } else {
        counted := ProcessFile(name, s, env, cutoff, dry);
        fatal := false;
      }
    }

    /** `cleanupLogs`: the loop over the listing `order`, totalling counted files and entries. */
    method CleanupLogs(order: seq<string>, s: Settings, env: Env, cutoff: int, dry: bool)
      returns (processedFiles: nat, entriesRemoved: nat, aborted: bool)
      modifies this
      ensures CleanupLogsRun(old(State()), order, s, env, cutoff, dry) == Tally(State(), processedFiles, entriesRemoved, aborted)
    {
      processedFiles, entriesRemoved, aborted := 0, 0, false;
      if !env.logDirExists {
        return;
      }
      ghost var d0 := State();
      var i := 0;
      while i < |order|
        invariant i <= |order|
        invariant Swept(d0, order, i, Pass(s, env, cutoff, dry)) == Tally(State(), processedFiles, entriesRemoved, false)
      {
        var fatal;
        processedFiles, entriesRemoved, fatal := CountFile(d0, order, i, s, env, cutoff, dry, processedFiles, entriesRemoved);
        if fatal {
          aborted := true;
          AbortIsFinal(d0, order, i + 1, |order|, Pass(s, env, cutoff, dry));
          return;
        }
        i := i + 1;
      }
    }

    /** One pass of the loop in `cleanupLogs`: the file is visited and, when it counted, added to the totals. */
    method CountFile(ghost d0: Disk, order: seq<string>, i: nat, s: Settings, env: Env, cutoff: int, dry: bool, p: nat, e: nat)
      returns (p': nat, e': nat, fatal: bool)
      requires i < |order|
      requires Swept(d0, order, i, Pass(s, env, cutoff, dry)) == Tally(State(), p, e, false)
      modifies this
      ensures Swept(d0, order, i + 1, Pass(s, env, cutoff, dry)) == Tally(State(), p', e', fatal)
    {
      ghost var before := Tally(State(), p, e, false);
      var counted;
      counted, fatal := VisitFile(order[i], s, env, cutoff, dry);
      SweptStep(d0, order, i, Pass(s, env, cutoff, dry), before, Step(State(), counted, fatal));
      p', e' := p, e;
      if counted > 0 {
        p', e' := p + 1, e + counted;
      }
    }

    /** `cleanupBackups`: deletes the expired backups of the listing `border` and counts them. */
    method CleanupBackups(border: seq<string>, s: Settings, env: Env) returns (deleted: nat)
      modifies this
      ensures CleanupBackupsRun(old(State()), border, s, env) == (State(), deleted)
    {
      var cutoff := BackupRetentionTimestamp(env.now, s.backupRetentionDays);
      if cutoff <= 0 || !backupDir {
        return 0;
      }
      ghost var b0 := backups;
      deleted := 0;
      var i := 0;
      while i < |border|
        invariant i <= |border|
        invariant Pruned(b0, border, i, cutoff) == Pruning(backups, deleted)
        invariant logs == old(logs) && backupDir == old(backupDir)
      {
        var k := border[i];
        if k in backups && backups[k].isFile && backups[k].mtime < cutoff {
          backups := backups - {k};
          deleted := deleted + 1;
        }
        i := i + 1;
      }
      assert border[..|border|] == border;
    }

    /** `executeInternal`: the disabled short-circuit, the loop, backup pruning, and what is handed back. */
    method Execute(order: seq<string>, border: seq<string>, s: Settings, env: Env, console: bool, dry: bool)
      returns (outcome: Outcome)
      modifies this
      ensures Cleanup.Execute(old(State()), order, border, s, env, console, dry) == Run(State(), outcome)
    {
      if !s.enabled {
        return if console then Report(false, 0, 0) else Silent;
      }
      if env.logDirExists && !env.logDirListable {
        return if console then Rethrown else Silent;
      }
      var processedFiles, entriesRemoved, aborted :=
        CleanupLogs(order, s, env, RetentionTimestamp(env.now, s.retentionDays), dry);
      if aborted {
        return Crashed;
      }
      if s.backupEnabled && !dry {
        var _ := CleanupBackups(border, s, env);
      }
      return if console then Report(true, processedFiles, entriesRemoved) else Silent;
    }
  }
}
