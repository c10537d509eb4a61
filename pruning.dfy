/**
 * The loop of `cleanupBackups` over the backup directory: every regular file
 * modified before the cutoff is deleted and counted.
 */
module BackupPruning {
  import opened Directory

  /** A backup `cleanupBackups` deletes: a regular file modified strictly before the cutoff. */
  predicate Expired(f: FileRec, cutoff: int) {
    f.isFile && f.mtime < cutoff
  }

  /** The backups left and `$deletedBackups`. */
  datatype Pruning = Pruning(kept: map<string, FileRec>, deleted: nat)

  /** The backup directory and the deletion count after the first `i` names of its listing. */
  function Pruned(backups: map<string, FileRec>, order: seq<string>, i: nat, cutoff: int): Pruning
    requires i <= |order|
  {
    if i == 0 then Pruning(backups, 0)
    else
      var p := Pruned(backups, order, i - 1, cutoff);
      var k := order[i - 1];
      if k in p.kept && Expired(p.kept[k], cutoff) then Pruning(p.kept - {k}, p.deleted + 1) else p
  }

  /**
   * After the first `i` listed names, the backups left are exactly those not
   * both listed and expired, each untouched.
   */
  lemma {:induction false} PrunedExactly(backups: map<string, FileRec>, order: seq<string>, i: nat, cutoff: int)
    requires i <= |order|
    ensures var m := Pruned(backups, order, i, cutoff).kept;
      && (forall k :: k in m <==> k in backups && !(k in order[..i] && Expired(backups[k], cutoff)))
      && (forall k :: k in m ==> m[k] == backups[k])
  {
    if i > 0 {
      PrunedExactly(backups, order, i - 1, cutoff);
      assert order[..i] == order[..i - 1] + [order[i - 1]];
    }
  }
}
