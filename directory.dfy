/** The directories the cron job works on, as maps from file name to entry. */
module Directory {

  /**
   * One directory entry. `readable` says whether `fopen`/`file_get_contents`
   * succeed on it; `writable` whether `file_put_contents` onto it and `rename`
   * onto it succeed.
   */
  datatype FileRec = FileRec(content: string, isFile: bool, readable: bool, writable: bool, mtime: int)

  /** Writing a name and then removing it is the same as removing it. */
  lemma RemoveAfterUpdate<K, V>(m: map<K, V>, k: K, v: V)
    ensures m[k := v] - {k} == m - {k}
  {
  }
}
