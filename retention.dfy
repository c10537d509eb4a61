/**
 * Retention: the cutoff timestamps and the per-line "is this entry expired"
 * decision.
 *
 * `strtotime` is not modelled: it is the parameter `parse`, which maps a date
 * string to a Unix timestamp or to `None` (PHP's `false`).
 */
module Retention {
  import opened Wrappers
  import opened LogDates

  /** `strtotime` on the extracted date string. */
  type Parser = string -> Option<int>

  const SecondsPerDay: int := 24 * 60 * 60

  /** `getRetentionTimestamp`: `now` minus the retention period. */
  function RetentionTimestamp(now: int, days: int): (t: int)
    ensures t + days * SecondsPerDay == now
    ensures days >= 0 ==> t <= now
  {
    now - days * SecondsPerDay
  }

  /**
   * `getBackupRetentionTimestamp`: zero (which switches pruning off) when the
   * backup retention is not positive, otherwise `now` minus the period.
   */
  function BackupRetentionTimestamp(now: int, days: int): (t: int)
    ensures days <= 0 ==> t == 0
    ensures days > 0 ==> t + days * SecondsPerDay == now
  {
    if days <= 0 then 0 else RetentionTimestamp(now, days)
  }

  /**
   * `isLogLineOld`: a line is expired when it carries a date, that date
   * parses, and the parsed time is strictly before the cutoff.
   */
  predicate IsLogLineOld(line: string, cutoff: int, parse: Parser) {
    match ExtractDate(line)
    case None => false
    case Some(d) =>
      match parse(d)
      case None => false
      case Some(t) => t < cutoff
  }

  /** Only a header line can be expired. */
  lemma OldLineIsHeader(line: string, cutoff: int, parse: Parser)
    requires IsLogLineOld(line, cutoff, parse)
    ensures IsHeader(line)
  {
  }

  /** Both directions of the decision: expired exactly when a date is found, it parses, and it is earlier than the cutoff. */
  lemma IsLogLineOldIff(line: string, cutoff: int, parse: Parser)
    ensures IsLogLineOld(line, cutoff, parse) <==>
      (exists d, t :: ExtractDate(line) == Some(d) && parse(d) == Some(t) && t < cutoff)
  {
    if IsLogLineOld(line, cutoff, parse) {
      var d := ExtractDate(line).value;
      var t := parse(d).value;
      assert ExtractDate(line) == Some(d) && parse(d) == Some(t) && t < cutoff;
    }
  }

  /** A later cutoff expires at least the lines an earlier one does. */
  lemma OldMonotone(line: string, c1: int, c2: int, parse: Parser)
    requires c1 <= c2 && IsLogLineOld(line, c1, parse)
    ensures IsLogLineOld(line, c2, parse)
  {
  }

  /** Keeping logs for more days moves the cutoff earlier, so it never expires more lines. */
  lemma MoreRetentionExpiresLess(line: string, now: int, d1: int, d2: int, parse: Parser)
    requires d1 <= d2
    requires IsLogLineOld(line, RetentionTimestamp(now, d2), parse)
    ensures IsLogLineOld(line, RetentionTimestamp(now, d1), parse)
  {
    OldMonotone(line, RetentionTimestamp(now, d2), RetentionTimestamp(now, d1), parse);
  }

  /** A line whose date does not parse is never expired, whatever the cutoff. */
  lemma UnparsableIsKept(line: string, cutoff: int, parse: Parser)
    requires ExtractDate(line).Some? && parse(ExtractDate(line).value).None?
    ensures !IsLogLineOld(line, cutoff, parse)
  {
  }
}
