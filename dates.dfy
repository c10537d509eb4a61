/**
 * The timestamp extractor: which leading timestamp, if any, a log line carries.
 *
 * The source tries four anchored regular expressions in order and returns the
 * first capture group. They are written out here as character-class checks.
 */
module LogDates {
  import opened Wrappers

  /** PCRE's `\d` without the `u` modifier: an ASCII digit. */
  predicate IsDigit(ch: char) {
    '0' <= ch <= '9'
  }

  predicate DigitsAt(s: string, i: nat, n: nat)
    requires i + n <= |s|
  {
    forall k :: i <= k < i + n ==> IsDigit(s[k])
  }

  /** `\d{4}-\d{2}-\d{2}` starting at `i`. */
  predicate IsFullDateAt(s: string, i: nat) {
    && i + 10 <= |s|
    && DigitsAt(s, i, 4) && s[i + 4] == '-'
    && DigitsAt(s, i + 5, 2) && s[i + 7] == '-'
    && DigitsAt(s, i + 8, 2)
  }

  /** `\d{4}-\d{2}-\d{2}T\d{2}:\d{2}:\d{2}` starting at `i`. */
  predicate IsDateTimeAt(s: string, i: nat) {
    && IsFullDateAt(s, i)
    && i + 19 <= |s|
    && s[i + 10] == 'T'
    && DigitsAt(s, i + 11, 2) && s[i + 13] == ':'
    && DigitsAt(s, i + 14, 2) && s[i + 16] == ':'
    && DigitsAt(s, i + 17, 2)
  }

  /** Number of digits at the front of `s`. */
  function LeadingDigits(s: string): (n: nat)
    ensures n <= |s|
    ensures forall k :: 0 <= k < n ==> IsDigit(s[k])
    ensures n < |s| ==> !IsDigit(s[n])
  {
    if s != [] && IsDigit(s[0]) then 1 + LeadingDigits(s[1..]) else 0
  }

  /** What is left after the optional `(?:\.\d+)`. */
  function AfterFraction(t: string): string {
    if |t| >= 2 && t[0] == '.' && IsDigit(t[1]) then t[1 + LeadingDigits(t[1..])..] else t
  }

  /** What is left after the optional `(?:[+-]\d{2}:\d{2})`. */
  function AfterOffset(t: string): string {
    if |t| >= 6 && (t[0] == '+' || t[0] == '-') && DigitsAt(t, 1, 2) && t[3] == ':' && DigitsAt(t, 4, 2)
    then t[6..]
    else t
  }

  /**
   * The four patterns, in the order they are tried. A `\d+` fraction is always
   * followed by a non-digit, so the greedy reading below is the only one a
   * backtracking matcher can succeed with.
   */
  datatype DatePattern =
    | BracketedFull     // ^\[(date T time)(?:\.\d+)?(?:[+-]\d{2}:\d{2})?\]
    | Bracketed         // ^\[(date T time)
    | BareDateTime      // ^(date T time)
    | BareDate          // ^(date)

  predicate Matches(p: DatePattern, s: string) {
    match p
    case BracketedFull =>
      |s| >= 1 && s[0] == '[' && IsDateTimeAt(s, 1) &&
      var rest := AfterOffset(AfterFraction(s[20..]));
      |rest| >= 1 && rest[0] == ']'
    case Bracketed => |s| >= 1 && s[0] == '[' && IsDateTimeAt(s, 1)
    case BareDateTime => IsDateTimeAt(s, 0)
    case BareDate => IsFullDateAt(s, 0)
  }

  /** The first capture group of pattern `p` on a line it matches. */
  function Capture(p: DatePattern, s: string): string
    requires Matches(p, s)
  {
    match p
    case BracketedFull => s[1..20]
    case Bracketed => s[1..20]
    case BareDateTime => s[..19]
    case BareDate => s[..10]
  }

  /** The `foreach` over the patterns: the first one that matches. */
  function FirstMatch(s: string): (r: Option<DatePattern>)
    ensures r.Some? ==> Matches(r.value, s)
  {
    if Matches(BracketedFull, s) then Some(BracketedFull)
    else if Matches(Bracketed, s) then Some(Bracketed)
    else if Matches(BareDateTime, s) then Some(BareDateTime)
    else if Matches(BareDate, s) then Some(BareDate)
    else None
  }

  /**
   * `extractDateFromLogLine`, written as three character-class checks: a
   * bracketed date-time, a bare date-time, a bare date, or nothing.
   */
  function ExtractDate(line: string): (r: Option<string>)
    ensures r.Some? ==> |r.value| == 19 || |r.value| == 10
    ensures r.Some? ==> IsFullDateAt(r.value, 0)
    ensures r.Some? && |r.value| == 19 ==> IsDateTimeAt(r.value, 0)
    ensures r.Some? ==> |line| >= |r.value| && |line| >= 1
    ensures r.Some? && line[0] == '[' ==> |line| >= 20 && r.value == line[1..20]
    ensures r.Some? && line[0] != '[' ==> r.value == line[..|r.value|]
  {
    if |line| >= 1 && line[0] == '[' && IsDateTimeAt(line, 1) then Some(line[1..20])
    else if IsDateTimeAt(line, 0) then Some(line[..19])
    else if IsFullDateAt(line, 0) then Some(line[..10])
    else None
  }

  /** A line that starts a new log entry: one with an extractable date. */
  predicate IsHeader(line: string) {
    ExtractDate(line).Some?
  }

  /**
   * The three-outcome extractor returns what the four-pattern cascade returns:
   * the first pattern can only match where the second does, with the same
   * capture, so it never changes the result.
   */
  lemma ExtractDateIsFirstCapture(line: string)
    ensures ExtractDate(line) == match FirstMatch(line)
                                 case None => None
                                 case Some(p) => Some(Capture(p, line))
    ensures Matches(BracketedFull, line) ==> Matches(Bracketed, line)
  {
  }

  /** A bracketed date-time yields exactly its 19 characters, whatever follows (fraction, offset, message). */
  lemma ExtractBracketed(ts: string, rest: string)
    requires |ts| == 19 && IsDateTimeAt(ts, 0)
    ensures ExtractDate("[" + ts + rest) == Some(ts)
  {
    var line := "[" + ts + rest;
    assert line[1..20] == ts;
    assert forall k :: 0 <= k < 19 ==> line[k + 1] == ts[k];
  }

  /** An unbracketed date-time yields its 19 characters, whatever follows. */
  lemma ExtractBareDateTime(ts: string, rest: string)
    requires |ts| == 19 && IsDateTimeAt(ts, 0)
    ensures ExtractDate(ts + rest) == Some(ts)
  {
    var line := ts + rest;
    assert line[..19] == ts;
    assert forall k :: 0 <= k < 19 ==> line[k] == ts[k];
  }

  /** A bare date not followed by `T` and a time yields its 10 characters. */
  lemma ExtractBareDate(d: string, rest: string)
    requires |d| == 10 && IsFullDateAt(d, 0) && !IsDateTimeAt(d + rest, 0)
    ensures ExtractDate(d + rest) == Some(d)
  {
    var line := d + rest;
    assert line[..10] == d;
    assert forall k :: 0 <= k < 10 ==> line[k] == d[k];
  }

  /** The patterns are anchored and look at most 20 characters into the line. */
  lemma ExtractDateReadsPrefix(line: string, rest: string)
    requires |line| >= 20
    ensures ExtractDate(line + rest) == ExtractDate(line)
  {
    var s := line + rest;
    assert forall k :: 0 <= k < 20 ==> s[k] == line[k];
    assert s[1..20] == line[1..20] && s[..19] == line[..19] && s[..10] == line[..10];
  }

  /** A line that starts with neither `[` nor a digit carries no date. */
  lemma NoDateWithoutDigitOrBracket(line: string)
    requires line == [] || (line[0] != '[' && !IsDigit(line[0]))
    ensures ExtractDate(line) == None
  {
  }

  /** A bracketed date without a time is not a date line. */
  lemma BracketedDateOnlyIsUndated()
    ensures ExtractDate("[2025-01-01]") == None
  {
    var s := "[2025-01-01]";
    assert !IsDigit(s[0]);
    assert |s| < 20;
  }

  /** A Monolog line with microseconds and offset yields the date-time without them. */
  lemma MonologLineExample()
    ensures var ts := "2025-09-17T09:35:19";
      ExtractDate("[" + ts + ".378887+00:00] main.INFO: ok") == Some(ts)
  {
    var ts := "2025-09-17T09:35:19";
    assert ts[0] == '2' && ts[1] == '0' && ts[2] == '2' && ts[3] == '5';
    assert ts[5] == '0' && ts[6] == '9' && ts[8] == '1' && ts[9] == '7';
    assert ts[11] == '0' && ts[12] == '9' && ts[14] == '3' && ts[15] == '5';
    assert ts[17] == '1' && ts[18] == '9';
    ExtractBracketed(ts, ".378887+00:00] main.INFO: ok");
  }
}
