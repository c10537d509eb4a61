/**
 * The two ways the cleaner turns file content into lines:
 * `explode("\n", ...)` / `implode("\n", ...)` for whole files, and
 * `fgets` followed by `rtrim($line, "\r\n")` for streamed files.
 */
module Lines {

  /** No line of `ls` contains a line feed. */
  predicate NoLineFeeds(ls: seq<string>) {
    forall i :: 0 <= i < |ls| ==> '\n' !in ls[i]
  }

  /** `explode("\n", s)`: the pieces between line feeds; never empty. */
  function Split(s: string): (r: seq<string>)
    ensures |r| >= 1
    ensures NoLineFeeds(r)
  {
    if s == [] then [[]]
    else
      var rest := Split(s[1..]);
      if s[0] == '\n' then [[]] + rest
      else [[s[0]] + rest[0]] + rest[1..]
  }

  /** `implode("\n", ls)`. */
  function Join(ls: seq<string>): string {
    if |ls| == 0 then []
    else if |ls| == 1 then ls[0]
    else ls[0] + "\n" + Join(ls[1..])
  }

  /** Every line followed by a line feed: what writing `implode("\n", e) . "\n"` entry by entry produces. */
  function Terminated(ls: seq<string>): string {
    if ls == [] then [] else ls[0] + "\n" + Terminated(ls[1..])
  }

  /** Splitting and joining again gives back the content. */
  lemma {:induction false} JoinSplit(s: string)
    ensures Join(Split(s)) == s
  {
    if s != [] {
      JoinSplit(s[1..]);
      var rest := Split(s[1..]);
      if s[0] == '\n' {
        assert ([[]] + rest)[1..] == rest;
      } else if |rest| == 1 {
        assert Split(s) == [[s[0]] + rest[0]];
        assert s == [s[0]] + s[1..];
      } else {
        var r := Split(s);
        assert r[0] == [s[0]] + rest[0] && r[1..] == rest[1..];
        assert Join(rest) == rest[0] + "\n" + Join(rest[1..]);
        assert s == [s[0]] + s[1..];
      }
    }
  }

  lemma {:induction false} SplitNoLineFeed(a: string)
    requires '\n' !in a
    ensures Split(a) == [a]
  {
    if a != [] {
      SplitNoLineFeed(a[1..]);
      assert a == [a[0]] + a[1..];
    }
  }

  lemma {:induction false} SplitAtLineFeed(a: string, b: string)
    requires '\n' !in a
    ensures Split(a + "\n" + b) == [a] + Split(b)
  {
    var s := a + "\n" + b;
    if a == [] {
      assert s[0] == '\n' && s[1..] == b;
    } else {
      assert s[1..] == a[1..] + "\n" + b;
      SplitAtLineFeed(a[1..], b);
      assert a == [a[0]] + a[1..];
    }
  }

  /** Joining lines without line feeds and splitting again gives back the lines. */
  lemma {:induction false} SplitJoin(ls: seq<string>)
    requires |ls| >= 1 && NoLineFeeds(ls)
    ensures Split(Join(ls)) == ls
  {
    if |ls| == 1 {
      SplitNoLineFeed(ls[0]);
    } else {
      SplitJoin(ls[1..]);
      SplitAtLineFeed(ls[0], Join(ls[1..]));
      assert ls == [ls[0]] + ls[1..];
    }
  }

  lemma {:induction false} TerminatedAppend(a: seq<string>, b: seq<string>)
    ensures Terminated(a + b) == Terminated(a) + Terminated(b)
  {
    if a != [] {
      TerminatedAppend(a[1..], b);
      assert (a + b)[1..] == a[1..] + b;
    } else {
      assert a + b == b;
    }
  }

  /** Entry-by-entry output equals the joined lines plus one final line feed. */
  lemma {:induction false} TerminatedIsJoinPlusLineFeed(ls: seq<string>)
    requires ls != []
    ensures Terminated(ls) == Join(ls) + "\n"
  {
    if |ls| > 1 {
      TerminatedIsJoinPlusLineFeed(ls[1..]);
    }
  }

  /** Imploding one more empty line adds one line feed. */
  lemma {:induction false} JoinSnocEmpty(ls: seq<string>)
    requires ls != []
    ensures Join(ls + [[]]) == Join(ls) + "\n"
  {
    var s := ls + [[]];
    if |ls| == 1 {
      assert s == [ls[0], []];
      assert Join(s) == ls[0] + "\n" + Join(s[1..]);
      assert s[1..] == [[]];
    } else {
      assert s[1..] == ls[1..] + [[]];
      JoinSnocEmpty(ls[1..]);
      assert Join(s) == ls[0] + "\n" + Join(s[1..]);
      ConcatAssoc(ls[0] + "\n", Join(ls[1..]), "\n");
    }
  }

  // ---------------------------------------------------------------------------
  // The fgets view.

  /** Where `fgets` stops when it starts reading at byte `i`: one past the next line feed, or the end. */
  function NextLineStart(c: string, i: nat): (j: nat)
    requires i <= |c|
    ensures i <= j <= |c|
    ensures i < |c| ==> i < j
    ensures i < j ==> c[j - 1] == '\n' || j == |c|
    ensures forall k :: i <= k < j - 1 ==> c[k] != '\n'
    decreases |c| - i
  {
    if i == |c| then i
    else if c[i] == '\n' then i + 1
    else NextLineStart(c, i + 1)
  }

  /** `rtrim($line, "\r\n")`. */
  function RTrimEol(s: string): (r: string)
    ensures |r| <= |s| && r == s[..|r|]
    ensures r != [] ==> r[|r| - 1] != '\r' && r[|r| - 1] != '\n'
    ensures forall k :: |r| <= k < |s| ==> s[k] == '\r' || s[k] == '\n'
  {
    if s != [] && (s[|s| - 1] == '\r' || s[|s| - 1] == '\n') then RTrimEol(s[..|s| - 1]) else s
  }

  /** The lines that repeated `fgets` calls return from byte `i` on, each `rtrim`med. */
  function LinesFrom(c: string, i: nat): seq<string>
    requires i <= |c|
    decreases |c| - i
  {
    if i == |c| then []
    else
      var j := NextLineStart(c, i);
      [RTrimEol(c[i..j])] + LinesFrom(c, j)
  }

  /** The lines a streamed read of the whole file sees. */
  function ReadLines(c: string): seq<string> {
    LinesFrom(c, 0)
  }

  /** Whether `explode` sees an extra empty line after the last `fgets` line. */
  predicate EndsAtLineBoundary(c: string) {
    c == [] || c[|c| - 1] == '\n'
  }

  lemma RTrimEolOfPlainLine(a: string)
    requires '\n' !in a && '\r' !in a
    ensures RTrimEol(a) == a && RTrimEol(a + "\n") == a
  {
    assert (a + "\n")[..|a + "\n"| - 1] == a;
  }

  /** The piece of `c` that `fgets` returns from `i`, when it ends with a line feed. */
  lemma TerminatedLineAt(c: string, i: nat)
    requires i < |c| && '\r' !in c
    requires c[NextLineStart(c, i) - 1] == '\n'
    ensures var j := NextLineStart(c, i);
      && c[i..] == c[i..j - 1] + "\n" + c[j..]
      && '\n' !in c[i..j - 1]
      && RTrimEol(c[i..j]) == c[i..j - 1]
  {
    var j := NextLineStart(c, i);
    var a := c[i..j - 1];
    assert c[i..j] == a + "\n";
    assert c[i..] == c[i..j] + c[j..];
    assert forall x :: x in a ==> x in c;
    RTrimEolOfPlainLine(a);
  }

  /** The piece of `c` that `fgets` returns from `i`, when it runs to the end without a line feed. */
  lemma UnterminatedLineAt(c: string, i: nat)
    requires i < |c| && '\r' !in c
    requires c[NextLineStart(c, i) - 1] != '\n'
    ensures NextLineStart(c, i) == |c| && '\n' !in c[i..] && RTrimEol(c[i..]) == c[i..]
  {
    assert forall x :: x in c[i..] ==> x in c;
    RTrimEolOfPlainLine(c[i..]);
  }

  lemma ConcatAssoc<T>(x: seq<T>, y: seq<T>, z: seq<T>)
    ensures x + (y + z) == (x + y) + z
  {
  }

  lemma SnocLast<T>(s: seq<T>)
    requires s != []
    ensures s[..|s| - 1] + [s[|s| - 1]] == s
  {
  }

  lemma TailOfAppend<T>(a: seq<T>, b: seq<T>)
    requires a != []
    ensures (a + b)[0] == a[0] && (a + b)[1..] == a[1..] + b
  {
  }

  lemma TakeDrop<T>(s: seq<T>, k: nat)
    requires k <= |s|
    ensures s[..k] + s[k..] == s
  {
  }

  lemma PrefixSnoc<T>(s: seq<T>, k: nat)
    requires k < |s|
    ensures s[..k] + [s[k]] == s[..k + 1]
  {
  }

  lemma DropSnoc<T>(s: seq<T>, x: T)
    ensures (s + [x])[..|s|] == s && (s + [x])[|s|] == x
  {
  }

  /** The split of the rest of `c` from `i`, one terminated line at a time. */
  lemma SplitStep(c: string, i: nat, tail: seq<string>)
    requires i < |c| && '\r' !in c
    requires c[NextLineStart(c, i) - 1] == '\n'
    requires Split(c[NextLineStart(c, i)..]) == LinesFrom(c, NextLineStart(c, i)) + tail
    ensures Split(c[i..]) == LinesFrom(c, i) + tail
  {
    var j := NextLineStart(c, i);
    var a := c[i..j - 1];
    TerminatedLineAt(c, i);
    SplitAtLineFeed(a, c[j..]);
    ConcatAssoc([a], LinesFrom(c, j), tail);
  }

  lemma SplitLast(c: string, i: nat)
    requires i < |c| && '\r' !in c
    requires c[NextLineStart(c, i) - 1] != '\n'
    ensures Split(c[i..]) == LinesFrom(c, i)
  {
    UnterminatedLineAt(c, i);
    var j := NextLineStart(c, i);
    assert c[i..j] == c[i..];
    assert LinesFrom(c, j) == [];
    assert LinesFrom(c, i) == [RTrimEol(c[i..j])] + LinesFrom(c, j);
    SplitNoLineFeed(c[i..]);
  }

  /**
   * For content without carriage returns the streamed lines are exactly the
   * exploded lines, except that `explode` adds an empty last line when the
   * content ends with a line feed (or is empty).
   */
  lemma {:induction false} SplitIsReadLines(c: string, i: nat)
    requires i <= |c| && '\r' !in c
    requires i == 0 || c[i - 1] == '\n'
    ensures Split(c[i..]) == LinesFrom(c, i) + (if EndsAtLineBoundary(c) then [[]] else [])
    decreases |c| - i
  {
    var tail: seq<string> := if EndsAtLineBoundary(c) then [[]] else [];
    if i == |c| {
      assert c[i..] == [];
    } else {
      var j := NextLineStart(c, i);
      if c[j - 1] == '\n' {
        SplitIsReadLines(c, j);
        SplitStep(c, i, tail);
      } else {
        SplitLast(c, i);
        assert j == |c| && tail == [];
      }
    }
  }
}
