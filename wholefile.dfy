/**
 * The whole-file compactor (`cleanLogContent`) and the entry counter
 * (`countLogEntries`), as the loops the source runs, each proved equal to the
 * declarative grouping of module Entries.
 */
module WholeFile {
  import opened Wrappers
  import opened Lines
  import opened LogDates
  import opened Retention
  import opened Entries

  /** What `cleanLogContent` returns: the kept lines of the exploded content, imploded again. */
  function CleanContent(content: string, cutoff: int, parse: Parser): string {
    Join(CleanLines(Split(content), cutoff, parse))
  }

  /** Closing the last open entry adds its lines when it is kept. */
  lemma FlushLast(g: seq<Entry>, cutoff: int, parse: Parser)
    requires g != []
    ensures Flatten(Kept(g, cutoff, parse)) ==
      Flatten(Kept(g[..|g| - 1], cutoff, parse)) + (if Keep(g[|g| - 1], cutoff, parse) then g[|g| - 1] else [])
  {
    var n := |g|;
    assert g == g[..n - 1] + [g[n - 1]];
    KeptAppend(g[..n - 1], [g[n - 1]], cutoff, parse);
    var last: seq<Entry> := if Keep(g[n - 1], cutoff, parse) then [g[n - 1]] else [];
    assert Kept([g[n - 1]], cutoff, parse) == last;
    FlattenAppend(Kept(g[..n - 1], cutoff, parse), last);
    if Keep(g[n - 1], cutoff, parse) {
      assert Flatten(last) == g[n - 1] + Flatten([]);
    }
  }

  /** The loop state after `i` lines: the closed entries' kept lines, the open entry, and its keep flag. */
  predicate AssemblyState(lines: seq<string>, i: nat, cleaned: seq<string>, current: seq<string>, keep: bool,
                          cutoff: int, parse: Parser)
    requires i <= |lines|
  {
    var g := Group(lines[..i]);
    if i == 0 then cleaned == [] && current == [] && keep
    else
      && g != []
      && current == g[|g| - 1]
      && keep == Keep(current, cutoff, parse)
      && cleaned == Flatten(Kept(g[..|g| - 1], cutoff, parse))
  }

  lemma AssemblyStep(lines: seq<string>, i: nat, cleaned: seq<string>, current: seq<string>, keep: bool,
                     cutoff: int, parse: Parser)
    requires i < |lines|
    requires AssemblyState(lines, i, cleaned, current, keep, cutoff, parse)
    ensures var line := lines[i];
      if IsHeader(line) then
        AssemblyState(lines, i + 1, if current != [] && keep then cleaned + current else cleaned,
                      [line], !IsLogLineOld(line, cutoff, parse), cutoff, parse)
      else
        AssemblyState(lines, i + 1, cleaned, current + [line], keep, cutoff, parse)
  {
    if i == 0 {
      AssemblyFirst(lines, cutoff, parse);
    } else if IsHeader(lines[i]) {
      AssemblyHeader(lines, i, cleaned, current, keep, cutoff, parse);
    } else {
      AssemblyContinuation(lines, i, cleaned, current, keep, cutoff, parse);
    }
  }

  /** The first line opens the first entry, whatever it is. */
  lemma AssemblyFirst(lines: seq<string>, cutoff: int, parse: Parser)
    requires |lines| >= 1
    ensures var line := lines[0];
      if IsHeader(line) then AssemblyState(lines, 1, [], [line], !IsLogLineOld(line, cutoff, parse), cutoff, parse)
      else AssemblyState(lines, 1, [], [line], true, cutoff, parse)
  {
    var line := lines[0];
    assert lines[..1] == [] + [line];
    GroupSnoc([], line);
    assert Group(lines[..1]) == [[line]];
    assert Kept([], cutoff, parse) == [];
  }

  /** A header line closes the open entry, adding it when kept, and opens a new one. */
  lemma AssemblyHeader(lines: seq<string>, i: nat, cleaned: seq<string>, current: seq<string>, keep: bool,
                       cutoff: int, parse: Parser)
    requires 0 < i < |lines| && IsHeader(lines[i])
    requires AssemblyState(lines, i, cleaned, current, keep, cutoff, parse)
    ensures AssemblyState(lines, i + 1, if keep then cleaned + current else cleaned,
                          [lines[i]], !IsLogLineOld(lines[i], cutoff, parse), cutoff, parse)
  {
    var line := lines[i];
    assert lines[..i + 1] == lines[..i] + [line];
    var g := Group(lines[..i]);
    GroupSnoc(lines[..i], line);
    GroupWellFormed(lines[..i]);
    var g2 := g + [[line]];
    assert g2[..|g2| - 1] == g;
    FlushLast(g, cutoff, parse);
    assert IsEntry(current);
  }

  /** Any other line joins the open entry. */
  lemma AssemblyContinuation(lines: seq<string>, i: nat, cleaned: seq<string>, current: seq<string>, keep: bool,
                             cutoff: int, parse: Parser)
    requires 0 < i < |lines| && !IsHeader(lines[i])
    requires AssemblyState(lines, i, cleaned, current, keep, cutoff, parse)
    ensures AssemblyState(lines, i + 1, cleaned, current + [lines[i]], keep, cutoff, parse)
  {
    var line := lines[i];
    assert lines[..i + 1] == lines[..i] + [line];
    var g := Group(lines[..i]);
    GroupSnoc(lines[..i], line);
    GroupWellFormed(lines[..i]);
    var n := |g|;
    var g2 := g[..n - 1] + [g[n - 1] + [line]];
    assert g2[..|g2| - 1] == g[..n - 1];
    assert IsEntry(g[n - 1]);
    assert (current + [line])[0] == current[0];
  }

  /** After the last line, closing the open entry yields the kept lines. */
  lemma AssemblyFinish(lines: seq<string>, cleaned: seq<string>, current: seq<string>, keep: bool,
                       cutoff: int, parse: Parser)
    requires |lines| >= 1
    requires AssemblyState(lines, |lines|, cleaned, current, keep, cutoff, parse)
    ensures (if current != [] && keep then cleaned + current else cleaned) == CleanLines(lines, cutoff, parse)
  {
    assert lines[..|lines|] == lines;
    GroupWellFormed(lines);
    FlushLast(Group(lines), cutoff, parse);
    assert current != [];
  }

  /** `cleanLogContent`: the entry assembly over the exploded lines. */
  method CleanLogContent(content: string, cutoff: int, parse: Parser) returns (r: string)
    ensures r == CleanContent(content, cutoff, parse)
  {
    var lines := Split(content);
    var cleaned: seq<string> := [];
    var current: seq<string> := [];
    var keep := true;
    var i := 0;
    while i < |lines|
      invariant i <= |lines|
      invariant AssemblyState(lines, i, cleaned, current, keep, cutoff, parse)
    {
      var line := lines[i];
      AssemblyStep(lines, i, cleaned, current, keep, cutoff, parse);
      if ExtractDate(line) != None {
        if current != [] && keep {
          cleaned := cleaned + current;
        }
        current := [line];
        keep := !IsLogLineOld(line, cutoff, parse);
      } else {
        current := current + [line];
      }
      i := i + 1;
    }
    AssemblyFinish(lines, cleaned, current, keep, cutoff, parse);
    if current != [] && keep {
      cleaned := cleaned + current;
    }
    r := Join(cleaned);
  }

  /** `countLogEntries`: zero for PHP-empty content (`""` or `"0"`), otherwise the number of dated lines. */
  method CountLogEntries(content: string) returns (r: nat)
    ensures r == CountDated(Split(content))
    ensures content == [] ==> r == 0
  {
    if content == [] || content == "0" {
      assert Split(content) == [content] by {
        if content != [] {
          SplitNoLineFeed(content);
        }
      }
      assert |content| < 10 && !IsHeader(content);
      return 0;
    }
    var lines := Split(content);
    var entryCount := 0;
    var i := 0;
    while i < |lines|
      invariant i <= |lines|
      invariant entryCount == CountDated(lines[..i])
    {
      assert lines[..i + 1] == lines[..i] + [lines[i]];
      CountDatedAppend(lines[..i], [lines[i]]);
      if ExtractDate(lines[i]) != None {
        entryCount := entryCount + 1;
      }
      i := i + 1;
    }
    assert lines[..i] == lines;
    r := entryCount;
  }

  // ---------------------------------------------------------------------------
  // Properties of the returned content.

  lemma {:induction false} SubseqMembers<T>(a: seq<T>, b: seq<T>)
    requires Subseq(a, b)
    ensures forall x :: x in a ==> x in b
    decreases |b|
  {
    if a != [] {
      if a[0] == b[0] && Subseq(a[1..], b[1..]) {
        SubseqMembers(a[1..], b[1..]);
        assert forall x :: x in a ==> x == a[0] || x in a[1..];
      } else {
        SubseqMembers(a, b[1..]);
      }
    }
  }

  /** The kept lines are lines of the content, so none has a line feed. */
  lemma CleanLinesNoLineFeeds(content: string, cutoff: int, parse: Parser)
    ensures NoLineFeeds(CleanLines(Split(content), cutoff, parse))
  {
    var ls := Split(content);
    var c := CleanLines(ls, cutoff, parse);
    CleanLinesSubseq(ls, cutoff, parse);
    SubseqMembers(c, ls);
    forall i | 0 <= i < |c| ensures '\n' !in c[i] {
      assert c[i] in ls;
    }
  }

  /** Exploding the returned content gives back its kept lines (a single empty line when nothing is kept). */
  lemma SplitCleanContent(content: string, cutoff: int, parse: Parser)
    ensures var ls := CleanLines(Split(content), cutoff, parse);
      Split(CleanContent(content, cutoff, parse)) == if ls == [] then [[]] else ls
  {
    var ls := CleanLines(Split(content), cutoff, parse);
    if ls != [] {
      CleanLinesNoLineFeeds(content, cutoff, parse);
      SplitJoin(ls);
    }
  }

  /** Cleaning cleaned content again with the same cutoff returns it unchanged. */
  lemma CleanContentIdempotent(content: string, cutoff: int, parse: Parser)
    ensures CleanContent(CleanContent(content, cutoff, parse), cutoff, parse) == CleanContent(content, cutoff, parse)
  {
    var ls := CleanLines(Split(content), cutoff, parse);
    SplitCleanContent(content, cutoff, parse);
    if ls == [] {
      UndatedUnchanged([[]], cutoff, parse);
    } else {
      CleanLinesIdempotent(Split(content), cutoff, parse);
    }
  }

  /** Content in which no line carries a date is returned unchanged. */
  lemma UndatedContentUnchanged(content: string, cutoff: int, parse: Parser)
    requires forall i :: 0 <= i < |Split(content)| ==> !IsHeader(Split(content)[i])
    ensures CleanContent(content, cutoff, parse) == content
  {
    UndatedUnchanged(Split(content), cutoff, parse);
    JoinSplit(content);
  }

  /**
   * What the standard mode reports as removed (`countLogEntries` before minus
   * after) is the number of dropped entries, and so never negative.
   */
  lemma RemovedIsDropped(content: string, cutoff: int, parse: Parser)
    ensures CountDated(Split(content)) - CountDated(Split(CleanContent(content, cutoff, parse)))
         == |Dropped(Group(Split(content)), cutoff, parse)|
    ensures CountDated(Split(CleanContent(content, cutoff, parse))) <= CountDated(Split(content))
  {
    var ls := CleanLines(Split(content), cutoff, parse);
    SplitCleanContent(content, cutoff, parse);
    CleanLinesCount(Split(content), cutoff, parse);
    if ls == [] {
      assert !IsHeader([]);
      assert CountDated([[]]) == 0;
    }
  }
}
