/**
 * Entries: how both compactors cut a sequence of lines into log entries, and
 * which entries they keep.
 *
 * An entry is a header line (one with an extractable date) followed by the
 * undated lines after it; undated lines before the first header form one
 * entry of their own. This module states that grouping once, declaratively,
 * and proves the properties the two compactors inherit from it.
 */
module Entries {
  import opened Lines
  import opened LogDates
  import opened Retention

  type Entry = seq<string>

  /** Number of undated lines at the front of `ls`. */
  function UndatedPrefix(ls: seq<string>): (n: nat)
    ensures n <= |ls|
    ensures forall k :: 0 <= k < n ==> !IsHeader(ls[k])
    ensures n < |ls| ==> IsHeader(ls[n])
  {
    if ls != [] && !IsHeader(ls[0]) then 1 + UndatedPrefix(ls[1..]) else 0
  }

  /**
   * The entry assembly: the first line, and every header line, opens an entry;
   * every other line continues the entry before it.
   */
  function Group(ls: seq<string>): seq<Entry>
    decreases |ls|
  {
    if ls == [] then []
    else
      var k := 1 + UndatedPrefix(ls[1..]);
      [ls[..k]] + Group(ls[k..])
  }

  /** The lines of the entries, in order. */
  function Flatten(es: seq<Entry>): seq<string> {
    if es == [] then [] else es[0] + Flatten(es[1..])
  }

  /** A nonempty block whose lines after the first are all undated. */
  predicate IsEntry(e: Entry) {
    |e| >= 1 && forall k :: 1 <= k < |e| ==> !IsHeader(e[k])
  }

  /** A split into entries as the assembly makes it: every entry but the first opens with a header. */
  predicate WellFormed(es: seq<Entry>) {
    && (forall i :: 0 <= i < |es| ==> IsEntry(es[i]))
    && (forall i :: 1 <= i < |es| ==> IsHeader(es[i][0]))
  }

  /** Whether the assembly keeps an entry: the source's `keepCurrentEntry`, which starts out true. */
  predicate Keep(e: Entry, cutoff: int, parse: Parser) {
    e == [] || !IsLogLineOld(e[0], cutoff, parse)
  }

  function Kept(es: seq<Entry>, cutoff: int, parse: Parser): seq<Entry> {
    if es == [] then []
    else (if Keep(es[0], cutoff, parse) then [es[0]] else []) + Kept(es[1..], cutoff, parse)
  }

  function Dropped(es: seq<Entry>, cutoff: int, parse: Parser): seq<Entry> {
    if es == [] then []
    else (if Keep(es[0], cutoff, parse) then [] else [es[0]]) + Dropped(es[1..], cutoff, parse)
  }

  /** The lines that survive compaction: the lines of the kept entries. */
  function CleanLines(ls: seq<string>, cutoff: int, parse: Parser): seq<string> {
    Flatten(Kept(Group(ls), cutoff, parse))
  }

  /** Number of header lines: what `countLogEntries` counts. */
  function CountDated(ls: seq<string>): nat {
    if ls == [] then 0 else (if IsHeader(ls[0]) then 1 else 0) + CountDated(ls[1..])
  }

  /** `a` is `b` with some elements left out, order kept. */
  predicate Subseq<T(==)>(a: seq<T>, b: seq<T>)
    decreases |b|
  {
    if a == [] then true
    else if b == [] then false
    else (a[0] == b[0] && Subseq(a[1..], b[1..])) || Subseq(a, b[1..])
  }

  // ---------------------------------------------------------------------------
  // Sequence helpers.

  lemma {:induction false} FlattenAppend(a: seq<Entry>, b: seq<Entry>)
    ensures Flatten(a + b) == Flatten(a) + Flatten(b)
  {
    if a == [] {
      assert a + b == b;
    } else {
      TailOfAppend(a, b);
      FlattenAppend(a[1..], b);
      ConcatAssoc(a[0], Flatten(a[1..]), Flatten(b));
    }
  }

  lemma {:induction false} CountDatedAppend(a: seq<string>, b: seq<string>)
    ensures CountDated(a + b) == CountDated(a) + CountDated(b)
  {
    if a == [] {
      assert a + b == b;
    } else {
      TailOfAppend(a, b);
      CountDatedAppend(a[1..], b);
    }
  }

  lemma {:induction false} UndatedPrefixAppend(a: seq<string>, b: seq<string>)
    requires forall k :: 0 <= k < |a| ==> !IsHeader(a[k])
    requires b == [] || IsHeader(b[0])
    ensures UndatedPrefix(a + b) == |a|
  {
    if a == [] {
      assert a + b == b;
    } else {
      TailOfAppend(a, b);
      UndatedPrefixAppend(a[1..], b);
    }
  }

  lemma {:induction false} KeptAppend(a: seq<Entry>, b: seq<Entry>, cutoff: int, parse: Parser)
    ensures Kept(a + b, cutoff, parse) == Kept(a, cutoff, parse) + Kept(b, cutoff, parse)
  {
    if a == [] {
      assert a + b == b;
    } else {
      TailOfAppend(a, b);
      KeptAppend(a[1..], b, cutoff, parse);
      ConcatAssoc(if Keep(a[0], cutoff, parse) then [a[0]] else [], Kept(a[1..], cutoff, parse), Kept(b, cutoff, parse));
    }
  }

  lemma {:induction false} DroppedAppend(a: seq<Entry>, b: seq<Entry>, cutoff: int, parse: Parser)
    ensures Dropped(a + b, cutoff, parse) == Dropped(a, cutoff, parse) + Dropped(b, cutoff, parse)
  {
    if a == [] {
      assert a + b == b;
    } else {
      TailOfAppend(a, b);
      DroppedAppend(a[1..], b, cutoff, parse);
      ConcatAssoc(if Keep(a[0], cutoff, parse) then [] else [a[0]], Dropped(a[1..], cutoff, parse), Dropped(b, cutoff, parse));
    }
  }

  // ---------------------------------------------------------------------------
  // The grouping is the one well-formed split of the lines.

  /** The assembly loses no line and yields a well-formed split. */
  lemma {:induction false} GroupWellFormed(ls: seq<string>)
    ensures WellFormed(Group(ls))
    ensures Flatten(Group(ls)) == ls
    ensures ls != [] ==> Group(ls) != [] && Group(ls)[0][0] == ls[0]
    decreases |ls|
  {
    if ls != [] {
      var k := 1 + UndatedPrefix(ls[1..]);
      var e := ls[..k];
      var rest := ls[k..];
      GroupWellFormed(rest);
      var es := [e] + Group(rest);
      assert es[1..] == Group(rest);
      assert IsEntry(e);
      if rest != [] {
        assert rest[0] == ls[1..][k - 1];
      }
      WellFormedAppend([e], Group(rest));
      TakeDrop(ls, k);
    }
  }

  /** An entry followed by lines that open with a header (or by nothing) is the first group. */
  lemma GroupCons(e: Entry, rest: seq<string>)
    requires IsEntry(e)
    requires rest == [] || IsHeader(rest[0])
    ensures Group(e + rest) == [e] + Group(rest)
  {
    var ls := e + rest;
    assert ls[1..] == e[1..] + rest;
    UndatedPrefixAppend(e[1..], rest);
    assert ls[..|e|] == e && ls[|e|..] == rest;
  }

  lemma WellFormedTail(es: seq<Entry>)
    requires WellFormed(es) && es != []
    ensures WellFormed(es[1..])
    ensures |es| > 1 ==> |es[1]| >= 1 && IsHeader(es[1][0])
  {
    forall i | 1 <= i < |es[1..]| ensures IsHeader(es[1..][i][0]) {
      assert es[1..][i] == es[i + 1];
    }
  }

  lemma FlattenHead(es: seq<Entry>)
    requires es != [] && |es[0]| >= 1
    ensures Flatten(es) != [] && Flatten(es)[0] == es[0][0]
  {
    assert Flatten(es) == es[0] + Flatten(es[1..]);
  }

  /** A well-formed split is exactly what the assembly makes of its lines. */
  lemma {:induction false} GroupOfFlatten(es: seq<Entry>)
    requires WellFormed(es)
    ensures Group(Flatten(es)) == es
  {
    if es != [] {
      WellFormedTail(es);
      GroupOfFlatten(es[1..]);
      if |es| > 1 {
        FlattenHead(es[1..]);
      }
      GroupCons(es[0], Flatten(es[1..]));
      assert es == [es[0]] + es[1..];
    }
  }

  /** One entry and one more line. */
  lemma GroupEntrySnoc(e: Entry, x: string)
    requires IsEntry(e)
    ensures Group(e + [x]) == if IsHeader(x) then [e, [x]] else [e + [x]]
  {
    GroupCons([x], []);
    assert [x] + [] == [x];
    if IsHeader(x) {
      GroupCons(e, [x]);
    } else {
      assert IsEntry(e + [x]);
      GroupCons(e + [x], []);
      assert (e + [x]) + [] == e + [x];
    }
  }

  /** Adding one line: a header (or a first line) opens a new entry, any other line extends the last one. */
  lemma {:induction false} GroupSnoc(ls: seq<string>, x: string)
    ensures var g := Group(ls);
      Group(ls + [x]) ==
        if ls == [] || IsHeader(x) then g + [[x]]
        else g[..|g| - 1] + [g[|g| - 1] + [x]]
    decreases |ls|
  {
    if ls == [] {
      assert ls + [x] == [x];
      GroupCons([x], []);
      assert [x] + [] == [x];
    } else {
      var k := 1 + UndatedPrefix(ls[1..]);
      var e := ls[..k];
      var rest := ls[k..];
      assert IsEntry(e);
      TakeDrop(ls, k);
      GroupCons(e, rest);
      if rest == [] {
        assert ls == e;
        GroupEntrySnoc(e, x);
        assert Group(rest) == [];
      } else {
        GroupSnoc(rest, x);
        GroupSnocStep(e, rest, x);
      }
    }
  }

  lemma GroupSnocStep(e: Entry, rest: seq<string>, x: string)
    requires IsEntry(e) && rest != [] && IsHeader(rest[0])
    requires var g2 := Group(rest);
      Group(rest + [x]) ==
        if IsHeader(x) then g2 + [[x]]
        else g2[..|g2| - 1] + [g2[|g2| - 1] + [x]]
    ensures var g := [e] + Group(rest);
      Group(e + rest + [x]) ==
        if IsHeader(x) then g + [[x]]
        else g[..|g| - 1] + [g[|g| - 1] + [x]]
  {
    ConcatAssoc(e, rest, [x]);
    assert (rest + [x])[0] == rest[0];
    GroupCons(e, rest + [x]);
    var g2 := Group(rest);
    GroupWellFormed(rest);
    var g := [e] + g2;
    if IsHeader(x) {
      ConcatAssoc([e], g2, [[x]]);
    } else {
      assert g[..|g| - 1] == [e] + g2[..|g2| - 1];
      assert g[|g| - 1] == g2[|g2| - 1];
      ConcatAssoc([e], g2[..|g2| - 1], [g2[|g2| - 1] + [x]]);
    }
  }

  lemma WellFormedAppend(x: seq<Entry>, y: seq<Entry>)
    requires WellFormed(x) && WellFormed(y)
    requires y != [] ==> IsHeader(y[0][0])
    ensures WellFormed(x + y)
  {
    var es := x + y;
    forall i | 0 <= i < |es| ensures IsEntry(es[i]) {
      if i < |x| { assert es[i] == x[i]; } else { assert es[i] == y[i - |x|]; }
    }
    forall i | 1 <= i < |es| ensures IsHeader(es[i][0]) {
      if i < |x| { assert es[i] == x[i]; } else { assert es[i] == y[i - |x|]; }
    }
  }

  /** The assembly of lines `a + b`, when `b` opens with a header, is that of `a` followed by that of `b`. */
  lemma GroupAppend(a: seq<string>, b: seq<string>)
    requires b == [] || IsHeader(b[0])
    ensures Group(a + b) == Group(a) + Group(b)
  {
    GroupWellFormed(a);
    GroupWellFormed(b);
    FlattenAppend(Group(a), Group(b));
    WellFormedAppend(Group(a), Group(b));
    GroupOfFlatten(Group(a) + Group(b));
  }

  // ---------------------------------------------------------------------------
  // What compaction keeps.

  /** Kept entries are whole entries of the input, in input order. */
  lemma {:induction false} KeptIsSubseq(es: seq<Entry>, cutoff: int, parse: Parser)
    ensures Subseq(Kept(es, cutoff, parse), es)
  {
    if es != [] {
      KeptIsSubseq(es[1..], cutoff, parse);
      var k := Kept(es, cutoff, parse);
      if Keep(es[0], cutoff, parse) {
        assert k == [es[0]] + Kept(es[1..], cutoff, parse);
        assert k[0] == es[0] && k[1..] == Kept(es[1..], cutoff, parse);
        assert Subseq(k[1..], es[1..]);
      } else {
        assert k == Kept(es[1..], cutoff, parse);
      }
    }
  }

  lemma {:induction false} SubseqEmpty<T>(b: seq<T>)
    ensures Subseq([], b)
  {
  }

  lemma {:induction false} SubseqRefl<T>(a: seq<T>)
    ensures Subseq(a, a)
  {
    if a != [] {
      SubseqRefl(a[1..]);
    }
  }

  /** Leaving out elements on both sides of a concatenation leaves them out of the whole. */
  lemma {:induction false} SubseqAppend<T>(a1: seq<T>, b1: seq<T>, a2: seq<T>, b2: seq<T>)
    requires Subseq(a1, b1) && Subseq(a2, b2)
    ensures Subseq(a1 + a2, b1 + b2)
    decreases |b1|
  {
    if b1 == [] {
      assert a1 == [];
      assert a1 + a2 == a2 && b1 + b2 == b2;
    } else if a1 != [] && a1[0] == b1[0] && Subseq(a1[1..], b1[1..]) {
      SubseqAppend(a1[1..], b1[1..], a2, b2);
      assert (a1 + a2)[1..] == a1[1..] + a2;
      assert (b1 + b2)[1..] == b1[1..] + b2;
    } else if a1 == [] {
      SubseqSkip(a2, b1, b2);
      assert a1 + a2 == a2;
    } else {
      SubseqAppend(a1, b1[1..], a2, b2);
      assert (b1 + b2)[1..] == b1[1..] + b2;
    }
  }

  lemma {:induction false} SubseqSkip<T>(a: seq<T>, pre: seq<T>, b: seq<T>)
    requires Subseq(a, b)
    ensures Subseq(a, pre + b)
    decreases |pre|
  {
    if pre == [] {
      assert pre + b == b;
    } else {
      SubseqSkip(a, pre[1..], b);
      assert (pre + b)[1..] == pre[1..] + b;
    }
  }

  lemma {:induction false} FlattenKeptSubseq(es: seq<Entry>, cutoff: int, parse: Parser)
    ensures Subseq(Flatten(Kept(es, cutoff, parse)), Flatten(es))
  {
    if es == [] {
    } else {
      FlattenKeptSubseq(es[1..], cutoff, parse);
      var head: seq<Entry> := if Keep(es[0], cutoff, parse) then [es[0]] else [];
      assert Kept(es, cutoff, parse) == head + Kept(es[1..], cutoff, parse);
      FlattenAppend(head, Kept(es[1..], cutoff, parse));
      if Keep(es[0], cutoff, parse) {
        assert Flatten(head) == es[0];
        SubseqRefl(es[0]);
      } else {
        assert Flatten(head) == [];
        SubseqEmpty(es[0]);
      }
      SubseqAppend(Flatten(head), es[0], Flatten(Kept(es[1..], cutoff, parse)), Flatten(es[1..]));
    }
  }

  /** The surviving lines are the input lines with some left out, order kept. */
  lemma CleanLinesSubseq(ls: seq<string>, cutoff: int, parse: Parser)
    ensures Subseq(CleanLines(ls, cutoff, parse), ls)
  {
    GroupWellFormed(ls);
    FlattenKeptSubseq(Group(ls), cutoff, parse);
  }

  /** Every entry is either kept whole or dropped whole. */
  lemma {:induction false} KeptDroppedPartition(es: seq<Entry>, cutoff: int, parse: Parser)
    ensures |Kept(es, cutoff, parse)| + |Dropped(es, cutoff, parse)| == |es|
    ensures forall i :: 0 <= i < |Kept(es, cutoff, parse)| ==> Keep(Kept(es, cutoff, parse)[i], cutoff, parse)
    ensures forall i :: 0 <= i < |Dropped(es, cutoff, parse)| ==> !Keep(Dropped(es, cutoff, parse)[i], cutoff, parse)
  {
    if es != [] {
      KeptDroppedPartition(es[1..], cutoff, parse);
    }
  }

  /** Keeping the kept entries again changes nothing. */
  lemma {:induction false} KeptKept(es: seq<Entry>, cutoff: int, parse: Parser)
    ensures Kept(Kept(es, cutoff, parse), cutoff, parse) == Kept(es, cutoff, parse)
  {
    if es != [] {
      KeptKept(es[1..], cutoff, parse);
      var head: seq<Entry> := if Keep(es[0], cutoff, parse) then [es[0]] else [];
      assert Kept(es, cutoff, parse) == head + Kept(es[1..], cutoff, parse);
      KeptAppend(head, Kept(es[1..], cutoff, parse), cutoff, parse);
      if Keep(es[0], cutoff, parse) {
        assert Kept(head, cutoff, parse) == head by {
          assert head[1..] == [];
        }
      }
    }
  }

  /** Leaving out entries keeps a split well formed, except that its new first entry may now open with a header. */
  lemma {:induction false} KeptWellFormed(es: seq<Entry>, cutoff: int, parse: Parser)
    requires WellFormed(es)
    ensures WellFormed(Kept(es, cutoff, parse))
    ensures Kept(es, cutoff, parse) != [] && Kept(es, cutoff, parse)[0] != es[0] ==> IsHeader(Kept(es, cutoff, parse)[0][0])
  {
    if es != [] {
      WellFormedTail(es);
      KeptWellFormed(es[1..], cutoff, parse);
      var tail := Kept(es[1..], cutoff, parse);
      assert tail != [] ==> IsHeader(tail[0][0]) by {
        if tail != [] {
          HeadOfKeptTail(es, cutoff, parse);
        }
      }
      var k := Kept(es, cutoff, parse);
      if Keep(es[0], cutoff, parse) {
        assert k == [es[0]] + tail;
        forall i | 1 <= i < |k| ensures IsHeader(k[i][0]) && IsEntry(k[i]) {
          assert k[i] == tail[i - 1];
        }
        assert IsEntry(k[0]);
      } else {
        assert k == tail;
      }
    }
  }

  /** Every entry kept from `es[1..]` is one of `es[1..]`, so it opens with a header. */
  lemma {:induction false} HeadOfKeptTail(es: seq<Entry>, cutoff: int, parse: Parser)
    requires WellFormed(es) && es != []
    requires Kept(es[1..], cutoff, parse) != []
    ensures |Kept(es[1..], cutoff, parse)[0]| >= 1 && IsHeader(Kept(es[1..], cutoff, parse)[0][0])
  {
    KeptMembers(es[1..], cutoff, parse);
    var t := Kept(es[1..], cutoff, parse)[0];
    assert t in Kept(es[1..], cutoff, parse);
    var j :| 0 <= j < |es[1..]| && es[1..][j] == t;
    assert es[j + 1] == t;
  }

  lemma {:induction false} KeptMembers(es: seq<Entry>, cutoff: int, parse: Parser)
    ensures forall e :: e in Kept(es, cutoff, parse) ==> e in es
  {
    if es != [] {
      KeptMembers(es[1..], cutoff, parse);
    }
  }

  /** Compacting compacted lines again changes nothing. */
  lemma CleanLinesIdempotent(ls: seq<string>, cutoff: int, parse: Parser)
    ensures CleanLines(CleanLines(ls, cutoff, parse), cutoff, parse) == CleanLines(ls, cutoff, parse)
  {
    var g := Group(ls);
    GroupWellFormed(ls);
    KeptWellFormed(g, cutoff, parse);
    GroupOfFlatten(Kept(g, cutoff, parse));
    KeptKept(g, cutoff, parse);
  }

  /** When no line is expired, compaction returns the lines unchanged (in particular when no line is dated). */
  lemma NothingOldUnchanged(ls: seq<string>, cutoff: int, parse: Parser)
    requires forall i :: 0 <= i < |ls| ==> !IsLogLineOld(ls[i], cutoff, parse)
    ensures CleanLines(ls, cutoff, parse) == ls
  {
    var g := Group(ls);
    GroupWellFormed(ls);
    AllKept(g, cutoff, parse);
  }

  lemma {:induction false} AllKept(es: seq<Entry>, cutoff: int, parse: Parser)
    requires forall i :: 0 <= i < |Flatten(es)| ==> !IsLogLineOld(Flatten(es)[i], cutoff, parse)
    ensures Kept(es, cutoff, parse) == es
  {
    if es != [] {
      var f := Flatten(es);
      assert f == es[0] + Flatten(es[1..]);
      assert forall i :: 0 <= i < |Flatten(es[1..])| ==> Flatten(es[1..])[i] == f[|es[0]| + i];
      AllKept(es[1..], cutoff, parse);
      if es[0] != [] {
        assert f[0] == es[0][0];
      }
      assert es == [es[0]] + es[1..];
    }
  }

  /** No dated line means nothing is expired. */
  lemma UndatedUnchanged(ls: seq<string>, cutoff: int, parse: Parser)
    requires forall i :: 0 <= i < |ls| ==> !IsHeader(ls[i])
    ensures CleanLines(ls, cutoff, parse) == ls
  {
    NothingOldUnchanged(ls, cutoff, parse);
  }

  /** The undated lines before the first header are always kept, at the front of the output. */
  lemma LeadingUndatedKept(ls: seq<string>, cutoff: int, parse: Parser)
    ensures var n := UndatedPrefix(ls);
      n <= |CleanLines(ls, cutoff, parse)| && CleanLines(ls, cutoff, parse)[..n] == ls[..n]
  {
    var n := UndatedPrefix(ls);
    if n > 0 {
      var g := Group(ls);
      var k := 1 + UndatedPrefix(ls[1..]);
      assert UndatedPrefix(ls) == k;
      assert g[0] == ls[..k];
      assert Keep(g[0], cutoff, parse);
      assert Kept(g, cutoff, parse) == [g[0]] + Kept(g[1..], cutoff, parse);
      assert CleanLines(ls, cutoff, parse) == g[0] + Flatten(Kept(g[1..], cutoff, parse));
    }
  }

  // ---------------------------------------------------------------------------
  // Counting.

  /** A well-formed entry counts one dated line when it opens with a header, none otherwise. */
  lemma CountDatedEntry(e: Entry)
    requires IsEntry(e)
    ensures CountDated(e) == if IsHeader(e[0]) then 1 else 0
  {
    assert CountDated(e[1..]) == 0 by {
      NoHeaderCount(e[1..]);
    }
  }

  lemma {:induction false} NoHeaderCount(ls: seq<string>)
    requires forall k :: 0 <= k < |ls| ==> !IsHeader(ls[k])
    ensures CountDated(ls) == 0
  {
    if ls != [] {
      NoHeaderCount(ls[1..]);
    }
  }

  /** Each dropped entry removes exactly one dated line. */
  lemma {:induction false} CountDroppedEntries(es: seq<Entry>, cutoff: int, parse: Parser)
    requires forall i :: 0 <= i < |es| ==> IsEntry(es[i])
    ensures CountDated(Flatten(es)) == CountDated(Flatten(Kept(es, cutoff, parse))) + |Dropped(es, cutoff, parse)|
  {
    if es != [] {
      CountDroppedEntries(es[1..], cutoff, parse);
      CountDatedAppend(es[0], Flatten(es[1..]));
      var head: seq<Entry> := if Keep(es[0], cutoff, parse) then [es[0]] else [];
      assert Kept(es, cutoff, parse) == head + Kept(es[1..], cutoff, parse);
      FlattenAppend(head, Kept(es[1..], cutoff, parse));
      CountDatedAppend(Flatten(head), Flatten(Kept(es[1..], cutoff, parse)));
      if Keep(es[0], cutoff, parse) {
        assert Flatten(head) == es[0];
      } else {
        assert Flatten(head) == [];
        CountDatedEntry(es[0]);
        OldLineIsHeader(es[0][0], cutoff, parse);
      }
    }
  }

  /** The dated lines removed by compaction are exactly the dropped entries. */
  lemma CleanLinesCount(ls: seq<string>, cutoff: int, parse: Parser)
    ensures CountDated(ls) == CountDated(CleanLines(ls, cutoff, parse)) + |Dropped(Group(ls), cutoff, parse)|
    ensures CountDated(CleanLines(ls, cutoff, parse)) <= CountDated(ls)
  {
    GroupWellFormed(ls);
    CountDroppedEntries(Group(ls), cutoff, parse);
  }

  /** The assembly makes one entry per dated line, plus one for undated lines at the front. */
  lemma {:induction false} GroupCount(ls: seq<string>)
    ensures |Group(ls)| == CountDated(ls) + (if ls != [] && !IsHeader(ls[0]) then 1 else 0)
    decreases |ls|
  {
    if ls != [] {
      var k := 1 + UndatedPrefix(ls[1..]);
      GroupCount(ls[k..]);
      assert ls == ls[..k] + ls[k..];
      CountDatedAppend(ls[..k], ls[k..]);
      assert IsEntry(ls[..k]);
      CountDatedEntry(ls[..k]);
    }
  }
}
