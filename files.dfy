/**
 * The orchestrator's pure decisions about one directory entry: the `.log`
 * extension filter, the selection of files to clean, and the name a backup is
 * stored under.
 */
module Files {
  import opened Lines

  /** `SplFileInfo::getExtension`: the text after the last `.`, and none when the name has no dot. */
  function Extension(name: string): string {
    if '.' in name then AfterLastDot(name) else []
  }

  /** The text after the last `.`, or all of `s` when it has none. */
  function AfterLastDot(s: string): string {
    if s == [] || s[|s| - 1] == '.' then [] else AfterLastDot(s[..|s| - 1]) + [s[|s| - 1]]
  }

  /** The extension is a dot-free suffix of the name, preceded by the name's last dot. */
  lemma {:induction false} AfterLastDotIsSuffix(s: string)
    ensures var r := AfterLastDot(s);
      && '.' !in r && |r| <= |s| && r == s[|s| - |r|..]
      && ('.' in s ==> |r| < |s| && s[|s| - |r| - 1] == '.')
      && ('.' !in s ==> r == s)
    decreases |s|
  {
    if s != [] && s[|s| - 1] != '.' {
      var init := s[..|s| - 1];
      var c := s[|s| - 1];
      DropSnoc(init, c);
      assert s == init + [c];
      AfterLastDotIsSuffix(init);
      var r' := AfterLastDot(init);
      var r := r' + [c];
      assert s[|s| - |r|..] == init[|init| - |r'|..] + [c];
      assert '.' in s ==> '.' in init;
    }
  }

  /** The filter at the head of the loop: only names whose extension is exactly `log`. */
  predicate IsLogName(name: string) {
    Extension(name) == "log"
  }

  lemma AfterLastDotSnoc(s: string, c: char)
    ensures AfterLastDot(s + [c]) == if c == '.' then [] else AfterLastDot(s) + [c]
  {
    DropSnoc(s, c);
  }

  /** A name ending in a dot and three other characters has those three as its extension. */
  lemma ThreeLetterExtension(p: string, a: char, b: char, c: char)
    requires a != '.' && b != '.' && c != '.'
    ensures Extension(p + ['.', a, b, c]) == [a, b, c]
  {
    var q1 := p + ['.'];
    assert AfterLastDot(q1) == [] by { AfterLastDotSnoc(p, '.'); }
    var q2 := q1 + [a];
    assert AfterLastDot(q2) == [a] by { AfterLastDotSnoc(q1, a); }
    var q3 := q2 + [b];
    assert AfterLastDot(q3) == [a, b] by { AfterLastDotSnoc(q2, b); }
    var q := p + ['.', a, b, c];
    assert q == q3 + [c];
    assert AfterLastDot(q) == [a, b, c] by { AfterLastDotSnoc(q3, c); }
    assert q[|p|] == '.';
  }

  /** Any name followed by `.log` passes the filter. */
  lemma LogSuffixPasses(p: string)
    ensures IsLogName(p + ['.', 'l', 'o', 'g'])
  {
    ThreeLetterExtension(p, 'l', 'o', 'g');
  }

  /** A name that passes the filter ends in `.log`. */
  lemma PassingNameEndsInLog(name: string)
    requires IsLogName(name)
    ensures |name| >= 4 && name[|name| - 4..] == ".log"
  {
    AfterLastDotIsSuffix(name);
    assert '.' in name;
    var n := |name|;
    assert name[n - 3..] == "log" && name[n - 4] == '.';
    assert name[n - 4..] == [name[n - 4]] + name[n - 3..];
  }

  /** Both directions: the extension is `log` exactly when the name ends in `.log`. */
  lemma IsLogNameIff(name: string)
    ensures IsLogName(name) <==> |name| >= 4 && name[|name| - 4..] == ".log"
  {
    if |name| >= 4 && name[|name| - 4..] == ".log" {
      var p := name[..|name| - 4];
      assert name == p + ['.', 'l', 'o', 'g'];
      LogSuffixPasses(p);
    }
    if IsLogName(name) {
      PassingNameEndsInLog(name);
    }
  }

  /** Rotated and upper-case names are skipped; the comparison is exact. */
  lemma RotatedAndUpperCaseSkipped()
    ensures !IsLogName("system.log.1") && !IsLogName("system.LOG") && !IsLogName("log")
    ensures IsLogName("system.log") && IsLogName("archive.1.log")
  {
    IsLogNameIff("system.log.1");
    IsLogNameIff("system.LOG");
    IsLogNameIff("log");
    IsLogNameIff("system.log");
    IsLogNameIff("archive.1.log");
  }

  /**
   * `shouldCleanFile`: every file when nothing is selected or `all` is, and
   * otherwise exactly the selected names. (`in_array` compares loosely, but two
   * strings compare as numbers only when both are numeric, which a name ending
   * in `.log` never is.)
   */
  predicate ShouldCleanFile(name: string, selected: seq<string>) {
    |selected| == 0 || "all" in selected || name in selected
  }

  /** The three ways a file is selected, and the only way it is not. */
  lemma ShouldCleanFileIff(name: string, selected: seq<string>)
    ensures ShouldCleanFile(name, selected) <==>
      (selected == [] || (exists k :: 0 <= k < |selected| && selected[k] == "all")
                      || (exists k :: 0 <= k < |selected| && selected[k] == name))
    ensures !ShouldCleanFile(name, selected) ==> selected != [] && "all" !in selected && name !in selected
  {
    if "all" in selected {
      var k :| 0 <= k < |selected| && selected[k] == "all";
    }
    if name in selected {
      var k :| 0 <= k < |selected| && selected[k] == name;
    }
  }

  /** `str_replace(['/', '\\'], '_', ...)`. */
  function Sanitize(name: string): (r: string)
    ensures |r| == |name|
    ensures forall i :: 0 <= i < |r| ==> r[i] == (if name[i] == '/' || name[i] == '\\' then '_' else name[i])
  {
    if name == [] then []
    else [if name[0] == '/' || name[0] == '\\' then '_' else name[0]] + Sanitize(name[1..])
  }

  /** A name without separators is stored under itself. */
  lemma SanitizeKeepsPlainNames(name: string)
    requires '/' !in name && '\\' !in name
    ensures Sanitize(name) == name
  {
  }

  /** The backup file name: the `date('Y-m-d_H-i-s')` stamp, `_`, the sanitized name, `.gz`. */
  function BackupName(stamp: string, name: string): (b: string)
    ensures |b| == |stamp| + 1 + |name| + 3
  {
    stamp + "_" + Sanitize(name) + ".gz"
  }

  /**
   * Within one stamp, names without separators get distinct backups, and the
   * backup name holds no separator beyond those of the stamp.
   */
  lemma BackupNameInjective(stamp: string, a: string, b: string)
    requires '/' !in a && '\\' !in a && '/' !in b && '\\' !in b
    requires BackupName(stamp, a) == BackupName(stamp, b)
    ensures a == b
  {
    SanitizeKeepsPlainNames(a);
    SanitizeKeepsPlainNames(b);
    var n := |stamp| + 1;
    assert a == BackupName(stamp, a)[n..n + |a|];
    assert b == BackupName(stamp, b)[n..n + |b|];
  }

  lemma BackupNameHasNoSeparators(stamp: string, name: string)
    requires '/' !in stamp && '\\' !in stamp
    ensures '/' !in BackupName(stamp, name) && '\\' !in BackupName(stamp, name)
  {
    var b := BackupName(stamp, name);
    forall i | 0 <= i < |b| ensures b[i] != '/' && b[i] != '\\' {
      if i < |stamp| {
        assert b[i] == stamp[i];
      } else if |stamp| < i < |stamp| + 1 + |name| {
        assert b[i] == Sanitize(name)[i - |stamp| - 1];
      }
    }
  }

  /**
   * A name holding a backslash (legal in a Linux file name) shares its backup
   * with the same name spelled with an underscore: the later backup of the two
   * in the same second replaces the earlier one.
   */
  lemma BackslashNamesShareBackup(stamp: string)
    ensures BackupName(stamp, "a\\b.log") == BackupName(stamp, "a_b.log")
    ensures "a\\b.log" != "a_b.log"
  {
    var x, y := "a\\b.log", "a_b.log";
    assert forall i :: 0 <= i < |x| ==> Sanitize(x)[i] == Sanitize(y)[i];
    assert Sanitize(x) == Sanitize(y);
  }
}
