/** Path handling the walk relies on, with Windows path rules (`ntpath`):
    joining a directory and an entry name, splitting off the extension, and
    the test that decides whether a listed file is an input workbook. */
module Paths {

  /** `EXTEND`: the extension of input workbooks. */
  const EXTEND: string := ".xlsx"
  /** The leading character of the lock files the spreadsheet program leaves
      beside an open workbook. */
  const TEMP_MARKER: char := '~'

  predicate IsSep(c: char) {
    c == '\\' || c == '/'
  }

  predicate StartsWith(s: string, prefix: string) {
    |prefix| <= |s| && s[..|prefix|] == prefix
  }

  predicate EndsWith(s: string, suffix: string) {
    |suffix| <= |s| && s[|s| - |suffix|..] == suffix
  }

  /** `os.path.join(a, b)` for an entry name `b` (no drive, no root): a
      separator is added unless `a` is empty or already ends in one. */
  function PathJoin(a: string, b: string): string {
    if a == [] || IsSep(a[|a| - 1]) then a + b else a + "\\" + b
  }

  /** The joined path starts with the directory, ends with the name, and has
      exactly one separator between them when the directory is not empty. */
  lemma PathJoinShape(a: string, b: string)
    ensures EndsWith(PathJoin(a, b), b)
    ensures a != [] ==> StartsWith(PathJoin(a, b), a)
    ensures a != [] && !IsSep(a[|a| - 1]) ==> PathJoin(a, b)[|a|] == '\\' && |PathJoin(a, b)| == |a| + 1 + |b|
    ensures a == [] || IsSep(a[|a| - 1]) ==> |PathJoin(a, b)| == |a| + |b|
  {
  }

  /** The index of the last `c` in `s`, or -1 (`str.rfind`). */
  function RFind(s: string, c: char): (i: int)
    ensures -1 <= i < |s|
  {
    if s == [] then -1
    else if s[|s| - 1] == c then |s| - 1
    else RFind(s[..|s| - 1], c)
  }

  /** `RFind` finds the last occurrence: `c` is at the index and nowhere after it. */
  lemma {:induction false} RFindLast(s: string, c: char)
    ensures RFind(s, c) >= 0 ==> s[RFind(s, c)] == c
    ensures forall j :: RFind(s, c) < j < |s| ==> s[j] != c
  {
    if s != [] && s[|s| - 1] != c {
      RFindLast(s[..|s| - 1], c);
    }
  }

  /** The index of the last separator of either kind, or -1. */
  function LastSep(s: string): (i: int)
    ensures -1 <= i < |s|
  {
    var b := RFind(s, '\\');
    var f := RFind(s, '/');
    if b > f then b else f
  }

  /** `LastSep` finds the last separator: one is at the index and none after it. */
  lemma LastSepLast(s: string)
    ensures LastSep(s) >= 0 ==> IsSep(s[LastSep(s)])
    ensures forall j :: LastSep(s) < j < |s| ==> !IsSep(s[j])
  {
    RFindLast(s, '\\');
    RFindLast(s, '/');
  }

  /** Some character of `s[lo..hi]` is not a dot. */
  predicate HasNonDot(s: string, lo: int, hi: int)
    requires 0 <= lo && hi <= |s|
  {
    exists i :: lo <= i < hi && s[i] != '.'
  }

  /** `os.path.splitext(p)`: the extension runs from the last dot of the last
      path component to the end, unless the component's only non-dot
      characters come after that dot (a leading dot does not start an
      extension). */
  function SplitExt(p: string): (string, string) {
    var sepIndex := LastSep(p);
    var dotIndex := RFind(p, '.');
    if dotIndex > sepIndex && HasNonDot(p, sepIndex + 1, dotIndex) then
      (p[..dotIndex], p[dotIndex..])
    else
      (p, "")
  }

  /** The two parts put back together give the path; a non-empty extension
      is a dot followed by neither dots nor separators; and there is one
      exactly when the last path component has a dot with a non-dot before
      it (leading dots of the component belong to the root). */
  lemma SplitExtParts(p: string)
    ensures SplitExt(p).0 + SplitExt(p).1 == p
    ensures SplitExt(p).1 != [] ==> SplitExt(p).1[0] == '.'
    ensures forall i :: 0 < i < |SplitExt(p).1| ==> SplitExt(p).1[i] != '.' && !IsSep(SplitExt(p).1[i])
    ensures SplitExt(p).1 != [] <==> exists i, d :: LastSep(p) < i < d < |p| && p[i] != '.' && p[d] == '.'
  {
    var sepIndex := LastSep(p);
    var dotIndex := RFind(p, '.');
    LastSepLast(p);
    RFindLast(p, '.');
    if dotIndex > sepIndex && HasNonDot(p, sepIndex + 1, dotIndex) {
      assert p == p[..dotIndex] + p[dotIndex..];
      var i :| sepIndex + 1 <= i < dotIndex && p[i] != '.';
      assert sepIndex < i < dotIndex < |p| && p[i] != '.' && p[dotIndex] == '.';
    }
  }

  /** The test the walk applies to each listed file: its extension is exactly
      `EXTEND` and its base name does not start with `TEMP_MARKER`. */
  predicate IsInputName(name: string) {
    var (base, ext) := SplitExt(name);
    ext == EXTEND && !(base != [] && base[0] == TEMP_MARKER)
  }

  /** For a name as a directory listing gives it (no separator), the test
      holds exactly when the name ends in `.xlsx` (case-sensitive), has a
      non-dot character before that suffix, and does not start with `~`. */
  lemma InputNameExactly(name: string)
    requires forall i :: 0 <= i < |name| ==> !IsSep(name[i])
    ensures IsInputName(name) <==>
      EndsWith(name, EXTEND) && HasNonDot(name, 0, |name| - |EXTEND|) && name[0] != TEMP_MARKER
  {
    var (base, ext) := SplitExt(name);
    var sepIndex := LastSep(name);
    var dotIndex := RFind(name, '.');
    LastSepLast(name);
    RFindLast(name, '.');
    assert sepIndex == -1;
    if EndsWith(name, EXTEND) {
      var d := |name| - |EXTEND|;
      assert name[d..] == EXTEND;
      assert name[d] == '.';
      assert forall j :: d < j < |name| ==> name[j] != '.' by {
        forall j | d < j < |name| ensures name[j] != '.' {
          assert name[j] == EXTEND[j - d];
        }
      }
      assert dotIndex == d;
      if HasNonDot(name, 0, d) {
        assert ext == EXTEND && base == name[..d];
        var i :| 0 <= i < d && name[i] != '.';
        assert base != [] && base[0] == name[0];
      } else {
        assert ext == [];
      }
    }
  }

  /** The lock file `~$Book.xlsx` the spreadsheet program leaves beside an
      open workbook is not scanned. */
  lemma LockFileSkipped()
    ensures !IsInputName("~$Book.xlsx")
  {
    var lock := "~$Book.xlsx";
    assert lock[0] == TEMP_MARKER;
    InputNameExactly(lock);
  }

  /** The extension test is case-sensitive: `Book.XLSX` is not scanned. */
  lemma UpperCaseExtensionSkipped()
    ensures !IsInputName("Book.XLSX")
  {
    InputNameExactly("Book.XLSX");
  }

  /** `Book.xlsx` is scanned. */
  lemma WorkbookScanned()
    ensures IsInputName("Book.xlsx")
  {
    var good := "Book.xlsx";
    InputNameExactly(good);
    assert good[..|good| - 5] == "Book" && good[0] != '.';
  }
}
