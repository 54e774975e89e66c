/** The trace log's row line: `'%5d: %s' % (counter, values)` where the values
    are joined by `", "`; and a reader for such lines. */
module Trace {
  import opened Values

  const SEPARATOR: string := ", "
  const COUNTER_WIDTH: nat := 5

  /** The strings separated by `", "`, built the way the copy loop builds it:
      each string after the first is preceded by the separator. */
  function Join(xs: seq<string>): string {
    if |xs| == 0 then ""
    else if |xs| == 1 then xs[0]
    else Join(xs[..|xs| - 1]) + SEPARATOR + xs[|xs| - 1]
  }

  /** The copy loop's step: the next value is appended after a separator,
      except for the first. */
  lemma JoinStep(xs: seq<string>, n: nat)
    requires n < |xs|
    ensures Join(xs[..n + 1]) == Join(xs[..n]) + (if n == 0 then "" else SEPARATOR) + xs[n]
  {
    assert xs[..n + 1][..n] == xs[..n];
  }

  /** Appending one more value to the run adds it after a separator, unless
      it is the first. */
  lemma JoinSnoc(xs: seq<string>, x: string)
    ensures Join(xs + [x]) == if xs == [] then x else Join(xs) + SEPARATOR + x
  {
    assert (xs + [x])[..|xs|] == xs;
  }

  /** Joining two non-empty runs puts exactly one separator between them. */
  lemma {:induction false} JoinAppend(xs: seq<string>, ys: seq<string>)
    requires |xs| > 0 && |ys| > 0
    ensures Join(xs + ys) == Join(xs) + SEPARATOR + Join(ys)
  {
    if |ys| == 1 {
      assert (xs + ys)[..|xs + ys| - 1] == xs;
    } else {
      var zs := ys[..|ys| - 1];
      JoinAppend(xs, zs);
      assert (xs + ys)[..|xs + ys| - 1] == xs + zs;
    }
  }

  /** No leading and no trailing separator: the line starts with the first
      value and ends with the last. */
  lemma {:induction false} JoinEnds(xs: seq<string>)
    requires |xs| > 0
    ensures |Join(xs)| >= |xs[0]| && Join(xs)[..|xs[0]|] == xs[0]
    ensures |Join(xs)| >= |xs[|xs| - 1]| && Join(xs)[|Join(xs)| - |xs[|xs| - 1]|..] == xs[|xs| - 1]
  {
    if |xs| > 1 {
      var p := xs[..|xs| - 1];
      JoinEnds(p);
      assert p[0] == xs[0];
      assert Join(xs) == Join(p) + SEPARATOR + xs[|xs| - 1];
    }
  }

  function TotalLength(xs: seq<string>): nat {
    if xs == [] then 0 else TotalLength(xs[..|xs| - 1]) + |xs[|xs| - 1]|
  }

  /** The joined text is the values plus one two-character separator between
      each neighbouring pair. */
  lemma {:induction false} JoinLength(xs: seq<string>)
    requires |xs| > 0
    ensures |Join(xs)| == TotalLength(xs) + |SEPARATOR| * (|xs| - 1)
  {
    if |xs| > 1 {
      JoinLength(xs[..|xs| - 1]);
    } else {
      assert xs[..0] == [];
    }
  }

  function Spaces(n: nat): (r: string)
    ensures |r| == n
  {
    if n == 0 then "" else " " + Spaces(n - 1)
  }

  lemma {:induction false} SpacesAreSpaces(n: nat)
    ensures forall i :: 0 <= i < n ==> Spaces(n)[i] == ' '
  {
    if n > 0 {
      SpacesAreSpaces(n - 1);
    }
  }

  /** `s` right-justified in a field of `width` characters (never truncated). */
  function RightJustify(s: string, width: nat): (r: string)
    ensures |r| == if |s| >= width then |s| else width
  {
    if |s| >= width then s else Spaces(width - |s|) + s
  }

  /** A right-justified field ends with the text itself and is padded with
      spaces in front of it. */
  lemma RightJustifyShape(s: string, width: nat)
    ensures RightJustify(s, width)[|RightJustify(s, width)| - |s|..] == s
    ensures forall i :: 0 <= i < |RightJustify(s, width)| - |s| ==> RightJustify(s, width)[i] == ' '
  {
    if |s| < width {
      SpacesAreSpaces(width - |s|);
    }
  }

  /** The trace line written for the `counter`-th row of a file. */
  function TraceLine(counter: nat, csv: string): string {
    RightJustify(NatToDecimal(counter), COUNTER_WIDTH) + ": " + csv
  }

  /** Below 100000 the counter fills exactly the first five columns and the
      values start at column 7. */
  lemma TraceLineLayout(counter: nat, csv: string)
    requires counter < 100000
    ensures |TraceLine(counter, csv)| == COUNTER_WIDTH + 2 + |csv|
    ensures TraceLine(counter, csv)[COUNTER_WIDTH..COUNTER_WIDTH + 2] == ": "
    ensures TraceLine(counter, csv)[COUNTER_WIDTH + 2..] == csv
    ensures TraceLine(counter, csv)[COUNTER_WIDTH - 1] == NatToDecimal(counter)[|NatToDecimal(counter)| - 1]
  {
    var d := NatToDecimal(counter);
    NatToDecimalWidth(counter, COUNTER_WIDTH);
    RightJustifyShape(d, COUNTER_WIDTH);
    var field := RightJustify(d, COUNTER_WIDTH);
    assert |field| == COUNTER_WIDTH;
    assert TraceLine(counter, csv) == field + ": " + csv;
    assert field[COUNTER_WIDTH - 1] == field[|field| - |d|..][|d| - 1];
  }

  /** Index of the first `c` in `s`, or `|s|` when there is none. */
  function IndexOf(s: string, c: char): (i: nat)
    ensures i <= |s|
    ensures i < |s| ==> s[i] == c
  {
    if s == [] then 0 else if s[0] == c then 0 else 1 + IndexOf(s[1..], c)
  }

  function TrimLeadingSpaces(s: string): (r: string)
    ensures r == [] || r[0] != ' '
  {
    if s != [] && s[0] == ' ' then TrimLeadingSpaces(s[1..]) else s
  }

  /** Reads a trace row line back into its counter and its joined values. */
  function ParseTraceLine(line: string): Option<(nat, string)> {
    var i := IndexOf(line, ':');
    if i + 1 >= |line| || line[i + 1] != ' ' then None
    else
      var digits := TrimLeadingSpaces(line[..i]);
      if digits == [] || !AllDigits(digits) then None
      else Some((DecimalValue(digits), line[i + 2..]))
  }

  lemma {:induction false} TrimSpacesPrefix(n: nat, d: string)
    requires d == [] || d[0] != ' '
    ensures TrimLeadingSpaces(Spaces(n) + d) == d
  {
    var s := Spaces(n) + d;
    if n > 0 {
      assert Spaces(n) == " " + Spaces(n - 1);
      assert s == " " + (Spaces(n - 1) + d);
      assert s[0] == ' ' && s[1..] == Spaces(n - 1) + d;
      TrimSpacesPrefix(n - 1, d);
    } else {
      assert s == d;
    }
  }

  /** The first `c` of `prefix + rest` is the first of `rest` when `prefix`
      has none. */
  lemma {:induction false} IndexOfAfter(prefix: string, rest: string, c: char)
    requires forall j :: 0 <= j < |prefix| ==> prefix[j] != c
    requires rest != [] && rest[0] == c
    ensures IndexOf(prefix + rest, c) == |prefix|
  {
    if prefix != [] {
      assert (prefix + rest)[1..] == prefix[1..] + rest;
      IndexOfAfter(prefix[1..], rest, c);
    }
  }

  /** A trace line gives back the counter and the joined values it was made from. */
  lemma TraceLineRoundTrip(counter: nat, csv: string)
    ensures ParseTraceLine(TraceLine(counter, csv)) == Some((counter, csv))
  {
    var d := NatToDecimal(counter);
    var field := RightJustify(d, COUNTER_WIDTH);
    var pad := |field| - |d|;
    NatToDecimalDigits(counter);
    RightJustifyShape(d, COUNTER_WIDTH);
    forall j | 0 <= j < |field| ensures field[j] != ':' {
      if j >= pad {
        assert field[j] == field[pad..][j - pad];
        assert IsDigit(d[j - pad]);
      }
    }
    var line := TraceLine(counter, csv);
    assert line == field + (": " + csv);
    IndexOfAfter(field, ": " + csv, ':');
    assert line[..|field|] == field;
    assert field == Spaces(pad) + d;
    TrimSpacesPrefix(pad, d);
    DecimalRoundTrip(counter);
    assert line[|field| + 1] == ' ';
    assert line[|field| + 2..] == csv;
  }
}
