/** What the generator's helpers mean, and a file with a section of each kind. */
module YgenLaws {
  import opened Strings
  import opened Ygen

  // ---- white space ----

  /** All of s is white space. */
  ghost predicate AllSpace(ws: char -> bool, s: string) {
    forall i :: 0 <= i < |s| ==> ws(s[i])
  }

  lemma {:induction false} RStripMeans(ws: char -> bool, s: string)
    ensures var r := RStrip(ws, s);
            && r <= s && AllSpace(ws, s[|r|..]) && (r != "" ==> !ws(r[|r| - 1]))
  {
    if s != "" && ws(s[|s| - 1]) {
      RStripMeans(ws, s[..|s| - 1]);
      var r := RStrip(ws, s[..|s| - 1]);
      assert s[|r|..] == s[..|s| - 1][|r|..] + [s[|s| - 1]];
    }
  }

  lemma {:induction false} LStripMeans(ws: char -> bool, s: string)
    ensures var r := LStrip(ws, s);
            && |r| <= |s| && r == s[|s| - |r|..] && AllSpace(ws, s[..|s| - |r|]) && (r != "" ==> !ws(r[0]))
  {
    if s != "" && ws(s[0]) {
      LStripMeans(ws, s[1..]);
      var r := LStrip(ws, s[1..]);
      assert s[..|s| - |r|] == [s[0]] + s[1..][..|s| - 1 - |r|];
    }
  }

  /** Stripping removes the white space around a text that neither starts nor ends with any. */
  lemma StripMeans(ws: char -> bool, s: string)
    ensures var r := Strip(ws, s);
            && (exists a, b :: s == a + r + b && AllSpace(ws, a) && AllSpace(ws, b))
            && (r != "" ==> !ws(r[0]) && !ws(r[|r| - 1]))
  {
    hide RStrip, LStrip;
    RStripMeans(ws, s);
    var right := RStrip(ws, s);
    LStripMeans(ws, right);
    var r := LStrip(ws, right);
    assert s == right[..|right| - |r|] + r + s[|right|..];
  }

  /** What is written back is the line without the white space at its end, and a newline. */
  lemma TidyMeans(ws: char -> bool, line: string)
    ensures exists r, b ::
              line == r + b && AllSpace(ws, b) && (r != "" ==> !ws(r[|r| - 1])) && Tidy(ws, line) == r + "\n"
  {
    hide RStrip;
    RStripMeans(ws, line);
    var r := RStrip(ws, line);
    assert line == r + line[|r|..];
  }

  // ---- filtering ----

  /** How many lines are marked. */
  function Marks(p: Marker, lines: Lines): nat {
    if lines == [] then 0 else (if p(lines[0]) then 1 else 0) + Marks(p, lines[1..])
  }

  lemma FirstLine(p: Marker, lines: Lines, keep: bool)
    requires lines != []
    ensures Marks(p, lines) == (if p(lines[0]) then 1 else 0) + Marks(p, lines[1..])
    ensures var next, first := if p(lines[0]) then !keep else keep, if !p(lines[0]) && keep then [lines[0]] else [];
            Filtered(p, lines, keep) == first + Filtered(p, lines[1..], next)
  {
    assert [] + Filtered(p, lines[1..], !keep) == Filtered(p, lines[1..], !keep);
  }

  lemma OneLine(p: Marker, line: string, keep: bool)
    ensures Filtered(p, [], keep) == [] && Marks(p, []) == 0
    ensures Filtered(p, [line], keep) == if !p(line) && keep then [line] else []
  {
    assert [line][1..] == [];
  }

  lemma Regroup(a: Lines, b: Lines, c: Lines)
    ensures a + (b + c) == a + b + c
  {
  }

  lemma SameFirst(lines: Lines, more: Lines)
    requires lines != []
    ensures (lines + more)[0] == lines[0] && (lines + more)[1..] == lines[1..] + more
  {
  }

  /** A line is kept exactly if it is not marked and the marked lines before it come in pairs. */
  lemma {:induction false} KeptByParity(p: Marker, lines: Lines, line: string, keep: bool)
    ensures var kept := !p(line) && (keep <==> Marks(p, lines) % 2 == 0);
            Filtered(p, lines + [line], keep) == Filtered(p, lines, keep) + if kept then [line] else []
  {
    hide Filtered, Marks;
    if lines == [] {
      OneLine(p, line, keep);
      assert [] + [line] == [line];
    } else {
      var next := if p(lines[0]) then !keep else keep;
      var first: Lines := if !p(lines[0]) && keep then [lines[0]] else [];
      var kept: Lines := if !p(line) && (keep <==> Marks(p, lines) % 2 == 0) then [line] else [];
      SameFirst(lines, [line]);
      FirstLine(p, lines, keep);
      FirstLine(p, lines + [line], keep);
      KeptByParity(p, lines[1..], line, next);
      assert kept == if !p(line) && (next <==> Marks(p, lines[1..]) % 2 == 0) then [line] else [];
      Regroup(first, Filtered(p, lines[1..], next), kept);
    }
  }

  lemma {:induction false} FilteredConcat(p: Marker, a: Lines, b: Lines, keep: bool)
    requires NoMark(p, a)
    ensures Filtered(p, a + b, keep) == (if keep then a else []) + Filtered(p, b, keep)
  {
    hide Filtered, Marks;
    if a == [] {
      assert a + b == b;
    } else {
      SameFirst(a, b);
      assert a[0] in a && forall line :: line in a[1..] ==> line in a;
      FirstLine(p, a + b, keep);
      FilteredConcat(p, a[1..], b, keep);
      var first, rest: Lines := if keep then [a[0]] else [], if keep then a[1..] else [];
      assert first + rest == if keep then a else [];
      Regroup(first, rest, Filtered(p, b, keep));
    }
  }

  ghost predicate NoMark(p: Marker, lines: Lines) {
    forall line :: line in lines ==> !p(line)
  }

  /** A pair of marked lines goes, with all that is between them. */
  lemma PairIsDropped(p: Marker, a: Lines, open: string, b: Lines, close: string, c: Lines)
    requires NoMark(p, a) && p(open) && NoMark(p, b) && p(close)
    ensures Filtered(p, a + [open] + b + [close] + c, true) == a + Filtered(p, c, true)
  {
    hide NoMark;
    var tail := [close] + c;
    var rest := [open] + (b + tail);
    assert a + [open] + b + [close] + c == a + rest;
    FilteredConcat(p, a, rest, true);
    assert rest[1..] == b + tail;
    FilteredConcat(p, b, tail, false);
    assert tail[1..] == c;
    assert [] + Filtered(p, tail, false) == Filtered(p, c, true);
  }
}
