/** Running the generator on its own output. */
module YgenTheorems {
  import opened Strings
  import opened Ygen

  // ---- tidying lines changes nothing that the generator looks at ----

  lemma {:induction false} RStripIdempotent(ws: char -> bool, s: string)
    ensures RStrip(ws, RStrip(ws, s)) == RStrip(ws, s)
  {
    if s != "" && ws(s[|s| - 1]) {
      RStripIdempotent(ws, s[..|s| - 1]);
    }
  }

  lemma RStripTidy(ws: char -> bool, line: string)
    requires ws('\n')
    ensures RStrip(ws, Tidy(ws, line)) == RStrip(ws, line)
  {
    var s := RStrip(ws, line);
    assert (s + "\n")[..|s + "\n"| - 1] == s;
    RStripIdempotent(ws, line);
  }

  /** p gives the same answer for a line and for its tidied form. */
  ghost predicate Blind(ws: char -> bool, p: Marker) {
    forall line :: p(Tidy(ws, line)) == p(line)
  }

  lemma StripTidy(ws: char -> bool, line: string)
    requires ws('\n')
    ensures Strip(ws, Tidy(ws, line)) == Strip(ws, line)
  {
    hide RStrip, LStrip, Tidy;
    RStripTidy(ws, line);
  }

  lemma TagsAreBlind(ws: char -> bool, tag: string)
    requires ws('\n')
    ensures Blind(ws, StartsWithTag(ws, tag)) && Blind(ws, EndsWithTag(ws, tag))
  {
    hide Strip, Tidy, EndsWith;
    var starts, ends := StartsWithTag(ws, tag), EndsWithTag(ws, tag);
    forall line: string ensures starts(Tidy(ws, line)) == starts(line) {
      StripTidy(ws, line);
    }
    forall line: string ensures ends(Tidy(ws, line)) == ends(line) {
      StripTidy(ws, line);
    }
  }

  lemma {:induction false} FirstTidy(ws: char -> bool, p: Marker, lines: Lines, from: nat)
    requires Blind(ws, p)
    ensures First(p, TidyAll(ws, lines), from) == First(p, lines, from)
    decreases |lines| - from
  {
    hide TidyAll;
    if from < |lines| {
      FirstTidy(ws, p, lines, from + 1);
    }
  }

  lemma {:induction false} FilteredTidy(ws: char -> bool, p: Marker, lines: Lines, keep: bool)
    requires Blind(ws, p)
    ensures Filtered(p, TidyAll(ws, lines), keep) == TidyAll(ws, Filtered(p, lines, keep))
  {
    if lines != [] {
      assert TidyAll(ws, lines)[1..] == TidyAll(ws, lines[1..]);
      FilteredTidy(ws, p, lines[1..], if p(lines[0]) then !keep else keep);
      TidyConcat(ws, [lines[0]], Filtered(p, lines[1..], keep));
    }
  }

  lemma TidyConcat(ws: char -> bool, a: Lines, b: Lines)
    ensures TidyAll(ws, a + b) == TidyAll(ws, a) + TidyAll(ws, b)
  {
    hide TidyAll, Tidy;
    var whole, parts := TidyAll(ws, a + b), TidyAll(ws, a) + TidyAll(ws, b);
    forall i | 0 <= i < |a| + |b| ensures whole[i] == parts[i] {
      assert whole[i] == Tidy(ws, (a + b)[i]);
    }
  }

  lemma TidySlice(ws: char -> bool, lines: Lines, from: nat, to: nat)
    requires from <= to <= |lines|
    ensures TidyAll(ws, lines)[from..to] == TidyAll(ws, lines[from..to])
  {
    hide TidyAll, Tidy;
    var a, b := TidyAll(ws, lines)[from..to], TidyAll(ws, lines[from..to]);
    forall i | 0 <= i < to - from ensures a[i] == b[i] {
      assert a[i] == TidyAll(ws, lines)[from + i] == Tidy(ws, lines[from + i]);
    }
  }

  lemma TidyTwice(ws: char -> bool, lines: Lines)
    requires ws('\n')
    ensures TidyAll(ws, TidyAll(ws, lines)) == TidyAll(ws, lines)
  {
    hide TidyAll;
    forall i | 0 <= i < |lines| ensures Tidy(ws, Tidy(ws, lines[i])) == Tidy(ws, lines[i]) {
      RStripTidy(ws, lines[i]);
    }
  }

  ghost predicate BlindLayout(ws: char -> bool, layout: Layout) {
    && Blind(ws, layout.parsedebug.start) && Blind(ws, layout.parsedebug.end)
    && Blind(ws, layout.parseopt.start) && Blind(ws, layout.parseopt.end)
    && Blind(ws, layout.notrack.start) && Blind(ws, layout.notrack.end)
    && Blind(ws, layout.debug) && Blind(ws, layout.tracking)
  }

  lemma RangeTidy(ws: char -> bool, lines: Lines, section: Section)
    requires Blind(ws, section.start) && Blind(ws, section.end)
    ensures SourceRange(TidyAll(ws, lines), section) == SourceRange(lines, section)
  {
    hide First, TidyAll;
    FirstTidy(ws, section.start, lines, 0);
    var start := First(section.start, lines, 0);
    if start.Some? {
      FirstTidy(ws, section.end, lines, start.value + 1);
    }
  }

  lemma SpliceTidy(ws: char -> bool, lines: Lines, range: Range, replacement: Lines)
    ensures Splice(TidyAll(ws, lines), range, TidyAll(ws, replacement))
            == TidyAll(ws, Splice(lines, range, replacement))
  {
    hide TidyAll;
    var from := if range.from <= |lines| then range.from else |lines|;
    var to := if range.to < from then from else if range.to <= |lines| then range.to else |lines|;
    TidySlice(ws, lines, 0, from);
    TidySlice(ws, lines, to, |lines|);
    TidyConcat(ws, lines[..from], replacement);
    TidyConcat(ws, lines[..from] + replacement, lines[to..]);
    assert lines[0..from] == lines[..from] && lines[to..|lines|] == lines[to..];
    var tidy := TidyAll(ws, lines);
    assert tidy[0..from] == tidy[..from] && tidy[to..|lines|] == tidy[to..];
  }

  /** Filtering and splicing commute with tidying. */
  lemma SplicedTidy(ws: char -> bool, layout: Layout, lines: Lines)
    requires BlindLayout(ws, layout)
    ensures Spliced(layout, TidyAll(ws, lines))
            == match Spliced(layout, lines) case None => None case Some(s) => Some(TidyAll(ws, s))
  {
    hide First, TidyAll, Splice, Filtered, SourceRange;
    var tidy := TidyAll(ws, lines);
    var d := SourceRange(lines, layout.parsedebug);
    RangeTidy(ws, lines, layout.parsedebug);
    RangeTidy(ws, lines, layout.parseopt);
    RangeTidy(ws, lines, layout.notrack);
    if Spliced(layout, lines).Some? {
      var orig := lines[d.value.from..d.value.to];
      TidySlice(ws, lines, d.value.from, d.value.to);
      FilteredTidy(ws, layout.debug, orig, true);
      FilteredTidy(ws, layout.tracking, Opt(layout, lines), true);
      var n, o := SourceRange(lines, layout.notrack).value, SourceRange(lines, layout.parseopt).value;
      SpliceTidy(ws, lines, n, NoTrack(layout, lines));
      SpliceTidy(ws, Splice(lines, n, NoTrack(layout, lines)), o, Opt(layout, lines));
    }
  }

  // ---- once and twice ----

  ghost predicate NoneOf(p: Marker, lines: Lines) {
    forall line :: line in lines ==> !p(line)
  }

  /** How far a section that holds body reaches before a line that looks like its end. */
  function Stop(p: Marker, body: Lines): (n: nat)
    ensures n <= |body|
    ensures forall i :: 0 <= i < n ==> !p(body[i])
    ensures n < |body| ==> p(body[n])
    ensures n == |body| <==> NoneOf(p, body)
  {
    match First(p, body, 0)
    case None => |body|
    case Some(i) => i
  }

  /** The output of the first run, its pieces and where the sections are in it. */
  ghost predicate Pieces(layout: Layout, lines: Lines, d: Range, o: Range, n: Range, once: Lines, at: nat) {
    var p, q := Opt(layout, lines), NoTrack(layout, lines);
    && InOrder(layout, lines, d, o, n)
    && at == o.from + |p| + (n.from - o.to)
    && |once| == at + |q| + (|lines| - n.to)
    && once[..o.from] == lines[..o.from] && once[o.from..o.from + |p|] == p
    && once[o.from + |p|..at] == lines[o.to..n.from]
    && once[at..at + |q|] == q && once[at + |q|..] == lines[n.to..]
  }

  lemma OptIsOrdinary(layout: Layout, lines: Lines, d: Range, o: Range, n: Range)
    requires InOrder(layout, lines, d, o, n)
    ensures NoneOf(layout.parseopt.start, Opt(layout, lines))
    ensures NoneOf(layout.notrack.start, Opt(layout, lines)) && NoneOf(layout.notrack.start, NoTrack(layout, lines))
  {
    hide First, Filtered, SourceRange;
    RangeMeans(lines, layout.parsedebug, d);
    RangeMeans(lines, layout.parseopt, o);
    RangeMeans(lines, layout.notrack, n);
    var orig := lines[d.from..d.to];
    forall line | line in orig ensures !layout.parseopt.start(line) && !layout.notrack.start(line) {
      var i :| 0 <= i < |orig| && orig[i] == line;
      assert line == lines[d.from + i];
    }
  }

  lemma DebugStays(layout: Layout, lines: Lines, d: Range, o: Range, n: Range, once: Lines, at: nat)
    requires Pieces(layout, lines, d, o, n, once, at)
    ensures SourceRange(once, layout.parsedebug) == Some(d)
    ensures Opt(layout, once) == Opt(layout, lines) && NoTrack(layout, once) == NoTrack(layout, lines)
  {
    hide First, Filtered, SourceRange;
    RangeMeans(lines, layout.parsedebug, d);
    RangeMeans(lines, layout.parseopt, o);
    RangeMeans(lines, layout.notrack, n);
    assert forall i :: 0 <= i < o.from ==> once[i] == once[..o.from][i] == lines[..o.from][i] == lines[i];
    RangeIs(once, layout.parsedebug, d.from, d.to);
    assert once[d.from..d.to] == lines[d.from..d.to];
  }

  lemma OptLines(layout: Layout, lines: Lines, d: Range, o: Range, n: Range, once: Lines, at: nat)
    requires Pieces(layout, lines, d, o, n, once, at) && o.to < n.from
    ensures forall i :: 0 <= i < o.from ==> once[i] == lines[i]
    ensures var p := Opt(layout, lines);
            && (forall i :: o.from <= i < o.from + |p| ==> once[i] == p[i - o.from])
            && once[o.from + |p|] == lines[o.to]
  {
    hide First, Filtered, SourceRange, Opt, NoTrack;
    var p := Opt(layout, lines);
    assert forall i :: 0 <= i < o.from ==> once[i] == once[..o.from][i] == lines[..o.from][i];
    assert forall i :: o.from <= i < o.from + |p| ==> once[i] == once[o.from..o.from + |p|][i - o.from];
    assert once[o.from + |p|] == once[o.from + |p|..at][0] == lines[o.to..n.from][0];
  }

  lemma OptMoves(layout: Layout, lines: Lines, d: Range, o: Range, n: Range, once: Lines, at: nat)
    requires Pieces(layout, lines, d, o, n, once, at)
    ensures var to := o.from + Stop(layout.parseopt.end, Opt(layout, lines));
            && SourceRange(once, layout.parseopt) == Some(Range(o.from, to))
            && layout.parseopt.end(once[to])
  {
    hide First, Filtered, SourceRange, Opt, NoTrack;
    var p := Opt(layout, lines);
    RangeMeans(lines, layout.parsedebug, d);
    RangeMeans(lines, layout.parseopt, o);
    RangeMeans(lines, layout.notrack, n);
    var stop := Stop(layout.parseopt.end, p);
    OptLines(layout, lines, d, o, n, once, at);
    RangeIs(once, layout.parseopt, o.from, o.from + stop);
  }

  lemma NoTrackStartsOnce(layout: Layout, lines: Lines, d: Range, o: Range, n: Range, once: Lines, at: nat)
    requires Pieces(layout, lines, d, o, n, once, at)
    ensures forall i :: 0 <= i < at - 1 ==> !layout.notrack.start(once[i])
  {
    hide First, Filtered, SourceRange, Opt, NoTrack;
    var p := Opt(layout, lines);
    RangeMeans(lines, layout.parseopt, o);
    RangeMeans(lines, layout.notrack, n);
    OptIsOrdinary(layout, lines, d, o, n);
    forall i | 0 <= i < at - 1 ensures !layout.notrack.start(once[i]) {
      if i < o.from {
        assert once[i] == once[..o.from][i] == lines[..o.from][i] == lines[i];
      } else if i < o.from + |p| {
        assert once[i] == once[o.from..o.from + |p|][i - o.from] == p[i - o.from];
      } else {
        var k := i - o.from - |p|;
        assert once[i] == once[o.from + |p|..at][k] == lines[o.to..n.from][k] == lines[o.to + k];
      }
    }
  }

  lemma NoTrackMoves(layout: Layout, lines: Lines, d: Range, o: Range, n: Range, once: Lines, at: nat)
    requires Pieces(layout, lines, d, o, n, once, at)
    ensures var to := at + Stop(layout.notrack.end, NoTrack(layout, lines));
            && SourceRange(once, layout.notrack) == Some(Range(at, to))
            && layout.notrack.end(once[to])
  {
    hide First, Filtered, SourceRange, Opt, NoTrack;
    var p, q := Opt(layout, lines), NoTrack(layout, lines);
    RangeMeans(lines, layout.parsedebug, d);
    RangeMeans(lines, layout.parseopt, o);
    RangeMeans(lines, layout.notrack, n);
    var stop := Stop(layout.notrack.end, q);
    NoTrackStartsOnce(layout, lines, d, o, n, once, at);
    assert once[at - 1] == once[o.from + |p|..at][n.from - o.to - 1] == lines[n.from - 1];
    assert forall i :: at <= i < at + |q| ==> once[i] == once[at..at + |q|][i - at] == q[i - at];
    assert once[at + |q|] == once[at + |q|..][0] == lines[n.to];
    RangeIs(once, layout.notrack, at, at + stop);
  }

  /** How many lines every run after the first adds. */
  function Growth(layout: Layout, lines: Lines): nat {
    var p, q := Opt(layout, lines), NoTrack(layout, lines);
    (|p| - Stop(layout.parseopt.end, p)) + (|q| - Stop(layout.notrack.end, q))
  }

  /** The output of a run has its sections in order again, and they say the same. */
  lemma StillInOrder(layout: Layout, lines: Lines, d: Range, o: Range, n: Range) returns (o': Range, n': Range)
    requires InOrder(layout, lines, d, o, n)
    ensures Spliced(layout, lines).Some?
    ensures var once, p, q := Spliced(layout, lines).value, Opt(layout, lines), NoTrack(layout, lines);
            && InOrder(layout, once, d, o', n') && Opt(layout, once) == p && NoTrack(layout, once) == q
            && o'.to == o'.from + Stop(layout.parseopt.end, p) && n'.to == n'.from + Stop(layout.notrack.end, q)
            && o'.from + |p| <= n'.from && n'.from + |q| <= |once|
            && once[o'.from..o'.from + |p|] == p && once[n'.from..n'.from + |q|] == q
  {
    hide First, Filtered, SourceRange, Spliced, Opt, NoTrack, NoneOf, Stop;
    var p, q := Opt(layout, lines), NoTrack(layout, lines);
    FirstRun(layout, lines, d, o, n);
    var once := Spliced(layout, lines).value;
    var at := FirstPieces(layout, lines, d, o, n, once);
    DebugStays(layout, lines, d, o, n, once, at);
    OptMoves(layout, lines, d, o, n, once, at);
    NoTrackMoves(layout, lines, d, o, n, once, at);
    o', n' := Range(o.from, o.from + Stop(layout.parseopt.end, p)), Range(at, at + Stop(layout.notrack.end, q));
    DebugEndStays(layout, lines, d, o, n, once, at);
  }

  /**
   A second run changes nothing if no line that it moves looks like the end of the section that
   it is moved to; otherwise it makes the file longer.
   */
  lemma SecondRun(layout: Layout, lines: Lines, d: Range, o: Range, n: Range)
    requires InOrder(layout, lines, d, o, n)
    ensures Spliced(layout, lines).Some? && Spliced(layout, Spliced(layout, lines).value).Some?
    ensures var once, p, q := Spliced(layout, lines).value, Opt(layout, lines), NoTrack(layout, lines);
            var twice := Spliced(layout, once).value;
            && |twice| == |once| + Growth(layout, lines)
            && (NoneOf(layout.parseopt.end, p) && NoneOf(layout.notrack.end, q) ==> twice == once)
  {
    hide First, Filtered, SourceRange, Spliced, Opt, NoTrack, NoneOf, InOrder, Stop;
    var o', n' := StillInOrder(layout, lines, d, o, n);
    var once := Spliced(layout, lines).value;
    InOrderRanges(layout, once, d, o', n');
    FirstRun(layout, once, d, o', n');
    SameConcat(once, o'.from, o'.to, n'.from, n'.to);
  }

  // ---- any number of runs ----

  function Runs(layout: Layout, lines: Lines, k: nat): Option<Lines>
    decreases k
  {
    if k == 0 then Some(lines)
    else
      match Spliced(layout, lines)
      case None => None
      case Some(once) => Runs(layout, once, k - 1)
  }

  lemma {:induction false} RunsGrow(layout: Layout, lines: Lines, d: Range, o: Range, n: Range, k: nat)
    requires InOrder(layout, lines, d, o, n) && k > 0
    ensures Spliced(layout, lines).Some? && Runs(layout, lines, k).Some?
    ensures |Runs(layout, lines, k).value| == |Spliced(layout, lines).value| + (k - 1) * Growth(layout, lines)
    decreases k
  {
    hide Spliced, InOrder, Opt, NoTrack, Stop;
    var o', n' := StillInOrder(layout, lines, d, o, n);
    var once, g := Spliced(layout, lines).value, Growth(layout, lines);
    if k == 1 {
      assert Runs(layout, once, 0) == Some(once);
    } else {
      SecondRun(layout, lines, d, o, n);
      RunsGrow(layout, once, d, o', n', k - 1);
      assert (k - 2) * g + g == (k - 1) * g;
    }
  }

  /** The program itself, run k times on its own output. */
  function Rewrites(ws: char -> bool, layout: Layout, lines: Lines, k: nat): Option<Lines>
    decreases k
  {
    if k == 0 then Some(lines)
    else
      match Rewritten(ws, layout, lines)
      case None => None
      case Some(once) => Rewrites(ws, layout, once, k - 1)
  }

  function TidyOption(ws: char -> bool, lines: Option<Lines>): Option<Lines> {
    match lines case None => None case Some(s) => Some(TidyAll(ws, s))
  }

  lemma {:induction false} RunsTidy(ws: char -> bool, layout: Layout, lines: Lines, k: nat)
    requires BlindLayout(ws, layout)
    ensures Runs(layout, TidyAll(ws, lines), k) == TidyOption(ws, Runs(layout, lines, k))
    decreases k
  {
    hide TidyAll, Spliced, BlindLayout;
    if k > 0 {
      SplicedTidy(ws, layout, lines);
      if Spliced(layout, lines).Some? {
        RunsTidy(ws, layout, Spliced(layout, lines).value, k - 1);
      }
    }
  }

  lemma {:induction false} RewritesAreRuns(ws: char -> bool, layout: Layout, lines: Lines, k: nat)
    requires ws('\n') && BlindLayout(ws, layout) && k > 0
    ensures Rewrites(ws, layout, lines, k) == TidyOption(ws, Runs(layout, lines, k))
    decreases k
  {
    hide TidyAll, Spliced, BlindLayout;
    if Spliced(layout, lines).Some? {
      var once := Spliced(layout, lines).value;
      if k == 1 {
        assert Runs(layout, once, 0) == Some(once)
            && Rewrites(ws, layout, TidyAll(ws, once), 0) == Some(TidyAll(ws, once));
      } else {
        RewritesAreRuns(ws, layout, TidyAll(ws, once), k - 1);
        RunsTidy(ws, layout, once, k - 1);
        if Runs(layout, once, k - 1).Some? {
          TidyTwice(ws, Runs(layout, once, k - 1).value);
        }
      }
    }
  }

  lemma FirstPieces(layout: Layout, lines: Lines, d: Range, o: Range, n: Range, once: Lines) returns (at: nat)
    requires InOrder(layout, lines, d, o, n)
    requires once == lines[..o.from] + Opt(layout, lines) + lines[o.to..n.from] + NoTrack(layout, lines) + lines[n.to..]
    ensures Pieces(layout, lines, d, o, n, once, at)
  {
    hide First, Filtered, SourceRange, Opt, NoTrack;
    RangeMeans(lines, layout.parsedebug, d);
    RangeMeans(lines, layout.parseopt, o);
    RangeMeans(lines, layout.notrack, n);
    at := o.from + |Opt(layout, lines)| + (n.from - o.to);
  }

  lemma DebugEndStays(layout: Layout, lines: Lines, d: Range, o: Range, n: Range, once: Lines, at: nat)
    requires Pieces(layout, lines, d, o, n, once, at)
    ensures d.to < |once| && layout.parsedebug.end(once[d.to])
  {
    hide First, Filtered;
    RangeMeans(lines, layout.parseopt, o);
    assert once[d.to] == once[..o.from][d.to] == lines[..o.from][d.to];
  }

  lemma SameConcat(s: Lines, a: nat, b: nat, c: nat, e: nat)
    requires a <= b <= c <= e <= |s|
    ensures s[..a] + s[a..b] + s[b..c] + s[c..e] + s[e..] == s
  {
  }

  lemma YaccIsBlind(ws: char -> bool)
    requires ws('\n')
    ensures BlindLayout(ws, YaccLayout(ws))
  {
    hide Blind, StartsWithTag, EndsWithTag;
    TagsAreBlind(ws, "#--! " + "parsedebug" + "-start");
    TagsAreBlind(ws, "#--! " + "parsedebug" + "-end");
    TagsAreBlind(ws, "#--! " + "parseopt" + "-start");
    TagsAreBlind(ws, "#--! " + "parseopt" + "-end");
    TagsAreBlind(ws, "#--! " + "parseopt-notrack" + "-start");
    TagsAreBlind(ws, "#--! " + "parseopt-notrack" + "-end");
    TagsAreBlind(ws, "#--! DEBUG");
    TagsAreBlind(ws, "#--! TRACKING");
  }

  ghost predicate NoneEnds(ws: char -> bool, lines: Lines, tag: string) {
    forall line :: line in lines ==> !EndsWith(Strip(ws, line), tag)
  }

  /** The sections of the file and what is copied to them, in terms of the layout. */
  lemma LayoutOf(ws: char -> bool, lines: Lines, d: Range, o: Range, n: Range, p: Lines, q: Lines)
    requires ThreeSections(ws, lines, d, o, n) && d.from <= d.to <= |lines| && Copied(ws, lines[d.from..d.to], p, q)
    ensures var layout := YaccLayout(ws);
            && InOrder(layout, lines, d, o, n) && Opt(layout, lines) == p && NoTrack(layout, lines) == q
            && (NoneOf(layout.parseopt.end, p) <==> NoneEnds(ws, p, "#--! parseopt-end"))
            && (NoneOf(layout.notrack.end, q) <==> NoneEnds(ws, q, "#--! parseopt-notrack-end"))
  {
    hide Strip, EndsWith, SourceRange, Filtered, StartsWithTag, EndsWithTag, YaccSection;
    ThreeInOrder(ws, lines, d, o, n);
    ParseoptSpelled(ws);
    NoTrackSpelled(ws);
  }

  /**
   For a file with its three sections closed and in order, running the generator on its own
   output gives that output again exactly when no line it moved looks like the end marker of
   the section it went to.
   */
  lemma RunningTwiceIsRunningOnce(ws: char -> bool, lines: Lines, d: Range, o: Range, n: Range, p: Lines, q: Lines)
    requires ws('\n') && ThreeSections(ws, lines, d, o, n) && d.from <= d.to <= |lines|
    requires Copied(ws, lines[d.from..d.to], p, q)
    ensures Rewritten(ws, YaccLayout(ws), lines).Some?
    ensures var layout := YaccLayout(ws);
            Rewritten(ws, layout, Rewritten(ws, layout, lines).value) == Rewritten(ws, layout, lines)
            <==> NoneEnds(ws, p, "#--! parseopt-end") && NoneEnds(ws, q, "#--! parseopt-notrack-end")
  {
    hide First, Filtered, SourceRange, Spliced, Opt, NoTrack, NoneOf, YaccLayout, TidyAll, InOrder, BlindLayout;
    hide ThreeSections, Copied, NoneEnds;
    var layout := YaccLayout(ws);
    LayoutOf(ws, lines, d, o, n, p, q);
    SecondRun(layout, lines, d, o, n);
    YaccIsBlind(ws);
    var once := Spliced(layout, lines).value;
    var twice := Spliced(layout, once).value;
    SplicedTidy(ws, layout, once);
    TidyTwice(ws, twice);
    assert Rewritten(ws, layout, TidyAll(ws, once)) == Some(TidyAll(ws, twice));
    assert |TidyAll(ws, once)| == |once| && |TidyAll(ws, twice)| == |twice|;
  }

  /** How many lines every run after the first adds: those from the first that looks like an end marker on. */
  function Added(ws: char -> bool, p: Lines, q: Lines): nat {
    var inP := Stop(EndsWithTag(ws, "#--! parseopt-end"), p);
    var inQ := Stop(EndsWithTag(ws, "#--! parseopt-notrack-end"), q);
    (|p| - inP) + (|q| - inQ)
  }

  lemma SameStop(p: Marker, q: Marker, body: Lines)
    requires forall line :: p(line) <==> q(line)
    ensures Stop(p, body) == Stop(q, body)
  {
    var a, b := Stop(p, body), Stop(q, body);
  }

  lemma GrowthIsAdded(ws: char -> bool, lines: Lines, p: Lines, q: Lines)
    requires var layout := YaccLayout(ws); Opt(layout, lines) == p && NoTrack(layout, lines) == q
    ensures Growth(YaccLayout(ws), lines) == Added(ws, p, q)
  {
    hide Strip, EndsWith, SourceRange, Filtered, StartsWithTag, YaccSection, Stop, YaccLayout;
    ParseoptSpelled(ws);
    NoTrackSpelled(ws);
    SameStop(YaccLayout(ws).parseopt.end, EndsWithTag(ws, "#--! parseopt-end"), p);
    SameStop(YaccLayout(ws).notrack.end, EndsWithTag(ws, "#--! parseopt-notrack-end"), q);
  }

  /** k runs give so many lines more than one. */
  ghost predicate AddsLines(ws: char -> bool, layout: Layout, lines: Lines, k: nat, more: int) {
    var one, all := Rewrites(ws, layout, lines, 1), Rewrites(ws, layout, lines, k);
    one.Some? && all.Some? && |all.value| == |one.value| + more
  }

  /** Every run after the first adds the same number of lines. */
  lemma EveryRunAdds(ws: char -> bool, lines: Lines, d: Range, o: Range, n: Range, p: Lines, q: Lines, k: nat)
    requires ws('\n') && ThreeSections(ws, lines, d, o, n) && d.from <= d.to <= |lines| && k > 0
    requires Copied(ws, lines[d.from..d.to], p, q)
    ensures AddsLines(ws, YaccLayout(ws), lines, k, (k - 1) * Added(ws, p, q))
  {
    hide TidyAll, Spliced, BlindLayout, InOrder, YaccLayout, NoneOf, Opt, NoTrack, ThreeSections, Copied, NoneEnds;
    hide Growth, Added;
    var layout := YaccLayout(ws);
    LayoutOf(ws, lines, d, o, n, p, q);
    GrowthIsAdded(ws, lines, p, q);
    YaccIsBlind(ws);
    RunsGrow(layout, lines, d, o, n, 1);
    RunsGrow(layout, lines, d, o, n, k);
    RewritesAreRuns(ws, layout, lines, 1);
    RewritesAreRuns(ws, layout, lines, k);
  }

  /** And that number is 0 exactly if the second run changes nothing. */
  lemma NothingIsAdded(ws: char -> bool, p: Lines, q: Lines)
    ensures Added(ws, p, q) == 0
            <==> NoneEnds(ws, p, "#--! parseopt-end") && NoneEnds(ws, q, "#--! parseopt-notrack-end")
  {
    hide Strip, EndsWith;
    EndsOf(ws, p, "#--! parseopt-end");
    EndsOf(ws, q, "#--! parseopt-notrack-end");
  }

  lemma EndsOf(ws: char -> bool, lines: Lines, tag: string)
    ensures Stop(EndsWithTag(ws, tag), lines) == |lines| <==> NoneEnds(ws, lines, tag)
  {
    hide Strip, EndsWith;
  }
}
