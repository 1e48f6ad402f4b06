/** The generator that derives two variants of a parsing function inside its own source file. */
module Ygen {
  import opened Strings

  type Lines = seq<string>
  type Marker = string -> bool

  // ---- strings ----

  function RStrip(ws: char -> bool, s: string): string {
    if s != "" && ws(s[|s| - 1]) then RStrip(ws, s[..|s| - 1]) else s
  }

  function LStrip(ws: char -> bool, s: string): string {
    if s != "" && ws(s[0]) then LStrip(ws, s[1..]) else s
  }

  function Strip(ws: char -> bool, s: string): string { LStrip(ws, RStrip(ws, s)) }

  predicate EndsWith(s: string, tail: string) { |tail| <= |s| && s[|s| - |tail|..] == tail }

  /** The lines whose stripped text starts with tag; ws says which characters are white space. */
  function StartsWithTag(ws: char -> bool, tag: string): Marker { (line: string) => tag <= Strip(ws, line) }

  function EndsWithTag(ws: char -> bool, tag: string): Marker { (line: string) => EndsWith(Strip(ws, line), tag) }

  /** A line as it is written back. */
  function Tidy(ws: char -> bool, line: string): string { RStrip(ws, line) + "\n" }

  function TidyAll(ws: char -> bool, lines: Lines): (r: Lines)
    ensures |r| == |lines|
    ensures forall i :: 0 <= i < |lines| ==> r[i] == Tidy(ws, lines[i])
  {
    if lines == [] then [] else [Tidy(ws, lines[0])] + TidyAll(ws, lines[1..])
  }

  // ---- sections ----

  datatype Section = Section(start: Marker, end: Marker)
  datatype Range = Range(from: nat, to: nat)

  function First(p: Marker, lines: Lines, from: nat): (r: Option<nat>)
    ensures r.Some? ==> from <= r.value < |lines| && p(lines[r.value])
    ensures r.Some? ==> forall i :: from <= i < r.value ==> !p(lines[i])
    ensures r.None? ==> forall i :: from <= i < |lines| ==> !p(lines[i])
    decreases |lines| - from
  {
    if from >= |lines| then None else if p(lines[from]) then Some(from) else First(p, lines, from + 1)
  }

  /**
   Lines between a start and an end marker. Without an end marker the last line stands in for
   it; None is the unbound variable that is left when no line comes after the start marker.
   */
  function SourceRange(lines: Lines, section: Section): (r: Option<Range>)
    ensures r.Some? ==> 0 < r.value.from <= r.value.to < |lines|
  {
    match First(section.start, lines, 0)
    case None => None
    case Some(start) =>
      if start + 1 == |lines| then None
      else
        match First(section.end, lines, start + 1)
        case None => Some(Range(start + 1, |lines| - 1))
        case Some(end) => Some(Range(start + 1, end))
  }

  /** The first line from on for which p holds is at. */
  ghost predicate FirstAt(p: Marker, lines: Lines, from: nat, at: nat) {
    from <= at < |lines| && p(lines[at]) && forall i :: from <= i < at ==> !p(lines[i])
  }

  /** No line from on is marked. */
  ghost predicate Unmarked(p: Marker, lines: Lines, from: nat) {
    forall i :: from <= i < |lines| ==> !p(lines[i])
  }

  /** r when the first start marker is at s. */
  ghost predicate RangeAfter(lines: Lines, section: Section, s: nat, r: Option<Range>) {
    if s + 1 >= |lines| then r == None
    else if Unmarked(section.end, lines, s + 1) then r == Some(Range(s + 1, |lines| - 1))
    else r.Some? && r.value.from == s + 1 && FirstAt(section.end, lines, s + 1, r.value.to)
  }

  ghost predicate IsRangeOf(lines: Lines, section: Section, r: Option<Range>) {
    && (Unmarked(section.start, lines, 0) ==> r == None)
    && forall s: nat :: FirstAt(section.start, lines, 0, s) ==> RangeAfter(lines, section, s, r)
  }

  lemma SourceRangeIs(lines: Lines, section: Section)
    ensures IsRangeOf(lines, section, SourceRange(lines, section))
  {
    hide First;
    forall s: nat | FirstAt(section.start, lines, 0, s)
      ensures RangeAfter(lines, section, s, SourceRange(lines, section))
    {
      FirstIs(section.start, lines, 0, s);
    }
  }

  method GetSourceRange(lines: Lines, section: Section) returns (r: Option<Range>)
    ensures r == SourceRange(lines, section)
    ensures IsRangeOf(lines, section, r)
  {
    hide IsRangeOf;
    SourceRangeIs(lines, section);
    // next is the position of the iterator that both loops advance
    var next := 0;
    var startIndex: Option<nat> := None;
    while next < |lines|
      invariant next <= |lines|
      invariant startIndex == if next == 0 then None else Some(next - 1)
      invariant First(section.start, lines, 0) == First(section.start, lines, next)
    {
      startIndex := Some(next);
      next := next + 1;
      if section.start(lines[next - 1]) {
        break;
      }
    }
    var endIndex: Option<nat> := None;
    ghost var begin := next;
    while next < |lines|
      invariant begin <= next <= |lines|
      invariant endIndex == if next == begin then None else Some(next - 1)
      invariant First(section.end, lines, begin) == First(section.end, lines, next)
    {
      endIndex := Some(next);
      next := next + 1;
      if section.end(lines[next - 1]) {
        break;
      }
    }
    r := if startIndex.None? || endIndex.None? then None else Some(Range(startIndex.value + 1, endIndex.value));
  }

  /** Drops the lines between each pair of marked lines, and the marked lines. */
  function Filtered(p: Marker, lines: Lines, keep: bool): (r: Lines)
    ensures forall line :: line in r ==> line in lines && !p(line)
  {
    if lines == [] then []
    else if p(lines[0]) then Filtered(p, lines[1..], !keep)
    else (if keep then [lines[0]] else []) + Filtered(p, lines[1..], keep)
  }

  method FilterSection(p: Marker, lines: Lines) returns (filtered: Lines)
    ensures filtered == Filtered(p, lines, true)
  {
    hide Filtered;
    filtered := [];
    var keep := true;
    NothingFiltered(p, lines);
    for i := 0 to |lines|
      invariant Filtered(p, lines, true) == filtered + Filtered(p, lines[i..], keep)
    {
      FilteredStep(p, lines, i, keep, filtered);
      if p(lines[i]) {
        keep := !keep;
      } else if keep {
        filtered := filtered + [lines[i]];
      }
    }
    NoneLeft(p, lines, keep, filtered);
  }

  lemma NothingFiltered(p: Marker, lines: Lines)
    ensures Filtered(p, lines, true) == [] + Filtered(p, lines[0..], true)
  {
    assert lines[0..] == lines;
  }

  lemma FilteredStep(p: Marker, lines: Lines, i: nat, keep: bool, filtered: Lines)
    requires i < |lines|
    ensures var rest := lines[i + 1..];
            filtered + Filtered(p, lines[i..], keep)
            == if p(lines[i]) then filtered + Filtered(p, rest, !keep)
               else (if keep then filtered + [lines[i]] else filtered) + Filtered(p, rest, keep)
  {
    assert lines[i..][0] == lines[i] && lines[i..][1..] == lines[i + 1..];
    var rest := Filtered(p, lines[i + 1..], keep);
    assert filtered + ([lines[i]] + rest) == (filtered + [lines[i]]) + rest;
    assert [] + rest == rest;
  }

  lemma NoneLeft(p: Marker, lines: Lines, keep: bool, filtered: Lines)
    ensures filtered + Filtered(p, lines[|lines|..], keep) == filtered
  {
    assert lines[|lines|..] == [];
  }

  // ---- the rewrite ----

  /** lines[from:to] = replacement, with Python's clamping of slice bounds. */
  function Splice(lines: Lines, range: Range, replacement: Lines): Lines {
    var from := if range.from <= |lines| then range.from else |lines|;
    var to := if range.to < from then from else if range.to <= |lines| then range.to else |lines|;
    lines[..from] + replacement + lines[to..]
  }

  datatype Layout = Layout(parsedebug: Section, parseopt: Section, notrack: Section, debug: Marker, tracking: Marker)

  function Opt(layout: Layout, lines: Lines): Lines {
    match SourceRange(lines, layout.parsedebug)
    case None => []
    case Some(r) => Filtered(layout.debug, lines[r.from..r.to], true)
  }

  function NoTrack(layout: Layout, lines: Lines): Lines { Filtered(layout.tracking, Opt(layout, lines), true) }

  function Spliced(layout: Layout, lines: Lines): Option<Lines> {
    var d, o, n := SourceRange(lines, layout.parsedebug), SourceRange(lines, layout.parseopt),
        SourceRange(lines, layout.notrack);
    if d.None? || o.None? || n.None? then None
    else Some(Splice(Splice(lines, n.value, NoTrack(layout, lines)), o.value, Opt(layout, lines)))
  }

  function Rewritten(ws: char -> bool, layout: Layout, lines: Lines): Option<Lines> {
    match Spliced(layout, lines)
    case None => None
    case Some(spliced) => Some(TidyAll(ws, spliced))
  }

  function YaccSection(ws: char -> bool, tag: string): Section {
    Section(StartsWithTag(ws, "#--! " + tag + "-start"), EndsWithTag(ws, "#--! " + tag + "-end"))
  }

  function YaccLayout(ws: char -> bool): Layout {
    Layout(YaccSection(ws, "parsedebug"), YaccSection(ws, "parseopt"), YaccSection(ws, "parseopt-notrack"),
           StartsWithTag(ws, "#--! DEBUG"), StartsWithTag(ws, "#--! TRACKING"))
  }

  // ---- what is copied ----

  lemma FirstIs(p: Marker, lines: Lines, from: nat, at: nat)
    requires from <= at < |lines| && p(lines[at])
    requires forall i :: from <= i < at ==> !p(lines[i])
    ensures First(p, lines, from) == Some(at)
  {
    var f := First(p, lines, from);
  }

  /** The range of a section whose markers are at from - 1 and to. */
  lemma RangeIs(lines: Lines, section: Section, from: nat, to: nat)
    requires 0 < from <= to < |lines|
    requires section.start(lines[from - 1]) && forall i :: 0 <= i < from - 1 ==> !section.start(lines[i])
    requires section.end(lines[to]) && forall i :: from <= i < to ==> !section.end(lines[i])
    ensures SourceRange(lines, section) == Some(Range(from, to))
  {
    hide First;
    FirstIs(section.start, lines, 0, from - 1);
    FirstIs(section.end, lines, from, to);
  }

  lemma RangeMeans(lines: Lines, section: Section, r: Range)
    requires SourceRange(lines, section) == Some(r) && section.end(lines[r.to])
    ensures 0 < r.from <= r.to < |lines|
    ensures section.start(lines[r.from - 1]) && forall i :: 0 <= i < r.from - 1 ==> !section.start(lines[i])
    ensures forall i :: r.from <= i < r.to ==> !section.end(lines[i])
  {
  }

  /** Three closed sections in the order in which the generator expects them. */
  ghost predicate InOrder(layout: Layout, lines: Lines, d: Range, o: Range, n: Range) {
    && SourceRange(lines, layout.parsedebug) == Some(d) && layout.parsedebug.end(lines[d.to])
    && SourceRange(lines, layout.parseopt) == Some(o) && layout.parseopt.end(lines[o.to])
    && SourceRange(lines, layout.notrack) == Some(n) && layout.notrack.end(lines[n.to])
    && d.to < o.from && o.to < n.from
  }

  /** What the first run produces, piece by piece. */
  lemma FirstRun(layout: Layout, lines: Lines, d: Range, o: Range, n: Range)
    requires InOrder(layout, lines, d, o, n)
    ensures Spliced(layout, lines)
            == Some(lines[..o.from] + Opt(layout, lines) + lines[o.to..n.from] + NoTrack(layout, lines) + lines[n.to..])
  {
    hide First, Filtered, SourceRange;
    RangeMeans(lines, layout.parsedebug, d);
    RangeMeans(lines, layout.parseopt, o);
    RangeMeans(lines, layout.notrack, n);
    var p, q := Opt(layout, lines), NoTrack(layout, lines);
    var once := lines[..n.from] + q + lines[n.to..];
    assert Splice(lines, n, q) == once;
    assert once[..o.from] == lines[..o.from] && once[o.to..] == lines[o.to..n.from] + q + lines[n.to..];
    assert Splice(once, o, p) == once[..o.from] + p + once[o.to..];
    assert lines[..o.from] + p + (lines[o.to..n.from] + q + lines[n.to..])
        == lines[..o.from] + p + lines[o.to..n.from] + q + lines[n.to..];
  }

  lemma InOrderRanges(layout: Layout, lines: Lines, d: Range, o: Range, n: Range)
    requires InOrder(layout, lines, d, o, n)
    ensures 0 < d.from <= d.to < o.from <= o.to < n.from <= n.to < |lines|
  {
    RangeMeans(lines, layout.parsedebug, d);
    RangeMeans(lines, layout.parseopt, o);
    RangeMeans(lines, layout.notrack, n);
  }

  /** The first line that starts with start is right before r, the first after it that ends with end right behind. */
  ghost predicate Between(ws: char -> bool, lines: Lines, start: string, end: string, r: Range) {
    && 0 < r.from <= r.to < |lines|
    && start <= Strip(ws, lines[r.from - 1]) && (forall i :: 0 <= i < r.from - 1 ==> !(start <= Strip(ws, lines[i])))
    && EndsWith(Strip(ws, lines[r.to]), end)
    && forall i :: r.from <= i < r.to ==> !EndsWith(Strip(ws, lines[i]), end)
  }

  /** The three sections, in order. */
  ghost predicate ThreeSections(ws: char -> bool, lines: Lines, d: Range, o: Range, n: Range) {
    && Between(ws, lines, "#--! parsedebug-start", "#--! parsedebug-end", d)
    && Between(ws, lines, "#--! parseopt-start", "#--! parseopt-end", o)
    && Between(ws, lines, "#--! parseopt-notrack-start", "#--! parseopt-notrack-end", n)
    && d.to < o.from && o.to < n.from
  }

  ghost predicate NoneStarts(ws: char -> bool, lines: Lines, tag: string) {
    forall line :: line in lines ==> !(tag <= Strip(ws, line))
  }

  /** p is what parseopt gets from body, q what the variant without tracking gets. */
  ghost predicate Copied(ws: char -> bool, body: Lines, p: Lines, q: Lines) {
    && NoneStarts(ws, p, "#--! DEBUG") && NoneStarts(ws, q, "#--! DEBUG") && NoneStarts(ws, q, "#--! TRACKING")
    && p == Filtered(StartsWithTag(ws, "#--! DEBUG"), body, true)
    && q == Filtered(StartsWithTag(ws, "#--! TRACKING"), p, true)
    && (NoneStarts(ws, body, "#--! DEBUG") ==> p == body)
    && (NoneStarts(ws, p, "#--! TRACKING") ==> q == p)
  }

  /** The parts of the file between the sections are kept, and white space at the end of a line is not. */
  ghost predicate Replaced(ws: char -> bool, lines: Lines, o: Range, n: Range, p: Lines, q: Lines, output: Lines) {
    && o.from <= o.to <= n.from <= n.to <= |lines|
    && output == TidyAll(ws, lines[..o.from] + p + lines[o.to..n.from] + q + lines[n.to..])
  }

  ghost predicate Regenerated(ws: char -> bool, lines: Lines, d: Range, o: Range, n: Range, output: Option<Lines>) {
    && output.Some? && d.from <= d.to <= |lines|
    && exists p, q :: Copied(ws, lines[d.from..d.to], p, q) && Replaced(ws, lines, o, n, p, q, output.value)
  }

  lemma {:induction false} NothingToFilter(p: Marker, lines: Lines)
    requires forall line :: line in lines ==> !p(line)
    ensures Filtered(p, lines, true) == lines
  {
    if lines != [] {
      assert forall line :: line in lines[1..] ==> line in lines;
      NothingToFilter(p, lines[1..]);
    }
  }

  /** The markers of a section, spelled out. */
  ghost predicate Spelled(ws: char -> bool, section: Section, start: string, end: string) {
    && (forall line :: section.start(line) <==> start <= Strip(ws, line))
    && (forall line :: section.end(line) <==> EndsWith(Strip(ws, line), end))
  }

  lemma SectionSpelled(ws: char -> bool, tag: string, start: string, end: string)
    requires start == "#--! " + tag + "-start" && end == "#--! " + tag + "-end"
    ensures Spelled(ws, YaccSection(ws, tag), start, end)
  {
    hide Strip, EndsWith;
  }

  lemma ParsedebugTags()
    ensures "#--! " + "parsedebug" + "-start" == "#--! parsedebug-start"
    ensures "#--! " + "parsedebug" + "-end" == "#--! parsedebug-end"
  {
  }

  lemma ParseoptTags()
    ensures "#--! " + "parseopt" + "-start" == "#--! parseopt-start"
    ensures "#--! " + "parseopt" + "-end" == "#--! parseopt-end"
  {
  }

  lemma NoTrackTags()
    ensures "#--! " + "parseopt-notrack" + "-start" == "#--! parseopt-notrack-start"
    ensures "#--! " + "parseopt-notrack" + "-end" == "#--! parseopt-notrack-end"
  {
  }

  lemma ParsedebugSpelled(ws: char -> bool)
    ensures Spelled(ws, YaccLayout(ws).parsedebug, "#--! parsedebug-start", "#--! parsedebug-end")
  {
    hide Spelled, YaccSection, StartsWithTag, EndsWithTag;
    ParsedebugTags();
    SectionSpelled(ws, "parsedebug", "#--! parsedebug-start", "#--! parsedebug-end");
  }

  lemma ParseoptSpelled(ws: char -> bool)
    ensures Spelled(ws, YaccLayout(ws).parseopt, "#--! parseopt-start", "#--! parseopt-end")
  {
    hide Spelled, YaccSection, StartsWithTag, EndsWithTag;
    ParseoptTags();
    SectionSpelled(ws, "parseopt", "#--! parseopt-start", "#--! parseopt-end");
  }

  lemma NoTrackSpelled(ws: char -> bool)
    ensures Spelled(ws, YaccLayout(ws).notrack, "#--! parseopt-notrack-start", "#--! parseopt-notrack-end")
  {
    hide Spelled, YaccSection, StartsWithTag, EndsWithTag;
    NoTrackTags();
    SectionSpelled(ws, "parseopt-notrack", "#--! parseopt-notrack-start", "#--! parseopt-notrack-end");
  }

  lemma BetweenIsRange(ws: char -> bool, lines: Lines, section: Section, start: string, end: string, r: Range)
    requires Spelled(ws, section, start, end) && Between(ws, lines, start, end, r)
    ensures SourceRange(lines, section) == Some(r) && section.end(lines[r.to])
  {
    hide First, Strip, EndsWith, SourceRange;
    RangeIs(lines, section, r.from, r.to);
  }

  lemma ThreeInOrder(ws: char -> bool, lines: Lines, d: Range, o: Range, n: Range)
    requires ThreeSections(ws, lines, d, o, n)
    ensures InOrder(YaccLayout(ws), lines, d, o, n)
  {
    hide SourceRange, Spelled, Between, YaccLayout;
    var layout := YaccLayout(ws);
    ParsedebugSpelled(ws);
    ParseoptSpelled(ws);
    NoTrackSpelled(ws);
    BetweenIsRange(ws, lines, layout.parsedebug, "#--! parsedebug-start", "#--! parsedebug-end", d);
    BetweenIsRange(ws, lines, layout.parseopt, "#--! parseopt-start", "#--! parseopt-end", o);
    BetweenIsRange(ws, lines, layout.notrack, "#--! parseopt-notrack-start", "#--! parseopt-notrack-end", n);
  }

  lemma FilteredOf(ws: char -> bool, tag: string, lines: Lines)
    ensures NoneStarts(ws, Filtered(StartsWithTag(ws, tag), lines, true), tag)
    ensures NoneStarts(ws, lines, tag) ==> Filtered(StartsWithTag(ws, tag), lines, true) == lines
    ensures forall other :: NoneStarts(ws, lines, other) ==>
              NoneStarts(ws, Filtered(StartsWithTag(ws, tag), lines, true), other)
  {
    hide Filtered, Strip;
    if NoneStarts(ws, lines, tag) {
      NothingToFilter(StartsWithTag(ws, tag), lines);
    }
  }

  lemma CopiesOf(ws: char -> bool, body: Lines) returns (p: Lines, q: Lines)
    ensures p == Filtered(StartsWithTag(ws, "#--! DEBUG"), body, true)
    ensures q == Filtered(StartsWithTag(ws, "#--! TRACKING"), p, true)
    ensures Copied(ws, body, p, q)
  {
    hide Filtered, Strip, StartsWithTag, NoneStarts;
    p := Filtered(StartsWithTag(ws, "#--! DEBUG"), body, true);
    q := Filtered(StartsWithTag(ws, "#--! TRACKING"), p, true);
    FilteredOf(ws, "#--! DEBUG", body);
    FilteredOf(ws, "#--! TRACKING", p);
  }

  lemma ThreeRegenerated(ws: char -> bool, lines: Lines, d: Range, o: Range, n: Range)
    requires ThreeSections(ws, lines, d, o, n)
    ensures Regenerated(ws, lines, d, o, n, Rewritten(ws, YaccLayout(ws), lines))
  {
    hide SourceRange, Filtered, TidyAll, Spliced, StartsWithTag, EndsWithTag, Strip, Copied, NoneStarts, EndsWith;
    ThreeInOrder(ws, lines, d, o, n);
    var layout := YaccLayout(ws);
    InOrderRanges(layout, lines, d, o, n);
    FirstRun(layout, lines, d, o, n);
    var p, q := CopiesOf(ws, lines[d.from..d.to]);
    assert Replaced(ws, lines, o, n, p, q, Rewritten(ws, layout, lines).value);
  }

  /** A line before the last one starts with start. */
  ghost predicate HasStart(ws: char -> bool, lines: Lines, start: string) {
    exists s :: 0 <= s < |lines| - 1 && start <= Strip(ws, lines[s])
  }

  lemma WhenRanged(ws: char -> bool, lines: Lines, section: Section, start: string, end: string)
    requires Spelled(ws, section, start, end)
    ensures SourceRange(lines, section).Some? <==> HasStart(ws, lines, start)
  {
    hide First, Strip, EndsWith;
    var first := First(section.start, lines, 0);
    if HasStart(ws, lines, start) {
      var s :| 0 <= s < |lines| - 1 && start <= Strip(ws, lines[s]);
      assert section.start(lines[s]);
    }
  }

  /** The program stops before it writes if a section does not start, or starts in the last line. */
  lemma WhenRewritten(ws: char -> bool, lines: Lines)
    ensures Rewritten(ws, YaccLayout(ws), lines).Some? <==>
            && HasStart(ws, lines, "#--! parsedebug-start") && HasStart(ws, lines, "#--! parseopt-start")
            && HasStart(ws, lines, "#--! parseopt-notrack-start")
  {
    hide SourceRange, Spelled, HasStart, YaccLayout, TidyAll, Splice, Filtered;
    var layout := YaccLayout(ws);
    ParsedebugSpelled(ws);
    ParseoptSpelled(ws);
    NoTrackSpelled(ws);
    WhenRanged(ws, lines, layout.parsedebug, "#--! parsedebug-start", "#--! parsedebug-end");
    WhenRanged(ws, lines, layout.parseopt, "#--! parseopt-start", "#--! parseopt-end");
    WhenRanged(ws, lines, layout.notrack, "#--! parseopt-notrack-start", "#--! parseopt-notrack-end");
  }

  /** The main program between reading the lines and writing them back. */
  method RewriteYacc(ws: char -> bool, input: Lines) returns (output: Option<Lines>)
    ensures output == Rewritten(ws, YaccLayout(ws), input)
    ensures output.Some? <==>
            && HasStart(ws, input, "#--! parsedebug-start") && HasStart(ws, input, "#--! parseopt-start")
            && HasStart(ws, input, "#--! parseopt-notrack-start")
    ensures forall d, o, n :: ThreeSections(ws, input, d, o, n) ==> Regenerated(ws, input, d, o, n, output)
  {
    hide IsRangeOf, YaccLayout, Filtered, SourceRange, Splice, TidyAll, ThreeSections, Regenerated, HasStart;
    WhenRewritten(ws, input);
    forall d, o, n | ThreeSections(ws, input, d, o, n)
      ensures Regenerated(ws, input, d, o, n, Rewritten(ws, YaccLayout(ws), input))
    {
      ThreeRegenerated(ws, input, d, o, n);
    }
    var layout := YaccLayout(ws);
    var lines := input;
    var parse := GetSourceRange(lines, layout.parsedebug);
    if parse.None? { return None; }
    var parseopt := GetSourceRange(lines, layout.parseopt);
    if parseopt.None? { return None; }
    var notrack := GetSourceRange(lines, layout.notrack);
    if notrack.None? { return None; }
    var orig := lines[parse.value.from..parse.value.to];
    var parseoptLines := FilterSection(layout.debug, orig);
    var notrackLines := FilterSection(layout.tracking, parseoptLines);
    lines := Splice(lines, notrack.value, notrackLines);
    lines := Splice(lines, parseopt.value, parseoptLines);
    output := Some(TidyAll(ws, lines));
  }
}
