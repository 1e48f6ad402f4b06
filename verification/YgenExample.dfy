/**
 Two files: one with a pair of debugging marks and a pair of tracking marks, and one that every
 run makes longer.
 */
module YgenExample {
  import opened Strings
  import opened Ygen
  import opened YgenLaws
  import opened YgenTheorems

  function TaggedFile(): Lines {
    ["#--! parsedebug-start", "a", "#--! DEBUG", "b", "#--! DEBUG", "#--! TRACKING", "c", "#--! TRACKING",
     "#--! parsedebug-end", "#--! parseopt-start", "#--! parseopt-end", "#--! parseopt-notrack-start",
     "#--! parseopt-notrack-end"]
  }

  function RewrittenFile(): Lines {
    ["#--! parsedebug-start", "a", "#--! DEBUG", "b", "#--! DEBUG", "#--! TRACKING", "c", "#--! TRACKING",
     "#--! parsedebug-end", "#--! parseopt-start", "a", "#--! TRACKING", "c", "#--! TRACKING", "#--! parseopt-end",
     "#--! parseopt-notrack-start", "a", "#--! parseopt-notrack-end"]
  }

  predicate Blank(c: char) { c == ' ' || c == '\n' }

  lemma StripBare(s: string)
    requires Bare(s)
    ensures Strip(Blank, s) == s
  {
  }

  predicate Bare(s: string) { s != "" && !Blank(s[0]) && !Blank(s[|s| - 1]) }

  /** Each of the first lines differs from tag somewhere. */
  lemma NoneStartsWith(f: Lines, tag: string, n: nat, at: seq<nat>)
    requires |at| == n <= |f|
    requires forall i :: 0 <= i < n ==> at[i] < |tag| && at[i] < |f[i]| && tag[at[i]] != f[i][at[i]] && Bare(f[i])
    ensures forall i :: 0 <= i < n ==> !(tag <= Strip(Blank, f[i]))
  {
    hide Strip;
    forall i | 0 <= i < n ensures !(tag <= Strip(Blank, f[i])) {
      StripBare(f[i]);
    }
  }

  /** Each of the lines up to the end differs from tag somewhere, counted from the end. */
  lemma NoneEndsWith(f: Lines, tag: string, from: nat, to: nat, at: seq<nat>)
    requires from <= to <= |f| && |at| == to - from
    requires forall i :: from <= i < to ==> Bare(f[i]) && at[i - from] < |tag| && at[i - from] < |f[i]|
                                            && f[i][|f[i]| - 1 - at[i - from]] != tag[|tag| - 1 - at[i - from]]
    ensures forall i :: from <= i < to ==> !EndsWith(Strip(Blank, f[i]), tag)
  {
    hide Strip;
    forall i | from <= i < to ensures !EndsWith(Strip(Blank, f[i]), tag) {
      StripBare(f[i]);
      var k := at[i - from];
      if |tag| <= |f[i]| {
        assert f[i][|f[i]| - |tag|..][|tag| - 1 - k] == f[i][|f[i]| - 1 - k];
      }
    }
  }

  lemma WholeLine(s: string)
    requires Bare(s)
    ensures s <= Strip(Blank, s) && EndsWith(Strip(Blank, s), s)
  {
    hide Strip;
    StripBare(s);
    assert s[0..] == s;
  }

  lemma DebugSection()
    ensures Between(Blank, TaggedFile(), "#--! parsedebug-start", "#--! parsedebug-end", Range(1, 8))
  {
    hide Strip, EndsWith;
    WholeLine("#--! parsedebug-start");
    WholeLine("#--! parsedebug-end");
    NoneEndsWith(TaggedFile(), "#--! parsedebug-end", 1, 8, [0, 0, 0, 0, 0, 0, 0]);
  }

  lemma OptSection()
    ensures Between(Blank, TaggedFile(), "#--! parseopt-start", "#--! parseopt-end", Range(10, 10))
  {
    hide Strip, EndsWith;
    WholeLine("#--! parseopt-start");
    WholeLine("#--! parseopt-end");
    NoneStartsWith(TaggedFile(), "#--! parseopt-start", 9, [10, 0, 5, 0, 5, 5, 0, 5, 10]);
  }

  lemma NoTrackSection()
    ensures Between(Blank, TaggedFile(), "#--! parseopt-notrack-start", "#--! parseopt-notrack-end", Range(12, 12))
  {
    hide Strip, EndsWith;
    WholeLine("#--! parseopt-notrack-start");
    WholeLine("#--! parseopt-notrack-end");
    NoneStartsWith(TaggedFile(), "#--! parseopt-notrack-start", 11, [10, 0, 5, 0, 5, 5, 0, 5, 10, 14, 14]);
  }

  /** What is between the first marks goes from both copies, what is between the second from one. */
  lemma BothCopies(debug: Marker, tracking: Marker, a: string, d: string, b: string, t: string, c: string, p: Lines)
    requires debug(d) && !debug(a) && !debug(b) && !debug(t) && !debug(c)
    requires tracking(t) && !tracking(a) && !tracking(c)
    requires p == Filtered(debug, [a, d, b, d, t, c, t], true)
    ensures p == [a, t, c, t] && Filtered(tracking, p, true) == [a]
  {
    hide Filtered;
    PairIsDropped(debug, [a], d, [b], d, [t, c, t]);
    NothingToFilter(debug, [t, c, t]);
    assert [a, d, b, d, t, c, t] == [a] + [d] + [b] + [d] + [t, c, t];
    PairIsDropped(tracking, [a], t, [c], t, []);
    NothingToFilter(tracking, []);
    assert [a, t, c, t] == [a] + [t] + [c] + [t] + [];
  }

  lemma Tagged(tag: string, s: string)
    requires Bare(s)
    ensures StartsWithTag(Blank, tag)(s) <==> tag <= s
  {
    hide Strip;
    StripBare(s);
  }

  lemma DebugMarks()
    ensures var debug := StartsWithTag(Blank, "#--! DEBUG");
            debug("#--! DEBUG") && !debug("a") && !debug("b") && !debug("#--! TRACKING") && !debug("c")
  {
    hide StartsWithTag;
    Tagged("#--! DEBUG", "#--! DEBUG");
    Tagged("#--! DEBUG", "a");
    Tagged("#--! DEBUG", "b");
    Tagged("#--! DEBUG", "#--! TRACKING");
    Tagged("#--! DEBUG", "c");
    assert "#--! DEBUG"[5] != "#--! TRACKING"[5];
  }

  lemma TrackingMarks()
    ensures var tracking := StartsWithTag(Blank, "#--! TRACKING");
            tracking("#--! TRACKING") && !tracking("a") && !tracking("c")
  {
    hide StartsWithTag;
    Tagged("#--! TRACKING", "#--! TRACKING");
    Tagged("#--! TRACKING", "a");
    Tagged("#--! TRACKING", "c");
  }

  lemma Spread(f: Lines, body: Lines, p: Lines, q: Lines)
    requires f == TaggedFile() && body == f[1..8]
    ensures body == ["a", "#--! DEBUG", "b", "#--! DEBUG", "#--! TRACKING", "c", "#--! TRACKING"]
    ensures p == ["a", "#--! TRACKING", "c", "#--! TRACKING"] && q == ["a"] ==>
              f[..10] + p + f[10..12] + q + f[12..] == RewrittenFile()
  {
  }

  lemma TidyBare(lines: Lines)
    requires forall i :: 0 <= i < |lines| ==> Bare(lines[i])
    ensures TidyAll(Blank, lines) == seq(|lines|, i requires 0 <= i < |lines| => lines[i] + "\n")
  {
    hide TidyAll;
  }

  /** The debugging lines are in neither copy, and the tracking lines in the first one only. */
  lemma FileIsRewritten()
    ensures var lines := RewrittenFile();
            Rewritten(Blank, YaccLayout(Blank), TaggedFile())
            == Some(seq(|lines|, i requires 0 <= i < |lines| => lines[i] + "\n"))
  {
    hide Between, Rewritten, YaccLayout, StartsWithTag, NoneStarts, Filtered, TidyAll, TaggedFile, RewrittenFile;
    var f := TaggedFile();
    DebugSection();
    OptSection();
    NoTrackSection();
    ThreeRegenerated(Blank, f, Range(1, 8), Range(10, 10), Range(12, 12));
    var output := Rewritten(Blank, YaccLayout(Blank), f).value;
    var p, q :| Copied(Blank, f[1..8], p, q) && Replaced(Blank, f, Range(10, 10), Range(12, 12), p, q, output);
    Spread(f, f[1..8], p, q);
    DebugMarks();
    TrackingMarks();
    BothCopies(StartsWithTag(Blank, "#--! DEBUG"), StartsWithTag(Blank, "#--! TRACKING"),
               "a", "#--! DEBUG", "b", "#--! TRACKING", "c", p);
    AllBare();
    TidyBare(RewrittenFile());
  }

  lemma AllBare()
    ensures forall i :: 0 <= i < |RewrittenFile()| ==> Bare(RewrittenFile()[i])
  {
  }

  // ---- a file that grows ----

  /** The debugging section ends its line with another section's end marker. */
  function GrowingFile(): Lines {
    ["#--! parsedebug-start", "x #--! parseopt-end", "#--! parsedebug-end",
     "#--! parseopt-start", "#--! parseopt-end", "#--! parseopt-notrack-start", "#--! parseopt-notrack-end"]
  }

  lemma GrowingDebug()
    ensures Between(Blank, GrowingFile(), "#--! parsedebug-start", "#--! parsedebug-end", Range(1, 2))
  {
    hide Strip, EndsWith;
    WholeLine("#--! parsedebug-start");
    WholeLine("#--! parsedebug-end");
    NoneEndsWith(GrowingFile(), "#--! parsedebug-end", 1, 2, [4]);
  }

  lemma GrowingOpt()
    ensures Between(Blank, GrowingFile(), "#--! parseopt-start", "#--! parseopt-end", Range(4, 4))
  {
    hide Strip, EndsWith;
    WholeLine("#--! parseopt-start");
    WholeLine("#--! parseopt-end");
    NoneStartsWith(GrowingFile(), "#--! parseopt-start", 3, [10, 0, 10]);
  }

  lemma GrowingNoTrack()
    ensures Between(Blank, GrowingFile(), "#--! parseopt-notrack-start", "#--! parseopt-notrack-end", Range(6, 6))
  {
    hide Strip, EndsWith;
    WholeLine("#--! parseopt-notrack-start");
    WholeLine("#--! parseopt-notrack-end");
    NoneStartsWith(GrowingFile(), "#--! parseopt-notrack-start", 5, [10, 0, 10, 14, 14]);
  }

  /** One line that looks like an end marker only for the first copy. */
  lemma OneEnds(line: string, tag: string, other: string)
    requires EndsWith(Strip(Blank, line), tag) && !EndsWith(Strip(Blank, line), other)
    ensures Stop(EndsWithTag(Blank, tag), [line]) == 0 && Stop(EndsWithTag(Blank, other), [line]) == 1
  {
    hide Strip, EndsWith;
    assert EndsWithTag(Blank, tag)([line][0]) && !EndsWithTag(Blank, other)([line][0]);
  }

  lemma OneCopied(line: string)
    requires !("#--! DEBUG" <= Strip(Blank, line)) && !("#--! TRACKING" <= Strip(Blank, line))
    ensures Copied(Blank, [line], [line], [line])
  {
    hide Strip, Filtered, StartsWithTag;
    FilteredOf(Blank, "#--! DEBUG", [line]);
    FilteredOf(Blank, "#--! TRACKING", [line]);
  }

  lemma LookAlike()
    ensures var line := "x #--! parseopt-end";
            && EndsWith(Strip(Blank, line), "#--! parseopt-end")
            && !EndsWith(Strip(Blank, line), "#--! parseopt-notrack-end")
  {
    hide Strip;
    var line := "x #--! parseopt-end";
    StripBare(line);
    assert line[2..] == "#--! parseopt-end";
  }

  lemma LineIsUntagged()
    ensures var line := "x #--! parseopt-end";
            !("#--! DEBUG" <= Strip(Blank, line)) && !("#--! TRACKING" <= Strip(Blank, line))
  {
    hide Strip;
    StripBare("x #--! parseopt-end");
  }

  /** Its sections are closed and in order, and every run after the first adds a line. */
  lemma FileGrows()
    ensures ThreeSections(Blank, GrowingFile(), Range(1, 2), Range(4, 4), Range(6, 6))
    ensures var p := GrowingFile()[1..2]; Copied(Blank, p, p, p) && Added(Blank, p, p) == 1
  {
    hide Between, Strip, EndsWith, Copied, Stop;
    GrowingDebug();
    GrowingOpt();
    GrowingNoTrack();
    LineIsUntagged();
    LookAlike();
    var line := "x #--! parseopt-end";
    OneCopied(line);
    OneEnds(line, "#--! parseopt-end", "#--! parseopt-notrack-end");
    assert GrowingFile()[1..2] == [line];
  }
}
