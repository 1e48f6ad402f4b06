/** What the include expander does over whole runs. */
module IncludeTheorems {
  import opened Strings
  import opened IncludeParser
  import opened IncludeExpansion

  // ---- termination ----

  lemma {:induction false} HaltedStays(lib: Library, st: Status, n: nat)
    requires st.Halted()
    ensures Iterate(Loop(lib), st, n) == st
  {
    hide Seek, Commented, DirectiveEnd;
    if n > 0 {
      HaltedStays(lib, st, n - 1);
    }
  }

  /** A run that ends from a ends, with the same outcome, from every state on its way. */
  lemma HaltsFromHere(lib: Library, a: Status, b: Status, n: nat)
    requires Iterate(Loop(lib), a, n).Halted() && Reaches(lib, a, b)
    ensures Iterate(Loop(lib), b, n) == Iterate(Loop(lib), a, n)
  {
    var m: nat :| Iterate(Loop(lib), a, m) == b;
    IterateAdds(Loop(lib), a, m, n);
    IterateAdds(Loop(lib), a, n, m);
    HaltedStays(lib, Iterate(Loop(lib), a, n), m);
    assert m + n == n + m;
  }

  /** The loop has at most one outcome. */
  lemma OneOutcome(lib: Library, st: Status, a: Status, b: Status)
    requires Reaches(lib, st, a) && a.Halted()
    requires Reaches(lib, st, b) && b.Halted()
    ensures a == b
  {
    var m: nat :| Iterate(Loop(lib), st, m) == a;
    HaltsFromHere(lib, st, b, m);
    HaltedStays(lib, b, m);
  }

  lemma {:induction false} DeeperIsSame(lib: Library, depth: nat, deeper: nat, emitted: string, text: string)
    requires depth <= deeper && !Expand(lib, depth, emitted, text).TooDeep?
    ensures Expand(lib, deeper, emitted, text) == Expand(lib, depth, emitted, text)
    decreases depth, |text|
  {
    hide OccursAt, DirectiveEnd, InComment;
    var f := Find(text, KEYWORD, 0);
    if f.Some? {
      var k, before := f.value, emitted + text[..f.value];
      if InComment(before) {
        DeeperIsSame(lib, depth, deeper, emitted + text[..k + KEYWORD_SIZE], text[k + KEYWORD_SIZE..]);
      } else if DirectiveEnd(text, k).Some? {
        var e := DirectiveEnd(text, k).value;
        var content := lib(text[k + KEYWORD_SIZE + 1..e]);
        if content.None? {
          DeeperIsSame(lib, depth, deeper, emitted + text[..e], text[e..]);
        } else {
          DeeperIsSame(lib, depth - 1, deeper - 1, before, content.value);
          var inner := Expand(lib, depth - 1, before, content.value);
          if inner.Expanded? {
            DeeperIsSame(lib, depth, deeper, inner.text, text[e + 1..]);
          }
        }
      }
    }
  }

  /** If the loop ends within n iterations, includes nest at most n deep. */
  lemma {:induction false} ExpanderKeepsUp(lib: Library, n: nat, emitted: string, text: string, rest: string)
    requires AllSelfContained(lib)
    requires SelfContained(text) || rest == ""
    requires Iterate(Loop(lib), Seek(emitted + text + rest, |emitted|), n).Halted()
    ensures !Expand(lib, n, emitted, text).TooDeep?
    decreases n, 0
  {
    hide OccursAt, DirectiveEnd, InComment, Seek, Step, SelfContained, Find, Closes;
    var st := Seek(emitted + text + rest, |emitted|);
    var f := Find(text, KEYWORD, 0);
    if f.Some? {
      var k, before := f.value, emitted + text[..f.value];
      KeywordInside(emitted, text, rest, k);
      assert n > 0;
      IterateAdds(Loop(lib), st, 1, n - 1);
      assert Iterate(Loop(lib), st, 1) == Step(lib, Iterate(Loop(lib), st, 0)) == Step(lib, st);
      if InComment(before) {
        StepOverComment(lib, emitted, text, rest, k);
        KeepUpFrom(lib, n, emitted + text[..k + KEYWORD_SIZE], text, rest, k + KEYWORD_SIZE);
      } else if DirectiveEnd(text, k).Some? {
        var e := EndInside(text, k);
        var content := lib(text[k + KEYWORD_SIZE + 1..e]);
        if content.None? {
          StepKeeps(lib, emitted, text, rest, k, e);
          KeepUpFrom(lib, n, emitted + text[..e], text, rest, e);
        } else {
          var later := text[e + 1..] + rest;
          StepIncludes(lib, emitted, text, rest, k, e, content.value);
          ExpanderKeepsUp(lib, n - 1, before, content.value, later);
          LoopFollowsExpander(lib, n - 1, before, content.value, later);
          var inner := Expand(lib, n - 1, before, content.value);
          if inner.Expanded? {
            HaltsFromHere(lib, Step(lib, st), After(inner, later), n - 1);
            assert inner.text + later == inner.text + text[e + 1..] + rest;
            KeepUpFrom(lib, n, inner.text, text, rest, e + 1);
          }
        }
      }
    }
  }

  lemma {:induction false} KeepUpFrom(lib: Library, n: nat, out: string, text: string, rest: string, i: nat)
    requires AllSelfContained(lib)
    requires SelfContained(text) || rest == ""
    requires n > 0 && i <= |text|
    requires Iterate(Loop(lib), Seek(out + text[i..] + rest, |out|), n - 1).Halted()
    ensures !Expand(lib, n, out, text[i..]).TooDeep?
    decreases n - 1, 1
  {
    hide Find, OccursAt, DirectiveEnd, InComment, Seek, Step, SelfContained, Expand;
    if rest != "" {
      SuffixSelfContained(text, i);
    }
    ExpanderKeepsUp(lib, n - 1, out, text[i..], rest);
    DeeperIsSame(lib, n - 1, n, out, text[i..]);
  }

  /**
   The in-place loop equals the recursive expander. When no included file can merge with the
   text after it, the loop ends exactly when includes nest finitely deep; its outcome is then
   the expander's, be it the expanded text or the text left behind at a syntax error.
   */
  lemma LoopEqualsExpander(lib: Library, source: string)
    requires AllSelfContained(lib)
    ensures Halts(lib, Seek(source, 0)) <==> exists depth: nat :: !Expand(lib, depth, "", source).TooDeep?
    ensures forall depth: nat, st: Status ::
              !Expand(lib, depth, "", source).TooDeep? && Reaches(lib, Seek(source, 0), st) && st.Halted()
              ==> match Expand(lib, depth, "", source)
                  case Expanded(text) => st == Finished(text)
                  case Invalid(text) => st == Rejected(text)
                  case TooDeep => false
  {
    assert "" + source + "" == source;
    forall depth: nat, st: Status |
      !Expand(lib, depth, "", source).TooDeep? && Reaches(lib, Seek(source, 0), st) && st.Halted()
      ensures st == Outcome(Expand(lib, depth, "", source))
    {
      ReachesOutcome(lib, depth, source);
      OneOutcome(lib, Seek(source, 0), st, Outcome(Expand(lib, depth, "", source)));
    }
    if Halts(lib, Seek(source, 0)) {
      var n: nat :| Iterate(Loop(lib), Seek(source, 0), n).Halted();
      ExpanderKeepsUp(lib, n, "", source, "");
    }
    if exists depth: nat :: !Expand(lib, depth, "", source).TooDeep? {
      var depth: nat :| !Expand(lib, depth, "", source).TooDeep?;
      ReachesOutcome(lib, depth, source);
    }
  }

  function Outcome(ex: Expansion): Status
    requires !ex.TooDeep?
  {
    if ex.Expanded? then Finished(ex.text) else Rejected(ex.text)
  }

  lemma ReachesOutcome(lib: Library, depth: nat, source: string)
    requires AllSelfContained(lib)
    requires !Expand(lib, depth, "", source).TooDeep?
    ensures Reaches(lib, Seek(source, 0), Outcome(Expand(lib, depth, "", source)))
  {
    hide Expand, Step;
    var ex := Expand(lib, depth, "", source);
    assert "" + source + "" == source;
    assert ex.text + "" == ex.text;
    LoopFollowsExpander(lib, depth, "", source, "");
  }

  // ---- acyclic include graphs ----

  /** Every file that text can include has a rank below depth. */
  ghost predicate IncludesBelow(lib: Library, rank: string -> nat, text: string, depth: nat) {
    forall k: nat, e: nat | OccursAt(text, KEYWORD, k) && Closes(text, k, e) ::
      lib(text[k + KEYWORD_SIZE + 1..e]).Some? ==> rank(text[k + KEYWORD_SIZE + 1..e]) < depth
  }

  /** rank witnesses that no file includes itself, directly or through others. */
  ghost predicate Acyclic(lib: Library, rank: string -> nat) {
    forall name | lib(name).Some? :: IncludesBelow(lib, rank, lib(name).value, rank(name))
  }

  lemma IncludesBelowSuffix(lib: Library, rank: string -> nat, text: string, depth: nat, i: nat)
    requires IncludesBelow(lib, rank, text, depth) && i <= |text|
    ensures IncludesBelow(lib, rank, text[i..], depth)
  {
    var a, b := text[..i], text[i..];
    assert text == a + b + "";
    forall k: nat, e: nat | OccursAt(b, KEYWORD, k) && Closes(b, k, e)
      ensures lib(b[k + KEYWORD_SIZE + 1..e]).Some? ==> rank(b[k + KEYWORD_SIZE + 1..e]) < depth
    {
      OccursInside(a, b, "", k);
      ClosesInside(a, b, "", k, e);
      assert text[i + k + KEYWORD_SIZE + 1..i + e] == b[k + KEYWORD_SIZE + 1..e];
    }
  }

  lemma {:induction false} ExpandWithinRank(lib: Library, rank: string -> nat, depth: nat, emitted: string,
                                            text: string)
    requires Acyclic(lib, rank) && IncludesBelow(lib, rank, text, depth)
    ensures !Expand(lib, depth, emitted, text).TooDeep?
    decreases depth, |text|, 0
  {
    hide OccursAt, InComment, Find, DirectiveEnd, Closes, IncludesBelow, Acyclic;
    var f := Find(text, KEYWORD, 0);
    if f.Some? {
      var k, before := f.value, emitted + text[..f.value];
      if InComment(before) {
        WithinRankFrom(lib, rank, depth, emitted + text[..k + KEYWORD_SIZE], text, k + KEYWORD_SIZE);
      } else if DirectiveEnd(text, k).Some? {
        var e := EndInside(text, k);
        var content := lib(text[k + KEYWORD_SIZE + 1..e]);
        if content.None? {
          WithinRankFrom(lib, rank, depth, emitted + text[..e], text, e);
        } else {
          RankDrops(lib, rank, text, depth, k, e);
          ExpandWithinRank(lib, rank, depth - 1, before, content.value);
          var inner := Expand(lib, depth - 1, before, content.value);
          if inner.Expanded? {
            WithinRankFrom(lib, rank, depth, inner.text, text, e + 1);
          }
        }
      }
    }
  }

  /** The rest of text. */
  lemma {:induction false} WithinRankFrom(lib: Library, rank: string -> nat, depth: nat, out: string, text: string,
                                          i: nat)
    requires Acyclic(lib, rank) && IncludesBelow(lib, rank, text, depth) && 0 < i <= |text|
    ensures !Expand(lib, depth, out, text[i..]).TooDeep?
    decreases depth, |text| - i, 1
  {
    hide Expand, Acyclic, IncludesBelow;
    IncludesBelowSuffix(lib, rank, text, depth, i);
    ExpandWithinRank(lib, rank, depth, out, text[i..]);
  }

  /** A file that text includes is of lower rank, and includes only such. */
  lemma RankDrops(lib: Library, rank: string -> nat, text: string, depth: nat, k: nat, e: nat)
    requires Acyclic(lib, rank) && IncludesBelow(lib, rank, text, depth)
    requires OccursAt(text, KEYWORD, k) && DirectiveEnd(text, k) == Some(e) && lib(text[k + KEYWORD_SIZE + 1..e]).Some?
    ensures depth > 0 && IncludesBelow(lib, rank, lib(text[k + KEYWORD_SIZE + 1..e]).value, depth - 1)
  {
    hide OccursAt, DirectiveEnd;
    var name := text[k + KEYWORD_SIZE + 1..e];
    assert Closes(text, k, e);
    LowerRank(lib, rank, lib(name).value, rank(name), depth - 1);
  }

  lemma LowerRank(lib: Library, rank: string -> nat, text: string, low: nat, high: nat)
    requires IncludesBelow(lib, rank, text, low) && low <= high
    ensures IncludesBelow(lib, rank, text, high)
  {
  }

  /** Whatever the top-level source, the loop ends on an acyclic, self-contained set of files. */
  lemma AcyclicHalts(lib: Library, rank: string -> nat, bound: nat, source: string)
    requires AllSelfContained(lib) && Acyclic(lib, rank)
    requires forall name | lib(name).Some? :: rank(name) < bound
    ensures Halts(lib, Seek(source, 0))
  {
    assert IncludesBelow(lib, rank, source, bound);
    ExpandWithinRank(lib, rank, bound, "", source);
    ReachesOutcome(lib, bound, source);
  }

  /** F includes G, and G is the start of a directive. */
  function Crossed(name: string): Option<string> {
    if name == "F" then Some("#include \"G\"F\"") else if name == "G" then Some("#include \"") else None
  }

  function CrossedRank(name: string): nat { if name == "F" then 1 else 0 }

  lemma CrossedIsAcyclic()
    ensures Acyclic(Crossed, CrossedRank)
  {
    hide IncludesBelow;
    IncludesG("#include \"G\"F\"");
    IncludesNothing("#include \"");
  }

  lemma IncludesG(text: string)
    requires |text| == 14 && text[10] == 'G' && text[11] == '"'
    requires forall i :: 0 < i < |text| ==> text[i] != '#'
    ensures IncludesBelow(Crossed, CrossedRank, text, 1)
  {
    forall k: nat, e: nat | OccursAt(text, KEYWORD, k) && Closes(text, k, e)
      ensures Crossed(text[k + KEYWORD_SIZE + 1..e]).Some? ==> CrossedRank(text[k + KEYWORD_SIZE + 1..e]) < 1
    {
      hide OccursAt, Crossed;
      KeywordText(text, k);
      assert text[10..11] == [text[10]] == "G";
    }
  }

  /** Too short for a directive that closes. */
  lemma IncludesNothing(text: string)
    requires |text| == 10
    ensures IncludesBelow(Crossed, CrossedRank, text, 0)
  {
    hide OccursAt, Crossed;
  }

  /**
   Acyclicity alone is not enough: the rest of F's line completes G's directive to one for F,
   and the loop swaps two texts forever.
   */
  lemma AcyclicIsNotEnough()
    ensures Acyclic(Crossed, CrossedRank) && !Halts(Crossed, Seek("#include \"F\"", 0))
  {
    hide Acyclic, Step, Seek;
    CrossedIsAcyclic();
    var a, b, g := "#include \"F\"", "#include \"G\"F\"", "#include \"";
    Swap(Crossed, a, "F", b, b);
    Swap(Crossed, b, "G", g, a);
    forall n: nat ensures !Iterate(Loop(Crossed), Seek(a, 0), n).Halted() {
      SwapForever(Crossed, a, b, n);
    }
  }

  /** A text that starts with a directive for a one-letter file: that file takes its place. */
  lemma Swap(lib: Library, source: string, name: string, content: string, swapped: string)
    requires |source| >= 12 && source[..9] == KEYWORD && source[11] == '"' && |name| == 1 && source[10] == name[0]
    requires source[10] != '"' && source[10] != '>' && source[10] != '\n'
    requires lib(name) == Some(content) && content + source[12..] == swapped
    requires |swapped| >= 12 && swapped[..9] == KEYWORD
    ensures Seek(source, 0) == Scanning(source, 0) && Step(lib, Scanning(source, 0)) == Scanning(swapped, 0)
  {
    assert source[0..9] == KEYWORD && swapped[0..9] == KEYWORD;
    FirstIsFound(source, KEYWORD, 0, 0);
    FirstIsFound(swapped, KEYWORD, 0, 0);
    KeywordText(source, 0);
    assert Closes(source, 0, 11);
    DirectiveEndIs(source, 0, 11);
    assert source[10..11] == name;
    StepSplices(lib, source, 0, 11, content);
    assert source[..0] + content + source[12..] == swapped;
  }

  lemma {:induction false} SwapForever(lib: Library, a: string, b: string, n: nat)
    requires Seek(a, 0) == Scanning(a, 0)
    requires Step(lib, Scanning(a, 0)) == Scanning(b, 0) && Step(lib, Scanning(b, 0)) == Scanning(a, 0)
    ensures Iterate(Loop(lib), Seek(a, 0), n) == if n % 2 == 0 then Scanning(a, 0) else Scanning(b, 0)
  {
    hide Step;
    if n > 0 {
      SwapForever(lib, a, b, n - 1);
    }
  }
}
