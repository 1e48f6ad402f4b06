/**
 The meaning of the splice-and-rescan loop: a recursive expander that never looks back at
 text it has emitted, except to see whether the current line is a comment.
 */
module IncludeExpansion {
  import opened Strings
  import opened IncludeParser

  datatype Expansion =
    | Expanded(text: string)
    | Invalid(text: string)   // the emitted text and the rest, from the bad directive on
    | TooDeep

  /** Whether text appended to emitted lands on a comment line that is not the first line. */
  predicate InComment(emitted: string) {
    match RFind(emitted, '\n', |emitted|)
    case None => false
    case Some(line) => line + 2 < |emitted| && emitted[line + 1] == '/' && emitted[line + 2] == '/'
  }

  /** Expands text after emitted; depth bounds the nesting of included files. */
  function Expand(lib: Library, depth: nat, emitted: string, text: string): Expansion
    decreases depth, |text|
  {
    match Find(text, KEYWORD, 0)
    case None => Expanded(emitted + text)
    case Some(k) =>
      var before := emitted + text[..k];
      if InComment(before) then Expand(lib, depth, emitted + text[..k + KEYWORD_SIZE], text[k + KEYWORD_SIZE..])
      else (
        match DirectiveEnd(text, k)
        case None => Invalid(emitted + text)
        case Some(e) =>
          match lib(text[k + KEYWORD_SIZE + 1..e])
          case None => Expand(lib, depth, emitted + text[..e], text[e..])
          case Some(content) =>
            if depth == 0 then TooDeep
            else (
              match Expand(lib, depth - 1, before, content)
              case Expanded(out) => Expand(lib, depth, out, text[e + 1..])
              case Invalid(out) => Invalid(out + text[e + 1..])
              case TooDeep => TooDeep
            )
      )
  }

  /** A file whose end cannot merge with what follows the directive that includes it. */
  ghost predicate SelfContained(text: string) {
    text != "" ==>
      && text[|text| - 1] == '\n'
      && !(|text| > KEYWORD_SIZE && OccursAt(text, KEYWORD, |text| - 1 - KEYWORD_SIZE))
  }

  ghost predicate AllSelfContained(lib: Library) {
    forall name :: lib(name).Some? ==> SelfContained(lib(name).value)
  }

  // ---- searching in emitted + text + rest ----

  lemma KeywordText(s: string, i: nat)
    ensures |KEYWORD| == KEYWORD_SIZE
    ensures OccursAt(s, KEYWORD, i) ==>
              && i + 9 <= |s| && s[i] == '#' && s[i + 1] == 'i'
              && forall j :: i <= j < i + 9 ==> s[j] != '\n' && s[j] != '"' && s[j] != '>' && (j > i ==> s[j] != '#')
  {
    if OccursAt(s, KEYWORD, i) {
      forall j | i <= j < i + 9
        ensures s[j] == KEYWORD[j - i]
      {
        assert s[i..i + 9][j - i] == s[j];
      }
    }
  }

  lemma OccursInside(a: string, b: string, c: string, i: nat)
    requires i + KEYWORD_SIZE <= |b|
    ensures OccursAt(a + b + c, KEYWORD, |a| + i) <==> OccursAt(b, KEYWORD, i)
  {
    assert (a + b + c)[|a| + i..|a| + i + KEYWORD_SIZE] == b[i..i + KEYWORD_SIZE];
  }

  /** No keyword straddles the end of a self-contained text. */
  lemma NoStraddle(a: string, b: string, c: string, i: nat)
    requires SelfContained(b) || c == ""
    requires i < |b| < i + KEYWORD_SIZE
    ensures !OccursAt(a + b + c, KEYWORD, |a| + i)
  {
    var s := a + b + c;
    KeywordText(s, |a| + i);
    if c != "" {
      assert s[|a| + |b| - 1] == '\n';
    }
  }

  /** Seeking from |a| finds the first keyword of b, or goes on to c. */
  lemma SeekAcross(a: string, b: string, c: string)
    requires SelfContained(b) || c == ""
    ensures Find(b, KEYWORD, 0).Some? ==> Seek(a + b + c, |a|) == Scanning(a + b + c, |a| + Find(b, KEYWORD, 0).value)
    ensures Find(b, KEYWORD, 0).None? ==> Seek(a + b + c, |a|) == Seek(a + b + c, |a + b|)
  {
    hide Find, OccursAt, SelfContained;
    var s := a + b + c;
    var f := Find(b, KEYWORD, 0);
    FindIsFirst(b, KEYWORD, 0);
    FindIsFirst(s, KEYWORD, |a|);
    FindIsFirst(s, KEYWORD, |a + b|);
    var end := if f.Some? then f.value else |b|;
    forall j: nat | |a| <= j < |a| + end ensures !OccursAt(s, KEYWORD, j) {
      var i := j - |a|;
      if i + KEYWORD_SIZE <= |b| {
        OccursInside(a, b, c, i);
      } else {
        NoStraddle(a, b, c, i);
      }
    }
    if f.Some? {
      OccursInside(a, b, c, f.value);
      FirstIsFound(s, KEYWORD, |a|, |a| + f.value);
    } else {
      var g := Find(s, KEYWORD, |a + b|);
      if g.Some? {
        FirstIsFound(s, KEYWORD, |a|, g.value);
      }
    }
  }

  lemma RFindIsLast(s: string, c: char, from: nat, i: nat)
    requires i <= from && i < |s| && s[i] == c
    requires forall j :: i < j <= from && j < |s| ==> s[j] != c
    ensures RFind(s, c, from) == Some(i)
  {
  }

  lemma CommentedIsInComment(before: string, after: string)
    requires OccursAt(after, KEYWORD, 0)
    ensures Commented(before + after, |before|) <==> InComment(before)
  {
    var s := before + after;
    KeywordText(after, 0);
    assert s[|before|] == '#' && s[|before| + 1] == 'i';
    var m := RFind(before, '\n', |before|);
    if m.Some? {
      RFindIsLast(s, '\n', |before|, m.value);
    }
  }

  lemma DirectiveEndIs(s: string, k: nat, e: nat)
    requires Closes(s, k, e)
    ensures DirectiveEnd(s, k) == Some(e)
  {
    var d := DirectiveEnd(s, k);
    assert d.Some? && (d.value < e || e < d.value || d.value == e);
  }

  lemma ClosesInside(a: string, b: string, c: string, k: nat, e: nat)
    requires e < |b|
    ensures Closes(b, k, e) <==> Closes(a + b + c, |a| + k, |a| + e)
  {
    var s := a + b + c;
    assert forall j :: 0 <= j < |b| ==> b[j] == s[|a| + j];
    assert forall j :: |a| <= j < |a| + |b| ==> s[j] == b[j - |a|];
  }

  /** A directive is parsed alike in a text and where that text has been spliced in. */
  lemma DirectiveEndInside(a: string, b: string, c: string, k: nat)
    requires OccursAt(b, KEYWORD, k)
    requires SelfContained(b) || c == ""
    ensures DirectiveEnd(b, k).None? ==> DirectiveEnd(a + b + c, |a| + k).None?
    ensures DirectiveEnd(b, k).Some? ==> DirectiveEnd(a + b + c, |a| + k) == Some(|a| + DirectiveEnd(b, k).value)
  {
    var s, at := a + b + c, |a| + k;
    var d := DirectiveEnd(b, k);
    if d.Some? {
      ClosesInside(a, b, c, k, d.value);
      DirectiveEndIs(s, at, |a| + d.value);
    } else {
      forall e: nat ensures !Closes(s, at, e) {
        if |a| <= e < |a| + |b| {
          ClosesInside(a, b, c, k, e - |a|);
        } else if c != "" {
          NewlineAhead(b, k);
          assert s[|a| + |b| - 1] == '\n';
        }
      }
    }
  }

  /** In a self-contained text the last newline comes after every directive's opening character. */
  lemma NewlineAhead(b: string, k: nat)
    requires SelfContained(b) && OccursAt(b, KEYWORD, k)
    ensures k + KEYWORD_SIZE + 1 < |b|
  {
    KeywordText(b, k);
    assert b[|b| - 1] == '\n';
    assert k + 9 != |b|;
  }

  lemma SuffixSelfContained(b: string, i: nat)
    requires SelfContained(b) && i <= |b|
    ensures SelfContained(b[i..])
  {
    var t := b[i..];
    if |t| > KEYWORD_SIZE {
      assert t[|t| - 1 - KEYWORD_SIZE..|t| - 1] == b[|b| - 1 - KEYWORD_SIZE..|b| - 1];
    }
  }

  // ---- the loop follows the expander ----

  lemma {:induction false} IterateAdds<S>(step: S -> S, st: S, m: nat, n: nat)
    ensures Iterate(step, st, m + n) == Iterate(step, Iterate(step, st, m), n)
  {
    if n > 0 {
      IterateAdds(step, st, m, n - 1);
      assert m + n - 1 == m + (n - 1);
    }
  }

  lemma ReachesTransitive(lib: Library, a: Status, b: Status, c: Status)
    requires Reaches(lib, a, b) && Reaches(lib, b, c)
    ensures Reaches(lib, a, c)
  {
    var m: nat :| Iterate(Loop(lib), a, m) == b;
    var n: nat :| Iterate(Loop(lib), b, n) == c;
    IterateAdds(Loop(lib), a, m, n);
  }

  lemma ReachesStep(lib: Library, st: Status)
    ensures Reaches(lib, st, st) && Reaches(lib, st, Step(lib, st))
  {
    assert Iterate(Loop(lib), st, 0) == st;
    assert Iterate(Loop(lib), st, 1) == Loop(lib)(Iterate(Loop(lib), st, 0));
  }

  /** The state the loop is in when it has dealt with text, given what the expander makes of it. */
  function After(ex: Expansion, rest: string): Status
    requires !ex.TooDeep?
  {
    if ex.Invalid? then Rejected(ex.text + rest) else Seek(ex.text + rest, |ex.text|)
  }

  // One loop iteration, seen from the expander: the source is emitted + text + rest, with the
  // first keyword of text at k.

  lemma KeywordInside(emitted: string, text: string, rest: string, k: nat)
    requires SelfContained(text) || rest == ""
    requires Find(text, KEYWORD, 0) == Some(k)
    ensures var s := emitted + text + rest;
            && Seek(s, |emitted|) == Scanning(s, |emitted| + k)
            && (Commented(s, |emitted| + k) <==> InComment(emitted + text[..k]))
  {
    hide Find, SelfContained;
    var before, after := emitted + text[..k], text[k..] + rest;
    SeekAcross(emitted, text, rest);
    assert emitted + text + rest == before + after;
    assert after[0..9] == text[k..k + 9];
    CommentedIsInComment(before, after);
  }

  lemma StepOverComment(lib: Library, emitted: string, text: string, rest: string, k: nat)
    requires SelfContained(text) || rest == ""
    requires Find(text, KEYWORD, 0) == Some(k) && InComment(emitted + text[..k])
    ensures var out := emitted + text[..k + KEYWORD_SIZE];
            Step(lib, Seek(emitted + text + rest, |emitted|)) == Seek(out + text[k + KEYWORD_SIZE..] + rest, |out|)
  {
    hide Find, OccursAt, SelfContained, DirectiveEnd, Commented, InComment;
    KeywordInside(emitted, text, rest, k);
    var out := emitted + text[..k + KEYWORD_SIZE];
    assert emitted + text + rest == out + text[k + KEYWORD_SIZE..] + rest;
  }

  lemma StepRejects(lib: Library, emitted: string, text: string, rest: string, k: nat)
    requires SelfContained(text) || rest == ""
    requires Find(text, KEYWORD, 0) == Some(k) && !InComment(emitted + text[..k])
    requires DirectiveEnd(text, k).None?
    ensures Step(lib, Seek(emitted + text + rest, |emitted|)) == Rejected(emitted + text + rest)
  {
    hide Find, OccursAt, SelfContained, DirectiveEnd, Commented, InComment;
    KeywordInside(emitted, text, rest, k);
    DirectiveEndInside(emitted, text, rest, k);
  }

  /** The directive at k in text, found in the whole source. */
  lemma DirectiveInside(emitted: string, text: string, rest: string, k: nat, e: nat)
    requires SelfContained(text) || rest == ""
    requires Find(text, KEYWORD, 0) == Some(k) && !InComment(emitted + text[..k])
    requires DirectiveEnd(text, k) == Some(e)
    ensures var s, at, end := emitted + text + rest, |emitted| + k, |emitted| + e;
            && Seek(s, |emitted|) == Scanning(s, at)
            && !Commented(s, at)
            && DirectiveEnd(s, at) == Some(end)
            && s[at + KEYWORD_SIZE + 1..end] == text[k + KEYWORD_SIZE + 1..e]
  {
    hide Find, OccursAt, SelfContained, DirectiveEnd, Commented, InComment;
    KeywordInside(emitted, text, rest, k);
    DirectiveEndInside(emitted, text, rest, k);
  }

  lemma StepIncludes(lib: Library, emitted: string, text: string, rest: string, k: nat, e: nat, content: string)
    requires SelfContained(text) || rest == ""
    requires Find(text, KEYWORD, 0) == Some(k) && !InComment(emitted + text[..k])
    requires DirectiveEnd(text, k) == Some(e)
    requires lib(text[k + KEYWORD_SIZE + 1..e]) == Some(content)
    ensures Step(lib, Seek(emitted + text + rest, |emitted|))
            == Seek(emitted + text[..k] + content + (text[e + 1..] + rest), |emitted + text[..k]|)
  {
    hide Find, OccursAt, SelfContained, DirectiveEnd, Commented, InComment, Seek, Step;
    var s, at, end := emitted + text + rest, |emitted| + k, |emitted| + e;
    DirectiveInside(emitted, text, rest, k, e);
    StepSplices(lib, s, at, end, content);
    assert s[..at] == emitted + text[..k];
    assert s[end + 1..] == text[e + 1..] + rest;
  }

  lemma StepKeeps(lib: Library, emitted: string, text: string, rest: string, k: nat, e: nat)
    requires SelfContained(text) || rest == ""
    requires Find(text, KEYWORD, 0) == Some(k) && !InComment(emitted + text[..k])
    requires DirectiveEnd(text, k) == Some(e)
    requires lib(text[k + KEYWORD_SIZE + 1..e]) == None
    ensures Step(lib, Seek(emitted + text + rest, |emitted|))
            == Seek(emitted + text[..e] + text[e..] + rest, |emitted + text[..e]|)
  {
    hide Find, OccursAt, SelfContained, DirectiveEnd, Commented, InComment, Seek, Step;
    var s, at, end := emitted + text + rest, |emitted| + k, |emitted| + e;
    DirectiveInside(emitted, text, rest, k, e);
    StepSkips(lib, s, at, end);
    assert s == emitted + text[..e] + text[e..] + rest;
  }

  lemma EndInside(text: string, k: nat) returns (e: nat)
    requires DirectiveEnd(text, k).Some?
    ensures DirectiveEnd(text, k) == Some(e) && Closes(text, k, e) && k + KEYWORD_SIZE + 1 <= e < |text|
  {
    e := DirectiveEnd(text, k).value;
  }

  /**
   The loop refines the expander: once it reaches a text that the expander can deal with, it
   goes on to emit exactly what the expander emits, or stops with the same syntax error.
   */
  lemma {:induction false} LoopFollowsExpander(lib: Library, depth: nat, emitted: string, text: string, rest: string)
    requires AllSelfContained(lib)
    requires SelfContained(text) || rest == ""
    requires !Expand(lib, depth, emitted, text).TooDeep?
    ensures Reaches(lib, Seek(emitted + text + rest, |emitted|), After(Expand(lib, depth, emitted, text), rest))
    decreases depth, |text|, 0
  {
    hide Seek, OccursAt, SelfContained, DirectiveEnd, InComment, Step, Find, Closes;
    var st := Seek(emitted + text + rest, |emitted|);
    ReachesStep(lib, st);
    var f := Find(text, KEYWORD, 0);
    if f.None? {
      SeekAcross(emitted, text, rest);
    } else {
      var k, before := f.value, emitted + text[..f.value];
      if InComment(before) {
        StepOverComment(lib, emitted, text, rest, k);
        Resume(lib, depth, emitted + text[..k + KEYWORD_SIZE], text, rest, k + KEYWORD_SIZE, st);
      } else {
        if DirectiveEnd(text, k).None? {
          StepRejects(lib, emitted, text, rest, k);
        } else {
          var e := EndInside(text, k);
          var content := lib(text[k + KEYWORD_SIZE + 1..e]);
          if content.None? {
            StepKeeps(lib, emitted, text, rest, k, e);
            Resume(lib, depth, emitted + text[..e], text, rest, e, st);
          } else {
            StepIncludes(lib, emitted, text, rest, k, e, content.value);
            LoopFollowsExpander(lib, depth - 1, before, content.value, text[e + 1..] + rest);
            var inner := Expand(lib, depth - 1, before, content.value);
            ReachesTransitive(lib, st, Step(lib, st), After(inner, text[e + 1..] + rest));
            assert inner.text + (text[e + 1..] + rest) == inner.text + text[e + 1..] + rest;
            if inner.Expanded? {
              Resume(lib, depth, inner.text, text, rest, e + 1, st);
            }
          }
        }
      }
    }
  }

  /** The rest of text, from i on, once the loop has got as far as emitting out. */
  lemma {:induction false} Resume(lib: Library, depth: nat, out: string, text: string, rest: string, i: nat, st: Status)
    requires AllSelfContained(lib)
    requires SelfContained(text) || rest == ""
    requires 0 <= i <= |text|
    requires !Expand(lib, depth, out, text[i..]).TooDeep?
    requires Reaches(lib, st, Seek(out + text[i..] + rest, |out|))
    ensures Reaches(lib, st, After(Expand(lib, depth, out, text[i..]), rest))
    decreases depth, |text| - i, 1
  {
    hide Find, OccursAt, SelfContained, DirectiveEnd, InComment, Step, Seek;
    if rest != "" {
      SuffixSelfContained(text, i);
    }
    LoopFollowsExpander(lib, depth, out, text[i..], rest);
    ReachesTransitive(lib, st, Seek(out + text[i..] + rest, |out|), After(Expand(lib, depth, out, text[i..]), rest));
  }
}
