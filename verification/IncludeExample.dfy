/** One shader, expanded from a file system. */
module IncludeExample {
  import opened Strings
  import opened IncludeParser
  import opened IncludeExpansion

  /** A version line, a commented directive and one that counts. */
  const SHADER: string := "#version 450\n//" + KEYWORD + "\"F\"\n" + KEYWORD + "\"F\"\ny"

  const EXPANDED: string := "#version 450\n//" + KEYWORD + "\"F\"\n" + "x\n" + "\ny"

  const FILES: FileSystem := map["../Data/F" := "#version 430\nx\n"]

  lemma HeaderIsStripped()
    ensures Headers(FILES, "../Data/")("F") == Some("x\n")
  {
    var text := "#version 430\nx\n";
    assert "../Data/" + "F" == "../Data/F";
    CStringMeans("../Data/F", 0);
    assert text[..12][0..9] == "#version ";
    assert OccursAt(text[..12], "#version ", 0);
    StripVersionMeans(text, 12);
    assert text[13..] == "x\n";
  }

  /** Keywords start where a hash is followed by an i. */
  lemma NoKeyword(s: string, from: nat, to: nat)
    requires forall p :: from <= p < to && p + 1 < |s| ==> s[p] != '#' || s[p + 1] != 'i'
    ensures forall p: nat :: from <= p < to ==> !OccursAt(s, KEYWORD, p)
  {
    forall p: nat | from <= p < to ensures !OccursAt(s, KEYWORD, p) {
      KeywordText(s, p);
    }
  }

  lemma Pieces()
    ensures |SHADER| == 42 && SHADER[15..24] == KEYWORD && SHADER[28..37] == KEYWORD
    ensures SHADER[..28] + "x\n" + SHADER[40..] == EXPANDED
  {
    var a, b, c := "#version 450\n//", "\"F\"\n", "\"F\"\ny";
    assert |KEYWORD| == 9;
    SecondOfThree(a, KEYWORD, b + KEYWORD + c);
    assert SHADER == a + KEYWORD + (b + KEYWORD + c);
    SecondOfThree(a + KEYWORD + b, KEYWORD, c);
    assert SHADER[..28] == a + KEYWORD + b;
    assert SHADER[40..] == c[3..] == "\ny";
  }

  lemma SecondOfThree(a: string, b: string, c: string)
    ensures (a + b + c)[|a|..|a| + |b|] == b
  {
  }

  lemma FirstLineEnds()
    ensures Commented(SHADER, 15) && !Commented(SHADER, 28)
  {
    hide RFind;
    RFindIsLast(SHADER, '\n', 15, 12);
    RFindIsLast(SHADER, '\n', 28, 27);
  }

  lemma CommentIsSteppedOver(lib: Library)
    ensures Iterate(Loop(lib), Seek(SHADER, 0), 1) == Scanning(SHADER, 28)
  {
    hide Find, Commented, OccursAt;
    Pieces();
    NoKeyword(SHADER, 0, 15);
    NoKeyword(SHADER, 24, 28);
    KeywordAt(SHADER, 15);
    KeywordAt(SHADER, 28);
    FirstIsFound(SHADER, KEYWORD, 0, 15);
    FirstIsFound(SHADER, KEYWORD, 24, 28);
    FirstLineEnds();
    assert Iterate(Loop(lib), Seek(SHADER, 0), 0) == Scanning(SHADER, 15);
  }

  lemma KeywordAt(s: string, k: nat)
    requires k + 9 <= |s| && s[k..k + 9] == KEYWORD
    ensures OccursAt(s, KEYWORD, k)
  {
    assert |KEYWORD| == KEYWORD_SIZE;
  }

  lemma DirectiveIsSpliced(lib: Library)
    requires lib("F") == Some("x\n")
    ensures Step(lib, Scanning(SHADER, 28)) == Finished(EXPANDED)
  {
    hide Find, Commented, OccursAt, DirectiveEnd;
    Pieces();
    FirstLineEnds();
    assert Closes(SHADER, 28, 39);
    DirectiveEndIs(SHADER, 28, 39);
    assert SHADER[38..39] == "F";
    StepSplices(lib, SHADER, 28, 39, "x\n");
    assert forall p: nat | 28 <= p :: !OccursAt(EXPANDED, KEYWORD, p) by {
      forall p: nat | 28 <= p ensures !OccursAt(EXPANDED, KEYWORD, p) {
        KeywordText(EXPANDED, p);
      }
    }
    FindIsFirst(EXPANDED, KEYWORD, 28);
  }

  lemma ShaderExpands()
    ensures Iterate(Loop(Headers(FILES, "../Data/")), Seek(SHADER, 0), 2) == Finished(EXPANDED)
  {
    var lib := Headers(FILES, "../Data/");
    HeaderIsStripped();
    CommentIsSteppedOver(lib);
    DirectiveIsSpliced(lib);
  }
}
