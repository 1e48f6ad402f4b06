/**
 The #include expander of the shader loader. The loop is modelled twice: as the imperative
 method that rewrites the source in place, and as the transition function Step that the
 method is proved to follow. IncludeExpansion.dfy relates Step to a recursive expander.
 */
module IncludeParser {
  import opened Strings

  const KEYWORD := "#include "
  const KEYWORD_SIZE: nat := 9

  /** The files that can be opened, by full path; their contents byte by byte. */
  type FileSystem = map<string, string>

  /** What ifstream::open sees of a path handed over as a C string. */
  function CString(path: string): string {
    match FindChar(path, '\0', 0)
    case None => path
    case Some(i) => path[..i]
  }

  lemma CStringMeans(path: string, i: nat)
    ensures '\0' !in path ==> CString(path) == path
    ensures i < |path| && path[i] == '\0' && '\0' !in path[..i] ==> CString(path) == path[..i]
  {
    if i < |path| && path[i] == '\0' && '\0' !in path[..i] {
      assert forall j :: 0 <= j < i ==> path[j] == path[..i][j];
    }
  }

  /** An included file loses its first line when that line holds "#version ". */
  function StripVersion(text: string): string {
    match FindChar(text, '\n', 0)
    case None => text
    case Some(eol) => if Find(text[..eol], "#version ", 0).Some? then text[eol + 1..] else text
  }

  /** What that means: i is the end of the first line. */
  lemma StripVersionMeans(text: string, i: nat)
    requires i < |text| && text[i] == '\n' && '\n' !in text[..i]
    ensures StripVersion(text)
            == if exists j :: OccursAt(text[..i], "#version ", j) then text[i + 1..] else text
  {
    hide OccursAt, Find;
    FirstNewline(text, i);
    FindIsFirst(text[..i], "#version ", 0);
  }

  lemma FirstNewline(text: string, i: nat)
    requires i < |text| && text[i] == '\n' && '\n' !in text[..i]
    ensures FindChar(text, '\n', 0) == Some(i)
  {
    var f := FindChar(text, '\n', 0);
    assert forall j :: 0 <= j < i ==> text[j] == text[..i][j];
  }

  lemma OneLineIsKept(text: string)
    requires '\n' !in text
    ensures StripVersion(text) == text
  {
  }

  lemma VersionIsStripped()
    ensures StripVersion("#version 430 core\nx\n") == "x\n"
    ensures StripVersion("x\n#version 430 core\n") == "x\n#version 430 core\n"
  {
    var a, b := "#version 430 core\nx\n", "x\n#version 430 core\n";
    assert a[..17][0..9] == "#version ";
    assert OccursAt(a[..17], "#version ", 0);
    StripVersionMeans(a, 17);
    StripVersionMeans(b, 1);
    assert a[18..] == "x\n";
  }

  function Load(fs: FileSystem, path: string): Option<string> {
    if CString(path) in fs then Some(StripVersion(fs[CString(path)])) else None
  }

  /** What each spelled file name stands for: the text to splice in, if the file can be opened. */
  type Library = string -> Option<string>

  function Headers(fs: FileSystem, rel: string): Library {
    name => Load(fs, rel + name)
  }

  /** Whether the line on which the keyword at startPos stands is a comment line. */
  predicate Commented(source: string, startPos: nat) {
    match RFind(source, '\n', startPos)
    case None => false
    case Some(line) => line + 2 < |source| && source[line + 1] == '/' && source[line + 2] == '/'
  }

  /** A comment line starts behind a newline, so that the first line is never one. */
  lemma CommentedMeans(source: string, startPos: nat)
    requires startPos < |source|
    ensures Commented(source, startPos)
            <==> exists line: nat ::
                   && line <= startPos && line + 2 < |source| && source[line] == '\n'
                   && '\n' !in source[line + 1..startPos + 1] && source[line + 1] == '/' && source[line + 2] == '/'
  {
    var last := RFind(source, '\n', startPos);
    if last.Some? {
      assert '\n' !in source[last.value + 1..startPos + 1];
    }
    forall line: nat | line <= startPos && source[line] == '\n' && '\n' !in source[line + 1..startPos + 1]
      ensures last == Some(line)
    {
      assert forall j :: line < j <= startPos ==> source[j] == source[line + 1..startPos + 1][j - line - 1];
    }
  }

  /** e closes the directive at k: the first quote or bracket past the opening character. */
  ghost predicate Closes(source: string, k: nat, e: nat) {
    && k + KEYWORD_SIZE + 1 <= e < |source|
    && (source[e] == '"' || source[e] == '>')
    && forall j :: k + KEYWORD_SIZE + 1 <= j < e ==> source[j] != '"' && source[j] != '>' && source[j] != '\n'
  }

  function Nearer(a: Option<nat>, b: Option<nat>): Option<nat> {
    if a.None? then b else if b.None? then a else if a.value <= b.value then a else b
  }

  /** End of the directive whose keyword is at k; None is the syntax error. */
  function DirectiveEnd(source: string, k: nat): (r: Option<nat>)
    ensures r.Some? ==> Closes(source, k, r.value)
    ensures r.None? ==> forall e :: !Closes(source, k, e)
  {
    var pos := k + KEYWORD_SIZE + 1;
    var eol := FindChar(source, '\n', pos);
    var end := Nearer(FindChar(source, '"', pos), FindChar(source, '>', pos));
    if end.None? || (eol.Some? && end.value >= eol.value) then None else end
  }

  /** The loop's states: at a keyword, past the last one, or stopped at a syntax error. */
  datatype Status =
    | Scanning(source: string, startPos: nat)
    | Finished(source: string)
    | Rejected(source: string)
  {
    predicate Halted() { !Scanning? }
  }

  function Seek(source: string, from: nat): (st: Status)
    ensures st.source == source
  {
    match Find(source, KEYWORD, from)
    case None => Finished(source)
    case Some(k) => Scanning(source, k)
  }

  /** One iteration of the loop; a halted state stays as it is. */
  function Step(lib: Library, st: Status): Status {
    match st
    case Scanning(source, k) =>
      if Commented(source, k) then Seek(source, k + KEYWORD_SIZE)
      else (
        match DirectiveEnd(source, k)
        case None => Rejected(source)
        case Some(e) =>
          match lib(source[k + KEYWORD_SIZE + 1..e])
          case Some(content) => Seek(source[..k] + content + source[e + 1..], k)
          case None => Seek(source, e)
      )
    case _ => st
  }

  // What a step does at a directive that closes at e.

  lemma StepSplices(lib: Library, source: string, k: nat, e: nat, content: string)
    requires !Commented(source, k) && DirectiveEnd(source, k) == Some(e)
    requires lib(source[k + KEYWORD_SIZE + 1..e]) == Some(content)
    ensures Step(lib, Scanning(source, k)) == Seek(source[..k] + content + source[e + 1..], k)
  {
    hide Commented, DirectiveEnd, Closes, Seek;
  }

  lemma StepSkips(lib: Library, source: string, k: nat, e: nat)
    requires !Commented(source, k) && DirectiveEnd(source, k) == Some(e)
    requires lib(source[k + KEYWORD_SIZE + 1..e]) == None
    ensures Step(lib, Scanning(source, k)) == Seek(source, e)
  {
    hide Commented, DirectiveEnd, Closes, Seek;
  }

  /** n iterations of a transition function. */
  function Iterate<S>(step: S -> S, st: S, n: nat): S {
    if n == 0 then st else step(Iterate(step, st, n - 1))
  }

  function Loop(lib: Library): Status -> Status {
    (st: Status) => Step(lib, st)
  }

  ghost predicate Reaches(lib: Library, st: Status, st': Status) {
    exists n: nat :: Iterate(Loop(lib), st, n) == st'
  }

  /** The loop started at st comes to an end. */
  ghost predicate Halts(lib: Library, st: Status) {
    exists n: nat :: Iterate(Loop(lib), st, n).Halted()
  }

  class Parser {
    var source: string

    constructor ()
      ensures source == ""
    {
      source := "";
    }

    /** Reads an included file; text is left alone when it cannot be opened. */
    static method LoadFromFileInto(fs: FileSystem, fullpath: string, text: string)
      returns (ok: bool, text': string)
      ensures ok ==> Load(fs, fullpath) == Some(text')
      ensures ok <==> CString(fullpath) in fs
      ensures ok ==>
                var c := fs[CString(fullpath)];
                && ('\n' !in c ==> text' == c)
                && (forall i: nat | i < |c| && c[i] == '\n' && '\n' !in c[..i] ::
                      text' == if exists j :: OccursAt(c[..i], "#version ", j) then c[i + 1..] else c)
      ensures !ok ==> Load(fs, fullpath) == None && text' == text
    {
      if CString(fullpath) !in fs {
        return false, text;
      }
      text' := fs[CString(fullpath)];
      ghost var c := text';
      forall i: nat | i < |c| && c[i] == '\n' && '\n' !in c[..i]
        ensures StripVersion(c) == if exists j :: OccursAt(c[..i], "#version ", j) then c[i + 1..] else c
      {
        StripVersionMeans(c, i);
      }
      var newline := FindChar(text', '\n', 0);
      if newline.Some? {
        var version := Find(text'[..newline.value], "#version ", 0);
        if version.Some? {
          text' := text'[newline.value + 1..];
        }
      }
      ok := true;
    }

    method LoadFromFile(fs: FileSystem, filename: string, rel: string) returns (ok: bool)
      requires CString(rel + filename) in fs ==> Halts(Headers(fs, rel), Seek(fs[CString(rel + filename)], 0))
      modifies this
      ensures CString(rel + filename) !in fs ==> !ok && source == old(source)
      ensures CString(rel + filename) in fs ==>
                Reaches(Headers(fs, rel), Seek(fs[CString(rel + filename)], 0),
                        if ok then Finished(source) else Rejected(source))
    {
      var fullpath := CString(rel + filename);
      if fullpath !in fs {
        return false;
      }
      source := fs[fullpath];
      ok := ParseIncludeFiles(fs, rel);
    }

    /** Handles the keyword at startPos; from is where the search for the next one starts. */
    method ExpandAt(fs: FileSystem, rel: string, startPos: nat) returns (ok: bool, from: nat)
      modifies this
      ensures Step(Headers(fs, rel), Scanning(old(source), startPos))
              == if ok then Seek(source, from) else Rejected(source)
    {
      hide Commented, DirectiveEnd, Seek, StripVersion, CString;
      ghost var lib := Headers(fs, rel);
      ok, from := true, startPos;
      if Commented(source, startPos) {
        from := startPos + KEYWORD_SIZE;
      } else {
        var pos := startPos + KEYWORD_SIZE + 1;
        var end := DirectiveEnd(source, startPos);
        if end.None? {
          return false, startPos;
        }
        var file := source[pos..end.value];
        var loaded, content := LoadFromFileInto(fs, rel + file, "");
        if loaded {
          StepSplices(lib, source, startPos, end.value, content);
          source := source[..startPos] + content + source[end.value + 1..];
        } else {
          StepSkips(lib, source, startPos, end.value);
          from := end.value;
        }
      }
    }

    /** The splice-and-rescan loop, for every file system on which it ends at all. */
    method ParseIncludeFiles(fs: FileSystem, rel: string) returns (ok: bool)
      requires Halts(Headers(fs, rel), Seek(source, 0))
      modifies this
      ensures Reaches(Headers(fs, rel), Seek(old(source), 0), if ok then Finished(source) else Rejected(source))
    {
      ghost var lib := Headers(fs, rel);
      ghost var start := Seek(source, 0);
      ghost var bound: nat :| Iterate(Loop(lib), start, bound).Halted();
      ghost var n: nat, left: nat := 0, bound;
      var startPos := Find(source, KEYWORD, 0);
      while startPos.Some?
        invariant Iterate(Loop(lib), start, n)
                  == if startPos.Some? then Scanning(source, startPos.value) else Finished(source)
        invariant n + left == bound
        decreases left
      {
        assert left != 0;
        ghost var st := Scanning(source, startPos.value);
        var from;
        ok, from := ExpandAt(fs, rel, startPos.value);
        assert Iterate(Loop(lib), start, n + 1) == Step(lib, st);
        if !ok {
          return;
        }
        startPos := Find(source, KEYWORD, from);
        n, left := n + 1, left - 1;
      }
      ok := true;
    }
  }
}
