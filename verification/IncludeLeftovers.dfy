/** Which "#include " can still be found in the text that the loop finishes with. */
module IncludeLeftovers {
  import opened Strings
  import opened IncludeParser
  import opened IncludeExpansion

  /** The position a step replaces a directive at, if it replaces one. */
  function SpliceOf(lib: Library, st: Status): set<nat> {
    if st.Scanning? && !Commented(st.source, st.startPos)
       && DirectiveEnd(st.source, st.startPos).Some?
       && lib(st.source[st.startPos + KEYWORD_SIZE + 1..DirectiveEnd(st.source, st.startPos).value]).Some?
    then {st.startPos} else {}
  }

  /** Where the first n iterations replaced directives. */
  function Splices(lib: Library, st: Status, n: nat): set<nat> {
    if n == 0 then {} else Splices(lib, st, n - 1) + SpliceOf(lib, Iterate(Loop(lib), st, n - 1))
  }

  /** p lies in a directive, closed before limit, whose file cannot be opened. */
  ghost predicate Kept(lib: Library, source: string, p: nat, limit: nat) {
    exists q: nat, e: nat ::
      && OccursAt(source, KEYWORD, q) && Closes(source, q, e)
      && q <= p < e < limit
      && lib(source[q + KEYWORD_SIZE + 1..e]).None?
  }

  /** p was put together from text on both sides of a splice. */
  ghost predicate Straddles(p: nat, splices: set<nat>) {
    exists j :: j in splices && p < j < p + KEYWORD_SIZE
  }

  ghost predicate Explained(lib: Library, source: string, p: nat, limit: nat, splices: set<nat>) {
    Commented(source, p) || Kept(lib, source, p, limit) || Straddles(p, splices)
  }

  function Frontier(st: Status): nat {
    if st.Scanning? then st.startPos else |st.source|
  }

  ghost predicate AllExplained(lib: Library, st: Status, splices: set<nat>) {
    && Frontier(st) <= |st.source|
    && (st.Scanning? ==> OccursAt(st.source, KEYWORD, st.startPos))
    && (!st.Rejected? ==>
          forall p: nat | p < Frontier(st) && OccursAt(st.source, KEYWORD, p) ::
            Explained(lib, st.source, p, Frontier(st), splices))
  }

  lemma SeekIsNext(source: string, from: nat)
    requires from <= |source|
    ensures var st := Seek(source, from);
            && from <= Frontier(st) <= |source|
            && (st.Scanning? ==> OccursAt(source, KEYWORD, st.startPos))
            && (forall p: nat | from <= p < Frontier(st) :: !OccursAt(source, KEYWORD, p))
  {
    hide OccursAt;
    FindIsFirst(source, KEYWORD, from);
  }

  /** Comments and kept directives are decided by the text up to where they end. */
  lemma ExplainedByPrefix(lib: Library, a: string, b: string, k: nat, p: nat, splices: set<nat>, more: set<nat>,
                          limit: nat)
    requires k <= |a| && k <= |b| && a[..k] == b[..k] && k <= limit
    requires p + KEYWORD_SIZE <= k && OccursAt(a, KEYWORD, p)
    requires Explained(lib, a, p, k, splices)
    ensures Explained(lib, b, p, limit, splices + more)
  {
    hide OccursAt;
    assert forall i :: 0 <= i < k ==> a[i] == a[..k][i] == b[i];
    KeywordText(a, p);
    if Commented(a, p) {
      var line := RFind(a, '\n', p).value;
      RFindIsLast(b, '\n', p, line);
    } else if Kept(lib, a, p, k) {
      var q: nat, e: nat :| OccursAt(a, KEYWORD, q) && Closes(a, q, e) && q <= p < e < k
          && lib(a[q + KEYWORD_SIZE + 1..e]).None?;
      SamePrefix(a, b, k, q, e);
    } else {
      var j :| j in splices && p < j < p + KEYWORD_SIZE;
      assert j in splices + more;
    }
  }

  lemma SamePrefix(a: string, b: string, k: nat, q: nat, e: nat)
    requires k <= |a| && k <= |b| && a[..k] == b[..k]
    requires OccursAt(a, KEYWORD, q) && Closes(a, q, e) && e < k
    ensures OccursAt(b, KEYWORD, q) && Closes(b, q, e)
    ensures a[q + KEYWORD_SIZE + 1..e] == b[q + KEYWORD_SIZE + 1..e]
  {
    assert forall i :: 0 <= i < k ==> a[i] == a[..k][i] == b[i];
  }

  /** Keywords before the end e of the directive at k are explained once that directive is kept. */
  lemma KeptIsExplained(lib: Library, source: string, k: nat, e: nat, from: nat, splices: set<nat>)
    requires AllExplained(lib, Scanning(source, k), splices)
    requires Closes(source, k, e) && lib(source[k + KEYWORD_SIZE + 1..e]).None?
    requires e < from
    ensures forall p: nat | p < e && OccursAt(source, KEYWORD, p) :: Explained(lib, source, p, from, splices)
  {
    hide OccursAt, Commented;
    forall p: nat | p < e && OccursAt(source, KEYWORD, p)
      ensures Explained(lib, source, p, from, splices)
    {
      if p < k {
        assert Explained(lib, source, p, k, splices);
      } else {
        assert Kept(lib, source, p, from);
      }
    }
  }

  /** Stepping over a comment or a kept directive leaves every keyword before the next explained. */
  lemma StepOnExplained(lib: Library, source: string, k: nat, splices: set<nat>)
    requires AllExplained(lib, Scanning(source, k), splices)
    requires SpliceOf(lib, Scanning(source, k)) == {}
    ensures AllExplained(lib, Step(lib, Scanning(source, k)), splices)
  {
    hide OccursAt, Closes;
    var st := Scanning(source, k);
    KeywordText(source, k);
    if Commented(source, k) {
      var next := Step(lib, st);
      SeekIsNext(source, k + KEYWORD_SIZE);
      forall p: nat | p < Frontier(next) && OccursAt(source, KEYWORD, p)
        ensures Explained(lib, source, p, Frontier(next), splices)
      {
        KeywordText(source, p);
        if p < k {
          assert Explained(lib, source, p, k, splices);
        }
      }
    } else if DirectiveEnd(source, k).Some? {
      var e := DirectiveEnd(source, k).value;
      var next := Step(lib, st);
      StepSkips(lib, source, k, e);
      SeekIsNext(source, e);
      assert source[e] == '"' || source[e] == '>';
      if next.Scanning? {
        KeywordText(source, next.startPos);
      }
      KeptIsExplained(lib, source, k, e, Frontier(next), splices);
    }
  }

  /** A splice leaves what stands before it alone, and only there can a new keyword form. */
  lemma SpliceExplained(lib: Library, source: string, k: nat, e: nat, content: string, splices: set<nat>)
    requires AllExplained(lib, Scanning(source, k), splices)
    requires e < |source|
    ensures AllExplained(lib, Seek(source[..k] + content + source[e + 1..], k), splices + {k})
  {
    hide OccursAt;
    var spliced := source[..k] + content + source[e + 1..];
    var next := Seek(spliced, k);
    SeekIsNext(spliced, k);
    assert spliced[..k] == source[..k];
    forall p: nat | p < Frontier(next) && OccursAt(spliced, KEYWORD, p)
      ensures Explained(lib, spliced, p, Frontier(next), splices + {k})
    {
      if p + KEYWORD_SIZE <= k {
        OccursInPrefix(source, spliced, k, p);
        ExplainedByPrefix(lib, source, spliced, k, p, splices, {k}, Frontier(next));
      } else if p < k {
        assert k in splices + {k};
      }
    }
  }

  lemma OccursInPrefix(a: string, b: string, k: nat, p: nat)
    requires k <= |a| && k <= |b| && a[..k] == b[..k]
    requires p + KEYWORD_SIZE <= k && OccursAt(b, KEYWORD, p)
    ensures OccursAt(a, KEYWORD, p)
  {
    assert |KEYWORD| == KEYWORD_SIZE;
    assert a[p..p + 9] == a[..k][p..p + 9] == b[..k][p..p + 9] == b[p..p + 9];
  }

  lemma {:induction false} AlwaysExplained(lib: Library, source: string, n: nat)
    ensures AllExplained(lib, Iterate(Loop(lib), Seek(source, 0), n), Splices(lib, Seek(source, 0), n))
  {
    hide OccursAt, Closes, Commented, DirectiveEnd, Explained;
    var start := Seek(source, 0);
    SeekIsNext(source, 0);
    if n > 0 {
      AlwaysExplained(lib, source, n - 1);
      var st := Iterate(Loop(lib), start, n - 1);
      StepExplained(lib, st, Splices(lib, start, n - 1));
    }
  }

  lemma StepExplained(lib: Library, st: Status, splices: set<nat>)
    requires AllExplained(lib, st, splices)
    ensures AllExplained(lib, Step(lib, st), splices + SpliceOf(lib, st))
  {
    hide OccursAt, Commented, Explained;
    if SpliceOf(lib, st) != {} {
      var source, k := st.source, st.startPos;
      var e := DirectiveEnd(source, k).value;
      var content := lib(source[k + KEYWORD_SIZE + 1..e]).value;
      StepSplices(lib, source, k, e, content);
      SpliceExplained(lib, source, k, e, content, splices);
    } else {
      assert splices + SpliceOf(lib, st) == splices;
      if st.Scanning? {
        StepOnExplained(lib, st.source, st.startPos, splices);
      }
    }
  }

  /** Text before startPos is never changed again, and startPos never moves back. */
  lemma {:induction false} EmittedIsFinal(lib: Library, source: string, n: nat, m: nat)
    requires Iterate(Loop(lib), Seek(source, 0), n).Scanning?
    ensures var st, later := Iterate(Loop(lib), Seek(source, 0), n), Iterate(Loop(lib), Seek(source, 0), n + m);
            && st.startPos <= |st.source| && st.startPos <= |later.source|
            && later.source[..st.startPos] == st.source[..st.startPos]
            && (later.Scanning? ==> st.startPos <= later.startPos)
  {
    hide OccursAt, Closes, Commented, DirectiveEnd, Explained, Step, Seek;
    AlwaysExplained(lib, source, n);
    if m > 0 {
      EmittedIsFinal(lib, source, n, m - 1);
      AlwaysExplained(lib, source, n + m - 1);
      var later := Iterate(Loop(lib), Seek(source, 0), n + m - 1);
      assert n + (m - 1) == n + m - 1;
      StepMovesOn(lib, later);
    }
  }

  lemma StepMovesOn(lib: Library, st: Status)
    requires Frontier(st) <= |st.source|
    ensures var next := Step(lib, st);
            && (!st.Scanning? ==> next == st)
            && (st.Scanning? ==> st.startPos <= |st.source| && st.startPos <= |next.source|
                                 && next.source[..st.startPos] == st.source[..st.startPos]
                                 && (next.Scanning? ==> st.startPos <= next.startPos))
  {
    hide OccursAt, Commented, Explained;
  }

  /**
   Every "#include " in a finished text stands on a comment line, or in a directive whose file
   could not be opened, or was put together from both sides of a splice.
   */
  lemma LeftoversExplained(lib: Library, source: string, n: nat, text: string)
    requires Iterate(Loop(lib), Seek(source, 0), n) == Finished(text)
    ensures forall p: nat | OccursAt(text, KEYWORD, p) ::
              Explained(lib, text, p, |text|, Splices(lib, Seek(source, 0), n))
  {
    AlwaysExplained(lib, source, n);
    forall p: nat | OccursAt(text, KEYWORD, p)
      ensures Explained(lib, text, p, |text|, Splices(lib, Seek(source, 0), n))
    {
      KeywordText(text, p);
    }
  }

  // ---- files in which no keyword follows the start of another ----

  /** The first i characters of the keyword. */
  function KeywordStart(i: nat): (r: string)
    requires i <= KEYWORD_SIZE
    ensures |r| == i && forall j :: 0 <= j < i ==> r[j] != '\n'
  {
    "#include "[..i]
  }

  predicate Begun(text: string, p: nat, i: nat)
    requires i <= KEYWORD_SIZE
  {
    i <= p <= |text| && text[p - i..p] == KeywordStart(i)
  }

  /** What is spliced in at p could complete a keyword that starts before. */
  ghost predicate Ripe(text: string, p: nat) {
    exists i: nat :: 0 < i < KEYWORD_SIZE && Begun(text, p, i)
  }

  /** No "#include " at or after from directly follows the start of another. */
  ghost predicate Guarded(text: string, from: nat) {
    forall p: nat | from <= p && OccursAt(text, KEYWORD, p) :: !Ripe(text, p)
  }

  ghost predicate AllGuarded(lib: Library) {
    forall name | lib(name).Some? :: Guarded(lib(name).value, 0)
  }

  ghost predicate SplicesGuarded(st: Status, splices: set<nat>) {
    && Guarded(st.source, Frontier(st))
    && forall j | j in splices :: j <= Frontier(st) && j <= |st.source| && !Ripe(st.source, j)
  }

  lemma BegunText(text: string, p: nat, i: nat, j: nat)
    requires i <= KEYWORD_SIZE && Begun(text, p, i)
    ensures p - i <= j < p ==> text[j] != '\n'
  {
    hide KeywordStart;
    assert p - i <= j < p ==> text[j] == text[p - i..p][j - (p - i)];
  }

  /** The start of a keyword, cut short where a and b part, is still one. */
  lemma SameBegun(a: string, p: nat, b: string, q: nat, i: nat, most: nat)
    requires 0 < most <= i < KEYWORD_SIZE && Begun(a, p, i)
    requires most <= q <= |b| && a[p - i..p - i + most] == b[q - most..q]
    ensures Ripe(b, q)
  {
    assert a[p - i..p][..most] == a[p - i..p - i + most];
    assert KeywordStart(i)[..most] == KeywordStart(most);
    assert Begun(b, q, most);
  }

  lemma GuardedSplice(source: string, k: nat, e: nat, content: string)
    requires k <= e < |source| && OccursAt(source, KEYWORD, k)
    requires Guarded(source, k) && Guarded(content, 0) && SelfContained(content)
    ensures Guarded(source[..k] + content + source[e + 1..], k)
  {
    hide OccursAt, SelfContained, Ripe;
    var a, b := source[..k], source[e + 1..];
    var s := a + content + b;
    forall p: nat | k <= p && OccursAt(s, KEYWORD, p) ensures !Ripe(s, p) {
      KeywordText(s, p);
      var i := p - k;
      if i + KEYWORD_SIZE <= |content| {
        OccursInside(a, content, b, i);
        RipeInContent(source, k, content, b, i);
      } else if i < |content| {
        NoStraddle(a, content, b, i);
      } else {
        OccursAfter(a + content, source, e + 1, i - |content|);
        if Ripe(s, p) {
          RipeAfterContent(source, k, e, content, i - |content|);
        }
      }
    }
  }

  /** A keyword of the content is ripe only if it was, or if the directive that it replaces was. */
  lemma RipeInContent(source: string, k: nat, content: string, b: string, i: nat)
    requires k <= |source| && i <= |content|
    ensures Ripe(source[..k] + content + b, k + i) ==> Ripe(content, i) || Ripe(source, k)
  {
    hide Begun, Ripe, KeywordStart;
    if Ripe(source[..k] + content + b, k + i) {
      var m := RipeBy(source[..k] + content + b, k + i);
      if m <= i {
        BegunInside(source[..k], content, b, i, m);
      } else {
        assert source[..k] + content + b == source[..k] + (content + b);
        BegunAcross(source[..k], source, content + b, i, m);
      }
    }
  }

  lemma BegunInside(a: string, content: string, b: string, i: nat, m: nat)
    requires 0 < m <= i <= |content| && m < KEYWORD_SIZE && Begun(a + content + b, |a| + i, m)
    ensures Ripe(content, i)
  {
    hide KeywordStart, Ripe;
    assert (a + content + b)[|a| + i - m..|a| + i] == content[i - m..i];
    SameBegun(a + content + b, |a| + i, content, i, m, m);
  }

  lemma RipeBy(text: string, p: nat) returns (i: nat)
    requires Ripe(text, p)
    ensures 0 < i < KEYWORD_SIZE && Begun(text, p, i) && i <= p <= |text|
  {
    i :| 0 < i < KEYWORD_SIZE && Begun(text, p, i);
  }

  /** Likewise for a keyword that follows, because a line ends before it or nothing was spliced in. */
  lemma RipeAfterContent(source: string, k: nat, e: nat, content: string, i: nat)
    requires k <= e < |source| && SelfContained(content) && e + 1 + i <= |source|
    requires Ripe(source[..k] + content + source[e + 1..], k + |content| + i)
    ensures Ripe(source, e + 1 + i) || Ripe(source, k)
  {
    hide Begun, Ripe, KeywordStart, SelfContained;
    var m := RipeBy(source[..k] + content + source[e + 1..], k + |content| + i);
    if m <= i {
      BegunBehind(source[..k] + content, source, e + 1, i, m);
    } else {
      ContentIsEmpty(source[..k], content, source[e + 1..], i, m);
      assert source[..k] + content == source[..k];
      BegunAcross(source[..k], source, source[e + 1..], i, m);
    }
  }

  lemma BegunBehind(a: string, source: string, from: nat, i: nat, m: nat)
    requires 0 < m <= i && m < KEYWORD_SIZE && from + i <= |source| && Begun(a + source[from..], |a| + i, m)
    ensures Ripe(source, from + i)
  {
    hide Begun, KeywordStart, Ripe;
    assert (a + source[from..])[|a| + i - m..|a| + i] == source[from + i - m..from + i];
    SameBegun(a + source[from..], |a| + i, source, from + i, m, m);
  }

  lemma BegunAcross(a: string, source: string, b: string, i: nat, m: nat)
    requires 0 < i + 1 <= m < KEYWORD_SIZE && a <= source && i <= |b| && Begun(a + b, |a| + i, m)
    ensures Ripe(source, |a|)
  {
    hide KeywordStart, Ripe;
    assert (a + b)[|a| + i - m..|a|] == source[|a| + i - m..|a|];
    SameBegun(a + b, |a| + i, source, |a|, m, m - i);
  }

  lemma ContentIsEmpty(a: string, content: string, b: string, i: nat, m: nat)
    requires SelfContained(content) && i <= |b|
    requires i < m < KEYWORD_SIZE && Begun(a + content + b, |a| + |content| + i, m)
    ensures content == ""
  {
    hide KeywordStart;
    BegunText(a + content + b, |a| + |content| + i, m, if content == "" then 0 else |a| + |content| - 1);
  }

  lemma OccursAfter(a: string, source: string, from: nat, i: nat)
    requires from <= |source|
    ensures OccursAt(a + source[from..], KEYWORD, |a| + i) <==> OccursAt(source, KEYWORD, from + i)
  {
    assert |KEYWORD| == KEYWORD_SIZE;
    var s := a + source[from..];
    if from + i + 9 <= |source| {
      assert s[|a| + i..|a| + i + 9] == source[from + i..from + i + 9];
    }
  }

  lemma StepGuarded(lib: Library, st: Status, splices: set<nat>)
    requires AllGuarded(lib) && AllSelfContained(lib)
    requires Frontier(st) <= |st.source|
    requires st.Scanning? ==> OccursAt(st.source, KEYWORD, st.startPos)
    requires SplicesGuarded(st, splices)
    ensures SplicesGuarded(Step(lib, st), splices + SpliceOf(lib, st))
  {
    hide OccursAt, Commented, SelfContained, Ripe;
    if SpliceOf(lib, st) == {} {
      assert splices + SpliceOf(lib, st) == splices;
      StepMovesOn(lib, st);
      assert Step(lib, st).source == st.source;
    } else {
      var source, k := st.source, st.startPos;
      var e := DirectiveEnd(source, k).value;
      var content := lib(source[k + KEYWORD_SIZE + 1..e]).value;
      StepSplices(lib, source, k, e, content);
      SpliceKeepsGuarded(source, k, e, content, splices);
    }
  }

  lemma SpliceKeepsGuarded(source: string, k: nat, e: nat, content: string, splices: set<nat>)
    requires k <= e < |source| && OccursAt(source, KEYWORD, k)
    requires SplicesGuarded(Scanning(source, k), splices)
    requires Guarded(content, 0) && SelfContained(content)
    ensures SplicesGuarded(Seek(source[..k] + content + source[e + 1..], k), splices + {k})
  {
    hide OccursAt, SelfContained, Ripe;
    var spliced := source[..k] + content + source[e + 1..];
    GuardedSplice(source, k, e, content);
    SeekIsNext(spliced, k);
    forall j | j in splices + {k} ensures j <= k && !Ripe(spliced, j) {
      assert spliced[..k] == source[..k];
      RipeInPrefix(spliced, source, k, j);
    }
  }

  lemma RipeInPrefix(a: string, b: string, k: nat, p: nat)
    requires p <= k <= |a| && k <= |b| && a[..k] == b[..k]
    ensures Ripe(a, p) ==> Ripe(b, p)
  {
    hide Begun, Ripe, KeywordStart;
    if Ripe(a, p) {
      var m := RipeBy(a, p);
      assert a[p - m..p] == a[..k][p - m..p] == b[..k][p - m..p] == b[p - m..p];
      SameBegun(a, p, b, p, m, m);
    }
  }

  lemma {:induction false} AlwaysGuarded(lib: Library, source: string, n: nat)
    requires AllGuarded(lib) && AllSelfContained(lib) && Guarded(source, 0)
    ensures SplicesGuarded(Iterate(Loop(lib), Seek(source, 0), n), Splices(lib, Seek(source, 0), n))
  {
    hide OccursAt, Closes, Commented, DirectiveEnd, Explained, SelfContained, Step, Ripe;
    var start := Seek(source, 0);
    if n == 0 {
      SeekIsNext(source, 0);
    } else {
      var st := Iterate(Loop(lib), start, n - 1);
      AlwaysGuarded(lib, source, n - 1);
      AlwaysExplained(lib, source, n - 1);
      StepGuarded(lib, st, Splices(lib, start, n - 1));
    }
  }

  lemma StraddledIsRipe(text: string, p: nat, j: nat)
    requires OccursAt(text, KEYWORD, p) && p < j < p + KEYWORD_SIZE
    ensures j <= |text| && Ripe(text, j)
  {
    KeywordText(text, p);
    var i := j - p;
    assert text[p..p + 9] == KEYWORD;
    assert text[j - i..j] == text[p..p + 9][..i] == KeywordStart(i);
    assert Begun(text, j, i);
  }

  /**
   When no keyword follows the start of another, every "#include " in a finished text is
   commented out or belongs to a directive whose file could not be opened.
   */
  lemma GuardedLeftovers(lib: Library, source: string, n: nat, text: string)
    requires AllGuarded(lib) && AllSelfContained(lib) && Guarded(source, 0)
    requires Iterate(Loop(lib), Seek(source, 0), n) == Finished(text)
    ensures forall p: nat | OccursAt(text, KEYWORD, p) :: Commented(text, p) || Kept(lib, text, p, |text|)
  {
    hide Closes, Commented, Ripe;
    var splices := Splices(lib, Seek(source, 0), n);
    LeftoversExplained(lib, source, n, text);
    AlwaysGuarded(lib, source, n);
    forall p: nat | OccursAt(text, KEYWORD, p)
      ensures Commented(text, p) || Kept(lib, text, p, |text|)
    {
      assert Explained(lib, text, p, |text|, splices);
      if Straddles(p, splices) {
        var j :| j in splices && p < j < p + KEYWORD_SIZE;
        StraddledIsRipe(text, p, j);
      }
    }
  }

  // ---- no weaker condition on the source will do ----

  /** No run over source leaves a keyword that is neither commented out nor in a directive that was kept. */
  ghost predicate NothingLeft(lib: Library, source: string) {
    forall n: nat, text: string, p: nat |
      Iterate(Loop(lib), Seek(source, 0), n) == Finished(text) && OccursAt(text, KEYWORD, p) ::
      Commented(text, p) || Kept(lib, text, p, |text|)
  }

  /** source holds one keyword, at k; it is not commented out and begins a directive that closes at e. */
  ghost predicate OneDirective(source: string, k: nat, e: nat) {
    && OccursAt(source, KEYWORD, k) && !Commented(source, k) && DirectiveEnd(source, k) == Some(e)
    && forall p: nat | OccursAt(source, KEYWORD, p) :: p == k
  }

  /** What completes the keyword after its first m characters, as a line of its own. */
  function Completion(m: nat): (r: string)
    requires 0 < m < KEYWORD_SIZE
    ensures |r| == 10 - m && r[9 - m] == '\n' && KeywordStart(m) + r[..9 - m] == KEYWORD
    ensures forall i :: 0 <= i < |r| ==> r[i] != '#'
  {
    "#include "[m..] + "\n"
  }

  lemma CompletionIsFit(m: nat)
    requires 0 < m < KEYWORD_SIZE
    ensures SelfContained(Completion(m)) && Guarded(Completion(m), 0)
  {
    hide Completion;
    forall p: nat ensures !OccursAt(Completion(m), KEYWORD, p) {
      KeywordText(Completion(m), p);
    }
  }

  /** No keyword from the splice on. */
  lemma CompletedEnds(source: string, k: nat, e: nat, m: nat)
    requires OneDirective(source, k, e) && 0 < m < KEYWORD_SIZE
    ensures Seek(source[..k] + Completion(m) + source[e + 1..], k)
            == Finished(source[..k] + Completion(m) + source[e + 1..])
  {
    hide OccursAt, Completion, Commented, Find;
    var content := Completion(m);
    var text := source[..k] + content + source[e + 1..];
    FindIsFirst(text, KEYWORD, k);
    forall p: nat | k <= p ensures !OccursAt(text, KEYWORD, p) {
      KeywordText(text, p);
      if p < k + |content| {
        assert p < |text| ==> text[p] == content[p - k];
      } else {
        OccursAfter(source[..k] + content, source, e + 1, p - k - |content|);
      }
    }
  }

  /** A keyword that is not commented out, just as the one at k was not. */
  lemma CompletedIsLeft(source: string, k: nat, e: nat, m: nat)
    requires OneDirective(source, k, e) && 0 < m < KEYWORD_SIZE && Begun(source, k, m)
    ensures var text := source[..k] + Completion(m) + source[e + 1..];
            OccursAt(text, KEYWORD, k - m) && !Commented(text, k - m)
  {
    hide Completion, KeywordStart, DirectiveEnd, Commented;
    var content := Completion(m);
    var text := source[..k] + content + source[e + 1..];
    assert text[k - m..k] == source[k - m..k];
    assert text[k..k + 9 - m] == content[..9 - m];
    assert text[k - m..k - m + 9] == text[k - m..k] + text[k..k + 9 - m] == KEYWORD;
    assert text[..k] == source[..k];
    NotCommentedBefore(source, text, k, k - m);
  }

  lemma NotCommentedBefore(a: string, b: string, k: nat, p: nat)
    requires p < k < p + KEYWORD_SIZE && k <= |a| && k <= |b| && a[..k] == b[..k]
    requires OccursAt(a, KEYWORD, k) && OccursAt(b, KEYWORD, p) && !Commented(a, k)
    ensures !Commented(b, p)
  {
    KeywordText(a, k);
    KeywordText(b, p);
    assert forall j :: 0 <= j < k ==> b[j] == b[..k][j] == a[..k][j] == a[j];
    var line := RFind(b, '\n', p);
    if line.Some? {
      RFindIsLast(a, '\n', k, line.value);
    }
  }

  /**
   The guard is exactly what a source with one directive needs: it leaves nothing behind over
   any guarded, self-contained files if and only if it is guarded itself.
   */
  lemma GuardIsSharp(source: string, k: nat, e: nat)
    requires OneDirective(source, k, e)
    ensures (forall lib | AllGuarded(lib) && AllSelfContained(lib) :: NothingLeft(lib, source)) <==> Guarded(source, 0)
  {
    hide Commented, OccursAt, Ripe, AllSelfContained, AllGuarded, OneDirective;
    if Guarded(source, 0) {
      forall lib | AllGuarded(lib) && AllSelfContained(lib) ensures NothingLeft(lib, source) {
        forall n: nat, text: string, p: nat |
          Iterate(Loop(lib), Seek(source, 0), n) == Finished(text) && OccursAt(text, KEYWORD, p)
          ensures Commented(text, p) || Kept(lib, text, p, |text|)
        {
          GuardedLeftovers(lib, source, n, text);
        }
      }
    } else {
      var p: nat :| OccursAt(source, KEYWORD, p) && Ripe(source, p);
      var lib := RipeLeaves(source, k, e, p);
    }
  }

  lemma RipeLeaves(source: string, k: nat, e: nat, p: nat) returns (lib: Library)
    requires OneDirective(source, k, e) && OccursAt(source, KEYWORD, p) && Ripe(source, p)
    ensures AllGuarded(lib) && AllSelfContained(lib) && !NothingLeft(lib, source)
  {
    hide Commented, OccursAt, Ripe, Begun, Completion, Find, DirectiveEnd;
    var m := RipeBy(source, k);
    var content := Completion(m);
    lib := _ => Some(content);
    CompletionIsFit(m);
    var text := source[..k] + content + source[e + 1..];
    FirstIsFound(source, KEYWORD, 0, k);
    StepSplices(lib, source, k, e, content);
    CompletedEnds(source, k, e, m);
    CompletedIsLeft(source, k, e, m);
    assert Iterate(Loop(lib), Seek(source, 0), 0) == Scanning(source, k);
    assert Iterate(Loop(lib), Seek(source, 0), 1) == Finished(text);
    assert !Kept(lib, text, k - m, |text|);
  }

  /** Without that condition a splice can spell a new directive that the loop never looks at. */
  lemma SpliceSpellsDirective()
    ensures var lib: Library := name => if name == "E" then Some("") else if name == "F" then Some("x\n") else None;
            var source, text := "#incl" + (KEYWORD + "\"E\"") + "ude \"F\"", "#include \"F\"";
            && AllSelfContained(lib)
            && Iterate(Loop(lib), Seek(source, 0), 1) == Finished(text)
            && OccursAt(text, KEYWORD, 0) && !Commented(text, 0)
            && DirectiveEnd(text, 0) == Some(11) && text[10..11] == "F"
  {
    hide DirectiveEnd, Find, Commented, OccursAt, Iterate, SelfContained;
    var lib: Library := name => if name == "E" then Some("") else if name == "F" then Some("x\n") else None;
    var text := "#include \"F\"";
    assert "#incl" + "ude \"F\"" == text;
    SpliceEmpty(lib, "ude \"F\"");
    LoneDirective(text);
    ShortIsSelfContained("");
    ShortIsSelfContained("x\n");
  }

  lemma ShortIsSelfContained(text: string)
    requires |text| < KEYWORD_SIZE && (text != "" ==> text[|text| - 1] == '\n')
    ensures SelfContained(text)
  {
  }

  lemma LoneDirective(text: string)
    requires |text| == 12 && text[..9] == KEYWORD && text[10] == 'F' && text[11] == '"'
    requires forall i :: 0 <= i < |text| ==> text[i] != '\n' && (i > 0 ==> text[i] != '#')
    ensures OccursAt(text, KEYWORD, 0) && !Commented(text, 0)
    ensures DirectiveEnd(text, 0) == Some(11) && text[10..11] == "F"
    ensures Seek(text, 5) == Finished(text)
  {
    hide DirectiveEnd, Find, Commented;
    assert text[0..9] == text[..9];
    forall j: nat | 5 <= j ensures !OccursAt(text, KEYWORD, j) {
      KeywordText(text, j);
    }
    FindIsFirst(text, KEYWORD, 5);
    FirstLineNotCommented(text, 0);
    assert Closes(text, 0, 11);
    DirectiveEndIs(text, 0, 11);
    assert text[10..11] == [text[10]];
  }

  lemma SpliceEmpty(lib: Library, after: string)
    requires lib("E") == Some("")
    ensures Iterate(Loop(lib), Seek("#incl" + (KEYWORD + "\"E\"") + after, 0), 1) == Seek("#incl" + after, 5)
  {
    hide Commented, Find, DirectiveEnd;
    var before, directive := "#incl", KEYWORD + "\"E\"";
    var source := before + directive + after;
    assert source[5..14] == KEYWORD;
    forall j: nat | j < 5 ensures !OccursAt(source, KEYWORD, j) {
      KeywordText(source, j);
      assert source[j] == before[j] && source[5] == '#';
    }
    FirstIsFound(source, KEYWORD, 0, 5);
    assert Closes(source, 5, 16);
    DirectiveEndIs(source, 5, 16);
    assert source[15..16] == "E";
    FirstLineNotCommented(source, 5);
    StepSplices(lib, source, 5, 16, "");
    assert source[..5] + "" + source[17..] == before + after;
    assert Iterate(Loop(lib), Seek(source, 0), 0) == Scanning(source, 5);
    assert Iterate(Loop(lib), Seek(source, 0), 1) == Step(lib, Scanning(source, 5));
  }

  /** The first line is never taken for a comment line. */
  lemma FirstLineNotCommented(source: string, k: nat)
    requires forall i :: 0 <= i <= k && i < |source| ==> source[i] != '\n'
    ensures !Commented(source, k)
  {
  }
}
