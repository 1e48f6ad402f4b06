/** The parts of std::string searching that the modelled code relies on. */
module Strings {

  datatype Option<+T> = None | Some(value: T)

  predicate OccursAt(s: string, pat: string, i: nat) {
    i + |pat| <= |s| && s[i..i + |pat|] == pat
  }

  /** std::string::find: the first occurrence of pat at or after from. */
  function Find(s: string, pat: string, from: nat): (r: Option<nat>)
    ensures r.Some? ==> from <= r.value && r.value + |pat| <= |s| && OccursAt(s, pat, r.value)
    decreases |s| - from
  {
    if from + |pat| > |s| then None
    else if OccursAt(s, pat, from) then Some(from)
    else Find(s, pat, from + 1)
  }

  lemma {:induction false} FindIsFirst(s: string, pat: string, from: nat)
    ensures Find(s, pat, from).Some? ==>
              && from <= Find(s, pat, from).value && OccursAt(s, pat, Find(s, pat, from).value)
              && forall j :: from <= j < Find(s, pat, from).value ==> !OccursAt(s, pat, j)
    ensures Find(s, pat, from).None? ==> forall j :: from <= j ==> !OccursAt(s, pat, j)
    decreases |s| - from
  {
    if from + |pat| <= |s| && !OccursAt(s, pat, from) {
      FindIsFirst(s, pat, from + 1);
    }
  }

  lemma FirstIsFound(s: string, pat: string, from: nat, k: nat)
    requires from <= k && OccursAt(s, pat, k)
    requires forall j :: from <= j < k ==> !OccursAt(s, pat, j)
    ensures Find(s, pat, from) == Some(k)
  {
    FindIsFirst(s, pat, from);
  }

  /** std::string::find of one character. */
  function FindChar(s: string, c: char, from: nat): (r: Option<nat>)
    ensures r.Some? ==> from <= r.value < |s| && s[r.value] == c
    ensures r.Some? ==> forall j :: from <= j < r.value ==> s[j] != c
    ensures r.None? ==> forall j :: from <= j < |s| ==> s[j] != c
    decreases |s| - from
  {
    if from >= |s| then None
    else if s[from] == c then Some(from)
    else FindChar(s, c, from + 1)
  }

  /** std::string::rfind of one character: its last occurrence at or before from. */
  function RFind(s: string, c: char, from: nat): (r: Option<nat>)
    ensures r.Some? ==> r.value <= from && r.value < |s| && s[r.value] == c
    ensures r.Some? ==> forall j :: r.value < j <= from && j < |s| ==> s[j] != c
    ensures r.None? ==> forall j :: 0 <= j <= from && j < |s| ==> s[j] != c
  {
    if from < |s| && s[from] == c then Some(from)
    else if from == 0 then None
    else RFind(s, c, from - 1)
  }
}
