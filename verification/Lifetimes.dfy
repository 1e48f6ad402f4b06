/** What initResources creates and what deinitResources gives back. */
module Lifetimes {
  import opened Gl
  import opened Pipelines

  // ---- initResources ----

  /** Objects created one after the other. */
  function CreateAll(s: State, tag: nat, made: seq<(Name, Kernel)>): State {
    if made == [] then s
    else Create(CreateAll(s, tag, made[..|made| - 1]), made[|made| - 1].0, tag, made[|made| - 1].1)
  }

  function NamesOf(made: seq<(Name, Kernel)>): (r: seq<Name>)
    ensures |r| == |made| && forall i :: 0 <= i < |made| ==> r[i] == made[i].0
  {
    seq(|made|, i requires 0 <= i < |made| => made[i].0)
  }

  /** Every name was new, and not 0, when it was created. */
  ghost predicate AllFresh(s: State, made: seq<(Name, Kernel)>) {
    && (forall i :: 0 <= i < |made| ==> made[i].0.id != 0 && made[i].0 !in s.objects)
    && (forall i, j :: 0 <= i < j < |made| ==> made[i].0 != made[j].0)
  }

  lemma {:induction false} CreateAllOwns(s: State, tag: nat, made: seq<(Name, Kernel)>)
    requires AllFresh(s, made)
    ensures var s' := CreateAll(s, tag, made);
            && Owned(s', tag) == Owned(s, tag) + (set n | n in NamesOf(made)) && Others(s', tag) == Others(s, tag)
            && (forall n :: n in s'.objects <==> n in s.objects || n in NamesOf(made))
            && s'.unfetched <= s.unfetched && Faultless(s, s')
  {
    hide Owned, Others, Create, NamesOf;
    if made == [] {
      assert NamesOf(made) == [];
    } else {
      var last := |made| - 1;
      var rest := made[..last];
      CreateAllOwns(s, tag, rest);
      LastOfNames(made);
      LastIsNew(s, made);
      CreateEffect(CreateAll(s, tag, rest), made[last].0, tag, made[last].1);
    }
  }

  lemma LastOfNames(made: seq<(Name, Kernel)>)
    requires made != []
    ensures NamesOf(made) == NamesOf(made[..|made| - 1]) + [made[|made| - 1].0]
  {
  }

  lemma LastIsNew(s: State, made: seq<(Name, Kernel)>)
    requires AllFresh(s, made) && made != []
    ensures made[|made| - 1].0 !in NamesOf(made[..|made| - 1]) && made[|made| - 1].0 !in s.objects
  {
    hide NamesOf;
    var rest := NamesOf(made[..|made| - 1]);
    assert forall i :: 0 <= i < |rest| ==> rest[i] == made[i].0;
  }

  lemma {:induction false} CreateAllMakes(s: State, tag: nat, made: seq<(Name, Kernel)>)
    requires AllFresh(s, made)
    ensures var s' := CreateAll(s, tag, made);
            && (forall i :: 0 <= i < |made| ==>
                made[i].0 in s'.objects && s'.objects[made[i].0] == NewObject(tag, made[i].1))
            && (forall i :: 0 <= i < |made| && made[i].0.Texture? ==> made[i].0.id !in s'.unfetched)
  {
    hide Owned, Others, NamesOf;
    if made != [] {
      var last := |made| - 1;
      var rest := made[..last];
      CreateAllMakes(s, tag, rest);
      assert forall i :: 0 <= i < last ==> made[i] == rest[i];
    }
  }

  lemma CreateAllEffect(s: State, tag: nat, made: seq<(Name, Kernel)>)
    requires AllFresh(s, made)
    ensures var s' := CreateAll(s, tag, made);
            && Owned(s', tag) == Owned(s, tag) + (set n | n in NamesOf(made)) && Others(s', tag) == Others(s, tag)
            && (forall i :: 0 <= i < |made| ==>
                made[i].0 in s'.objects && s'.objects[made[i].0] == NewObject(tag, made[i].1))
            && (forall n :: n in s'.objects <==> n in s.objects || n in NamesOf(made))
            && s'.unfetched <= s.unfetched && Faultless(s, s')
            && (forall i :: 0 <= i < |made| && made[i].0.Texture? ==> made[i].0.id !in s'.unfetched)
  {
    hide *;
    CreateAllOwns(s, tag, made);
    CreateAllMakes(s, tag, made);
  }

  /** One more object. */
  lemma CreateOneMore(s: State, tag: nat, made: seq<(Name, Kernel)>, n: Name, kernel: Kernel)
    requires AllFresh(s, made) && n.id != 0 && n !in CreateAll(s, tag, made).objects
    ensures AllFresh(s, made + [(n, kernel)])
    ensures CreateAll(s, tag, made + [(n, kernel)]) == Create(CreateAll(s, tag, made), n, tag, kernel)
  {
    hide Owned, Others, Create;
    CreateAllEffect(s, tag, made);
    var all := made + [(n, kernel)];
    assert all[..|all| - 1] == made;
    assert forall i :: 0 <= i < |made| ==> NamesOf(made)[i] == made[i].0;
  }

  /** What the code must have created for its pipeline. */
  ghost predicate Built(p: Pipeline, made: seq<(Name, Kernel)>) {
    && Shaped(p) && Distinct(p)
    && p.names == NamesOf(made) && p.staging == 0
    && (forall i :: 0 <= i < |p.pre| ==> StageBuilt(p.pre[i], made))
    && (forall i :: 0 <= i < |p.stages| ==> StageBuilt(p.stages[i], made))
    && (forall i :: 0 <= i < |p.stitch| ==> StageBuilt(p.stitch[i], made))
  }

  ghost predicate StageBuilt(stage: Stage, made: seq<(Name, Kernel)>) {
    (Program(stage.pso.program), stage.kernel) in made && (Texture(stage.target), NoKernel) in made
  }

  /** Creating everything and uploading the image makes the encoder ready. */
  lemma InitReady(p: Pipeline, s: State, made: seq<(Name, Kernel)>, params: seq<seq<int>>)
    requires AllFresh(s, made) && Built(p, made) && Owned(s, p.tag) == {} && |params| == |p.stages|
    ensures var s' := SetContent(CreateAll(s, p.tag, made), Texture(p.src), Image(p.image));
            Ready(p, s') && Stays(s, s', p.tag) && Reached(p, s', 0, params)
  {
    hide Owned, Others, SetContent, Distinct, StageReady, CreateAll, AllFresh;
    var mid := CreateAll(s, p.tag, made);
    var s' := SetContent(mid, Texture(p.src), Image(p.image));
    CreateAllEffect(s, p.tag, made);
    SourceNamed(p);
    assert Owned(mid, p.tag) == NameSet(p);
    ContentSet(mid, p.tag, Texture(p.src), Image(p.image));
    SetContentStays(mid, Texture(p.src), Image(p.image));
    ProtectedIsClean(p, mid, made);
    forall stage: Stage | StageOk(stage) && StageBuilt(stage, made) ensures StageReady(p, s', stage) {
      BuiltIsReady(p, mid, s', stage, made);
    }
  }

  lemma ProtectedIsClean(p: Pipeline, mid: State, made: seq<(Name, Kernel)>)
    requires Built(p, made)
    requires forall i :: 0 <= i < |made| && made[i].0.Texture? ==> made[i].0.id !in mid.unfetched
    ensures p.Protected() !! mid.unfetched
  {
    hide Distinct;
    SourceNamed(p);
    forall t | t in p.Protected() ensures t !in mid.unfetched {
      if p.pre != [] && t == p.pre[0].target {
        assert (Texture(t), NoKernel) in made;
      } else {
        var i :| 0 <= i < |made| && p.names[i] == Texture(p.src);
      }
    }
  }

  lemma BuiltIsReady(p: Pipeline, mid: State, s': State, stage: Stage, made: seq<(Name, Kernel)>)
    requires StageOk(stage) && StageBuilt(stage, made) && p.names == NamesOf(made)
    requires forall i :: 0 <= i < |made| ==>
            made[i].0 in mid.objects && mid.objects[made[i].0] == NewObject(p.tag, made[i].1)
    requires forall m :: m in mid.objects ==> m in s'.objects && s'.objects[m].kernel == mid.objects[m].kernel
                                              && s'.objects[m].uniforms == mid.objects[m].uniforms
    ensures StageReady(p, s', stage)
  {
    var i :| 0 <= i < |made| && made[i] == (Program(stage.pso.program), stage.kernel);
    var j :| 0 <= j < |made| && made[j] == (Texture(stage.target), NoKernel);
    assert p.names[i] == made[i].0 && p.names[j] == made[j].0;
  }

  // ---- deinitResources ----

  function DeleteAll(s: State, names: seq<Name>): State {
    if names == [] then s else Delete(DeleteAll(s, names[..|names| - 1]), names[|names| - 1])
  }

  /** Deleting distinct live names of one's own. */
  lemma {:induction false} DeleteAllEffect(s: State, names: seq<Name>, tag: nat)
    requires forall i :: 0 <= i < |names| ==> names[i].id != 0 && names[i] in Owned(s, tag)
    requires forall i, j :: 0 <= i < j < |names| ==> names[i] != names[j]
    ensures var s' := DeleteAll(s, names);
            Owned(s', tag) == Owned(s, tag) - (set n | n in names) && Stays(s, s', tag)
  {
    hide Owned, Others, Delete;
    if names != [] {
      var last := |names| - 1;
      var rest := names[..last];
      assert forall i :: 0 <= i < last ==> names[i] == rest[i];
      DeleteAllEffect(s, rest, tag);
      assert names == rest + [names[last]];
      assert names[last] !in rest;
      DeleteEffect(DeleteAll(s, rest), names[last], tag);
    }
  }

  function Optional(present: bool, names: seq<Name>): seq<Name> { if present then names else [] }

  function PsoNames(pso: Pso): seq<Name> { [Program(pso.program), Shader(pso.shader)] }

  /** Every name that the encoder owns. */
  function AllNames(p: Pipeline): seq<Name> { p.names + if p.staging != 0 then [Buffer(p.staging)] else [] }

  /** all consists of a and b, in any order. */
  ghost predicate Splits(all: seq<Name>, a: seq<Name>, b: seq<Name>) {
    |a| + |b| == |all| && forall n :: n in all <==> n in a || n in b
  }

  /**
   An encoder that deletes names of its own, in any order and each once, is left with exactly
   the ones that it has not deleted.
   */
  lemma DeinitLeaves(p: Pipeline, s: State, deleted: seq<Name>, left: seq<Name>)
    requires Ready(p, s) && Splits(AllNames(p), deleted, left)
    ensures var s' := DeleteAll(s, deleted);
            Owned(s', p.tag) == (set n | n in left) && Stays(s, s', p.tag)
  {
    hide Owned, Others, Distinct;
    AllNamesDistinct(p);
    AllNamesAreNames(p);
    DistinctParts(AllNames(p), deleted, left);
    DeleteAllEffect(s, deleted, p.tag);
  }

  lemma AllNamesAreNames(p: Pipeline)
    ensures forall n :: n in AllNames(p) <==> n in NameSet(p)
  {
  }

  function SetOf(names: seq<Name>): set<Name> { set n | n in names }

  lemma NamesSplit(a: seq<(Name, Kernel)>, b: seq<(Name, Kernel)>)
    ensures SetOf(NamesOf(a + b)) == SetOf(NamesOf(a)) + SetOf(NamesOf(b))
  {
    assert NamesOf(a + b) == NamesOf(a) + NamesOf(b);
  }

  /** Up to six names, one by one. */
  lemma FewNames(made: seq<(Name, Kernel)>)
    requires |made| <= 6
    ensures SetOf(NamesOf(made))
            == (if |made| > 0 then {made[0].0} else {}) + (if |made| > 1 then {made[1].0} else {})
               + (if |made| > 2 then {made[2].0} else {}) + (if |made| > 3 then {made[3].0} else {})
               + (if |made| > 4 then {made[4].0} else {}) + (if |made| > 5 then {made[5].0} else {})
  {
    var names := NamesOf(made);
    assert forall n :: n in names <==> exists i :: 0 <= i < |names| && names[i] == n;
  }

  /** After initResources an encoder owns what it has created. */
  lemma InitOwns(s: State, tag: nat, made: seq<(Name, Kernel)>, src: nat, image: int)
    requires AllFresh(s, made) && Owned(s, tag) == {}
    ensures Owned(SetContent(CreateAll(s, tag, made), Texture(src), Image(image)), tag) == SetOf(NamesOf(made))
  {
    hide AllFresh, CreateAll, NamesOf;
    CreateAllOwns(s, tag, made);
  }

  ghost predicate NoRepeats(names: seq<Name>) { forall i, j :: 0 <= i < j < |names| ==> names[i] != names[j] }

  lemma SetOfSnoc(names: seq<Name>)
    requires names != []
    ensures SetOf(names) == SetOf(names[..|names| - 1]) + {names[|names| - 1]}
  {
    assert names == names[..|names| - 1] + [names[|names| - 1]];
  }

  /** A list is as long as its set exactly when it repeats nothing. */
  lemma {:induction false} SizeOfSet(names: seq<Name>)
    ensures |SetOf(names)| <= |names|
    ensures NoRepeats(names) ==> |SetOf(names)| == |names|
    ensures |SetOf(names)| == |names| ==> NoRepeats(names)
  {
    if names != [] {
      var rest, last := names[..|names| - 1], names[|names| - 1];
      SizeOfSet(rest);
      SetOfSnoc(names);
      assert last in SetOf(rest) <==> last in rest;
      if last in rest {
        assert SetOf(rest) + {last} == SetOf(rest);
      }
    }
  }

  lemma DistinctParts(all: seq<Name>, a: seq<Name>, b: seq<Name>)
    requires Splits(all, a, b) && NoRepeats(all)
    ensures NoRepeats(a)
    ensures forall n :: n in a ==> n !in b
  {
    var both := a + b;
    assert SetOf(both) == SetOf(all) by {
      assert forall n :: n in both <==> n in a || n in b;
    }
    SizeOfSet(all);
    SizeOfSet(both);
    assert forall i :: 0 <= i < |a| ==> both[i] == a[i];
    assert forall j :: 0 <= j < |b| ==> both[|a| + j] == b[j];
  }

  lemma AllNamesDistinct(p: Pipeline)
    requires Shaped(p) && Distinct(p)
    ensures forall i, j :: 0 <= i < j < |AllNames(p)| ==> AllNames(p)[i] != AllNames(p)[j]
    ensures forall n :: n in AllNames(p) ==> n.id != 0
  {
  }

  lemma NoneDeleted(s: State)
    ensures DeleteAll(s, []) == s
  {
  }

  /** Bookkeeping for a name that has just been deleted. */
  lemma DeletedName(s: State, deleted: seq<Name>, n: Name) returns (all: seq<Name>)
    ensures all == deleted + [n] && DeleteAll(s, all) == Delete(DeleteAll(s, deleted), n)
  {
    all := deleted + [n];
    assert all[..|all| - 1] == deleted;
  }

  lemma DeletedPso(s: State, deleted: seq<Name>, pso: Pso) returns (all: seq<Name>)
    ensures all == deleted + [Program(pso.program), Shader(pso.shader)]
    ensures DeleteAll(s, all) == DeletePso(DeleteAll(s, deleted), pso)
  {
    var some := DeletedName(s, deleted, Program(pso.program));
    all := DeletedName(s, some, Shader(pso.shader));
    assert all == deleted + [Program(pso.program), Shader(pso.shader)];
  }

  /** What the names that initResources creates are good for. */
  lemma NamesDiffer(s: State, made: seq<(Name, Kernel)>)
    requires AllFresh(s, made)
    ensures forall i, j :: 0 <= i < j < |made| ==> made[i].0 != made[j].0
    ensures forall i, j :: 0 <= i < j < |made| ==> NamesOf(made)[i] != NamesOf(made)[j]
    ensures forall n :: n in NamesOf(made) ==> n.id != 0 && n != Buffer(0)
  {
  }

  /** What is created first differs from what is created later. */
  lemma Apart(s: State, front: seq<(Name, Kernel)>, back: seq<(Name, Kernel)>)
    requires AllFresh(s, front + back)
    ensures AllFresh(s, front) && AllFresh(s, back)
    ensures forall x, y :: x in front && y in back ==> x.0 != y.0
    ensures forall x :: x in front || x in back ==> x in front + back
  {
    var all := front + back;
    assert forall i :: 0 <= i < |front| ==> all[i] == front[i];
    assert forall i :: 0 <= i < |back| ==> all[|front| + i] == back[i];
  }

  lemma Named(p: Pipeline, made: seq<(Name, Kernel)>)
    requires p.names == NamesOf(made)
    ensures forall n, k :: (n, k) in made ==> n in p.names
  {
    forall n, k | (n, k) in made ensures n in p.names {
      var i :| 0 <= i < |made| && made[i] == (n, k);
      assert p.names[i] == n;
    }
  }

  lemma NoneMade(s: State, tag: nat)
    ensures AllFresh(s, []) && CreateAll(s, tag, []) == s
  {
  }

  /** Bookkeeping for a name that has just been created. */
  lemma Made(s: State, tag: nat, made: seq<(Name, Kernel)>, n: Name) returns (all: seq<(Name, Kernel)>)
    requires AllFresh(s, made) && n.id != 0 && n !in CreateAll(s, tag, made).objects
    ensures all == made + [(n, NoKernel)] && AllFresh(s, all)
    ensures CreateAll(s, tag, all) == Create(CreateAll(s, tag, made), n, tag, NoKernel)
  {
    all := made + [(n, NoKernel)];
    CreateOneMore(s, tag, made, n, NoKernel);
  }

  /** Likewise for a shader and its program. */
  lemma MadeProgram(s: State, tag: nat, made: seq<(Name, Kernel)>, pso: Pso, kernel: Kernel)
    returns (all: seq<(Name, Kernel)>)
    requires AllFresh(s, made) && pso.shader != 0 && pso.program != 0
    requires Shader(pso.shader) !in CreateAll(s, tag, made).objects
    requires Program(pso.program) !in CreateAll(s, tag, made).objects
    ensures all == made + [(Shader(pso.shader), NoKernel), (Program(pso.program), kernel)] && AllFresh(s, all)
    ensures CreateAll(s, tag, all) == CreatePso(CreateAll(s, tag, made), pso, tag, kernel)
  {
    CreateOneMore(s, tag, made, Shader(pso.shader), NoKernel);
    var some := made + [(Shader(pso.shader), NoKernel)];
    CreateOneMore(s, tag, some, Program(pso.program), kernel);
    all := some + [(Program(pso.program), kernel)];
    assert all == made + [(Shader(pso.shader), NoKernel), (Program(pso.program), kernel)];
  }
}
