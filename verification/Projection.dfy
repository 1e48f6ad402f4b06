/**
 An encoder among others does what it does alone: its own calls, run without all others', give
 the same pipeline and the same contents of every texture and program that it created.
 */
module Projection {
  import opened Gl
  import opened Interleaving
  import opened Lifetimes
  import opened Pipelines

  /** The calls on the encoder tag. */
  function Project(calls: seq<Call>, tag: nat): seq<Call>
    decreases calls
  {
    if calls == [] then []
    else (if calls[0].Encoder() == tag then [calls[0]] else []) + Project(calls[1..], tag)
  }

  /** s and t hold the same under the names of p. */
  ghost predicate Agree(p: Pipeline, s: State, t: State) {
    forall n :: n in p.names ==> n in s.objects && n in t.objects && s.objects[n] == t.objects[n]
  }

  /** w is a world of many encoders, a one of the encoder tag alone. */
  ghost predicate Alike(w: World, a: World, tag: nat, base: map<Name, Object>) {
    && Inv(w, base) && Inv(a, base)
    && a.active.Keys <= {tag} && a.leaked <= Owned(a.s, tag) && Owned(w.s, tag) == Owned(a.s, tag)
    && (tag in w.active <==> tag in a.active)
    && (tag in w.active ==> w.active[tag] == a.active[tag] && Agree(w.active[tag].p, w.s, a.s))
  }

  // ---- steps of the encoder itself ----

  lemma PassAgrees(p: Pipeline, s: State, t: State, stage: Stage, params: seq<int>)
    requires Owned(s, p.tag) == NameSet(p) && StageReady(p, s, stage)
    requires Owned(t, p.tag) == NameSet(p) && StageReady(p, t, stage)
    requires forall i :: i in stage.inputs ==> i !in s.unfetched && i !in t.unfetched && Texture(i) in p.names
    requires Agree(p, s, t)
    ensures Agree(p, Pass(s, stage, params), Pass(t, stage, params))
  {
    hide Pass;
    NamesLive(p, s);
    NamesLive(p, t);
    var pn, tn := Program(stage.pso.program), Texture(stage.target);
    ObjectsOfPass(s, stage, params, p.tag, s.objects[pn], s.objects[tn]);
    ObjectsOfPass(t, stage, params, p.tag, t.objects[pn], t.objects[tn]);
    assert InputContents(s, stage) == InputContents(t, stage);
  }

  lemma InputsAreNamed(p: Pipeline, s: State)
    requires Settled(p, s)
    ensures p.pre != [] ==> p.pre[0].inputs == [p.src]
    ensures forall t :: t in p.Protected() ==> Texture(t) in p.names
    ensures forall i :: 0 <= i < |p.stages| ==>
            Texture(p.stages[i].target) in p.names && p.stages[i].inputs[0] in p.Protected()
  {
    hide Owned, NameSet;
    assert p.pre != [] ==> StageReady(p, s, p.pre[0]);
    assert forall i :: 0 <= i < |p.stages| ==> StageReady(p, s, p.stages[i]);
  }

  lemma Execute00Agrees(p: Pipeline, s: State, t: State)
    requires Ready(p, s) && Ready(p, t) && Agree(p, s, t)
    ensures Agree(p, Execute00(p, s), Execute00(p, t))
  {
    hide Owned, NameSet, Pass, Distinct;
    InputsAreNamed(p, s);
    if p.pre != [] {
      SourceNamed(p);
      PassAgrees(p, s, t, p.pre[0], []);
    }
  }

  lemma StageAgrees(p: Pipeline, s: State, t: State, i: nat, params: seq<int>)
    requires Ready(p, s) && Ready(p, t) && Agree(p, s, t) && i < |p.stages|
    ensures Agree(p, Pass(s, p.stages[i], params), Pass(t, p.stages[i], params))
  {
    hide Owned, NameSet, Pass, Distinct;
    InputsAreNamed(p, s);
    StageIsApart(p, i);
    PassAgrees(p, s, t, p.stages[i], params);
  }

  lemma Execute01Agrees(p: Pipeline, s: State, t: State, params: seq<seq<int>>)
    requires Ready(p, s) && Ready(p, t) && Agree(p, s, t) && ParamsFit(p, params)
    ensures Agree(p, Execute01(p, s, params), Execute01(p, t, params))
  {
    hide Owned, NameSet, Pass, Distinct, StageReady, Agree;
    StageAgrees(p, s, t, 0, params[0]);
    if |p.stages| == 2 {
      StageKeeps(p, s, 0, params[0]);
      StageKeeps(p, t, 0, params[0]);
      StageAgrees(p, Pass(s, p.stages[0], params[0]), Pass(t, p.stages[0], params[0]), 1, params[1]);
    }
  }

  lemma Execute02Agrees(p: Pipeline, s: State, t: State)
    requires Ready(p, s) && Ready(p, t) && Agree(p, s, t)
    ensures Agree(p, Execute02(p, s), Execute02(p, t))
  {
    hide Owned, NameSet, Pass, Distinct;
    if p.stitch != [] {
      StitchTextures(p);
      InputsAreNamed(p, s);
      var s', t' := Barrier(s, {TextureFetch}), Barrier(t, {TextureFetch});
      SameObjects(s, s', p.tag);
      SameObjects(t, t', p.tag);
      PassAgrees(p, s', t', p.stitch[0], []);
    }
  }

  lemma Execute03Agrees(p: Pipeline, s: State, t: State)
    requires Ready(p, s) && Ready(p, t) && Agree(p, s, t) && p.dst != 0
    ensures Agree(p, Execute03(p, s), Execute03(p, t))
  {
    hide Owned, NameSet, StageReady;
    assert Texture(p.copied) in p.names;
  }

  lemma DownloadAgrees(p: Pipeline, s: State, t: State, buffer: nat)
    requires Ready(p, s) && Ready(p, t) && Agree(p, s, t) && buffer != 0
    requires Buffer(buffer) !in Delete(s, Buffer(p.staging)).objects
    requires Buffer(buffer) !in Delete(t, Buffer(p.staging)).objects
    ensures Agree(p.(staging := buffer), StartDownload(p, s, buffer), StartDownload(p, t, buffer))
  {
    hide Owned, NameSet, StageReady, StartDownload, Delete;
    StagingSwapped(p, s, buffer);
    StagingSwapped(p, t, buffer);
  }

  lemma InitAgrees(p: Pipeline, s: State, t: State, made: seq<(Name, Kernel)>)
    requires AllFresh(s, made) && AllFresh(t, made) && p.names == NamesOf(made)
    ensures var n := Texture(p.src);
            Agree(p, SetContent(CreateAll(s, p.tag, made), n, Image(p.image)),
                SetContent(CreateAll(t, p.tag, made), n, Image(p.image)))
  {
    hide Owned, Others, CreateAll;
    CreateAllMakes(s, p.tag, made);
    CreateAllMakes(t, p.tag, made);
    var s', t' := CreateAll(s, p.tag, made), CreateAll(t, p.tag, made);
    forall n | n in p.names ensures n in s'.objects && n in t'.objects && s'.objects[n] == t'.objects[n] {
      var i :| 0 <= i < |made| && p.names[i] == n;
      assert made[i].0 == n;
    }
  }

  // ---- one call ----

  /** Alone there are no more objects. */
  lemma FewerAlone(w: World, a: World, tag: nat, base: map<Name, Object>)
    requires Alike(w, a, tag, base)
    ensures forall n :: n in a.s.objects ==> n in w.s.objects
  {
    hide Healthy, Agree;
    forall n | n in a.s.objects ensures n in w.s.objects {
      if n !in base {
        assert n in Owned(a.s, tag);
        assert n in Owned(w.s, tag);
      }
    }
  }

  lemma AllowedAlone(w: World, a: World, tag: nat, base: map<Name, Object>, call: Call)
    requires Alike(w, a, tag, base) && Allowed(w, call) && call.Encoder() == tag
    ensures Allowed(a, call)
  {
    hide Inv, Agree, Owned, Built, Splits, AllNames, ParamsFit;
    FewerAlone(w, a, tag, base);
  }

  /** The same call on the encoder in both worlds. */
  lemma OwnCallAlike(w: World, a: World, tag: nat, base: map<Name, Object>, call: Call)
    requires Alike(w, a, tag, base) && Allowed(w, call) && Allowed(a, call) && call.Encoder() == tag
    ensures Alike(Perform(w, call), Perform(a, call), tag, base)
  {
    hide Inv, Allowed, Perform, Agree, Owned, Healthy;
    var w', a' := Perform(w, call), Perform(a, call);
    CallMinds(w, call, base);
    CallMinds(a, call, base);
    MindingKeepsInv(w, w', tag, base);
    MindingKeepsInv(a, a', tag, base);
    SameProgress(w, a, call);
    if tag in w'.active {
      OwnCallAgrees(w, a, tag, base, call);
      SameOwned(w', a', tag, base);
    } else {
      LeftAlike(w, a, base, call);
    }
    LeakedAlone(a, a', tag, call, base);
  }

  lemma SameProgress(w: World, a: World, call: Call)
    requires Allowed(w, call) && Allowed(a, call)
    requires call.Encoder() in w.active <==> call.Encoder() in a.active
    requires call.Encoder() in w.active ==> w.active[call.Encoder()] == a.active[call.Encoder()]
    ensures var w', a', tag := Perform(w, call).active, Perform(a, call).active, call.Encoder();
            && (tag in w' <==> tag in a') && (tag in w' ==> w'[tag] == a'[tag])
            && (tag in w' <==> !call.Deinit?) && a'.Keys <= a.active.Keys + {tag}
  {
    hide Ready, Owned, AllFresh, Built, Splits, AllNames, Delete, ParamsFit, SetOf;
    hide SetContent, CreateAll, DeleteAll, Execute00, Execute01, Execute02, Execute03, StartDownload;
  }

  lemma SameOwned(w: World, a: World, tag: nat, base: map<Name, Object>)
    requires Inv(w, base) && Inv(a, base) && tag in w.active && tag in a.active && w.active[tag] == a.active[tag]
    ensures Owned(w.s, tag) == Owned(a.s, tag)
  {
    hide Owned, Distinct, StageReady, Reached, Accounted;
    assert Healthy(w.active[tag], w.s, tag) && Healthy(a.active[tag], a.s, tag);
  }

  lemma OwnCallAgrees(w: World, a: World, tag: nat, base: map<Name, Object>, call: Call)
    requires Alike(w, a, tag, base) && Allowed(w, call) && Allowed(a, call) && call.Encoder() == tag && !call.Deinit?
    ensures tag in Perform(w, call).active
    ensures Agree(Perform(w, call).active[tag].p, Perform(w, call).s, Perform(a, call).s)
  {
    hide Owned, AllFresh, Splits, AllNames, Delete, ParamsFit, SetOf, Accounted, Reached, Ready, NamesOf, Agree;
    hide SetContent, CreateAll, DeleteAll, Execute00, Execute01, Execute02, Execute03, StartDownload;
    if call.Init? {
      InitAgrees(call.p, w.s, a.s, call.made);
    } else {
      var p := w.active[tag].p;
      assert Healthy(w.active[tag], w.s, tag) && Healthy(a.active[tag], a.s, tag);
      match call
      case Step00(_) => Execute00Agrees(p, w.s, a.s);
      case Step01(_, params) => Execute01Agrees(p, w.s, a.s, params);
      case Step02(_) => Execute02Agrees(p, w.s, a.s);
      case Step03(_) => Execute03Agrees(p, w.s, a.s);
      case Download(_, buffer) => DownloadAgrees(p, w.s, a.s, buffer);
    }
  }

  lemma LeftAlike(w: World, a: World, base: map<Name, Object>, call: Call)
    requires Inv(w, base) && Inv(a, base) && Allowed(w, call) && Allowed(a, call) && call.Deinit?
    ensures Owned(Perform(w, call).s, call.tag) == Owned(Perform(a, call).s, call.tag)
  {
    hide Owned, Accounted, Reached, Ready, Splits, AllNames, DeleteAll;
    var left := call.left;
    assert Healthy(w.active[call.tag], w.s, call.tag) && Healthy(a.active[call.tag], a.s, call.tag);
    DeinitLeaves(w.active[call.tag].p, w.s, call.deleted, left);
    DeinitLeaves(a.active[call.tag].p, a.s, call.deleted, left);
  }

  lemma LeakedAlone(a: World, a': World, tag: nat, call: Call, base: map<Name, Object>)
    requires a.leaked <= Owned(a.s, tag) && Minds(a, a', tag) && Inv(a, base)
    ensures a'.leaked <= Owned(a'.s, tag)
  {
  }

  /** A call on another encoder. */
  lemma OtherCallAlike(w: World, a: World, tag: nat, base: map<Name, Object>, call: Call)
    requires Alike(w, a, tag, base) && Allowed(w, call) && call.Encoder() != tag
    ensures Alike(Perform(w, call), a, tag, base)
  {
    hide Inv, Allowed, Perform, Owned, Healthy, Others;
    var w', other := Perform(w, call), call.Encoder();
    CallMinds(w, call, base);
    MindingKeepsInv(w, w', other, base);
    OwnedByAnother(w.s, w'.s, other, tag);
    if tag in w.active {
      NamesKept(w, w', tag, other, base);
    }
  }

  lemma NamesKept(w: World, w': World, tag: nat, other: nat, base: map<Name, Object>)
    requires Inv(w, base) && tag in w.active && other != tag && Others(w'.s, other) == Others(w.s, other)
    ensures forall n :: n in w.active[tag].p.names ==>
            n in w'.s.objects && n in w.s.objects && w'.s.objects[n] == w.s.objects[n]
  {
    hide Accounted, Distinct, StageReady, Reached;
    var p := w.active[tag].p;
    assert Healthy(w.active[tag], w.s, tag);
    NamesLive(p, w.s);
    forall n | n in p.names ensures n in w'.s.objects && n in w.s.objects && w'.s.objects[n] == w.s.objects[n] {
      assert n in Others(w.s, other) && n in Others(w'.s, other) && Others(w.s, other)[n] == Others(w'.s, other)[n];
    }
  }

  // ---- any number of calls ----

  lemma {:induction false} RunsAlike(w: World, a: World, tag: nat, base: map<Name, Object>, calls: seq<Call>)
    requires Alike(w, a, tag, base) && Legal(w, calls)
    ensures Legal(a, Project(calls, tag))
    ensures Alike(Run(w, calls), Run(a, Project(calls, tag)), tag, base)
    decreases calls
  {
    hide Alike, Allowed, Perform;
    if calls != [] {
      var call, rest := calls[0], Project(calls[1..], tag);
      if call.Encoder() == tag {
        AllowedAlone(w, a, tag, base, call);
        OwnCallAlike(w, a, tag, base, call);
        RunsAlike(Perform(w, call), Perform(a, call), tag, base, calls[1..]);
        assert ([call] + rest)[1..] == rest;
      } else {
        OtherCallAlike(w, a, tag, base, call);
        RunsAlike(Perform(w, call), a, tag, base, calls[1..]);
        assert [] + rest == rest;
      }
    }
  }

  /**
   Whatever the others do, an encoder gets as far as it gets alone, and everything that it
   created holds what it would hold alone. What it leaves when it ends is the same, too.
   */
  lemma HoldsWhatItWouldAlone(s: State, calls: seq<Call>, tag: nat)
    requires Legal(World(s, map[], {}), calls)
    ensures Legal(World(s, map[], {}), Project(calls, tag))
    ensures var w, a := Run(World(s, map[], {}), calls), Run(World(s, map[], {}), Project(calls, tag));
            && Owned(w.s, tag) == Owned(a.s, tag) && (tag in w.active <==> tag in a.active)
            && (tag in w.active ==> w.active[tag] == a.active[tag] && Agree(w.active[tag].p, w.s, a.s))
  {
    hide Run, Legal, Project, Owned;
    RunsAlike(World(s, map[], {}), World(s, map[], {}), tag, s.objects, calls);
  }
}
