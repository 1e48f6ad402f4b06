/**
 What the four modelled encoders have in common. An encoder samples its source texture, maybe
 dithers it first, compresses one or two channels into a texture each, and stitches two
 results together. The classes EncoderBC1, EncoderBC4, EncoderEAC and EncoderETC1 are proved
 to do what the functions here say; this module says what that amounts to.
 */
module Pipelines {
  import opened Gl

  /** One dispatch: plain shaders take no uniforms. */
  datatype Stage = Stage(pso: Pso, kernel: Kernel, plain: bool, inputs: seq<nat>, target: nat)

  datatype Pipeline = Pipeline(
    tag: nat,
    image: int,
    src: nat,
    pre: seq<Stage>,       // dithering, if any
    stages: seq<Stage>,    // the compressing passes
    stitch: seq<Stage>,    // stitching, if any
    copied: nat,           // what execute03 copies
    dst: nat,              // and where to, 0 for nowhere
    result: nat,           // what is downloaded
    names: seq<Name>,      // everything created by initResources
    staging: nat)          // the last download's buffer, 0 for none
  {
    function Protected(): set<nat> { {src} + if pre == [] then {} else {pre[0].target} }
  }

  // ---- the steps ----

  function Pass(s: State, stage: Stage, params: seq<int>): State
    requires StageOk(stage)
  {
    var bound := BindTexture(s, 0, stage.inputs[0]);
    var all := if |stage.inputs| == 2 then BindTexture(bound, 1, stage.inputs[1]) else bound;
    Dispatch(SetUniforms(UsePso(BindUav(all, 0, stage.target), stage.pso), params))
  }

  predicate StageOk(stage: Stage) { |stage.inputs| == if stage.kernel.Stitch? then 2 else 1 }

  ghost predicate Shaped(p: Pipeline) {
    && |p.pre| <= 1 && 0 < |p.stages| <= 2 && |p.stitch| <= 1
    && (forall i :: 0 <= i < |p.pre| ==> StageOk(p.pre[i]))
    && (forall i :: 0 <= i < |p.stages| ==> StageOk(p.stages[i]))
    && (forall i :: 0 <= i < |p.stitch| ==> StageOk(p.stitch[i]))
  }

  function Execute00(p: Pipeline, s: State): State
    requires Shaped(p)
  {
    if p.pre == [] then s else Barrier(Pass(s, p.pre[0], []), {TextureFetch})
  }

  function Execute01(p: Pipeline, s: State, params: seq<seq<int>>): State
    requires Shaped(p) && |params| == |p.stages|
  {
    var first := Pass(s, p.stages[0], params[0]);
    if |p.stages| == 1 then first else Pass(first, p.stages[1], params[1])
  }

  function Execute02(p: Pipeline, s: State): State
    requires Shaped(p)
  {
    if p.stitch == [] then s else Pass(Barrier(s, {TextureFetch}), p.stitch[0], [])
  }

  function Execute03(p: Pipeline, s: State): State {
    Copy(Barrier(s, {TextureUpdate, ShaderImageAccess}), p.copied, p.dst)
  }

  /** buffer is the new staging buffer; the previous one is given back. */
  function StartDownload(p: Pipeline, s: State, buffer: nat): State {
    GetTexImage(Create(Delete(Barrier(s, {PixelBuffer}), Buffer(p.staging)), Buffer(buffer), p.tag, NoKernel),
        p.result, buffer)
  }

  // ---- ownership ----

  function Others(s: State, tag: nat): map<Name, Object> {
    map n | n in s.objects && s.objects[n].owner != tag :: s.objects[n]
  }

  function Owned(s: State, tag: nat): set<Name> { set n | n in s.objects && s.objects[n].owner == tag }

  function NameSet(p: Pipeline): set<Name> {
    (set n | n in p.names) + if p.staging != 0 then {Buffer(p.staging)} else {}
  }

  ghost predicate StageReady(p: Pipeline, s: State, stage: Stage) {
    && StageOk(stage)
    && Program(stage.pso.program) in p.names && Texture(stage.target) in p.names
    && Program(stage.pso.program) in s.objects && s.objects[Program(stage.pso.program)].kernel == stage.kernel
    && (stage.plain ==> s.objects[Program(stage.pso.program)].uniforms == [])
  }

  /** What holds between initResources and deinitResources, whatever is executed. */
  ghost predicate Ready(p: Pipeline, s: State) {
    Settled(p, s) && p.Protected() !! s.unfetched
  }

  ghost predicate Settled(p: Pipeline, s: State) {
    && Shaped(p)
    && Owned(s, p.tag) == NameSet(p)
    && (forall i :: 0 <= i < |p.pre| ==> StageReady(p, s, p.pre[i]))
    && (forall i :: 0 <= i < |p.stages| ==> StageReady(p, s, p.stages[i]))
    && (forall i :: 0 <= i < |p.stitch| ==> StageReady(p, s, p.stitch[i]))
    && Distinct(p)
    && ContentOf(s, Texture(p.src)) == Image(p.image)
  }

  /** No pass writes what a pass before it reads or writes, and no plain shader gets uniforms. */
  ghost predicate Distinct(p: Pipeline)
    requires Shaped(p)
  {
    && Texture(p.src) in p.names && Texture(p.result) in p.names
          && (p.dst != 0 ==> Texture(p.dst) in p.names && Texture(p.copied) in p.names)
    && (forall n :: n in p.names ==> n.id != 0 && n != Buffer(p.staging))
    && (forall i, j :: 0 <= i < j < |p.names| ==> p.names[i] != p.names[j])
    && p.dst !in p.Protected()
    && (p.pre != [] ==> p.pre[0].plain && p.pre[0].inputs == [p.src] && p.pre[0].target != p.src)
    && (forall i :: 0 <= i < |p.stages| ==>
          && !p.stages[i].kernel.Stitch? && p.stages[i].inputs[0] in p.Protected()
          && p.stages[i].target !in p.Protected() + {p.dst})
    && (|p.stages| == 2 ==> p.stages[0].target != p.stages[1].target)
    && (p.stitch != [] ==>
          && |p.stages| == 2 && p.stitch[0].plain && p.stitch[0].kernel.Stitch?
          && p.stitch[0].inputs[0] in {p.stages[0].target, p.stages[1].target}
          && p.stitch[0].inputs[1] in {p.stages[0].target, p.stages[1].target}
          && p.stitch[0].target !in p.Protected() + {p.stages[0].target, p.stages[1].target, p.dst})
    && (forall i :: 0 <= i < |p.stages| && !p.stages[i].plain ==>
          && (p.pre != [] ==> p.stages[i].pso.program != p.pre[0].pso.program)
          && (p.stitch != [] ==> p.stages[i].pso.program != p.stitch[0].pso.program)
          && (forall j :: 0 <= j < |p.stages| && p.stages[j].plain
                ==> p.stages[i].pso.program != p.stages[j].pso.program))
  }

  // ---- one pass ----

  /** s' is s after a pass of the encoder tag: content is what it computed. */
  ghost predicate Passed(s: State, s': State, tag: nat, stage: Stage, params: seq<int>, content: Content) {
    && Owned(s', tag) == Owned(s, tag) && Others(s', tag) == Others(s, tag)
    && s'.unfetched == s.unfetched + {stage.target} && s'.unread == s.unread + {stage.target}
    && Faultless(s, s')
    && ContentOf(s', Texture(stage.target)) == content
    && (forall t :: t != stage.target ==> ContentOf(s', Texture(t)) == ContentOf(s, Texture(t)))
    && (forall i :: Program(i) in s.objects ==>
        Program(i) in s'.objects && s'.objects[Program(i)].kernel == s.objects[Program(i)].kernel)
    && (forall i :: Program(i) in s.objects && i != stage.pso.program
          ==> s'.objects[Program(i)].uniforms == s.objects[Program(i)].uniforms)
    && Program(stage.pso.program) in s'.objects && s'.objects[Program(stage.pso.program)].uniforms == params
  }

  ghost function InputContents(s: State, stage: Stage): seq<Content> {
    seq(|stage.inputs|, i requires 0 <= i < |stage.inputs| => ContentOf(s, Texture(stage.inputs[i])))
  }

  lemma ObjectsOfPass(s: State, stage: Stage, params: seq<int>, tag: nat, program: Object, target: Object)
    requires StageOk(stage)
    requires var p, t := Program(stage.pso.program), Texture(stage.target);
             p in s.objects && s.objects[p] == program && t in s.objects && s.objects[t] == target
    requires program.owner == tag && target.owner == tag && program.kernel == stage.kernel
    requires forall t :: t in stage.inputs ==> t !in s.unfetched
    ensures var s', inputs := Pass(s, stage, params), InputContents(s, stage);
            && s'.objects == s.objects[Program(stage.pso.program) := program.(uniforms := params)]
                             [Texture(stage.target) := target.(content := Computed(stage.kernel, params, inputs))]
            && s'.unfetched == s.unfetched + {stage.target} && s'.unread == s.unread + {stage.target}
            && Faultless(s, s')
  {
    var inputs := InputContents(s, stage);
    var a := stage.inputs[0];
    assert a in stage.inputs;
    if stage.kernel.Stitch? {
      var b := stage.inputs[1];
      assert b in stage.inputs;
      var bound := SetUniforms(UsePso(BindUav(BindTexture(BindTexture(s, 0, a), 1, b), 0, stage.target), stage.pso),
          params);
      assert [Sampled(bound, 0), Sampled(bound, 1)] == inputs;
    } else {
      var bound := SetUniforms(UsePso(BindUav(BindTexture(s, 0, a), 0, stage.target), stage.pso), params);
      assert [Sampled(bound, 0)] == inputs;
    }
  }

  /** A pass over visible inputs writes its target, and nothing else that anyone can see. */
  lemma PassIsPassed(p: Pipeline, s: State, stage: Stage, params: seq<int>)
    requires Owned(s, p.tag) == NameSet(p) && StageReady(p, s, stage)
    requires forall t :: t in stage.inputs ==> t !in s.unfetched
    ensures Passed(s, Pass(s, stage, params), p.tag, stage, params,
            Computed(stage.kernel, params, InputContents(s, stage)))
  {
    hide Pass;
    var pn, tn := Program(stage.pso.program), Texture(stage.target);
    assert pn in NameSet(p) && tn in NameSet(p);
    assert pn in Owned(s, p.tag) && tn in Owned(s, p.tag);
    ObjectsOfPass(s, stage, params, p.tag, s.objects[pn], s.objects[tn]);
  }

  // ---- what the textures hold ----

  function SourceContent(p: Pipeline, t: nat): Content
    requires Shaped(p)
  {
    if p.pre == [] || t == p.src then Image(p.image) else Computed(p.pre[0].kernel, [], [Image(p.image)])
  }

  function StageContent(p: Pipeline, i: nat, params: seq<seq<int>>): Content
    requires Shaped(p) && i < |p.stages| && |params| == |p.stages|
  {
    Computed(p.stages[i].kernel, params[i], [SourceContent(p, p.stages[i].inputs[0])])
  }

  function StitchInput(p: Pipeline, t: nat, params: seq<seq<int>>): Content
    requires Shaped(p) && |params| == |p.stages| == 2
  {
    StageContent(p, if t == p.stages[0].target then 0 else 1, params)
  }

  function StitchContent(p: Pipeline, params: seq<seq<int>>): Content
    requires Shaped(p) && |params| == |p.stages| == 2 && p.stitch != [] && |p.stitch[0].inputs| == 2
  {
    Computed(p.stitch[0].kernel, [],
        [StitchInput(p, p.stitch[0].inputs[0], params), StitchInput(p, p.stitch[0].inputs[1], params)])
  }

  /** How far the pipeline has got: 1 dithered, 2 compressed with params, 3 stitched from that. */
  ghost predicate Reached(p: Pipeline, s: State, level: nat, params: seq<seq<int>>)
    requires Settled(p, s)
  {
    && |params| == |p.stages|
    && (level >= 1 && p.pre != [] ==> ContentOf(s, Texture(p.pre[0].target)) == SourceContent(p, p.pre[0].target))
    && (level >= 2 ==> forall i :: 0 <= i < |p.stages| ==>
        ContentOf(s, Texture(p.stages[i].target)) == StageContent(p, i, params))
    && (level >= 3 && p.stitch != [] ==> ContentOf(s, Texture(p.stitch[0].target)) == StitchContent(p, params))
  }

  /** What a step of the encoder tag leaves alone. */
  ghost predicate Stays(s: State, s': State, tag: nat) {
    && Others(s', tag) == Others(s, tag)
    && Faultless(s, s')
    && forall t :: t in s'.unfetched && t !in s.unfetched ==> Texture(t) in Owned(s, tag)
  }

  /** Shader writes to one's own targets leave everything else settled. */
  lemma PassKeepsSettled(p: Pipeline, s: State, stage: Stage, params: seq<int>)
    requires Settled(p, s) && StageReady(p, s, stage) && stage.target != p.src
    requires forall t :: t in stage.inputs ==> t !in s.unfetched
    requires if stage.plain then params == [] else
               (forall i :: 0 <= i < |p.pre| ==> p.pre[i].pso.program != stage.pso.program)
               && (forall i :: 0 <= i < |p.stages| && p.stages[i].plain
                     ==> p.stages[i].pso.program != stage.pso.program)
               && (forall i :: 0 <= i < |p.stitch| ==> p.stitch[i].pso.program != stage.pso.program)
    ensures Settled(p, Pass(s, stage, params)) && Stays(s, Pass(s, stage, params), p.tag)
  {
    hide Pass, Others, Owned, Distinct, NameSet;
    PassIsPassed(p, s, stage, params);
    TargetIsOwned(p, s, stage);
  }

  lemma TargetIsOwned(p: Pipeline, s: State, stage: Stage)
    requires Owned(s, p.tag) == NameSet(p) && StageReady(p, s, stage)
    ensures Texture(stage.target) in Owned(s, p.tag)
  {
    assert Texture(stage.target) in NameSet(p);
  }

  lemma BarrierKeeps(p: Pipeline, s: State, bits: set<BarrierBit>, level: nat, params: seq<seq<int>>)
    requires Settled(p, s) && Reached(p, s, level, params)
    ensures Settled(p, Barrier(s, bits)) && Stays(s, Barrier(s, bits), p.tag)
    ensures Reached(p, Barrier(s, bits), level, params)
  {
    hide Others, Owned, Distinct, NameSet, SourceContent, StageContent, StitchContent;
    SameObjects(s, Barrier(s, bits), p.tag);
  }

  lemma SameObjects(s: State, s': State, tag: nat)
    requires s.objects == s'.objects
    ensures Owned(s', tag) == Owned(s, tag) && Others(s', tag) == Others(s, tag)
  {
  }

  // ---- every step, at any time ----

  lemma Execute00Keeps(p: Pipeline, s: State, level: nat, params: seq<seq<int>>)
    requires Ready(p, s) && Reached(p, s, level, params)
    ensures var s' := Execute00(p, s);
            Ready(p, s') && Stays(s, s', p.tag) && Reached(p, s', if level == 0 then 1 else level, params)
  {
    hide Others, Owned, NameSet, Pass, Distinct;
    if p.pre != [] {
      var stage := p.pre[0];
      PreIsApart(p);
      var mid := Pass(s, stage, []);
      PassKeepsSettled(p, s, stage, []);
      PassIsPassed(p, s, stage, []);
      assert InputContents(s, stage) == [Image(p.image)];
      var level' := if level == 0 then 1 else level;
      assert Reached(p, mid, level', params);
      BarrierKeeps(p, mid, {TextureFetch}, level', params);
    }
  }

  lemma StageIsApart(p: Pipeline, i: nat)
    requires Shaped(p) && Distinct(p) && i < |p.stages|
    ensures var stage := p.stages[i];
            && !stage.kernel.Stitch? && stage.inputs[0] in p.Protected() && stage.target !in p.Protected()
            && (!stage.plain ==>
                  && (forall j :: 0 <= j < |p.pre| ==> p.pre[j].pso.program != stage.pso.program)
                  && (forall j :: 0 <= j < |p.stages| && p.stages[j].plain
                        ==> p.stages[j].pso.program != stage.pso.program)
                  && (forall j :: 0 <= j < |p.stitch| ==> p.stitch[j].pso.program != stage.pso.program))
  {
  }

  lemma PreIsApart(p: Pipeline)
    requires Shaped(p) && Distinct(p) && p.pre != []
    ensures var stage := p.pre[0];
            && stage.plain && stage.inputs == [p.src] && stage.target != p.src
            && (forall j :: 0 <= j < |p.stages| ==> p.stages[j].target != stage.target)
            && (forall j :: 0 <= j < |p.stitch| ==> p.stitch[j].target != stage.target)
  {
  }

  /** One compressing pass. */
  lemma StageKeeps(p: Pipeline, s: State, i: nat, params: seq<int>)
    requires Ready(p, s) && i < |p.stages| && (p.stages[i].plain ==> params == [])
    ensures var s', stage := Pass(s, p.stages[i], params), p.stages[i];
            && Ready(p, s') && Stays(s, s', p.tag)
            && ContentOf(s', Texture(stage.target))
                  == Computed(stage.kernel, params, [ContentOf(s, Texture(stage.inputs[0]))])
            && (forall t :: t != stage.target ==> ContentOf(s', Texture(t)) == ContentOf(s, Texture(t)))
  {
    hide Others, Owned, NameSet, Pass, Distinct;
    var stage := p.stages[i];
    StageIsApart(p, i);
    PassKeepsSettled(p, s, stage, params);
    PassIsPassed(p, s, stage, params);
    assert InputContents(s, stage) == [ContentOf(s, Texture(stage.inputs[0]))];
  }

  /** Uniforms for a run of the compressing passes: none for plain shaders. */
  predicate ParamsFit(p: Pipeline, params: seq<seq<int>>) {
    |params| == |p.stages| && forall i :: 0 <= i < |params| && p.stages[i].plain ==> params[i] == []
  }

  lemma StaysTransitive(s: State, mid: State, s': State, tag: nat)
    requires Stays(s, mid, tag) && Stays(mid, s', tag) && Owned(mid, tag) == Owned(s, tag)
    ensures Stays(s, s', tag)
  {
    hide Others, Owned;
  }

  lemma SourceIs(p: Pipeline, s: State, level: nat, params: seq<seq<int>>, t: nat)
    requires Settled(p, s) && Reached(p, s, level, params) && t in p.Protected() && (level >= 1 || p.pre == [])
    ensures ContentOf(s, Texture(t)) == SourceContent(p, t)
  {
    hide Owned, NameSet, Distinct, StageReady;
  }

  /** The textures that the compressing passes read and write. */
  lemma StageTextures(p: Pipeline)
    requires Shaped(p) && Distinct(p)
    ensures p.stages[0].inputs[0] in p.Protected() && p.stages[0].target !in p.Protected()
    ensures |p.stages| == 2 ==> p.stages[1].inputs[0] in p.Protected() && p.stages[1].target !in p.Protected()
    ensures |p.stages| == 2 ==> p.stages[0].target != p.stages[1].target
  {
  }

  lemma Execute01Keeps(p: Pipeline, s: State, level: nat, params: seq<seq<int>>, newParams: seq<seq<int>>)
    requires Ready(p, s) && Reached(p, s, level, params) && ParamsFit(p, newParams)
    ensures var s' := Execute01(p, s, newParams);
            Ready(p, s') && Stays(s, s', p.tag)
                && Reached(p, s', if level >= 1 || p.pre == [] then 2 else level, newParams)
  {
    hide Others, Owned, NameSet, Pass, Distinct, StageReady, SourceContent;
    StageTextures(p);
    var s1 := Pass(s, p.stages[0], newParams[0]);
    StageKeeps(p, s, 0, newParams[0]);
    if level >= 1 || p.pre == [] {
      SourceIs(p, s, level, params, p.stages[0].inputs[0]);
    }
    if |p.stages| == 2 {
      StageKeeps(p, s1, 1, newParams[1]);
      StaysTransitive(s, s1, Pass(s1, p.stages[1], newParams[1]), p.tag);
      if level >= 1 || p.pre == [] {
        SourceIs(p, s, level, params, p.stages[1].inputs[0]);
      }
    }
  }

  lemma StitchTextures(p: Pipeline)
    requires Shaped(p) && Distinct(p) && p.stitch != []
    ensures |p.stages| == 2 && p.stitch[0].plain && |p.stitch[0].inputs| == 2
    ensures p.stitch[0].inputs[0] in {p.stages[0].target, p.stages[1].target}
    ensures p.stitch[0].inputs[1] in {p.stages[0].target, p.stages[1].target}
    ensures p.stitch[0].target !in p.Protected() + {p.stages[0].target, p.stages[1].target}
  {
  }

  lemma StitchInputIs(p: Pipeline, s: State, level: nat, params: seq<seq<int>>, t: nat)
    requires Settled(p, s) && Reached(p, s, level, params) && level >= 2
    requires |p.stages| == 2 && t in {p.stages[0].target, p.stages[1].target}
    ensures ContentOf(s, Texture(t)) == StitchInput(p, t, params)
  {
    hide Owned, NameSet, Distinct, StageReady, SourceContent, StageContent;
  }

  lemma Execute02Keeps(p: Pipeline, s: State, level: nat, params: seq<seq<int>>)
    requires Ready(p, s) && Reached(p, s, level, params)
    ensures var s' := Execute02(p, s);
            Ready(p, s') && Stays(s, s', p.tag) && Reached(p, s', if level >= 2 then 3 else level, params)
  {
    hide Others, Owned, NameSet, Pass, Distinct, StageContent, SourceContent, StitchInput;
    if p.stitch != [] {
      StitchTextures(p);
      var stage, visible := p.stitch[0], Barrier(s, {TextureFetch});
      BarrierKeeps(p, s, {TextureFetch}, level, params);
      PassKeepsSettled(p, visible, stage, []);
      PassIsPassed(p, visible, stage, []);
      StaysTransitive(s, visible, Pass(visible, stage, []), p.tag);
      if level >= 2 {
        StitchInputIs(p, visible, level, params, stage.inputs[0]);
        StitchInputIs(p, visible, level, params, stage.inputs[1]);
        assert InputContents(visible, stage)
               == [StitchInput(p, stage.inputs[0], params), StitchInput(p, stage.inputs[1], params)];
      }
    }
  }

  lemma ContentSet(s: State, tag: nat, n: Name, content: Content)
    requires n in Owned(s, tag)
    ensures var s' := SetContent(s, n, content);
            && Owned(s', tag) == Owned(s, tag) && Others(s', tag) == Others(s, tag)
            && ContentOf(s', n) == content
            && (forall m :: m != n ==> ContentOf(s', m) == ContentOf(s, m))
            && (forall m :: m in s.objects ==> m in s'.objects && s'.objects[m].kernel == s.objects[m].kernel
                                               && s'.objects[m].uniforms == s.objects[m].uniforms)
  {
  }

  lemma Execute03Keeps(p: Pipeline, s: State, level: nat, params: seq<seq<int>>)
    requires Ready(p, s) && Reached(p, s, level, params) && p.dst != 0
    ensures var s' := Execute03(p, s);
            && Ready(p, s') && Stays(s, s', p.tag) && Reached(p, s', level, params)
            && ContentOf(s', Texture(p.dst)) == ContentOf(s, Texture(p.copied))
            && s'.unread == {}
  {
    hide Others, Owned, SetContent, SourceContent, StageContent, StitchInput;
    var bits := {TextureUpdate, ShaderImageAccess};
    var visible := Barrier(s, bits);
    BarrierKeeps(p, s, bits, level, params);
    assert Texture(p.dst) in NameSet(p);
    ContentSet(visible, p.tag, Texture(p.dst), ContentOf(visible, Texture(p.copied)));
    CopyKeepsRest(visible, p.copied, p.dst);
  }

  lemma CopyKeepsRest(s: State, from: nat, to: nat)
    ensures Copy(s, from, to).(objects := s.objects) == s
  {
  }

  // ---- creating and deleting ----

  /** Objects other than n are as they were. */
  ghost predicate OthersStay(s: State, s': State, n: Name) {
    forall m :: m != n ==> (m in s.objects <==> m in s'.objects) && (m in s.objects ==> s'.objects[m] == s.objects[m])
  }

  lemma DeleteEffect(s: State, n: Name, tag: nat)
    requires n in Owned(s, tag) && n.id != 0
    ensures var s' := Delete(s, n);
            && Owned(s', tag) == Owned(s, tag) - {n} && Others(s', tag) == Others(s, tag)
            && OthersStay(s, s', n) && n !in s'.objects
            && s'.unfetched <= s.unfetched && Faultless(s, s')
            && (!n.Texture? ==> s'.unfetched == s.unfetched && s'.unread == s.unread)
  {
  }

  lemma CreateEffect(s: State, n: Name, tag: nat, kernel: Kernel)
    requires n !in s.objects
    ensures var s' := Create(s, n, tag, kernel);
            && Owned(s', tag) == Owned(s, tag) + {n} && Others(s', tag) == Others(s, tag)
            && OthersStay(s, s', n) && n in s'.objects && s'.objects[n] == NewObject(tag, kernel)
            && s'.unfetched <= s.unfetched && Faultless(s, s')
            && (n.Texture? ==> n.id !in s'.unfetched)
                  && (!n.Texture? ==> s'.unfetched == s.unfetched && s'.unread == s.unread)
  {
  }

  lemma StagingSwapped(p: Pipeline, s: State, buffer: nat)
    requires Owned(s, p.tag) == NameSet(p)
    requires buffer != 0 && Buffer(buffer) !in Delete(s, Buffer(p.staging)).objects
    requires forall n :: n in p.names ==> n != Buffer(p.staging)
    ensures var s' := StartDownload(p, s, buffer);
            && Owned(s', p.tag) == NameSet(p.(staging := buffer)) && Others(s', p.tag) == Others(s, p.tag)
            && (forall n :: n in p.names ==>
                n != Buffer(buffer) && n in s'.objects && n in s.objects && s'.objects[n] == s.objects[n])
            && s'.unfetched == s.unfetched && Faultless(s, s')
            && ContentOf(s', Buffer(buffer))
               == if Readable(s, p.result) then ContentOf(s, Texture(p.result)) else Undefined
  {
    hide Delete, Create, SetContent, Owned, Others;
    var visible, old', new' := Barrier(s, {PixelBuffer}), Buffer(p.staging), Buffer(buffer);
    BarrierThenDelete(s, old');
    SameObjects(s, visible, p.tag);
    var freed := Delete(visible, old');
    if p.staging == 0 {
      DeleteNothing(visible, old');
    } else {
      DeleteEffect(visible, old', p.tag);
    }
    CreateEffect(freed, new', p.tag, NoKernel);
    var made := Create(freed, new', p.tag, NoKernel);
    var content := if Readable(made, p.result) then ContentOf(made, Texture(p.result)) else Undefined;
    ContentSet(made, p.tag, new', content);
    SetContentStays(made, new', content);
    NamesLive(p, s);
  }

  lemma DeleteNothing(s: State, n: Name)
    requires n.id == 0
    ensures Delete(s, n) == s
  {
  }

  lemma BarrierThenDelete(s: State, n: Name)
    ensures Delete(Barrier(s, {PixelBuffer}), n).objects == Delete(s, n).objects
  {
  }

  lemma SetContentStays(s: State, n: Name, content: Content)
    ensures OthersStay(s, SetContent(s, n, content), n) && SetContent(s, n, content).(objects := s.objects) == s
  {
  }

  lemma NamesLive(p: Pipeline, s: State)
    requires Owned(s, p.tag) == NameSet(p)
    ensures forall n :: n in p.names ==> n in s.objects && s.objects[n].owner == p.tag
  {
    forall n | n in p.names ensures n in s.objects && s.objects[n].owner == p.tag {
      assert n in NameSet(p);
    }
  }

  /** The old staging buffer is replaced by a new one, and nothing else changes. */
  lemma DownloadKeeps(p: Pipeline, s: State, level: nat, params: seq<seq<int>>, buffer: nat)
    requires Ready(p, s) && Reached(p, s, level, params)
    requires buffer != 0 && Buffer(buffer) !in Delete(s, Buffer(p.staging)).objects
    ensures var p', s' := p.(staging := buffer), StartDownload(p, s, buffer);
            && Ready(p', s') && Stays(s, s', p.tag) && Reached(p', s', level, params)
            && ContentOf(s', Buffer(buffer))
               == if Readable(s, p.result) then ContentOf(s, Texture(p.result)) else Undefined
  {
    hide Owned, Others, NameSet, StartDownload, Delete;
    StagingSwapped(p, s, buffer);
    SameNames(p, p.(staging := buffer), s, StartDownload(p, s, buffer), level, params);
  }

  /** A pipeline is ready wherever it finds its objects unchanged. */
  lemma SameNames(p: Pipeline, p': Pipeline, s: State, s': State, level: nat, params: seq<seq<int>>)
    requires Ready(p, s) && Reached(p, s, level, params)
    requires p' == p.(staging := p'.staging) && Owned(s', p'.tag) == NameSet(p')
    requires forall n :: n in p.names ==>
            n != Buffer(p'.staging) && n in s'.objects && n in s.objects && s'.objects[n] == s.objects[n]
    requires forall t :: Texture(t) in p.names && t in s'.unfetched ==> t in s.unfetched
    ensures Ready(p', s') && Reached(p', s', level, params)
  {
    hide Owned, Others, NameSet, Reached, Distinct;
    SameDistinct(p, p');
    SourceNamed(p);
    assert p'.Protected() == p.Protected();
    SameContents(p, p', s, s', level, params);
  }

  lemma SameContents(p: Pipeline, p': Pipeline, s: State, s': State, level: nat, params: seq<seq<int>>)
    requires Settled(p, s) && Settled(p', s') && Reached(p, s, level, params) && p' == p.(staging := p'.staging)
    requires forall n :: n in p.names ==> n in s'.objects && n in s.objects && s'.objects[n] == s.objects[n]
    ensures Reached(p', s', level, params)
  {
    hide Owned, Others, NameSet, Distinct, SourceContent, StageContent, StitchContent;
    SameExpectations(p, p', params);
    if p.stitch != [] {
      StitchTextures(p);
    }
    assert forall i :: 0 <= i < |p.pre| ==> StageReady(p, s, p.pre[i]);
    assert forall i :: 0 <= i < |p.stages| ==> StageReady(p, s, p.stages[i]);
    assert forall i :: 0 <= i < |p.stitch| ==> StageReady(p, s, p.stitch[i]);
  }

  lemma SameDistinct(p: Pipeline, p': Pipeline)
    requires Shaped(p) && Distinct(p) && p' == p.(staging := p'.staging)
    requires forall n :: n in p.names ==> n != Buffer(p'.staging)
    ensures Shaped(p') && Distinct(p')
  {
  }

  lemma SourceNamed(p: Pipeline)
    requires Shaped(p) && Distinct(p)
    ensures Texture(p.src) in p.names
    ensures p.pre != [] ==> p.Protected() == {p.src, p.pre[0].target}
  {
  }

  lemma SameExpectations(p: Pipeline, p': Pipeline, params: seq<seq<int>>)
    requires Shaped(p) && p' == p.(staging := p'.staging) && |params| == |p.stages|
    ensures forall t :: SourceContent(p', t) == SourceContent(p, t)
    ensures forall i :: 0 <= i < |p.stages| ==> StageContent(p', i, params) == StageContent(p, i, params)
    ensures |p.stages| == 2 && p.stitch != [] && |p.stitch[0].inputs| == 2
            ==> StitchContent(p', params) == StitchContent(p, params)
  {
  }

  // ---- whatever has been reached ----

  /** Parameters before any have been given. */
  function NoParams(p: Pipeline): (params: seq<seq<int>>)
    ensures |params| == |p.stages|
  {
    seq(|p.stages|, i => [])
  }

  lemma NothingReached(p: Pipeline, s: State)
    requires Settled(p, s)
    ensures Reached(p, s, 0, NoParams(p))
  {
  }

  lemma Execute00IsSafe(p: Pipeline, s: State)
    requires Ready(p, s)
    ensures Ready(p, Execute00(p, s)) && Stays(s, Execute00(p, s), p.tag)
  {
    hide Execute00, Stays, Reached, Owned, StageReady, Distinct, NameSet;
    NothingReached(p, s);
    Execute00Keeps(p, s, 0, NoParams(p));
  }

  lemma Execute01IsSafe(p: Pipeline, s: State, params: seq<seq<int>>)
    requires Ready(p, s) && ParamsFit(p, params)
    ensures Ready(p, Execute01(p, s, params)) && Stays(s, Execute01(p, s, params), p.tag)
  {
    hide Execute01, Stays, Reached, Owned, StageReady, Distinct, NameSet;
    NothingReached(p, s);
    Execute01Keeps(p, s, 0, NoParams(p), params);
  }

  lemma Execute02IsSafe(p: Pipeline, s: State)
    requires Ready(p, s)
    ensures Ready(p, Execute02(p, s)) && Stays(s, Execute02(p, s), p.tag)
  {
    hide Execute02, Stays, Reached, Owned, StageReady, Distinct, NameSet;
    NothingReached(p, s);
    Execute02Keeps(p, s, 0, NoParams(p));
  }

  lemma Execute03IsSafe(p: Pipeline, s: State)
    requires Ready(p, s) && p.dst != 0
    ensures Ready(p, Execute03(p, s)) && Stays(s, Execute03(p, s), p.tag)
  {
    hide Execute03, Stays, Reached, Owned, StageReady, Distinct, NameSet;
    NothingReached(p, s);
    Execute03Keeps(p, s, 0, NoParams(p));
  }

  lemma DownloadIsSafe(p: Pipeline, s: State, buffer: nat)
    requires Ready(p, s) && buffer != 0 && Buffer(buffer) !in Delete(s, Buffer(p.staging)).objects
    ensures var p', s' := p.(staging := buffer), StartDownload(p, s, buffer);
            Ready(p', s') && Stays(s, s', p.tag)
  {
    hide StartDownload, Stays, Reached, Owned, StageReady, Distinct, NameSet, Delete;
    NothingReached(p, s);
    DownloadKeeps(p, s, 0, NoParams(p), buffer);
  }

  // ---- several encoders ----

  /** A step of one encoder means nothing to another. */
  lemma StepOfAnother(q: Pipeline, s: State, s': State, tag: nat, level: nat, params: seq<seq<int>>)
    requires q.tag != tag && Stays(s, s', tag)
    requires Ready(q, s) && Reached(q, s, level, params)
    ensures Ready(q, s') && Reached(q, s', level, params)
    ensures q.staging != 0 ==> ContentOf(s', Buffer(q.staging)) == ContentOf(s, Buffer(q.staging))
  {
    hide Distinct, StageReady, Reached;
    forall n | n in NameSet(q) ensures n in s'.objects && n in s.objects && s'.objects[n] == s.objects[n] {
      assert n in Owned(s, q.tag);
      assert n in Others(s, tag) && n in Others(s', tag);
      assert Others(s, tag)[n] == Others(s', tag)[n];
    }
    OwnedByAnother(s, s', tag, q.tag);
    forall t | Texture(t) in q.names && t in s'.unfetched ensures t in s.unfetched {
      assert Texture(t) in NameSet(q) && Texture(t) in Owned(s, q.tag);
    }
    assert forall n :: n in q.names ==> n in NameSet(q);
    DistinctStaging(q, s);
    SameNames(q, q, s, s', level, params);
  }

  lemma DistinctStaging(q: Pipeline, s: State)
    requires Ready(q, s)
    ensures forall n :: n in q.names ==> n != Buffer(q.staging)
  {
  }

  lemma OwnedByAnother(s: State, s': State, tag: nat, other: nat)
    requires Others(s', tag) == Others(s, tag) && other != tag
    ensures Owned(s', other) == Owned(s, other)
  {
    forall n ensures n in Owned(s', other) <==> n in Owned(s, other) {
      if n in Owned(s, other) {
        assert n in Others(s, tag) && n in Others(s', tag) && Others(s, tag)[n] == Others(s', tag)[n];
      }
      if n in Owned(s', other) {
        assert n in Others(s', tag) && n in Others(s, tag) && Others(s, tag)[n] == Others(s', tag)[n];
      }
    }
  }

  // ---- commands that a pass may leave out ----

  /** After a pass its input is still bound and its program in use. */
  lemma StillBound(s: State, stage: Stage, params: seq<int>)
    requires StageOk(stage) && !stage.kernel.Stitch?
    ensures var s' := Pass(s, stage, params);
            BindTexture(s', 0, stage.inputs[0]) == s' && UsePso(s', stage.pso) == s'
    ensures var s' := Pass(s, stage, params);
            forall t :: UsePso(BindUav(BindTexture(s', 0, stage.inputs[0]), 0, t), stage.pso) == BindUav(s', 0, t)
  {
    var s' := Pass(s, stage, params);
    assert s'.units == s.units[0 := stage.inputs[0]];
    assert s'.units[0 := stage.inputs[0]] == s'.units;
  }

  /** Plain shaders have no uniforms. */
  lemma PlainHaveNone(p: Pipeline, s: State)
    requires Ready(p, s)
    ensures p.pre != [] ==> var n := Program(p.pre[0].pso.program); n in s.objects && s.objects[n].uniforms == []
    ensures p.stitch != [] ==> var n := Program(p.stitch[0].pso.program); n in s.objects && s.objects[n].uniforms == []
  {
    hide Owned, NameSet;
    assert p.pre != [] ==> StageReady(p, s, p.pre[0]);
    assert p.stitch != [] ==> StageReady(p, s, p.stitch[0]);
  }

  /** Setting no uniforms on a program that has none. */
  lemma NoUniforms(s: State)
    requires Program(s.current) in s.objects ==> s.objects[Program(s.current)].uniforms == []
    ensures SetUniforms(s, []) == s
  {
    var p := Program(s.current);
    if p in s.objects {
      assert s.objects[p := s.objects[p].(uniforms := [])] == s.objects;
    }
  }
}
