/**
 What the BC4/BC5 and the EAC encoder have in common: one channel, or two that are stitched
 together.
 */
module TwoChannel {
  import opened Gl
  import opened Lifetimes
  import opened Pipelines

  /** target1 is 0 when there is one channel, dst is 0 when there is no texture to copy to. */
  datatype Handles = Handles(src: nat, target0: nat, target1: nat, pso: Pso, stitched: nat, stitchPso: Pso, dst: nat) {
    predicate Two() { target1 != 0 }

    /** Only what is used is set. */
    predicate Coherent() { !Two() ==> stitched == 0 && stitchPso == NO_PSO }
  }

  function Describe(kernel: Kernel, h: Handles, tag: nat, image: int, names: seq<Name>, staging: nat): Pipeline {
    var first := Stage(h.pso, kernel, false, [h.src], h.target0);
    if !h.Two() then Pipeline(tag, image, h.src, [], [first], [], h.target0, h.dst, h.target0, names, staging)
    else
      Pipeline(tag, image, h.src, [], [first, Stage(h.pso, kernel, false, [h.src], h.target1)],
               [Stage(h.stitchPso, Stitch, true, [h.target1, h.target0], h.stitched)], h.stitched, h.dst, h.stitched,
                   names, staging)
  }

  /** What initResources creates, in order: the channels, what stitches them, what to copy to. */
  function ChannelCreations(kernel: Kernel, h: Handles): seq<(Name, Kernel)> {
    [(Texture(h.src), NoKernel), (Texture(h.target0), NoKernel)]
    + (if h.Two() then [(Texture(h.target1), NoKernel)] else [])
    + [(Shader(h.pso.shader), NoKernel), (Program(h.pso.program), kernel)]
  }

  function Creations(kernel: Kernel, h: Handles): seq<(Name, Kernel)> {
    ChannelCreations(kernel, h)
    + (if h.Two() then
         [(Texture(h.stitched), NoKernel), (Shader(h.stitchPso.shader), NoKernel),
             (Program(h.stitchPso.program), Stitch)]
       else [])
    + (if h.dst == 0 then [] else [(Texture(h.dst), NoKernel)])
  }

  /** The first part of what is created does not depend on what follows. */
  lemma ChannelsOnly(kernel: Kernel, h: Handles, g: Handles)
    requires g == h.(stitched := 0, stitchPso := NO_PSO, dst := 0)
    ensures ChannelCreations(kernel, g) == ChannelCreations(kernel, h)
  {
  }

  /** What the fresh names of a one-channel encoder have to do with each other. */
  lemma NamesOfOne(kernel: Kernel, s: State, h: Handles)
    requires !h.Two() && AllFresh(s, Creations(kernel, h))
    ensures h.src !in {h.target0, h.dst} && h.target0 != h.dst
    ensures var made := Creations(kernel, h);
            && (Texture(h.src), NoKernel) in made && (Texture(h.target0), NoKernel) in made
                  && (Program(h.pso.program), kernel) in made
            && (h.dst != 0 ==> (Texture(h.dst), NoKernel) in made)
  {
    var made := Creations(kernel, h);
    assert made == [(Texture(h.src), NoKernel), (Texture(h.target0), NoKernel), (Shader(h.pso.shader), NoKernel),
                    (Program(h.pso.program), kernel)] + if h.dst == 0 then [] else [(Texture(h.dst), NoKernel)];
    assert made[0].0 != made[1].0 && made[0].0.id != 0 && made[1].0.id != 0;
    if h.dst != 0 {
      assert made[4] == (Texture(h.dst), NoKernel) && made[0].0 != made[4].0 && made[1].0 != made[4].0;
    }
  }

  lemma BuildOne(kernel: Kernel, s: State, h: Handles, p: Pipeline, made: seq<(Name, Kernel)>)
    requires !kernel.Stitch? && !h.Two() && made == Creations(kernel, h) && AllFresh(s, made)
    requires p == Describe(kernel, h, p.tag, p.image, NamesOf(made), 0)
    ensures Built(p, made)
  {
    hide Creations, AllFresh, NamesOf;
    NamesOfOne(kernel, s, h);
    NamesDiffer(s, made);
    Named(p, made);
  }

  /** What the fresh names of a two-channel encoder have to do with each other. */
  lemma NamesOfTwo(kernel: Kernel, s: State, h: Handles)
    requires h.Two() && AllFresh(s, Creations(kernel, h))
    ensures h.src !in {h.target0, h.target1, h.stitched, h.dst} && h.target0 !in {h.target1, h.stitched, h.dst}
    ensures h.target1 !in {h.stitched, h.dst} && h.stitched != h.dst && h.pso.program != h.stitchPso.program
    ensures var made := Creations(kernel, h);
            && (forall t :: t in {h.src, h.target0, h.target1, h.stitched} ==> (Texture(t), NoKernel) in made)
            && (h.dst != 0 ==> (Texture(h.dst), NoKernel) in made)
            && (Program(h.pso.program), kernel) in made && (Program(h.stitchPso.program), Stitch) in made
  {
    var made := Creations(kernel, h);
    assert made == [(Texture(h.src), NoKernel), (Texture(h.target0), NoKernel), (Texture(h.target1), NoKernel),
                    (Shader(h.pso.shader), NoKernel), (Program(h.pso.program), kernel), (Texture(h.stitched), NoKernel),
                    (Shader(h.stitchPso.shader), NoKernel), (Program(h.stitchPso.program), Stitch)]
                   + if h.dst == 0 then [] else [(Texture(h.dst), NoKernel)];
    assert made[0].0 != made[1].0 && made[0].0 != made[2].0 && made[0].0 != made[5].0 && made[4].0 != made[7].0;
    assert made[1].0 != made[2].0 && made[1].0 != made[5].0 && made[2].0 != made[5].0;
    assert made[0].0.id != 0 && made[1].0.id != 0 && made[2].0.id != 0 && made[5].0.id != 0;
    if h.dst != 0 {
      assert made[8] == (Texture(h.dst), NoKernel) && made[0].0 != made[8].0 && made[1].0 != made[8].0;
      assert made[2].0 != made[8].0 && made[5].0 != made[8].0;
    }
  }

  lemma BuildTwo(kernel: Kernel, s: State, h: Handles, p: Pipeline, made: seq<(Name, Kernel)>)
    requires !kernel.Stitch? && h.Two() && made == Creations(kernel, h) && AllFresh(s, made)
    requires p == Describe(kernel, h, p.tag, p.image, NamesOf(made), 0)
    ensures Built(p, made)
  {
    hide Creations, AllFresh, NamesOf;
    NamesOfTwo(kernel, s, h);
    NamesDiffer(s, made);
    Named(p, made);
  }

  lemma Build(kernel: Kernel, s: State, h: Handles, p: Pipeline, made: seq<(Name, Kernel)>)
    requires !kernel.Stitch? && made == Creations(kernel, h) && AllFresh(s, made)
    requires p == Describe(kernel, h, p.tag, p.image, NamesOf(made), 0)
    ensures Built(p, made)
  {
    hide Built, AllFresh, Creations, Describe, NamesOf;
    if h.Two() {
      BuildTwo(kernel, s, h, p, made);
    } else {
      BuildOne(kernel, s, h, p, made);
    }
  }

  lemma Started(kernel: Kernel, s: State, h: Handles, tag: nat, image: int, made: seq<(Name, Kernel)>,
                params: seq<seq<int>>)
    requires !kernel.Stitch? && made == Creations(kernel, h) && AllFresh(s, made) && Owned(s, tag) == {}
    requires |params| == if h.Two() then 2 else 1
    ensures var p := Describe(kernel, h, tag, image, NamesOf(made), 0);
            var s' := SetContent(CreateAll(s, tag, made), Texture(h.src), Image(image));
            Ready(p, s') && Stays(s, s', tag) && Reached(p, s', 0, params)
  {
    hide AllFresh, Built, Ready, Reached, Stays, Owned, CreateAll, SetContent, Creations;
    var p := Describe(kernel, h, tag, image, NamesOf(made), 0);
    Build(kernel, s, h, p, made);
    InitReady(p, s, made, params);
  }

  lemma ChannelNames(kernel: Kernel, h: Handles)
    ensures SetOf(NamesOf(ChannelCreations(kernel, h)))
            == {Texture(h.src), Texture(h.target0), Shader(h.pso.shader), Program(h.pso.program)}
               + if h.Two() then {Texture(h.target1)} else {}
  {
    var names := NamesOf(ChannelCreations(kernel, h));
    if h.Two() {
      assert names == [Texture(h.src), Texture(h.target0), Texture(h.target1), Shader(h.pso.shader),
                       Program(h.pso.program)];
    } else {
      assert names == [Texture(h.src), Texture(h.target0), Shader(h.pso.shader), Program(h.pso.program)];
    }
  }

  /** All that is created is what the handles name. */
  lemma NamesHeld(kernel: Kernel, h: Handles)
    ensures SetOf(NamesOf(Creations(kernel, h)))
            == {Texture(h.src), Texture(h.target0), Shader(h.pso.shader), Program(h.pso.program)}
               + (if h.dst != 0 then {Texture(h.dst)} else {})
               + (if h.Two() then {Texture(h.target1), Texture(h.stitched), Shader(h.stitchPso.shader),
                                   Program(h.stitchPso.program)} else {})
  {
    hide SetOf, NamesOf, ChannelCreations;
    var stitching := if h.Two() then
                       [(Texture(h.stitched), NoKernel), (Shader(h.stitchPso.shader), NoKernel),
                        (Program(h.stitchPso.program), Stitch)]
                     else [];
    var copying := if h.dst == 0 then [] else [(Texture(h.dst), NoKernel)];
    ChannelNames(kernel, h);
    NamesSplit(ChannelCreations(kernel, h) + stitching, copying);
    NamesSplit(ChannelCreations(kernel, h), stitching);
    FewNames(stitching);
    FewNames(copying);
  }

  // ---- deinitResources ----

  function TextureDeletions(h: Handles): seq<Name> {
    Optional(h.dst != 0, [Texture(h.dst)]) + Optional(h.stitched != 0, [Texture(h.stitched)]) + [Texture(h.target0)]
    + Optional(h.Two(), [Texture(h.target1)]) + [Texture(h.src)]
  }

  /** What deinitResources deletes, in order. */
  function Deletions(h: Handles, staging: nat): seq<Name> {
    TextureDeletions(h) + Optional(staging != 0, [Buffer(staging)]) + PsoNames(h.pso)
    + Optional(h.stitchPso.program != 0, PsoNames(h.stitchPso))
  }

  /** The names that deinitResources tests are set exactly when they were created. */
  lemma FieldsAreSet(kernel: Kernel, s: State, p: Pipeline, h: Handles)
    requires Ready(p, s) && p.names == NamesOf(Creations(kernel, h)) && h.Coherent()
    ensures h.src != 0 && h.target0 != 0 && (h.Two() <==> h.stitched != 0) && (h.Two() <==> h.stitchPso.program != 0)
  {
    hide Owned, StageReady;
    var names := p.names;
    assert names[0] == Texture(h.src) && names[1] == Texture(h.target0);
    if h.Two() {
      assert names[5] == Texture(h.stitched) && names[7] == Program(h.stitchPso.program);
    }
    assert forall i :: 0 <= i < |names| ==> names[i] in names && names[i].id != 0;
  }

  /** Every name is deleted, and each once. */
  lemma NothingIsLeft(kernel: Kernel, s: State, p: Pipeline, h: Handles)
    requires Ready(p, s) && p.names == NamesOf(Creations(kernel, h)) && h.Coherent()
    ensures Splits(AllNames(p), Deletions(h, p.staging), [])
  {
    hide Ready, Owned, NamesOf;
    FieldsAreSet(kernel, s, p, h);
    var deleted := Deletions(h, p.staging);
    if h.Two() {
      assert p.names == [Texture(h.src), Texture(h.target0), Texture(h.target1), Shader(h.pso.shader),
          Program(h.pso.program),
                         Texture(h.stitched), Shader(h.stitchPso.shader), Program(h.stitchPso.program)]
                        + Optional(h.dst != 0, [Texture(h.dst)]);
    } else {
      assert p.names == [Texture(h.src), Texture(h.target0), Shader(h.pso.shader), Program(h.pso.program)]
                        + Optional(h.dst != 0, [Texture(h.dst)]);
    }
    assert forall n :: n in AllNames(p) <==> n in deleted;
  }

  lemma AllDeleted(kernel: Kernel, s: State, p: Pipeline, h: Handles)
    requires Ready(p, s) && p.names == NamesOf(Creations(kernel, h)) && h.Coherent()
    ensures var s' := DeleteAll(s, Deletions(h, p.staging));
            Owned(s', p.tag) == {} && Stays(s, s', p.tag)
  {
    hide Ready, DeleteAll, Owned, Stays, NamesOf, Splits, Deletions;
    NothingIsLeft(kernel, s, p, h);
    DeinitLeaves(p, s, Deletions(h, p.staging), []);
  }
}
