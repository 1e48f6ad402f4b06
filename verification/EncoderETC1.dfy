/** The ETC1 encoder, with EAC alpha and dithering or without. */
module EncoderETC1 {
  import opened Gl
  import opened Lifetimes
  import opened Pipelines

  /** dithered is src when nothing is dithered; eacTarget is 0 when there is no alpha. */
  datatype Handles = Handles(
    src: nat, dithered: nat, ditherPso: Pso, compressTarget: nat, dst: nat, tables: nat, compressPso: Pso,
    eacTarget: nat, stitched: nat, eacPso: Pso, stitchPso: Pso)
  {
    predicate Dithers() { dithered != src }

    predicate HasAlpha() { eacTarget != 0 }

    /** Only what is used is set. */
    predicate Coherent() {
      && (!Dithers() ==> ditherPso == NO_PSO)
      && (!HasAlpha() ==> stitched == 0 && eacPso == NO_PSO && stitchPso == NO_PSO)
    }
  }

  function Describe(h: Handles, tag: nat, image: int, names: seq<Name>, staging: nat): Pipeline {
    var colour := Stage(h.compressPso, Etc1, false, [h.dithered], h.compressTarget);
    var pre := if h.Dithers() then [Stage(h.ditherPso, Dither555, true, [h.src], h.dithered)] else [];
    if h.HasAlpha() then
      Pipeline(tag, image, h.src, pre, [colour, Stage(h.eacPso, Eac, true, [h.src], h.eacTarget)],
               [Stage(h.stitchPso, Stitch, true, [h.compressTarget, h.eacTarget], h.stitched)],
               h.compressTarget, h.dst, h.stitched, names, staging)
    else Pipeline(tag, image, h.src, pre, [colour], [], h.compressTarget, h.dst, h.compressTarget, names, staging)
  }

  /** What initResources creates, in order: the source and what dithers it, the compressor, alpha. */
  function SourceCreations(h: Handles): seq<(Name, Kernel)> {
    [(Texture(h.src), NoKernel)]
    + if h.Dithers() then
        [(Texture(h.dithered), NoKernel), (Shader(h.ditherPso.shader), NoKernel),
            (Program(h.ditherPso.program), Dither555)]
      else []
  }

  function ColourCreations(h: Handles): seq<(Name, Kernel)> {
    SourceCreations(h)
    + [(Texture(h.compressTarget), NoKernel), (Texture(h.dst), NoKernel), (Buffer(h.tables), NoKernel),
       (Shader(h.compressPso.shader), NoKernel), (Program(h.compressPso.program), Etc1)]
  }

  function AlphaCreations(h: Handles): seq<(Name, Kernel)> {
    if !h.HasAlpha() then []
    else [(Texture(h.eacTarget), NoKernel), (Texture(h.stitched), NoKernel),
          (Shader(h.eacPso.shader), NoKernel), (Program(h.eacPso.program), Eac),
          (Shader(h.stitchPso.shader), NoKernel), (Program(h.stitchPso.program), Stitch)]
  }

  function Creations(h: Handles): seq<(Name, Kernel)> { ColourCreations(h) + AlphaCreations(h) }

  /** What the fresh names have to do with each other. */
  ghost predicate ColourApart(h: Handles) {
    && h.src != 0 && h.compressTarget !in {h.src, h.dithered} && h.dst !in {0, h.src, h.dithered, h.compressTarget}
    && (h.Dithers() ==> h.ditherPso.program != h.compressPso.program)
  }

  ghost predicate AlphaApart(h: Handles) {
    && h.eacTarget !in {h.src, h.dithered, h.compressTarget, h.dst}
    && h.stitched !in {h.src, h.dithered, h.compressTarget, h.dst, h.eacTarget}
    && h.compressPso.program !in {h.eacPso.program, h.stitchPso.program}
  }

  lemma ColourNames(h: Handles, s: State)
    requires AllFresh(s, ColourCreations(h))
    ensures ColourApart(h)
    ensures var made := ColourCreations(h);
            && (Texture(h.src), NoKernel) in made && (Texture(h.dithered), NoKernel) in made
            && (Texture(h.compressTarget), NoKernel) in made && (Texture(h.dst), NoKernel) in made
            && (h.Dithers() ==> (Program(h.ditherPso.program), Dither555) in made)
            && (Program(h.compressPso.program), Etc1) in made
  {
    var made := ColourCreations(h);
    var d := if h.Dithers() then 3 else 0;
    assert made[0] == (Texture(h.src), NoKernel);
    assert h.Dithers() ==>
        made[1] == (Texture(h.dithered), NoKernel) && made[3] == (Program(h.ditherPso.program), Dither555);
    assert made[1 + d] == (Texture(h.compressTarget), NoKernel) && made[2 + d] == (Texture(h.dst), NoKernel);
    assert made[5 + d] == (Program(h.compressPso.program), Etc1);
    assert made[0].0 != made[1 + d].0 && made[0].0 != made[2 + d].0 && made[1 + d].0 != made[2 + d].0;
    assert h.Dithers() ==> made[1].0 != made[1 + d].0 && made[1].0 != made[2 + d].0 && made[3].0 != made[5 + d].0;
  }

  lemma AlphaNames(h: Handles, s: State)
    requires AllFresh(s, Creations(h)) && h.HasAlpha()
    ensures AlphaApart(h)
  {
    hide AllFresh, ColourCreations;
    var front, back := ColourCreations(h), AlphaCreations(h);
    Apart(s, front, back);
    ColourNames(h, s);
    assert back[0].0 != back[1].0 by {
      NamesDiffer(s, back);
    }
    assert (Texture(h.eacTarget), NoKernel) in back && (Texture(h.stitched), NoKernel) in back;
    assert (Program(h.eacPso.program), Eac) in back && (Program(h.stitchPso.program), Stitch) in back;
  }

  /** Everything is among what is created. */
  lemma Present(h: Handles, s: State)
    requires AllFresh(s, Creations(h))
    ensures var made := Creations(h);
            && (Texture(h.src), NoKernel) in made && (Texture(h.dithered), NoKernel) in made
            && (Texture(h.compressTarget), NoKernel) in made && (Texture(h.dst), NoKernel) in made
            && (h.Dithers() ==> (Program(h.ditherPso.program), Dither555) in made)
            && (Program(h.compressPso.program), Etc1) in made
            && (h.HasAlpha() ==>
                  && (Texture(h.eacTarget), NoKernel) in made && (Texture(h.stitched), NoKernel) in made
                  && (Program(h.eacPso.program), Eac) in made && (Program(h.stitchPso.program), Stitch) in made)
  {
    hide AllFresh, ColourCreations, Creations;
    Parts(h);
    Apart(s, ColourCreations(h), AlphaCreations(h));
    ColourNames(h, s);
    AlphaParts(h);
  }

  lemma StagesBuilt(h: Handles, s: State, p: Pipeline, made: seq<(Name, Kernel)>)
    requires made == Creations(h) && AllFresh(s, made)
    requires p == Describe(h, p.tag, p.image, p.names, p.staging)
    ensures forall i :: 0 <= i < |p.pre| ==> StageBuilt(p.pre[i], made)
    ensures forall i :: 0 <= i < |p.stages| ==> StageBuilt(p.stages[i], made)
    ensures forall i :: 0 <= i < |p.stitch| ==> StageBuilt(p.stitch[i], made)
  {
    hide AllFresh, Creations;
    Present(h, s);
  }

  lemma KeyTextures(h: Handles, s: State, p: Pipeline, made: seq<(Name, Kernel)>)
    requires made == Creations(h) && AllFresh(s, made)
    requires p == Describe(h, p.tag, p.image, NamesOf(made), p.staging)
    ensures Texture(p.src) in p.names && Texture(p.result) in p.names && Texture(p.dst) in p.names
    ensures Texture(p.copied) in p.names
  {
    hide AllFresh, Creations, NamesOf;
    Present(h, s);
    Named(p, made);
  }

  lemma Parts(h: Handles)
    ensures Creations(h) == ColourCreations(h) + AlphaCreations(h)
  {
  }

  lemma AlphaParts(h: Handles)
    ensures h.HasAlpha() ==>
              var made := AlphaCreations(h);
              && (Texture(h.eacTarget), NoKernel) in made && (Texture(h.stitched), NoKernel) in made
              && (Program(h.eacPso.program), Eac) in made && (Program(h.stitchPso.program), Stitch) in made
  {
    if h.HasAlpha() {
      var made := AlphaCreations(h);
      assert made[0] in made && made[1] in made && made[3] in made && made[5] in made;
    }
  }

  lemma Apartness(h: Handles, p: Pipeline)
    requires p == Describe(h, p.tag, p.image, p.names, 0)
    requires ColourApart(h) && (h.HasAlpha() ==> AlphaApart(h))
    requires Texture(p.src) in p.names && Texture(p.result) in p.names && Texture(p.dst) in p.names
    requires Texture(p.copied) in p.names
    requires forall n :: n in p.names ==> n.id != 0 && n != Buffer(0)
    requires forall i, j :: 0 <= i < j < |p.names| ==> p.names[i] != p.names[j]
    ensures Shaped(p) && Distinct(p)
  {
  }

  lemma Build(h: Handles, s: State, p: Pipeline, made: seq<(Name, Kernel)>)
    requires made == Creations(h) && AllFresh(s, made)
    requires p == Describe(h, p.tag, p.image, NamesOf(made), 0) && p.names == NamesOf(made) && p.staging == 0
    ensures Built(p, made)
  {
    hide AllFresh, NamesOf, Creations, StageBuilt, Describe, Distinct, Shaped, ColourApart, AlphaApart, ColourCreations;
    Parts(h);
    Apart(s, ColourCreations(h), AlphaCreations(h));
    ColourNames(h, s);
    if h.HasAlpha() {
      AlphaNames(h, s);
    }
    NamesDiffer(s, made);
    StagesBuilt(h, s, p, made);
    KeyTextures(h, s, p, made);
    Apartness(h, p);
  }

  lemma Started(h: Handles, s: State, tag: nat, image: int, made: seq<(Name, Kernel)>, params: seq<seq<int>>)
    requires AllFresh(s, made) && Owned(s, tag) == {} && |params| == if h.HasAlpha() then 2 else 1
    requires made == Creations(h)
    ensures var p := Describe(h, tag, image, NamesOf(made), 0);
            var s' := SetContent(CreateAll(s, tag, made), Texture(h.src), Image(image));
            Ready(p, s') && Stays(s, s', tag) && Reached(p, s', 0, params)
  {
    hide AllFresh, Built, Ready, Reached, Stays, Owned, CreateAll, SetContent, Creations, NamesOf;
    var p := Describe(h, tag, image, NamesOf(made), 0);
    Build(h, s, p, made);
    InitReady(p, s, made, params);
  }

  /** All that is created is what the handles name. */
  lemma NamesHeld(h: Handles)
    ensures SetOf(NamesOf(Creations(h)))
            == {Texture(h.src), Texture(h.compressTarget), Texture(h.dst), Buffer(h.tables),
                Shader(h.compressPso.shader), Program(h.compressPso.program)}
               + (if h.Dithers() then {Texture(h.dithered), Shader(h.ditherPso.shader), Program(h.ditherPso.program)}
                  else {})
               + (if h.HasAlpha() then {Texture(h.eacTarget), Texture(h.stitched), Shader(h.eacPso.shader),
                                        Program(h.eacPso.program), Shader(h.stitchPso.shader),
                                        Program(h.stitchPso.program)} else {})
  {
    hide SetOf, NamesOf, AlphaCreations;
    NamesSplit(ColourCreations(h), AlphaCreations(h));
    ColourHeld(h);
    AlphaHeld(h);
  }

  lemma ColourHeld(h: Handles)
    ensures SetOf(NamesOf(ColourCreations(h)))
            == {Texture(h.src), Texture(h.compressTarget), Texture(h.dst), Buffer(h.tables),
                Shader(h.compressPso.shader), Program(h.compressPso.program)}
               + (if h.Dithers() then {Texture(h.dithered), Shader(h.ditherPso.shader), Program(h.ditherPso.program)}
                  else {})
  {
    hide SetOf, NamesOf;
    var dithering := SourceCreations(h)[1..];
    var rest := ColourCreations(h)[|SourceCreations(h)|..];
    assert SourceCreations(h) == [(Texture(h.src), NoKernel)] + dithering;
    NamesSplit(SourceCreations(h), rest);
    NamesSplit([(Texture(h.src), NoKernel)], dithering);
    FewNames([(Texture(h.src), NoKernel)]);
    FewNames(dithering);
    FewNames(rest);
  }

  lemma AlphaHeld(h: Handles)
    ensures SetOf(NamesOf(AlphaCreations(h)))
            == if h.HasAlpha() then {Texture(h.eacTarget), Texture(h.stitched), Shader(h.eacPso.shader),
                                     Program(h.eacPso.program), Shader(h.stitchPso.shader),
                                     Program(h.stitchPso.program)} else {}
  {
    hide SetOf, NamesOf;
    FewNames(AlphaCreations(h));
  }

  // ---- deinitResources ----

  /** What deinitResources deletes, in order. */
  function TargetDeletions(h: Handles): seq<Name> {
    [Buffer(h.tables), Texture(h.dst), Texture(h.compressTarget)]
    + Optional(h.HasAlpha(), [Texture(h.stitched), Texture(h.eacTarget)])
  }

  function SourceDeletions(h: Handles, staging: nat): seq<Name> {
    Optional(h.Dithers(), [Texture(h.dithered)] + PsoNames(h.ditherPso))
    + [Texture(h.src)]
    + Optional(staging != 0, [Buffer(staging)])
  }

  function ProgramDeletions(h: Handles): seq<Name> {
    Optional(h.eacPso.program != 0, PsoNames(h.stitchPso) + PsoNames(h.eacPso))
    + PsoNames(h.compressPso)
  }

  function Deletions(h: Handles, staging: nat): seq<Name> {
    TargetDeletions(h) + SourceDeletions(h, staging) + ProgramDeletions(h)
  }

  /** The names that deinitResources tests are set exactly when they were created. */
  lemma AlphaIsSet(h: Handles, s: State, p: Pipeline)
    requires Ready(p, s) && p.names == NamesOf(Creations(h)) && h.Coherent()
    ensures h.HasAlpha() <==> h.eacPso.program != 0
  {
    hide Owned, StageReady, ColourCreations;
    if h.HasAlpha() {
      assert p.names[|ColourCreations(h)| + 3] == Program(h.eacPso.program);
      assert forall i :: 0 <= i < |p.names| ==> p.names[i] in p.names && p.names[i].id != 0;
    }
  }

  /** Every name is deleted, and each once. */
  lemma NothingIsLeft(h: Handles, s: State, p: Pipeline)
    requires Ready(p, s) && p.names == NamesOf(Creations(h)) && h.Coherent()
    ensures Splits(AllNames(p), Deletions(h, p.staging), [])
  {
    hide Ready, Owned, NamesOf, Creations, Deletions;
    AlphaIsSet(h, s, p);
    SameNumber(h, p.staging);
    SameMembers(h, p, p.staging);
  }

  lemma AllDeleted(h: Handles, s: State, p: Pipeline)
    requires Ready(p, s) && p.names == NamesOf(Creations(h)) && h.Coherent()
    ensures var s' := DeleteAll(s, Deletions(h, p.staging));
            Owned(s', p.tag) == {} && Stays(s, s', p.tag)
  {
    hide Ready, DeleteAll, Owned, Stays, NamesOf, Creations, Deletions, Splits;
    NothingIsLeft(h, s, p);
    DeinitLeaves(p, s, Deletions(h, p.staging), []);
  }

  lemma SameNumber(h: Handles, staging: nat)
    requires h.HasAlpha() <==> h.eacPso.program != 0
    ensures |Deletions(h, staging)| == |Creations(h)| + if staging != 0 then 1 else 0
  {
  }

  lemma SameMembers(h: Handles, p: Pipeline, staging: nat)
    requires h.HasAlpha() <==> h.eacPso.program != 0
    requires p.names == NamesOf(Creations(h))
    ensures forall n :: n in Deletions(h, staging) <==> n in p.names || (staging != 0 && n == Buffer(staging))
  {
    hide NamesOf;
    assert p.names == [Texture(h.src)]
                      + Optional(h.Dithers(), [Texture(h.dithered), Shader(h.ditherPso.shader),
                          Program(h.ditherPso.program)])
                      + [Texture(h.compressTarget), Texture(h.dst), Buffer(h.tables),
                         Shader(h.compressPso.shader), Program(h.compressPso.program)]
                      + Optional(h.HasAlpha(), [Texture(h.eacTarget), Texture(h.stitched),
                                                Shader(h.eacPso.shader), Program(h.eacPso.program),
                                                Shader(h.stitchPso.shader), Program(h.stitchPso.program)]);
  }

  /** quality, scanDeltaAbsMin, scanDeltaAbsMax and maxRefinementTrials for a quality from 0, low, to 2, high. */
  function Effort(quality: nat): seq<int> {
    [quality, 0, if quality == 2 then 4 else if quality == 1 then 1 else 0, if quality == 0 then 2 else 4]
  }

  class Encoder {
    const tag: nat   // tells this encoder's GL objects from others'
    var src: nat
    var dithered: nat
    var compressTarget: nat
    var eacTarget: nat
    var stitched: nat
    var dst: nat
    var tables: nat
    var staging: nat
    var ditherPso: Pso
    var compressPso: Pso
    var eacPso: Pso
    var stitchPso: Pso
    ghost var image: int
    ghost var names: seq<Name>

    constructor (tag: nat)
      ensures Blank() && this.tag == tag
    {
      this.tag := tag;
      src, dithered, compressTarget, eacTarget, stitched, dst, tables, staging := 0, 0, 0, 0, 0, 0, 0, 0;
      ditherPso, compressPso, eacPso, stitchPso := NO_PSO, NO_PSO, NO_PSO, NO_PSO;
    }

    /** As constructed. */
    ghost predicate Blank() reads this {
      H() == Handles(0, 0, NO_PSO, 0, 0, 0, NO_PSO, 0, 0, NO_PSO, NO_PSO) && staging == 0
    }

    ghost function H(): Handles reads this {
      Handles(src, dithered, ditherPso, compressTarget, dst, tables, compressPso, eacTarget, stitched, eacPso,
          stitchPso)
    }

    ghost function View(): Pipeline reads this { Describe(H(), tag, image, names, staging) }

    ghost function Params(quality: nat): seq<seq<int>> reads this {
      if eacTarget != 0 then [Effort(quality), []] else [Effort(quality)]
    }

    ghost predicate Valid(s: State) reads this {
      Ready(View(), s) && names == NamesOf(Creations(H())) && H().Coherent() && dst != 0
    }

    /** The source, what dithers it and what compresses the colours; made lists them. */
    method CreateColour(gl: Context, dither: bool) returns (ghost made: seq<(Name, Kernel)>)
      requires gl.Valid() && Blank()
      modifies gl, this`src, this`dithered, this`ditherPso, this`compressTarget, this`dst, this`tables, this`compressPso
      ensures gl.Valid() && gl.s == CreateAll(old(gl.s), tag, made) && AllFresh(old(gl.s), made)
      ensures made == ColourCreations(H()) && dst != 0 && H().Dithers() == dither && (!dither ==> ditherPso == NO_PSO)
    {
      hide Create, CreatePso, CreateAll, AllFresh, Context.Valid;
      ghost var start := gl.s;
      made := CreateSource(gl, dither);
      compressTarget := gl.CreateTexture(tag);
      made := Made(start, tag, made, Texture(compressTarget));
      dst := gl.CreateTexture(tag);
      made := Made(start, tag, made, Texture(dst));
      tables := gl.CreateBuffer(tag);
      made := Made(start, tag, made, Buffer(tables));
      compressPso := gl.CreateComputePso(tag, Etc1);
      made := MadeProgram(start, tag, made, compressPso, Etc1);
    }

    method CreateSource(gl: Context, dither: bool) returns (ghost made: seq<(Name, Kernel)>)
      requires gl.Valid() && Blank()
      modifies gl, this`src, this`dithered, this`ditherPso
      ensures gl.Valid() && gl.s == CreateAll(old(gl.s), tag, made) && AllFresh(old(gl.s), made)
      ensures made == SourceCreations(H()) && H().Dithers() == dither && (!dither ==> ditherPso == NO_PSO)
    {
      hide Create, CreatePso, CreateAll, AllFresh, Context.Valid;
      ghost var start := gl.s;
      made := [];
      NoneMade(start, tag);
      src := gl.CreateTexture(tag);
      made := Made(start, tag, made, Texture(src));
      if dither {
        dithered := gl.CreateTexture(tag);
        made := Made(start, tag, made, Texture(dithered));
        NamesDiffer(start, made);
        assert made[0].0 != made[1].0;
        ditherPso := gl.CreateComputePso(tag, Dither555);
        made := MadeProgram(start, tag, made, ditherPso, Dither555);
      } else {
        dithered := src;
      }
    }

    /** Everything; made lists it. */
    method CreateResources(gl: Context, compressAlpha: bool, dither: bool) returns (ghost made: seq<(Name, Kernel)>)
      requires gl.Valid() && Blank()
      modifies this, gl
      ensures gl.Valid() && gl.s == CreateAll(old(gl.s), tag, made) && AllFresh(old(gl.s), made)
      ensures made == Creations(H()) && H().Dithers() == dither && H().HasAlpha() == compressAlpha && H().Coherent()
      ensures staging == 0 && dst != 0
    {
      hide Create, CreatePso, CreateAll, AllFresh, Context.Valid, ColourCreations;
      ghost var start := gl.s;
      made := CreateColour(gl, dither);
      ghost var front := made;
      made := CreateAlpha(gl, compressAlpha, start, front);
      ColourOnly(H(), H().(eacTarget := 0, stitched := 0, eacPso := NO_PSO, stitchPso := NO_PSO));
    }

    method CreateAlpha(gl: Context, compressAlpha: bool, ghost start: State, ghost front: seq<(Name, Kernel)>)
      returns (ghost made: seq<(Name, Kernel)>)
      requires gl.Valid() && gl.s == CreateAll(start, tag, front) && AllFresh(start, front)
      requires eacTarget == stitched == 0 && eacPso == stitchPso == NO_PSO
      modifies gl, this`eacTarget, this`stitched, this`eacPso, this`stitchPso
      ensures gl.Valid() && gl.s == CreateAll(start, tag, made) && AllFresh(start, made)
      ensures made == front + AlphaCreations(H()) && H().HasAlpha() == compressAlpha
      ensures !compressAlpha ==> stitched == 0 && eacPso == stitchPso == NO_PSO
    {
      hide Create, CreatePso, CreateAll, AllFresh, Context.Valid;
      made := front;
      if compressAlpha {
        made := CreateAlphaTargets(gl, start, made);
        eacPso := gl.CreateComputePso(tag, Eac);
        made := MadeProgram(start, tag, made, eacPso, Eac);
        stitchPso := gl.CreateComputePso(tag, Stitch);
        made := MadeProgram(start, tag, made, stitchPso, Stitch);
      }
    }

    method CreateAlphaTargets(gl: Context, ghost start: State, ghost front: seq<(Name, Kernel)>)
      returns (ghost made: seq<(Name, Kernel)>)
      requires gl.Valid() && gl.s == CreateAll(start, tag, front) && AllFresh(start, front)
      modifies gl, this`eacTarget, this`stitched
      ensures gl.Valid() && gl.s == CreateAll(start, tag, made) && AllFresh(start, made) && eacTarget != 0
      ensures made == front + [(Texture(eacTarget), NoKernel), (Texture(stitched), NoKernel)]
    {
      hide Create, CreatePso, CreateAll, AllFresh, Context.Valid;
      made := front;
      eacTarget := gl.CreateTexture(tag);
      made := Made(start, tag, made, Texture(eacTarget));
      stitched := gl.CreateTexture(tag);
      made := Made(start, tag, made, Texture(stitched));
    }

    method InitResources(gl: Context, newImage: int, compressAlpha: bool, dither: bool)
      requires gl.Valid() && Blank() && Owned(gl.s, tag) == {}
      modifies this, gl
      ensures gl.Valid() && Valid(gl.s) && Stays(old(gl.s), gl.s, tag) && Reached(View(), gl.s, 0, Params(0))
      ensures AllFresh(old(gl.s), Creations(H()))
      ensures Owned(gl.s, tag)
              == {Texture(src), Texture(compressTarget), Texture(dst), Buffer(tables), Shader(compressPso.shader),
                  Program(compressPso.program)}
                 + (if dither then {Texture(dithered), Shader(ditherPso.shader), Program(ditherPso.program)} else {})
                 + (if compressAlpha then {Texture(eacTarget), Texture(stitched), Shader(eacPso.shader),
                                           Program(eacPso.program), Shader(stitchPso.shader),
                                           Program(stitchPso.program)} else {})
      ensures gl.s == SetContent(CreateAll(old(gl.s), tag, Creations(H())), Texture(src), Image(newImage))
      ensures H().Dithers() == dither && H().HasAlpha() == compressAlpha && image == newImage && staging == 0
    {
      hide SetContent, Owned, CreateAll, AllFresh, Ready, Reached, Stays, Describe, Creations, Context.Valid, NamesOf;
      ghost var start := gl.s;
      ghost var made := CreateResources(gl, compressAlpha, dither);
      image := newImage;
      gl.Upload(tag, newImage, src);
      names := NamesOf(made);
      Started(H(), start, tag, newImage, made, Params(0));
      InitOwns(start, tag, made, src, newImage);
      NamesHeld(H());
    }

    method Execute00(gl: Context)
      requires gl.Valid() && Valid(gl.s)
      modifies gl
      ensures gl.Valid() && Valid(gl.s) && Stays(old(gl.s), gl.s, tag)
      ensures gl.s == Pipelines.Execute00(View(), old(gl.s))
    {
      hide SetUniforms, Dispatch, Context.Valid, Barrier, Settled, Ready, Stays, Owned, Creations;
      Execute00IsSafe(View(), gl.s);
      if dithered == src {
        return;
      }
      PlainHaveNone(View(), gl.s);
      gl.Bind(0, src);
      gl.BindImage(0, dithered);
      gl.BindComputePso(ditherPso);
      NoUniforms(gl.s);
      gl.DispatchCompute();
      gl.MemoryBarrier({TextureFetch});
    }

    method Execute01(gl: Context, quality: nat)
      requires gl.Valid() && Valid(gl.s)
      modifies gl
      ensures gl.Valid() && Valid(gl.s) && Stays(old(gl.s), gl.s, tag)
      ensures gl.s == Pipelines.Execute01(View(), old(gl.s), Params(quality))
    {
      hide SetUniforms, Dispatch, Context.Valid, Settled, Ready, Stays, Owned, Creations;
      Execute01IsSafe(View(), gl.s, Params(quality));
      gl.Bind(0, dithered);
      gl.BindImage(0, compressTarget);
      gl.BindComputePso(compressPso);
      gl.Uniform(Effort(quality));
      gl.DispatchCompute();
      if eacTarget != 0 {
        AlphaHasNoUniforms(old(gl.s), quality);
        gl.Bind(0, src);
        gl.BindImage(0, eacTarget);
        gl.BindComputePso(eacPso);
        NoUniforms(gl.s);
        gl.DispatchCompute();
      }
    }

    lemma AlphaHasNoUniforms(s: State, quality: nat)
      requires Valid(s) && eacTarget != 0
      ensures var s' := Pass(s, View().stages[0], Effort(quality));
              Program(eacPso.program) in s'.objects && s'.objects[Program(eacPso.program)].uniforms == []
    {
      hide Pass;
      StageKeeps(View(), s, 0, Effort(quality));
      assert StageReady(View(), Pass(s, View().stages[0], Effort(quality)), View().stages[1]);
    }

    method Execute02(gl: Context)
      requires gl.Valid() && Valid(gl.s)
      modifies gl
      ensures gl.Valid() && Valid(gl.s) && Stays(old(gl.s), gl.s, tag)
      ensures gl.s == Pipelines.Execute02(View(), old(gl.s))
    {
      hide SetUniforms, Dispatch, Context.Valid, Ready, Stays, Owned, Settled, Creations;
      Execute02IsSafe(View(), gl.s);
      PlainHaveNone(View(), gl.s);
      if eacTarget == 0 {
        return;
      }
      gl.MemoryBarrier({TextureFetch});
      gl.Bind(0, compressTarget);
      gl.Bind(1, eacTarget);
      gl.BindImage(0, stitched);
      gl.BindComputePso(stitchPso);
      NoUniforms(gl.s);
      gl.DispatchCompute();
    }

    /** The dump of the first block comes and goes. */
    method Execute03(gl: Context)
      requires gl.Valid() && Valid(gl.s)
      modifies gl
      ensures gl.Valid() && Valid(gl.s) && Stays(old(gl.s), gl.s, tag)
      ensures gl.s == Pipelines.Execute03(View(), old(gl.s))
    {
      hide Ready, Stays, Owned, Settled, Creations, Context.Valid;
      Execute03IsSafe(View(), gl.s);
      gl.MemoryBarrier({TextureUpdate, ShaderImageAccess});
      gl.CopyImageSubData(compressTarget, dst);
      Dump(gl);
    }

    method Dump(gl: Context)
      requires gl.Valid()
      modifies gl
      ensures gl.Valid() && gl.s == old(gl.s)
    {
      hide Create, GetTexImage, Delete, Context.Valid;
      ghost var before := gl.s;
      var block := gl.CreateBuffer(tag);
      gl.DownloadStagingTexture(compressTarget, block);
      gl.Destroy(Buffer(block));
      DumpLeavesNoTrace(before, tag, block, compressTarget);
    }

    method StartDownload(gl: Context)
      requires gl.Valid() && Valid(gl.s)
      modifies gl, this`staging
      ensures gl.Valid() && Valid(gl.s) && Stays(old(gl.s), gl.s, tag) && staging != 0
      ensures Buffer(staging) !in Delete(old(gl.s), Buffer(old(staging))).objects
      ensures gl.s == Pipelines.StartDownload(old(View()), old(gl.s), staging)
    {
      hide Ready, Creations, Context.Valid, Delete, Stays, Owned, Settled, GetTexImage, Barrier, Create;
      ghost var start, p := gl.s, View();
      BarrierThenDelete(gl.s, Buffer(staging));
      DeleteNothing(Barrier(gl.s, {PixelBuffer}), Buffer(0));
      gl.MemoryBarrier({PixelBuffer});
      if staging != 0 {
        gl.Destroy(Buffer(staging));
      }
      staging := gl.CreateBuffer(tag);
      gl.DownloadStagingTexture(if eacTarget != 0 then stitched else compressTarget, staging);
      DownloadIsSafe(p, start, staging);
    }

    /** Gives everything back, each object once. The staging buffer's field keeps its value. */
    method DeinitResources(gl: Context)
      requires gl.Valid() && Valid(gl.s)
      modifies this, gl
      ensures gl.Valid() && Owned(gl.s, tag) == {} && Stays(old(gl.s), gl.s, tag)
      ensures gl.s == DeleteAll(old(gl.s), Deletions(old(H()), staging))
      ensures var kept := if old(H().Dithers()) then 0 else old(dithered);
              H() == Handles(0, kept, NO_PSO, 0, 0, 0, NO_PSO, 0, 0, NO_PSO, NO_PSO)
      ensures staging == old(staging)
    {
      hide Delete, DeletePso, DeleteAll, Ready, Context.Valid, Owned, Stays, Creations, TargetDeletions;
      hide SourceDeletions, ProgramDeletions;
      ghost var start, p, h := gl.s, View(), H();
      AlphaIsSet(h, start, p);
      NoneDeleted(start);
      ghost var deleted := DeleteTargets(gl, start, []);
      SameSource(h, H(), staging);
      deleted := DeleteSource(gl, start, deleted);
      SamePrograms(h, H());
      deleted := DeletePrograms(gl, start, deleted);
      assert deleted == Deletions(h, staging);
      AllDeleted(h, start, p);
    }

    method DeleteTargets(gl: Context, ghost start: State, ghost before: seq<Name>) returns (ghost deleted: seq<Name>)
      requires gl.Valid() && gl.s == DeleteAll(start, before)
      requires eacTarget == 0 ==> stitched == 0
      modifies gl, this`compressTarget, this`dst, this`tables, this`eacTarget, this`stitched
      ensures gl.Valid() && gl.s == DeleteAll(start, deleted) && deleted == before + TargetDeletions(old(H()))
      ensures compressTarget == dst == tables == eacTarget == stitched == 0
    {
      hide Delete, DeletePso, DeleteAll, Context.Valid;
      deleted := before;
      gl.Destroy(Buffer(tables));
      deleted := DeletedName(start, deleted, Buffer(tables));
      tables := 0;
      gl.Destroy(Texture(dst));
      deleted := DeletedName(start, deleted, Texture(dst));
      dst := 0;
      gl.Destroy(Texture(compressTarget));
      deleted := DeletedName(start, deleted, Texture(compressTarget));
      compressTarget := 0;
      deleted := DeleteAlpha(gl, start, deleted);
    }

    method DeleteAlpha(gl: Context, ghost start: State, ghost before: seq<Name>) returns (ghost deleted: seq<Name>)
      requires gl.Valid() && gl.s == DeleteAll(start, before)
      requires eacTarget == 0 ==> stitched == 0
      modifies gl, this`eacTarget, this`stitched
      ensures gl.Valid() && gl.s == DeleteAll(start, deleted) && eacTarget == stitched == 0
      ensures deleted
              == before + Optional(old(eacTarget) != 0, [Texture(old(stitched)), Texture(old(eacTarget))])
    {
      hide Delete, DeletePso, DeleteAll, Context.Valid;
      deleted := before;
      if eacTarget != 0 {
        gl.Destroy(Texture(stitched));
        deleted := DeletedName(start, deleted, Texture(stitched));
        stitched := 0;
        gl.Destroy(Texture(eacTarget));
        deleted := DeletedName(start, deleted, Texture(eacTarget));
        eacTarget := 0;
      }
    }

    method DeleteSource(gl: Context, ghost start: State, ghost before: seq<Name>) returns (ghost deleted: seq<Name>)
      requires gl.Valid() && gl.s == DeleteAll(start, before)
      requires dithered == src ==> ditherPso == NO_PSO
      modifies gl, this`src, this`dithered, this`ditherPso
      ensures gl.Valid() && gl.s == DeleteAll(start, deleted) && deleted == before + SourceDeletions(old(H()), staging)
      ensures src == 0 && dithered == (if old(dithered == src) then old(dithered) else 0) && ditherPso == NO_PSO
    {
      hide Delete, DeletePso, DeleteAll, Context.Valid;
      deleted := before;
      if dithered != src {
        gl.Destroy(Texture(dithered));
        deleted := DeletedName(start, deleted, Texture(dithered));
        dithered := 0;
        deleted := DeletedPso(start, deleted, ditherPso);
        ditherPso := gl.DestroyPso(ditherPso);
      }
      gl.Destroy(Texture(src));
      deleted := DeletedName(start, deleted, Texture(src));
      src := 0;
      if staging != 0 {
        gl.Destroy(Buffer(staging));
        deleted := DeletedName(start, deleted, Buffer(staging));
      }
    }

    method DeletePrograms(gl: Context, ghost start: State, ghost before: seq<Name>) returns (ghost deleted: seq<Name>)
      requires gl.Valid() && gl.s == DeleteAll(start, before)
      requires eacPso.program == 0 ==> eacPso == stitchPso == NO_PSO
      modifies gl, this`compressPso, this`eacPso, this`stitchPso
      ensures gl.Valid() && gl.s == DeleteAll(start, deleted) && deleted == before + ProgramDeletions(old(H()))
      ensures compressPso == eacPso == stitchPso == NO_PSO
    {
      hide Delete, DeletePso, DeleteAll, Context.Valid;
      deleted := before;
      if eacPso.program != 0 {
        deleted := DeletedPso(start, deleted, stitchPso);
        stitchPso := gl.DestroyPso(stitchPso);
        deleted := DeletedPso(start, deleted, eacPso);
        eacPso := gl.DestroyPso(eacPso);
      }
      deleted := DeletedPso(start, deleted, compressPso);
      compressPso := gl.DestroyPso(compressPso);
    }
  }

  lemma SameSource(h: Handles, g: Handles, staging: nat)
    requires g.src == h.src && g.dithered == h.dithered && g.ditherPso == h.ditherPso
    ensures SourceDeletions(g, staging) == SourceDeletions(h, staging)
  {
  }

  lemma SamePrograms(h: Handles, g: Handles)
    requires g.eacPso == h.eacPso && g.stitchPso == h.stitchPso && g.compressPso == h.compressPso
    ensures ProgramDeletions(g) == ProgramDeletions(h)
  {
  }

  /** The first part of what is created does not depend on alpha. */
  lemma ColourOnly(h: Handles, g: Handles)
    requires g == h.(eacTarget := 0, stitched := 0, eacPso := NO_PSO, stitchPso := NO_PSO)
    ensures ColourCreations(g) == ColourCreations(h)
  {
  }
}
