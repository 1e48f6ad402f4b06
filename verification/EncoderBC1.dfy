/** The BC1 encoder, which is the BC3 encoder when it also compresses alpha as BC4. */
module EncoderBC1 {
  import opened Gl
  import opened Lifetimes
  import opened Pipelines

  /** bc4Target is 0 when there is no alpha. */
  datatype Handles = Handles(
    src: nat, bc1Target: nat, dst: nat, tables: nat, bc1Pso: Pso, bc4Target: nat, stitched: nat, bc4Pso: Pso,
        stitchPso: Pso)
  {
    predicate IsBC3() { bc4Target != 0 }

    /** Only what is used is set. */
    predicate Coherent() { !IsBC3() ==> stitched == 0 && bc4Pso == NO_PSO && stitchPso == NO_PSO }
  }

  function Compressor(dither: bool): Kernel { if dither then Bc1Dither else Bc1 }

  function Describe(h: Handles, dither: bool, tag: nat, image: int, names: seq<Name>, staging: nat): Pipeline {
    var colour := Stage(h.bc1Pso, Compressor(dither), false, [h.src], h.bc1Target);
    if h.IsBC3() then
      Pipeline(tag, image, h.src, [], [colour, Stage(h.bc4Pso, Bc4, false, [h.src], h.bc4Target)],
               [Stage(h.stitchPso, Stitch, true, [h.bc1Target, h.bc4Target], h.stitched)],
               h.stitched, h.dst, h.stitched, names, staging)
    else Pipeline(tag, image, h.src, [], [colour], [], h.bc1Target, h.dst, h.bc1Target, names, staging)
  }

  /** What initResources creates, in order: the colour part, then alpha. */
  function ColourCreations(h: Handles, dither: bool): seq<(Name, Kernel)> {
    [(Texture(h.src), NoKernel), (Texture(h.bc1Target), NoKernel), (Texture(h.dst), NoKernel),
        (Buffer(h.tables), NoKernel),
     (Shader(h.bc1Pso.shader), NoKernel), (Program(h.bc1Pso.program), Compressor(dither))]
  }

  function AlphaCreations(h: Handles): seq<(Name, Kernel)> {
    if !h.IsBC3() then []
    else [(Texture(h.bc4Target), NoKernel), (Texture(h.stitched), NoKernel),
          (Shader(h.bc4Pso.shader), NoKernel), (Program(h.bc4Pso.program), Bc4),
          (Shader(h.stitchPso.shader), NoKernel), (Program(h.stitchPso.program), Stitch)]
  }

  function Creations(h: Handles, dither: bool): seq<(Name, Kernel)> { ColourCreations(h, dither) + AlphaCreations(h) }

  /** What the fresh names have to do with each other. */
  ghost predicate ColourApart(h: Handles) { h.bc1Target != h.src && h.dst !in {0, h.src, h.bc1Target} }

  ghost predicate AlphaApart(h: Handles) {
    && h.bc4Target !in {h.src, h.bc1Target, h.dst}
    && h.stitched !in {h.src, h.bc1Target, h.dst, h.bc4Target}
    && h.stitchPso.program !in {h.bc1Pso.program, h.bc4Pso.program}
  }

  lemma ColourNames(h: Handles, dither: bool, s: State)
    requires AllFresh(s, ColourCreations(h, dither))
    ensures ColourApart(h)
    ensures var made := ColourCreations(h, dither);
            && (Texture(h.src), NoKernel) in made && (Texture(h.bc1Target), NoKernel) in made
                  && (Texture(h.dst), NoKernel) in made
            && (Program(h.bc1Pso.program), Compressor(dither)) in made
  {
    var made := ColourCreations(h, dither);
    assert made[0].0 != made[1].0 && made[0].0 != made[2].0 && made[1].0 != made[2].0;
    assert made[0] in made && made[1] in made && made[2] in made && made[5] in made;
  }

  lemma AlphaNames(h: Handles, dither: bool, s: State)
    requires AllFresh(s, Creations(h, dither)) && h.IsBC3()
    ensures AlphaApart(h)
    ensures var made := AlphaCreations(h);
            && (Texture(h.bc4Target), NoKernel) in made && (Texture(h.stitched), NoKernel) in made
            && (Program(h.bc4Pso.program), Bc4) in made && (Program(h.stitchPso.program), Stitch) in made
  {
    hide AllFresh, ColourCreations;
    var front, back := ColourCreations(h, dither), AlphaCreations(h);
    Apart(s, front, back);
    ColourNames(h, dither, s);
    assert back[0].0 != back[1].0 && back[3].0 != back[5].0 by {
      NamesDiffer(s, back);
    }
    assert back[0] in back && back[1] in back && back[3] in back && back[5] in back;
  }

  /** Everything is among what is created. */
  lemma Present(h: Handles, dither: bool, s: State)
    requires AllFresh(s, Creations(h, dither))
    ensures var made := Creations(h, dither);
            && (Texture(h.src), NoKernel) in made && (Texture(h.bc1Target), NoKernel) in made
                  && (Texture(h.dst), NoKernel) in made
            && (Program(h.bc1Pso.program), Compressor(dither)) in made
            && (h.IsBC3() ==>
                  && (Texture(h.bc4Target), NoKernel) in made && (Texture(h.stitched), NoKernel) in made
                  && (Program(h.bc4Pso.program), Bc4) in made && (Program(h.stitchPso.program), Stitch) in made)
  {
    hide AllFresh, ColourCreations, AlphaCreations;
    Apart(s, ColourCreations(h, dither), AlphaCreations(h));
    ColourNames(h, dither, s);
    if h.IsBC3() {
      AlphaNames(h, dither, s);
    }
  }

  lemma StagesBuilt(h: Handles, dither: bool, s: State, p: Pipeline, made: seq<(Name, Kernel)>)
    requires made == Creations(h, dither) && AllFresh(s, made)
    requires p == Describe(h, dither, p.tag, p.image, p.names, p.staging)
    ensures p.pre == [] && (forall i :: 0 <= i < |p.stages| ==> StageBuilt(p.stages[i], made))
    ensures forall i :: 0 <= i < |p.stitch| ==> StageBuilt(p.stitch[i], made)
  {
    hide AllFresh, Creations;
    Present(h, dither, s);
  }

  lemma KeyTextures(h: Handles, dither: bool, s: State, p: Pipeline, made: seq<(Name, Kernel)>)
    requires made == Creations(h, dither) && AllFresh(s, made)
    requires p == Describe(h, dither, p.tag, p.image, NamesOf(made), p.staging)
    ensures Texture(p.src) in p.names && Texture(p.result) in p.names && Texture(p.dst) in p.names
    ensures Texture(p.copied) in p.names
  {
    hide AllFresh, Creations, NamesOf;
    Present(h, dither, s);
    Named(p, made);
  }

  lemma Apartness(h: Handles, dither: bool, p: Pipeline)
    requires p == Describe(h, dither, p.tag, p.image, p.names, 0)
    requires ColourApart(h) && (h.IsBC3() ==> AlphaApart(h))
    requires Texture(p.src) in p.names && Texture(p.result) in p.names && Texture(p.dst) in p.names
    requires Texture(p.copied) in p.names
    requires forall n :: n in p.names ==> n.id != 0 && n != Buffer(0)
    requires forall i, j :: 0 <= i < j < |p.names| ==> p.names[i] != p.names[j]
    ensures Shaped(p) && Distinct(p)
  {
  }

  lemma Build(h: Handles, dither: bool, s: State, p: Pipeline, made: seq<(Name, Kernel)>)
    requires made == Creations(h, dither) && AllFresh(s, made)
    requires p == Describe(h, dither, p.tag, p.image, NamesOf(made), 0) && p.names == NamesOf(made) && p.staging == 0
    ensures Built(p, made)
  {
    hide AllFresh, NamesOf, StageBuilt, Describe, Distinct, Shaped, ColourApart, AlphaApart, ColourCreations;
    hide AlphaCreations;
    Apart(s, ColourCreations(h, dither), AlphaCreations(h));
    ColourNames(h, dither, s);
    if h.IsBC3() {
      AlphaNames(h, dither, s);
    }
    NamesDiffer(s, made);
    StagesBuilt(h, dither, s, p, made);
    KeyTextures(h, dither, s, p, made);
    Apartness(h, dither, p);
  }

  lemma Started(h: Handles, dither: bool, s: State, tag: nat, image: int, made: seq<(Name, Kernel)>,
                params: seq<seq<int>>)
    requires AllFresh(s, made) && Owned(s, tag) == {} && |params| == if h.IsBC3() then 2 else 1
    requires made == Creations(h, dither)
    ensures var p := Describe(h, dither, tag, image, NamesOf(made), 0);
            var s' := SetContent(CreateAll(s, tag, made), Texture(h.src), Image(image));
            Ready(p, s') && Stays(s, s', tag) && Reached(p, s', 0, params)
  {
    hide AllFresh, Built, Ready, Reached, Stays, Owned, CreateAll, SetContent, Creations, NamesOf;
    var p := Describe(h, dither, tag, image, NamesOf(made), 0);
    Build(h, dither, s, p, made);
    InitReady(p, s, made, params);
  }

  /** All that is created is what the handles name. */
  lemma NamesHeld(h: Handles, dither: bool)
    ensures SetOf(NamesOf(Creations(h, dither)))
            == {Texture(h.src), Texture(h.bc1Target), Texture(h.dst), Buffer(h.tables), Shader(h.bc1Pso.shader),
                Program(h.bc1Pso.program)}
               + if h.IsBC3() then {Texture(h.bc4Target), Texture(h.stitched), Shader(h.bc4Pso.shader),
                                    Program(h.bc4Pso.program), Shader(h.stitchPso.shader),
                                    Program(h.stitchPso.program)} else {}
  {
    hide SetOf, NamesOf;
    NamesSplit(ColourCreations(h, dither), AlphaCreations(h));
    FewNames(ColourCreations(h, dither));
    FewNames(AlphaCreations(h));
  }

  // ---- deinitResources ----

  /** What deinitResources deletes, in order. */
  function Deletions(h: Handles, staging: nat): seq<Name> {
    TextureDeletions(h) + ProgramDeletions(h, staging)
  }

  function TextureDeletions(h: Handles): seq<Name> {
    [Texture(h.dst)] + Optional(h.stitched != 0, [Texture(h.stitched)]) + [Texture(h.bc1Target), Texture(h.src)]
  }

  function ProgramDeletions(h: Handles, staging: nat): seq<Name> {
    Optional(staging != 0, [Buffer(staging)]) + PsoNames(h.bc1Pso)
        + Optional(h.stitchPso.program != 0, PsoNames(h.stitchPso))
  }

  /** What it forgets: the tables, and the shader and target of the alpha channel. */
  function Leaked(h: Handles): seq<Name> {
    [Buffer(h.tables)] + Optional(h.IsBC3(), [Texture(h.bc4Target)] + PsoNames(h.bc4Pso))
  }

  lemma LeakedSize(h: Handles)
    ensures |SetOf(Leaked(h))| == if h.IsBC3() then 4 else 1
  {
    hide SetOf;
    SizeOfSet(Leaked(h));
  }

  lemma LeakedSet(h: Handles)
    ensures SetOf(Leaked(h))
            == {Buffer(h.tables)}
               + if h.bc4Target == 0 then {}
                 else {Texture(h.bc4Target), Shader(h.bc4Pso.shader), Program(h.bc4Pso.program)}
  {
  }

  lemma AlphaIsSet(h: Handles, dither: bool, s: State, p: Pipeline)
    requires Ready(p, s) && p.names == NamesOf(Creations(h, dither)) && h.Coherent()
    ensures h.dst != 0 && (h.IsBC3() <==> h.stitched != 0) && (h.IsBC3() <==> h.stitchPso.program != 0)
  {
    hide Owned, StageReady;
    assert p.names[2] == Texture(h.dst);
    if h.IsBC3() {
      assert p.names[7] == Texture(h.stitched) && p.names[11] == Program(h.stitchPso.program);
    }
    assert forall i :: 0 <= i < |p.names| ==> p.names[i] in p.names && p.names[i].id != 0;
  }

  /** After deinitResources exactly the forgotten names are left. */
  lemma SomeAreLeft(h: Handles, dither: bool, s: State, p: Pipeline)
    requires Ready(p, s) && p.names == NamesOf(Creations(h, dither)) && h.Coherent()
    ensures Splits(AllNames(p), Deletions(h, p.staging), Leaked(h))
  {
    hide Ready, Owned, NamesOf, Creations, Deletions, Leaked;
    AlphaIsSet(h, dither, s, p);
    SameNumber(h, dither, p.staging);
    SameMembers(h, dither, p, p.staging);
  }

  lemma AllDeleted(h: Handles, dither: bool, s: State, p: Pipeline)
    requires Ready(p, s) && p.names == NamesOf(Creations(h, dither)) && h.Coherent()
    ensures var s' := DeleteAll(s, Deletions(h, p.staging));
            Owned(s', p.tag) == SetOf(Leaked(h)) && Stays(s, s', p.tag)
  {
    hide Ready, DeleteAll, Owned, Stays, NamesOf, Creations, Deletions, Leaked, Splits;
    SomeAreLeft(h, dither, s, p);
    DeinitLeaves(p, s, Deletions(h, p.staging), Leaked(h));
  }

  lemma SameNumber(h: Handles, dither: bool, staging: nat)
    requires (h.IsBC3() <==> h.stitched != 0) && (h.IsBC3() <==> h.stitchPso.program != 0)
    ensures |Deletions(h, staging)| + |Leaked(h)| == |Creations(h, dither)| + if staging != 0 then 1 else 0
  {
  }

  lemma SameMembers(h: Handles, dither: bool, p: Pipeline, staging: nat)
    requires (h.IsBC3() <==> h.stitched != 0) && (h.IsBC3() <==> h.stitchPso.program != 0)
    requires p.names == NamesOf(Creations(h, dither))
    ensures forall n :: n in Deletions(h, staging) || n in Leaked(h) <==>
            n in p.names || (staging != 0 && n == Buffer(staging))
  {
    hide NamesOf;
    assert p.names == [Texture(h.src), Texture(h.bc1Target), Texture(h.dst), Buffer(h.tables),
                       Shader(h.bc1Pso.shader), Program(h.bc1Pso.program)]
                      + Optional(h.IsBC3(), [Texture(h.bc4Target), Texture(h.stitched), Shader(h.bc4Pso.shader),
                          Program(h.bc4Pso.program),
                                             Shader(h.stitchPso.shader), Program(h.stitchPso.program)]);
  }

  class Encoder {
    const tag: nat   // tells this encoder's GL objects from others'
    var src: nat
    var bc1Target: nat
    var bc4Target: nat
    var stitched: nat
    var dst: nat
    var tables: nat
    var staging: nat
    var bc1Pso: Pso
    var bc4Pso: Pso
    var stitchPso: Pso
    ghost var image: int
    ghost var dithers: bool
    ghost var names: seq<Name>

    constructor (tag: nat)
      ensures Blank() && this.tag == tag
    {
      this.tag := tag;
      src, bc1Target, bc4Target, stitched, dst, tables, staging := 0, 0, 0, 0, 0, 0, 0;
      bc1Pso, bc4Pso, stitchPso := NO_PSO, NO_PSO, NO_PSO;
    }

    /** As constructed. */
    ghost predicate Blank() reads this {
      H() == Handles(0, 0, 0, 0, NO_PSO, 0, 0, NO_PSO, NO_PSO) && staging == 0
    }

    ghost function H(): Handles reads this {
      Handles(src, bc1Target, dst, tables, bc1Pso, bc4Target, stitched, bc4Pso, stitchPso)
    }

    ghost function View(): Pipeline reads this { Describe(H(), dithers, tag, image, names, staging) }

    /** Two refinements for BC1; p_channelIdx and p_useSNorm for BC4. */
    ghost function Params(): seq<seq<int>> reads this {
      if bc4Target != 0 then [[2], [3, 0]] else [[2]]
    }

    ghost predicate Valid(s: State) reads this {
      Ready(View(), s) && names == NamesOf(Creations(H(), dithers)) && H().Coherent() && dst != 0
    }

    /** The textures, the tables and the shaders; made lists them. */
    method CreateResources(gl: Context, useBC3: bool, dither: bool) returns (ghost made: seq<(Name, Kernel)>)
      requires gl.Valid() && Blank()
      modifies this, gl
      ensures gl.Valid() && gl.s == CreateAll(old(gl.s), tag, made) && AllFresh(old(gl.s), made)
      ensures made == Creations(H(), dither) && H().IsBC3() == useBC3 && H().Coherent() && staging == 0 && dst != 0
    {
      hide Create, CreatePso, CreateAll, AllFresh, Context.Valid, ColourCreations;
      ghost var start := gl.s;
      made := CreateColour(gl, dither);
      ghost var front := made;
      if useBC3 {
        bc4Target := gl.CreateTexture(tag);
        made := Made(start, tag, made, Texture(bc4Target));
        stitched := gl.CreateTexture(tag);
        made := Made(start, tag, made, Texture(stitched));
        bc4Pso := gl.CreateComputePso(tag, Bc4);
        made := MadeProgram(start, tag, made, bc4Pso, Bc4);
        stitchPso := gl.CreateComputePso(tag, Stitch);
        made := MadeProgram(start, tag, made, stitchPso, Stitch);
      }
      assert made == front + AlphaCreations(H());
      ColourOnly(H(), H().(bc4Target := 0, stitched := 0, bc4Pso := NO_PSO, stitchPso := NO_PSO), dither);
    }

    method CreateColour(gl: Context, dither: bool) returns (ghost made: seq<(Name, Kernel)>)
      requires gl.Valid() && Blank()
      modifies gl, this`src, this`bc1Target, this`dst, this`tables, this`bc1Pso
      ensures gl.Valid() && gl.s == CreateAll(old(gl.s), tag, made) && AllFresh(old(gl.s), made)
      ensures made == ColourCreations(H(), dither) && dst != 0
    {
      hide Create, CreatePso, CreateAll, AllFresh, Context.Valid;
      ghost var start := gl.s;
      made := [];
      NoneMade(start, tag);
      src := gl.CreateTexture(tag);
      made := Made(start, tag, made, Texture(src));
      bc1Target := gl.CreateTexture(tag);
      made := Made(start, tag, made, Texture(bc1Target));
      dst := gl.CreateTexture(tag);
      made := Made(start, tag, made, Texture(dst));
      tables := gl.CreateBuffer(tag);
      made := Made(start, tag, made, Buffer(tables));
      bc1Pso := gl.CreateComputePso(tag, Compressor(dither));
      made := MadeProgram(start, tag, made, bc1Pso, Compressor(dither));
    }

    method InitResources(gl: Context, newImage: int, useBC3: bool, dither: bool)
      requires gl.Valid() && Blank() && Owned(gl.s, tag) == {}
      modifies this, gl
      ensures gl.Valid() && Valid(gl.s) && Stays(old(gl.s), gl.s, tag) && Reached(View(), gl.s, 0, Params())
      ensures AllFresh(old(gl.s), Creations(H(), dither))
      ensures Owned(gl.s, tag)
              == {Texture(src), Texture(bc1Target), Texture(dst), Buffer(tables), Shader(bc1Pso.shader),
                  Program(bc1Pso.program)}
                 + if useBC3 then {Texture(bc4Target), Texture(stitched), Shader(bc4Pso.shader),
                                   Program(bc4Pso.program), Shader(stitchPso.shader),
                                   Program(stitchPso.program)} else {}
      ensures gl.s == SetContent(CreateAll(old(gl.s), tag, Creations(H(), dither)), Texture(src), Image(newImage))
      ensures H().IsBC3() == useBC3 && dithers == dither && image == newImage && staging == 0
    {
      hide SetContent, Owned, CreateAll, AllFresh, Ready, Reached, Stays, Describe, Creations, Context.Valid, NamesOf;
      ghost var start := gl.s;
      ghost var made := CreateResources(gl, useBC3, dither);
      image := newImage;
      dithers := dither;
      gl.Upload(tag, newImage, src);
      names := NamesOf(made);
      Started(H(), dither, start, tag, newImage, made, Params());
      InitOwns(start, tag, made, src, newImage);
      NamesHeld(H(), dither);
    }

    method Execute01(gl: Context)
      requires gl.Valid() && Valid(gl.s)
      modifies gl
      ensures gl.Valid() && Valid(gl.s) && Stays(old(gl.s), gl.s, tag)
      ensures gl.s == Pipelines.Execute01(View(), old(gl.s), Params())
    {
      hide SetUniforms, Dispatch, Context.Valid, Settled, Ready, Stays, Owned, Creations;
      Execute01IsSafe(View(), gl.s, Params());
      gl.Bind(0, src);
      gl.BindComputePso(bc1Pso);
      gl.BindImage(0, bc1Target);
      gl.Uniform([2]);
      gl.DispatchCompute();
      if bc4Target != 0 {
        StillBound(old(gl.s), View().stages[0], [2]);
        gl.BindComputePso(bc4Pso);
        gl.BindImage(0, bc4Target);
        gl.Uniform([3, 0]);
        gl.DispatchCompute();
      }
    }

    method Execute02(gl: Context)
      requires gl.Valid() && Valid(gl.s)
      modifies gl
      ensures gl.Valid() && Valid(gl.s) && Stays(old(gl.s), gl.s, tag)
      ensures gl.s == Pipelines.Execute02(View(), old(gl.s))
    {
      hide SetUniforms, Dispatch, Context.Valid, Ready, Stays, Owned, Settled, Creations;
      Execute02IsSafe(View(), gl.s);
      PlainHaveNone(View(), gl.s);
      if bc4Target == 0 {
        return;
      }
      gl.MemoryBarrier({TextureFetch});
      gl.Bind(0, bc1Target);
      gl.Bind(1, bc4Target);
      gl.BindImage(0, stitched);
      gl.BindComputePso(stitchPso);
      NoUniforms(gl.s);
      gl.DispatchCompute();
    }

    method Execute03(gl: Context)
      requires gl.Valid() && Valid(gl.s)
      modifies gl
      ensures gl.Valid() && Valid(gl.s) && Stays(old(gl.s), gl.s, tag)
      ensures gl.s == Pipelines.Execute03(View(), old(gl.s))
    {
      hide Creations, Context.Valid, Copy, Barrier, Owned, StageReady, Ready, Stays, Settled;
      Execute03IsSafe(View(), gl.s);
      AlphaIsSet(H(), dithers, gl.s, View());
      gl.MemoryBarrier({TextureUpdate, ShaderImageAccess});
      gl.CopyImageSubData(if stitched != 0 then stitched else bc1Target, dst);
    }

    method StartDownload(gl: Context)
      requires gl.Valid() && Valid(gl.s)
      modifies gl, this`staging
      ensures gl.Valid() && Valid(gl.s) && Stays(old(gl.s), gl.s, tag) && staging != 0
      ensures Buffer(staging) !in Delete(old(gl.s), Buffer(old(staging))).objects
      ensures gl.s == Pipelines.StartDownload(old(View()), old(gl.s), staging)
    {
      hide Ready, Creations, Context.Valid, Delete, GetTexImage, Stays, Owned, Settled, Barrier, Create;
      ghost var start, p := gl.s, View();
      AlphaIsSet(H(), dithers, gl.s, View());
      BarrierThenDelete(gl.s, Buffer(staging));
      DeleteNothing(Barrier(gl.s, {PixelBuffer}), Buffer(0));
      gl.MemoryBarrier({PixelBuffer});
      if staging != 0 {
        gl.Destroy(Buffer(staging));
      }
      staging := gl.CreateBuffer(tag);
      gl.DownloadStagingTexture(if stitched != 0 then stitched else bc1Target, staging);
      DownloadIsSafe(p, start, staging);
    }

    /**
     The tables are never given back, nor are the target and the shader of the alpha channel.
     The fields of what is left keep their values.
     */
    method DeinitResources(gl: Context)
      requires gl.Valid() && Valid(gl.s)
      modifies this, gl
      ensures gl.Valid() && Owned(gl.s, tag) == SetOf(Leaked(old(H()))) && Stays(old(gl.s), gl.s, tag)
      ensures var alpha := if old(bc4Target) == 0 then {}
                           else {Texture(old(bc4Target)), Shader(old(bc4Pso).shader), Program(old(bc4Pso).program)};
              Owned(gl.s, tag) == {Buffer(old(tables))} + alpha
      ensures gl.s == DeleteAll(old(gl.s), Deletions(old(H()), staging))
      ensures H() == Handles(0, 0, 0, old(tables), NO_PSO, old(bc4Target), 0, old(bc4Pso), NO_PSO)
      ensures staging == old(staging)
    {
      hide Delete, DeletePso, DeleteAll, Ready, Context.Valid, Owned, Stays, Creations, Leaked, TextureDeletions;
      hide ProgramDeletions;
      ghost var start, p, h := gl.s, View(), H();
      AlphaIsSet(h, dithers, start, p);
      ghost var deleted := DeleteTextures(gl);
      SamePrograms(h, H(), staging);
      deleted := DeletePrograms(gl, start, deleted);
      assert deleted == Deletions(h, staging);
      AllDeleted(h, old(dithers), start, p);
      LeakedSet(h);
    }

    method DeletePrograms(gl: Context, ghost start: State, ghost before: seq<Name>) returns (ghost deleted: seq<Name>)
      requires gl.Valid() && gl.s == DeleteAll(start, before) && (stitchPso.program == 0 ==> stitchPso == NO_PSO)
      modifies gl, this`bc1Pso, this`stitchPso
      ensures gl.Valid() && gl.s == DeleteAll(start, deleted) && deleted == before + ProgramDeletions(old(H()), staging)
      ensures bc1Pso == stitchPso == NO_PSO
    {
      hide Delete, DeletePso, DeleteAll, Context.Valid;
      deleted := before;
      if staging != 0 {
        gl.Destroy(Buffer(staging));
        deleted := DeletedName(start, deleted, Buffer(staging));
      }
      deleted := DeletedPso(start, deleted, bc1Pso);
      bc1Pso := gl.DestroyPso(bc1Pso);
      if stitchPso.program != 0 {
        deleted := DeletedPso(start, deleted, stitchPso);
        stitchPso := gl.DestroyPso(stitchPso);
      }
    }

    method DeleteTextures(gl: Context) returns (ghost deleted: seq<Name>)
      requires gl.Valid() && dst != 0
      modifies gl, this`src, this`bc1Target, this`dst, this`stitched
      ensures gl.Valid() && gl.s == DeleteAll(old(gl.s), deleted) && src == bc1Target == dst == stitched == 0
      ensures deleted == TextureDeletions(old(H()))
    {
      hide Delete, DeletePso, DeleteAll, Context.Valid;
      ghost var start := gl.s;
      deleted := [];
      NoneDeleted(start);
      if dst != 0 {
        gl.Destroy(Texture(dst));
        deleted := DeletedName(start, deleted, Texture(dst));
        dst := 0;
      }
      if stitched != 0 {
        gl.Destroy(Texture(stitched));
        deleted := DeletedName(start, deleted, Texture(stitched));
        stitched := 0;
      }
      gl.Destroy(Texture(bc1Target));
      deleted := DeletedName(start, deleted, Texture(bc1Target));
      bc1Target := 0;
      gl.Destroy(Texture(src));
      deleted := DeletedName(start, deleted, Texture(src));
      src := 0;
    }
  }

  lemma SamePrograms(h: Handles, g: Handles, staging: nat)
    requires g.bc1Pso == h.bc1Pso && g.stitchPso == h.stitchPso
    ensures ProgramDeletions(g, staging) == ProgramDeletions(h, staging)
  {
  }

  lemma ColourOnly(h: Handles, g: Handles, dither: bool)
    requires g == h.(bc4Target := 0, stitched := 0, bc4Pso := NO_PSO, stitchPso := NO_PSO)
    ensures ColourCreations(g, dither) == ColourCreations(h, dither)
  {
  }
}
