/** The BC4 and BC5 encoder. */
module EncoderBC4 {
  import opened Gl
  import opened Lifetimes
  import opened Pipelines
  import opened TwoChannel

  class Encoder {
    const tag: nat   // tells this encoder's GL objects from others'
    var src: nat
    var targets: seq<nat>
    var stitched: nat
    var dst: nat
    var encodeSNorm: bool
    var staging: nat
    var bc4Pso: Pso
    var stitchPso: Pso
    ghost var image: int
    ghost var names: seq<Name>

    constructor (tag: nat)
      ensures Blank() && this.tag == tag
    {
      this.tag := tag;
      src, targets, stitched, dst, encodeSNorm, staging := 0, [0, 0], 0, 0, false, 0;
      bc4Pso, stitchPso := NO_PSO, NO_PSO;
    }

    /** As constructed. */
    ghost predicate Blank() reads this {
      src == 0 && targets == [0, 0] && stitched == 0 && dst == 0 && staging == 0 && bc4Pso == NO_PSO
          && stitchPso == NO_PSO
    }

    ghost function H(): Handles
      requires |targets| == 2
      reads this
    {
      Handles(src, targets[0], targets[1], bc4Pso, stitched, stitchPso, dst)
    }

    ghost function View(): Pipeline
      requires |targets| == 2
      reads this
    {
      Describe(Bc4, H(), tag, image, names, staging)
    }

    /** p_channelIdx and p_useSNorm of the passes. */
    ghost function Params(): seq<seq<int>>
      requires |targets| == 2
      reads this
    {
      var snorm := if encodeSNorm then 1 else 0;
      if targets[1] == 0 then [[0, snorm]] else [[0, snorm], [1, snorm]]
    }

    ghost predicate Valid(s: State) reads this {
      && |targets| == 2 && Ready(View(), s) && dst != 0
      && names == NamesOf(Creations(Bc4, H())) && H().Coherent()
    }

    /** The source and the targets of the channels, and their shader; made lists them. */
    method CreateChannels(gl: Context, redGreen: bool) returns (ghost made: seq<(Name, Kernel)>)
      requires gl.Valid() && Blank()
      modifies gl, this`src, this`targets, this`bc4Pso
      ensures gl.Valid() && gl.s == CreateAll(old(gl.s), tag, made) && AllFresh(old(gl.s), made)
      ensures |targets| == 2 && H().Two() == redGreen && made == ChannelCreations(Bc4, H())
    {
      hide Create, CreatePso, CreateAll, AllFresh, Context.Valid;
      ghost var start := gl.s;
      made := [];
      NoneMade(start, tag);
      src := gl.CreateTexture(tag);
      made := Made(start, tag, made, Texture(src));
      var target := gl.CreateTexture(tag);
      made := Made(start, tag, made, Texture(target));
      targets := targets[0 := target];
      if redGreen {
        target := gl.CreateTexture(tag);
        made := Made(start, tag, made, Texture(target));
        targets := targets[1 := target];
      }
      bc4Pso := gl.CreateComputePso(tag, Bc4);
      made := MadeProgram(start, tag, made, bc4Pso, Bc4);
    }

    /** The textures and shaders; made lists them. */
    method CreateResources(gl: Context, redGreen: bool) returns (ghost made: seq<(Name, Kernel)>)
      requires gl.Valid() && Blank()
      modifies this, gl
      ensures gl.Valid() && gl.s == CreateAll(old(gl.s), tag, made) && AllFresh(old(gl.s), made)
      ensures |targets| == 2 && made == Creations(Bc4, H())
      ensures H().Two() == redGreen && H().Coherent() && dst != 0
      ensures staging == 0
    {
      hide Create, CreatePso, CreateAll, AllFresh, Context.Valid, ChannelCreations;
      ghost var start := gl.s;
      made := CreateChannels(gl, redGreen);
      if redGreen {
        stitched := gl.CreateTexture(tag);
        made := Made(start, tag, made, Texture(stitched));
        stitchPso := gl.CreateComputePso(tag, Stitch);
        made := MadeProgram(start, tag, made, stitchPso, Stitch);
      }
      dst := gl.CreateTexture(tag);
      made := Made(start, tag, made, Texture(dst));
      ChannelsOnly(Bc4, H(), H().(stitched := 0, stitchPso := NO_PSO, dst := 0));
    }

    method InitResources(gl: Context, newImage: int, redGreen: bool, snorm: bool)
      requires gl.Valid() && Blank() && Owned(gl.s, tag) == {}
      modifies this, gl
      ensures gl.Valid() && Valid(gl.s) && Stays(old(gl.s), gl.s, tag) && Reached(View(), gl.s, 0, Params())
      ensures AllFresh(old(gl.s), Creations(Bc4, H()))
      ensures Owned(gl.s, tag)
              == {Texture(src), Texture(targets[0]), Shader(bc4Pso.shader), Program(bc4Pso.program), Texture(dst)}
                 + if redGreen then {Texture(targets[1]), Texture(stitched), Shader(stitchPso.shader),
                               Program(stitchPso.program)} else {}
      ensures gl.s == SetContent(CreateAll(old(gl.s), tag, Creations(Bc4, H())), Texture(src), Image(newImage))
      ensures H().Two() == redGreen && encodeSNorm == snorm && image == newImage && staging == 0
    {
      hide SetContent, Owned, CreateAll, AllFresh, Ready, Reached, Stays, Describe, Creations, Context.Valid;
      ghost var start := gl.s;
      ghost var made := CreateResources(gl, redGreen);
      encodeSNorm := snorm;
      image := newImage;
      gl.Upload(tag, newImage, src);
      names := NamesOf(made);
      Started(Bc4, start, H(), tag, newImage, made, Params());
      InitOwns(start, tag, made, src, newImage);
      NamesHeld(Bc4, H());
    }

    method Execute01(gl: Context)
      requires gl.Valid() && Valid(gl.s)
      modifies gl
      ensures gl.Valid() && Valid(gl.s) && Stays(old(gl.s), gl.s, tag)
      ensures gl.s == Pipelines.Execute01(View(), old(gl.s), Params())
    {
      hide SetUniforms, Dispatch, Settled, Context.Valid, Ready, Stays, Owned, Creations;
      Execute01IsSafe(View(), gl.s, Params());
      gl.Bind(0, src);
      gl.BindComputePso(bc4Pso);
      var numChannels := if targets[1] != 0 then 2 else 1;
      for i := 0 to numChannels
        invariant gl.Valid()
        invariant i == 0 ==> gl.s == UsePso(BindTexture(old(gl.s), 0, src), bc4Pso)
        invariant i == 1 ==> gl.s == Pass(old(gl.s), View().stages[0], Params()[0])
        invariant i == 2 ==> gl.s == Pass(Pass(old(gl.s), View().stages[0], Params()[0]), View().stages[1], Params()[1])
      {
        gl.BindImage(0, targets[i]);
        gl.Uniform([i, if encodeSNorm then 1 else 0]);
        gl.DispatchCompute();
        if i == 1 {
          StillBound(old(gl.s), View().stages[0], Params()[0]);
        }
      }
    }

    method Execute02(gl: Context)
      requires gl.Valid() && Valid(gl.s)
      modifies gl
      ensures gl.Valid() && Valid(gl.s) && Stays(old(gl.s), gl.s, tag)
      ensures gl.s == Pipelines.Execute02(View(), old(gl.s))
    {
      hide SetUniforms, Dispatch, Context.Valid, Ready, Stays, Owned, Settled, Creations;
      Execute02IsSafe(View(), gl.s);
      PlainHaveNone(View(), gl.s);
      if targets[1] == 0 {
        return;
      }
      gl.MemoryBarrier({TextureFetch});
      gl.Bind(0, targets[1]);
      gl.Bind(1, targets[0]);
      gl.BindImage(0, stitched);
      gl.BindComputePso(stitchPso);
      NoUniforms(gl.s);
      gl.DispatchCompute();
    }

    method Execute03(gl: Context)
      requires gl.Valid() && Valid(gl.s)
      modifies gl
      ensures gl.Valid() && Valid(gl.s) && Stays(old(gl.s), gl.s, tag)
      ensures gl.s == Pipelines.Execute03(View(), old(gl.s))
    {
      hide Ready, Stays, Owned, Settled, Creations, Context.Valid;
      Execute03IsSafe(View(), gl.s);
      gl.MemoryBarrier({TextureUpdate, ShaderImageAccess});
      gl.CopyImageSubData(if targets[1] != 0 then stitched else targets[0], dst);
    }

    method StartDownload(gl: Context)
      requires gl.Valid() && Valid(gl.s)
      modifies gl, this`staging
      ensures gl.Valid() && Valid(gl.s) && Stays(old(gl.s), gl.s, tag) && staging != 0
      ensures Buffer(staging) !in Delete(old(gl.s), Buffer(old(staging))).objects
      ensures gl.s == Pipelines.StartDownload(old(View()), old(gl.s), staging)
    {
      hide Ready, Creations, Context.Valid, Delete, Stays, Owned, Settled, GetTexImage, Barrier, Create;
      ghost var start, p := gl.s, View();
      BarrierThenDelete(gl.s, Buffer(staging));
      DeleteNothing(Barrier(gl.s, {PixelBuffer}), Buffer(0));
      gl.MemoryBarrier({PixelBuffer});
      if staging != 0 {
        gl.Destroy(Buffer(staging));
      }
      staging := gl.CreateBuffer(tag);
      gl.DownloadStagingTexture(if targets[1] != 0 then stitched else targets[0], staging);
      DownloadIsSafe(p, start, staging);
    }

    /** Gives everything back, each object once. The staging buffer's field keeps its value. */
    method DeinitResources(gl: Context)
      requires gl.Valid() && Valid(gl.s)
      modifies this, gl
      ensures gl.Valid() && Owned(gl.s, tag) == {} && Stays(old(gl.s), gl.s, tag)
      ensures gl.s == DeleteAll(old(gl.s), Deletions(old(H()), staging))
      ensures src == 0 && targets == [0, 0] && stitched == 0 && dst == 0 && bc4Pso == NO_PSO && stitchPso == NO_PSO
      ensures staging == old(staging)
    {
      hide Delete, DeletePso, DeleteAll, Ready, Context.Valid, Owned, Stays, Creations, TextureDeletions;
      ghost var start, p, h := gl.s, View(), H();
      FieldsAreSet(Bc4, start, p, h);
      ghost var deleted := DeleteTextures(gl);
      if staging != 0 {
        gl.Destroy(Buffer(staging));
        deleted := DeletedName(start, deleted, Buffer(staging));
      }
      deleted := DeletedPso(start, deleted, bc4Pso);
      bc4Pso := gl.DestroyPso(bc4Pso);
      if stitchPso.program != 0 {
        deleted := DeletedPso(start, deleted, stitchPso);
        stitchPso := gl.DestroyPso(stitchPso);
      }
      assert deleted == Deletions(h, staging);
      AllDeleted(Bc4, start, p, h);
    }

    method DeleteTextures(gl: Context) returns (ghost deleted: seq<Name>)
      requires gl.Valid() && |targets| == 2 && dst != 0 && targets[0] != 0 && src != 0
      requires (targets[1] != 0 <==> stitched != 0)
      modifies gl, this`dst, this`stitched, this`targets, this`src
      ensures gl.Valid() && gl.s == DeleteAll(old(gl.s), deleted) && src == 0 && targets == [0, 0] && stitched == 0
      ensures dst == 0
      ensures deleted == TextureDeletions(old(H()))
    {
      hide Delete, DeletePso, DeleteAll, Context.Valid;
      ghost var start := gl.s;
      deleted := [];
      NoneDeleted(start);
      if dst != 0 {
        gl.Destroy(Texture(dst));
        deleted := DeletedName(start, deleted, Texture(dst));
        dst := 0;
      }
      if stitched != 0 {
        gl.Destroy(Texture(stitched));
        deleted := DeletedName(start, deleted, Texture(stitched));
        stitched := 0;
      }
      ghost var some := deleted;
      assert some == [Texture(old(dst))] + if old(stitched) != 0 then [Texture(old(stitched))] else [];
      for i := 0 to 2
        invariant gl.Valid() && gl.s == DeleteAll(start, deleted) && |targets| == 2
        invariant src == old(src) && stitched == 0 && dst == 0
        invariant forall j :: i <= j < 2 ==> targets[j] == old(targets[j])
        invariant forall j :: 0 <= j < i ==> targets[j] == 0
        invariant deleted == some + (if i > 0 then [Texture(old(targets[0]))] else [])
                                  + (if i > 1 && old(targets[1]) != 0 then [Texture(old(targets[1]))] else [])
      {
        if targets[i] != 0 {
          gl.Destroy(Texture(targets[i]));
          deleted := DeletedName(start, deleted, Texture(targets[i]));
          targets := targets[i := 0];
        }
      }
      gl.Destroy(Texture(src));
      deleted := DeletedName(start, deleted, Texture(src));
      src := 0;
    }
  }
}
