/**
 The cases of main's switch: an encoder is initialised with the source image, driven, its
 result is downloaded, and it is destroyed.
 */
module Runs {
  import opened Driver
  import opened Gl
  import opened Interleaving
  import opened Lifetimes
  import opened Pipelines
  import EncoderBC1
  import EncoderBC4
  import EncoderEAC
  import EncoderETC1
  import TwoChannel

  /** The second channel is the first input of the stitching. */
  lemma WantedOfTwo(kernel: Kernel, h: TwoChannel.Handles, p: Pipeline, s: State, a: seq<int>, b: seq<int>)
    requires p == TwoChannel.Describe(kernel, h, p.tag, p.image, p.names, p.staging) && Ready(p, s)
    ensures h.Two() ==>
              Wanted(p, [a, b])
              == Computed(Stitch, [], [Computed(kernel, b, [Image(p.image)]), Computed(kernel, a, [Image(p.image)])])
    ensures !h.Two() ==> Wanted(p, [a]) == Computed(kernel, a, [Image(p.image)])
    ensures Downloads(p) && Copies(p) && (h.Two() ==> CopyContent(p, [a, b]) == Wanted(p, [a, b]))
    ensures !h.Two() ==> CopyContent(p, [a]) == Wanted(p, [a])
  {
    hide Owned, NameSet, StageReady;
  }

  /** bc4, bc4_snorm, bc5 and bc5_snorm. */
  method RunBC4(gl: Context, tag: nat, image: int, redGreen: bool, snorm: bool, usingRenderDoc: bool)
    returns (out: Content, ghost copied: Content)
    requires gl.Valid() && Owned(gl.s, tag) == {}
    modifies gl
    ensures gl.Valid() && gl.s.objects == old(gl.s.objects) && Faultless(old(gl.s), gl.s)
    ensures var sign := if snorm then 1 else 0;
            var red, green := Computed(Bc4, [0, sign], [Image(image)]), Computed(Bc4, [1, sign], [Image(image)]);
            var result := if redGreen then Computed(Stitch, [], [green, red]) else red;
            && out == (if usingRenderDoc || old(gl.s.ordered) then result else Undefined)
            && (usingRenderDoc ==> copied == result)
  {
    hide Wanted, CopyContent, Copies, Downloads;
    hide Owned, Settled, Reached, Stays, NameSet, Turns, StartDownload, Delete, Context.Valid;
    hide CreateAll, DeleteAll, SetContent, AllFresh, TwoChannel.Creations, TwoChannel.Deletions;
    var encoder := new EncoderBC4.Encoder(tag);
    ghost var before := gl.s;
    encoder.InitResources(gl, image, redGreen, snorm);
    ghost var start, p, params := gl.s, encoder.View(), encoder.Params();
    WantedOfTwo(Bc4, encoder.H(), p, start, [0, if snorm then 1 else 0], [1, if snorm then 1 else 0]);
    DriveBC4(gl, encoder, usingRenderDoc);
    copied := ContentOf(gl.s, Texture(encoder.dst));
    if usingRenderDoc {
      CopyAtEnd(p, start, params, params, 2);
    }
    encoder.StartDownload(gl);
    DownloadAtEnd(p, start, params, usingRenderDoc, if usingRenderDoc then 2 else 1, encoder.staging);
    out := ContentOf(gl.s, Buffer(encoder.staging));
    ghost var done := gl.s;
    encoder.DeinitResources(gl);
    NothingRemains(before, start, done, gl.s, tag);
  }

  method DriveBC4(gl: Context, encoder: EncoderBC4.Encoder, usingRenderDoc: bool)
    requires gl.Valid() && encoder.Valid(gl.s) && Reached(encoder.View(), gl.s, 0, encoder.Params())
    modifies gl
    ensures gl.Valid() && encoder.Valid(gl.s)
    ensures gl.s == Turns(encoder.View(), old(gl.s), encoder.Params(), usingRenderDoc, if usingRenderDoc then 2 else 1)
  {
    hide Pipelines.Execute01, Pipelines.Execute02, Pipelines.Execute03;
    hide Owned, Settled, Reached, Stays, NameSet, Turns, Context.Valid;
    ghost var start, p, params := gl.s, encoder.View(), encoder.Params();
    var repeat := if usingRenderDoc then 2 else 1;
    ghost var turns: nat := 0;
    FirstTurn(p, start, params, usingRenderDoc);
    while repeat > 0
      invariant turns + repeat == (if usingRenderDoc then 2 else 1) && gl.Valid() && encoder.Valid(gl.s)
      invariant gl.s == Turns(p, start, params, usingRenderDoc, turns)
      invariant Reached(p, gl.s, if turns == 0 then 0 else 3, params)
    {
      repeat := repeat - 1;
      ghost var level := if turns == 0 then 0 else 3;
      Midway(p, gl.s, level, params);
      TurnFinishes(p, gl.s, level, params, params, usingRenderDoc);
      OneMoreTurn(p, start, params, usingRenderDoc, turns);
      encoder.Execute01(gl);
      encoder.Execute02(gl);
      if usingRenderDoc {
        encoder.Execute03(gl);
      }
      turns := turns + 1;
    }
  }

  /** eac_r11 and eac_rg11: execute03 does not exist and nothing is repeated. */
  method RunEAC(gl: Context, tag: nat, image: int, rg11: bool) returns (out: Content)
    requires gl.Valid() && Owned(gl.s, tag) == {}
    modifies gl
    ensures gl.Valid() && gl.s.objects == old(gl.s.objects) && Faultless(old(gl.s), gl.s)
    ensures out == if !old(gl.s.ordered) then Undefined
                   else
                     var r, g := Computed(EacR11, [0], [Image(image)]), Computed(EacR11, [1], [Image(image)]);
                     if rg11 then Computed(Stitch, [], [g, r]) else r
  {
    hide Wanted;
    hide Owned, Settled, Reached, Stays, NameSet, Turns, StartDownload, Delete, Context.Valid;
    hide Pipelines.Execute01, Pipelines.Execute02;
    hide CreateAll, DeleteAll, SetContent, AllFresh, TwoChannel.Creations, TwoChannel.Deletions;
    var encoder := new EncoderEAC.Encoder(tag);
    ghost var before := gl.s;
    encoder.InitResources(gl, image, rg11);
    ghost var start, p, params := gl.s, encoder.View(), encoder.Params();
    WantedOfTwo(EacR11, encoder.H(), p, start, [0], [1]);
    Midway(p, start, 0, params);
    FirstTurn(p, start, params, false);
    OneMoreTurn(p, start, params, false, 0);
    encoder.Execute01(gl);
    encoder.Execute02(gl);
    encoder.StartDownload(gl);
    DownloadAtEnd(p, start, params, false, 1, encoder.staging);
    out := ContentOf(gl.s, Buffer(encoder.staging));
    ghost var done := gl.s;
    encoder.DeinitResources(gl);
    NothingRemains(before, start, done, gl.s, tag);
  }

  lemma WantedOfETC1(h: EncoderETC1.Handles, p: Pipeline, s: State, effort: seq<int>)
    requires p == EncoderETC1.Describe(h, p.tag, p.image, p.names, p.staging) && Ready(p, s)
    ensures var source := if h.Dithers() then Computed(Dither555, [], [Image(p.image)]) else Image(p.image);
            var colour := Computed(Etc1, effort, [source]);
            if h.HasAlpha() then Wanted(p, [effort, []])
                == Computed(Stitch, [], [colour, Computed(Eac, [], [Image(p.image)])])
            else Wanted(p, [effort]) == colour
    ensures var source := if h.Dithers() then Computed(Dither555, [], [Image(p.image)]) else Image(p.image);
            && Downloads(p) && Copies(p)
            && CopyContent(p, if h.HasAlpha() then [effort, []] else [effort]) == Computed(Etc1, effort, [source])
  {
    hide Owned, NameSet, StageReady;
  }

  /**
   etc1 and etc2_rgba_etc1. Only the colours are dithered, and only they are copied by execute03. The
   uniforms are quality, scanDeltaAbsMin, scanDeltaAbsMax and maxRefinementTrials; 2 is the best quality.
   */
  method RunETC1(gl: Context, tag: nat, image: int, compressAlpha: bool, dither: bool, quality: nat,
                 usingRenderDoc: bool)
    returns (out: Content, ghost copied: Content)
    requires gl.Valid() && Owned(gl.s, tag) == {}
    modifies gl
    ensures gl.Valid() && gl.s.objects == old(gl.s.objects) && Faultless(old(gl.s), gl.s)
    ensures var source := if dither then Computed(Dither555, [], [Image(image)]) else Image(image);
            var effort := if quality == 0 then [0, 0, 0, 2] else if quality == 1 then [1, 0, 1, 4]
                          else if quality == 2 then [2, 0, 4, 4] else [quality, 0, 0, 4];
            var colour, alpha := Computed(Etc1, effort, [source]), Computed(Eac, [], [Image(image)]);
            var result := if compressAlpha then Computed(Stitch, [], [colour, alpha]) else colour;
            && out == (if usingRenderDoc || old(gl.s.ordered) then result else Undefined)
            && (usingRenderDoc ==> copied == colour)
  {
    hide Wanted, CopyContent, Copies, Downloads;
    hide Owned, Settled, Reached, Stays, NameSet, Turns, StartDownload, Delete, Context.Valid;
    hide CreateAll, DeleteAll, SetContent, AllFresh, EncoderETC1.Creations, EncoderETC1.Deletions;
    var encoder := new EncoderETC1.Encoder(tag);
    ghost var before := gl.s;
    encoder.InitResources(gl, image, compressAlpha, dither);
    ghost var start, p, params := gl.s, encoder.View(), encoder.Params(quality);
    WantedOfETC1(encoder.H(), p, start, EncoderETC1.Effort(quality));
    AtStart(p, start, encoder.Params(0), params);
    DriveETC1(gl, encoder, quality, usingRenderDoc);
    copied := ContentOf(gl.s, Texture(encoder.dst));
    if usingRenderDoc {
      CopyAtEnd(p, start, params, params, 2);
    }
    encoder.StartDownload(gl);
    DownloadAtEnd(p, start, params, usingRenderDoc, if usingRenderDoc then 2 else 1, encoder.staging);
    out := ContentOf(gl.s, Buffer(encoder.staging));
    ghost var done := gl.s;
    encoder.DeinitResources(gl);
    NothingRemains(before, start, done, gl.s, tag);
  }

  method DriveETC1(gl: Context, encoder: EncoderETC1.Encoder, quality: nat, usingRenderDoc: bool)
    requires gl.Valid() && encoder.Valid(gl.s) && Reached(encoder.View(), gl.s, 0, encoder.Params(quality))
    modifies gl
    ensures gl.Valid() && encoder.Valid(gl.s)
    ensures gl.s == Turns(encoder.View(), old(gl.s), encoder.Params(quality), usingRenderDoc,
                          if usingRenderDoc then 2 else 1)
  {
    hide Pipelines.Execute00, Pipelines.Execute01, Pipelines.Execute02, Pipelines.Execute03;
    hide Owned, Settled, Reached, Stays, NameSet, Turns, Context.Valid;
    ghost var start, p, params := gl.s, encoder.View(), encoder.Params(quality);
    var repeat := if usingRenderDoc then 2 else 1;
    ghost var turns: nat := 0;
    FirstTurn(p, start, params, usingRenderDoc);
    while repeat > 0
      invariant turns + repeat == (if usingRenderDoc then 2 else 1) && gl.Valid() && encoder.Valid(gl.s)
      invariant gl.s == Turns(p, start, params, usingRenderDoc, turns)
      invariant Reached(p, gl.s, if turns == 0 then 0 else 3, params)
    {
      repeat := repeat - 1;
      ghost var level := if turns == 0 then 0 else 3;
      Midway(p, gl.s, level, params);
      TurnFinishes(p, gl.s, level, params, params, usingRenderDoc);
      OneMoreTurn(p, start, params, usingRenderDoc, turns);
      encoder.Execute00(gl);
      encoder.Execute01(gl, quality);
      encoder.Execute02(gl);
      if usingRenderDoc {
        encoder.Execute03(gl);
      }
      turns := turns + 1;
    }
  }

  lemma WantedOfBC1(h: EncoderBC1.Handles, dither: bool, p: Pipeline, s: State)
    requires p == EncoderBC1.Describe(h, dither, p.tag, p.image, p.names, p.staging) && Ready(p, s)
    ensures var colour := Computed(if dither then Bc1Dither else Bc1, [2], [Image(p.image)]);
            if h.IsBC3() then Wanted(p, [[2], [3, 0]])
                == Computed(Stitch, [], [colour, Computed(Bc4, [3, 0], [Image(p.image)])])
            else Wanted(p, [[2]]) == colour
    ensures Copies(p) && (h.IsBC3() ==> CopyContent(p, [[2], [3, 0]]) == Wanted(p, [[2], [3, 0]]))
    ensures !h.IsBC3() ==> CopyContent(p, [[2]]) == Wanted(p, [[2]])
  {
    hide Owned, NameSet, StageReady;
  }

  /** bc1 and bc3: each run leaves an object behind, or four. */
  method RunBC1(gl: Context, tag: nat, image: int, useBC3: bool, dither: bool, usingRenderDoc: bool)
    returns (out: Content, ghost copied: Content, ghost left: set<Name>)
    requires gl.Valid() && Owned(gl.s, tag) == {}
    modifies gl
    ensures gl.Valid() && Faultless(old(gl.s), gl.s)
    ensures Others(gl.s, tag) == old(gl.s.objects) && Owned(gl.s, tag) == left && |left| == if useBC3 then 4 else 1
    ensures var colour := Computed(if dither then Bc1Dither else Bc1, [2], [Image(image)]);
            var result := if useBC3 then Computed(Stitch, [], [colour, Computed(Bc4, [3, 0], [Image(image)])])
                          else colour;
            && out == (if usingRenderDoc || old(gl.s.ordered) then result else Undefined)
            && (usingRenderDoc ==> copied == result)
  {
    hide Owned, Settled, Reached, Stays, NameSet, Turns, StartDownload, Delete, Context.Valid, Wanted, CopyContent;
    hide SetOf;
    hide CreateAll, DeleteAll, SetContent, AllFresh, EncoderBC1.Creations, EncoderBC1.Deletions;
    var encoder := new EncoderBC1.Encoder(tag);
    ghost var before := gl.s;
    encoder.InitResources(gl, image, useBC3, dither);
    ghost var start, p, params, h := gl.s, encoder.View(), encoder.Params(), encoder.H();
    WantedOfBC1(h, dither, p, start);
    DriveBC1(gl, encoder, usingRenderDoc);
    copied := ContentOf(gl.s, Texture(encoder.dst));
    if usingRenderDoc {
      CopyAtEnd(p, start, params, params, 2);
    }
    encoder.StartDownload(gl);
    DownloadAtEnd(p, start, params, usingRenderDoc, if usingRenderDoc then 2 else 1, encoder.staging);
    out := ContentOf(gl.s, Buffer(encoder.staging));
    ghost var done := gl.s;
    encoder.DeinitResources(gl);
    left := SetOf(EncoderBC1.Leaked(h));
    OthersRemain(before, start, done, gl.s, tag);
    EncoderBC1.LeakedSize(h);
  }

  method DriveBC1(gl: Context, encoder: EncoderBC1.Encoder, usingRenderDoc: bool)
    requires gl.Valid() && encoder.Valid(gl.s) && Reached(encoder.View(), gl.s, 0, encoder.Params())
    modifies gl
    ensures gl.Valid() && encoder.Valid(gl.s)
    ensures gl.s == Turns(encoder.View(), old(gl.s), encoder.Params(), usingRenderDoc, if usingRenderDoc then 2 else 1)
  {
    hide Pipelines.Execute01, Pipelines.Execute02, Pipelines.Execute03;
    hide Owned, Settled, Reached, Stays, NameSet, Turns, Context.Valid;
    ghost var start, p, params := gl.s, encoder.View(), encoder.Params();
    var repeat := if usingRenderDoc then 2 else 1;
    ghost var turns: nat := 0;
    FirstTurn(p, start, params, usingRenderDoc);
    while repeat > 0
      invariant turns + repeat == (if usingRenderDoc then 2 else 1) && gl.Valid() && encoder.Valid(gl.s)
      invariant gl.s == Turns(p, start, params, usingRenderDoc, turns)
      invariant Reached(p, gl.s, if turns == 0 then 0 else 3, params)
    {
      repeat := repeat - 1;
      ghost var level := if turns == 0 then 0 else 3;
      Midway(p, gl.s, level, params);
      TurnFinishes(p, gl.s, level, params, params, usingRenderDoc);
      OneMoreTurn(p, start, params, usingRenderDoc, turns);
      encoder.Execute01(gl);
      encoder.Execute02(gl);
      if usingRenderDoc {
        encoder.Execute03(gl);
      }
      turns := turns + 1;
    }
  }
}
