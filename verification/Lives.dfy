/**
 Whole lives of the encoders: a fresh object, one initResources, any sequence of execute and
 startDownload calls, one deinitResources. Each is a run of the calls that Fleets is about.
 */
module Lives {
  import opened Driver
  import opened Fleets
  import opened Gl
  import opened Interleaving
  import opened Lifetimes
  import opened Pipelines
  import EncoderBC1
  import EncoderBC4
  import EncoderEAC
  import EncoderETC1
  import TwoChannel

  /** The calls between the first and the last; only some encoders have execute00 or execute03. */
  datatype Use = Use00 | Use01(quality: nat) | Use02 | Use03 | UseDownload

  /** What any step of the encoder tag leaves alone. */
  ghost predicate Discreet(s: State, s': State, tag: nat) {
    Others(s', tag) == Others(s, tag) && Faultless(s, s')
  }

  lemma Stayed(s: State, mid: State, s': State, tag: nat)
    requires Discreet(s, mid, tag) && Stays(mid, s', tag)
    ensures Discreet(s, s', tag)
  {
    hide Others, Owned;
  }

  lemma NothingYet(s: State, tag: nat)
    ensures Discreet(s, s, tag)
  {
  }

  lemma DiscreetMeans(s: State, s': State, tag: nat)
    requires Discreet(s, s', tag)
    ensures Others(s', tag) == Others(s, tag) && Faultless(s, s')
  {
  }

  // ---- the same life, as calls among those of other encoders ----

  ghost predicate SameCall(use: Use, own: Own, tag: nat) {
    match use
    case Use00 => own == Own00(tag)
    case Use01(quality) => own == Own01(tag, quality)
    case Use02 => own == Own02(tag)
    case Use03 => own == Own03(tag)
    case UseDownload => own.Fetch? && own.tag == tag
  }

  /** The first call, then those of uses, in order. */
  ghost predicate Spells(owns: seq<Own>, tag: nat, image: int, kind: Kind, uses: seq<Use>) {
    && |owns| == |uses| + 1 && owns[0] == Begin(tag, image, kind)
    && forall i :: 0 <= i < |uses| ==> SameCall(uses[i], owns[i + 1], tag)
  }

  ghost predicate WholeLife(owns: seq<Own>, tag: nat, image: int, kind: Kind, uses: seq<Use>) {
    owns != [] && owns[|owns| - 1] == End(tag) && Spells(owns[..|owns| - 1], tag, image, kind, uses)
  }

  lemma SpellsFirst(tag: nat, image: int, kind: Kind, uses: seq<Use>)
    ensures Spells([Begin(tag, image, kind)], tag, image, kind, uses[..0])
  {
  }

  lemma SpellsOn(owns: seq<Own>, tag: nat, image: int, kind: Kind, uses: seq<Use>, i: nat, own: Own)
    requires i < |uses| && Spells(owns, tag, image, kind, uses[..i]) && SameCall(uses[i], own, tag)
    ensures Spells(owns + [own], tag, image, kind, uses[..i + 1])
  {
    hide SameCall;
  }

  lemma LifeIsWhole(owns: seq<Own>, tag: nat, image: int, kind: Kind, uses: seq<Use>)
    requires Spells(owns, tag, image, kind, uses[..|uses|])
    ensures WholeLife(owns + [End(tag)], tag, image, kind, uses)
  {
    hide SameCall;
    assert uses[..|uses|] == uses;
    assert (owns + [End(tag)])[..|owns|] == owns;
  }

  /** From s on, the calls lead to s'. */
  ghost predicate Leads(s: State, owns: seq<Own>, s': State) {
    exists w :: Plays(World(s, map[], {}), map[], owns, w) && w.s == s'
  }

  /** As far as the first uses, the calls lead to w, where the encoder is p and the state is s. */
  ghost predicate Tracks(start: State, owns: seq<Own>, w: World, tag: nat, kind: Kind, p: Pipeline, s: State) {
    && Plays(World(start, map[], {}), map[], owns, w) && After(map[], owns) == map[tag := kind]
    && Inv(w, start.objects) && Manned(w, map[tag := kind])
    && w.s == s && tag in w.active && w.active[tag].p == p
  }

  lemma StillShaped(p: Pipeline, s: State)
    requires Ready(p, s)
    ensures Shaped(p)
  {
  }

  lemma EmptyWorld(start: State)
    ensures Inv(World(start, map[], {}), start.objects) && Manned(World(start, map[], {}), map[])
  {
  }

  lemma Begins(start: State, tag: nat, image: int, kind: Kind, p: Pipeline, s: State) returns (w: World)
    requires Owned(start, tag) == {} && kind.Proper() && AllFresh(start, kind.Made())
    requires p == kind.Plan(tag, image, NamesOf(kind.Made()), 0) && p.src == kind.Source()
    requires s == SetContent(CreateAll(start, tag, kind.Made()), Texture(kind.Source()), Image(image))
    ensures Tracks(start, [Begin(tag, image, kind)], w, tag, kind, p, s)
  {
    hide Inv, Manned, Plays, Owned, AllFresh, Kind.Proper, Kind.Made, Kind.Plan, Kind.Source, NamesOf, SetContent;
    hide CreateAll, Allowed;
    var none, own: Own := World(start, map[], {}), Begin(tag, image, kind);
    EmptyWorld(start);
    NoneYet(none, map[]);
    assert Fresh(none, map[], own);
    OneMoreOwn(none, start.objects, map[], [], own, none);
    CallKeepsFleet(none, start.objects, map[], own);
    PlanWithStaging(kind, tag, image, NamesOf(kind.Made()), 0, 0);
    assert [] + [own] == [own];
    w := Perform(none, ToCall(none, map[], own));
  }

  /** What a call does to the encoder p and the state s. */
  ghost predicate Did(kind: Kind, own: Own, tag: nat, p: Pipeline, s: State, p': Pipeline, s': State) {
    && Shaped(p)
    && match own
       case Own00(t) => t == tag && p' == p && s' == Execute00(p, s)
       case Own01(t, quality) =>
         && t == tag && p' == p && |kind.Params(quality)| == |p.stages|
         && s' == Execute01(p, s, kind.Params(quality))
       case Own02(t) => t == tag && p' == p && s' == Execute02(p, s)
       case Own03(t) => t == tag && p' == p && s' == Execute03(p, s) && kind.HasCopy()
       case Fetch(t, buffer) =>
         && t == tag && buffer != 0 && Buffer(buffer) !in Delete(s, Buffer(p.staging)).objects
         && p' == p.(staging := buffer) && s' == StartDownload(p, s, buffer)
       case _ => false
  }

  /** What a call of a class does is what the call of the interleaving does. */
  lemma Continues(start: State, owns: seq<Own>, w: World, tag: nat, kind: Kind, p: Pipeline, s: State, own: Own,
                  p': Pipeline, s': State)
    returns (w': World)
    requires Tracks(start, owns, w, tag, kind, p, s)
    requires Did(kind, own, tag, p, s, p', s')
    ensures Tracks(start, owns + [own], w', tag, kind, p', s')
  {
    hide Inv, Manned, Plays, Owned, AllFresh, Kind.Proper, Kind.Made, Kind.Plan, Kind.Params, NamesOf, After;
    hide Execute00, Execute01, Execute02, Execute03, StartDownload, Delete, Allowed, Kind.HasCopy, Kind.Deletes;
    var fleet := map[tag := kind];
    assert Fresh(w, fleet, own);
    EmptyWorld(start);
    OneMoreOwn(World(start, map[], {}), start.objects, map[], owns, own, w);
    CallKeepsFleet(w, start.objects, fleet, own);
    w' := Perform(w, ToCall(w, fleet, own));
  }

  lemma Ends(start: State, owns: seq<Own>, w: World, tag: nat, kind: Kind, p: Pipeline, s: State, s': State)
    requires Tracks(start, owns, w, tag, kind, p, s) && s' == DeleteAll(s, kind.Deletes(p.staging))
    ensures Leads(start, owns + [End(tag)], s')
  {
    hide Inv, Manned, Plays, Owned, AllFresh, Kind.Proper, Kind.Made, Kind.Plan, Kind.Params, NamesOf, After;
    hide DeleteAll, Delete, Allowed, Kind.HasCopy, Kind.Deletes;
    var fleet, own := map[tag := kind], End(tag);
    assert Fresh(w, fleet, own);
    EmptyWorld(start);
    OneMoreOwn(World(start, map[], {}), start.objects, map[], owns, own, w);
    CallKeepsFleet(w, start.objects, fleet, own);
  }

  method UseBC4(gl: Context, encoder: EncoderBC4.Encoder, use: Use, ghost kind: Kind) returns (ghost own: Own)
    requires gl.Valid() && encoder.Valid(gl.s) && !use.Use00?
    requires kind == OfTwo(Bc4, encoder.encodeSNorm, encoder.H())
    modifies gl, encoder`staging
    ensures gl.Valid() && encoder.Valid(gl.s) && Stays(old(gl.s), gl.s, encoder.tag)
    ensures SameCall(use, own, encoder.tag)
    ensures Did(kind, own, encoder.tag, old(encoder.View()), old(gl.s), encoder.View(), gl.s)
  {
    hide Ready, Settled, Stays, Context.Valid, Pipelines.StartDownload, Delete, TwoChannel.Creations;
    hide TwoChannel.Deletions, NamesOf;
    hide Pipelines.Execute00, Pipelines.Execute01, Pipelines.Execute02, Pipelines.Execute03;
    StillShaped(encoder.View(), gl.s);
    match use {
      case Use01(quality) =>
        encoder.Execute01(gl);
        own := Own01(encoder.tag, quality);
      case Use02 =>
        encoder.Execute02(gl);
        own := Own02(encoder.tag);
      case Use03 =>
        encoder.Execute03(gl);
        own := Own03(encoder.tag);
      case UseDownload =>
        encoder.StartDownload(gl);
        own := Fetch(encoder.tag, encoder.staging);
    }
  }

  /** BC4 and BC5 leave nothing behind. */
  method LiveBC4(gl: Context, tag: nat, image: int, redGreen: bool, snorm: bool, uses: seq<Use>)
    returns (ghost owns: seq<Own>, ghost kind: Kind)
    requires gl.Valid() && Owned(gl.s, tag) == {}
    requires forall use :: use in uses ==> !use.Use00?
    modifies gl
    ensures gl.Valid() && gl.s.objects == old(gl.s.objects) && Faultless(old(gl.s), gl.s)
    ensures WholeLife(owns, tag, image, kind, uses) && Leads(old(gl.s), owns, gl.s)
    ensures kind.OfTwo? && kind.kernel == Bc4 && kind.snorm == snorm && kind.two.Two() == redGreen && kind.two.dst != 0
  {
    hide Tracks, Spells, WholeLife, Leads, Inv, Manned, Plays, Did, SameCall, TwoChannel.Creations;
    hide TwoChannel.Deletions;
    hide Owned, Others, Ready, Settled, Reached, Stays, Discreet, Context.Valid;
    hide CreateAll, DeleteAll, SetContent, AllFresh, NamesOf, Pipelines.StartDownload, Delete;
    hide Pipelines.Execute00, Pipelines.Execute01, Pipelines.Execute02, Pipelines.Execute03;
    var encoder := new EncoderBC4.Encoder(tag);
    ghost var start := gl.s;
    NothingYet(start, tag);
    encoder.InitResources(gl, image, redGreen, snorm);
    Stayed(start, start, gl.s, tag);
    kind := OfTwo(Bc4, snorm, encoder.H());
    owns := [Begin(tag, image, kind)];
    SpellsFirst(tag, image, kind, uses);
    ghost var w := Begins(start, tag, image, kind, encoder.View(), gl.s);
    for i := 0 to |uses|
      invariant gl.Valid() && encoder.Valid(gl.s) && Discreet(start, gl.s, tag)
      invariant kind == OfTwo(Bc4, snorm, encoder.H()) && encoder.encodeSNorm == snorm
      invariant Spells(owns, tag, image, kind, uses[..i])
      invariant Tracks(start, owns, w, tag, kind, encoder.View(), gl.s)
    {
      ghost var before, p := gl.s, encoder.View();
      assert uses[i] in uses;
      ghost var own := UseBC4(gl, encoder, uses[i], kind);
      Stayed(start, before, gl.s, tag);
      w := Continues(start, owns, w, tag, kind, p, before, own, encoder.View(), gl.s);
      SpellsOn(owns, tag, image, kind, uses, i, own);
      owns := owns + [own];
    }
    ghost var before, last := gl.s, encoder.View();
    encoder.DeinitResources(gl);
    Stayed(start, before, gl.s, tag);
    OnlyOthers(start, tag);
    DiscreetMeans(start, gl.s, tag);
    OnlyOthers(gl.s, tag);
    Ends(start, owns, w, tag, kind, last, before, gl.s);
    LifeIsWhole(owns, tag, image, kind, uses);
    owns := owns + [End(tag)];
  }

  method UseEAC(gl: Context, encoder: EncoderEAC.Encoder, use: Use, ghost kind: Kind) returns (ghost own: Own)
    requires gl.Valid() && encoder.Valid(gl.s) && !use.Use00? && !use.Use03?
    requires kind == OfTwo(EacR11, false, encoder.H())
    modifies gl, encoder`staging
    ensures gl.Valid() && encoder.Valid(gl.s) && Stays(old(gl.s), gl.s, encoder.tag)
    ensures SameCall(use, own, encoder.tag)
    ensures Did(kind, own, encoder.tag, old(encoder.View()), old(gl.s), encoder.View(), gl.s)
  {
    hide Ready, Settled, Stays, Context.Valid, Pipelines.StartDownload, Delete, TwoChannel.Creations;
    hide TwoChannel.Deletions, NamesOf;
    hide Pipelines.Execute00, Pipelines.Execute01, Pipelines.Execute02, Pipelines.Execute03;
    StillShaped(encoder.View(), gl.s);
    match use {
      case Use01(quality) =>
        encoder.Execute01(gl);
        own := Own01(encoder.tag, quality);
      case Use02 =>
        encoder.Execute02(gl);
        own := Own02(encoder.tag);
      case UseDownload =>
        encoder.StartDownload(gl);
        own := Fetch(encoder.tag, encoder.staging);
    }
  }

  /** Neither does EAC. */
  method LiveEAC(gl: Context, tag: nat, image: int, rg11: bool, uses: seq<Use>)
    returns (ghost owns: seq<Own>, ghost kind: Kind)
    requires gl.Valid() && Owned(gl.s, tag) == {}
    requires forall use :: use in uses ==> !use.Use00? && !use.Use03?
    modifies gl
    ensures gl.Valid() && gl.s.objects == old(gl.s.objects) && Faultless(old(gl.s), gl.s)
    ensures WholeLife(owns, tag, image, kind, uses) && Leads(old(gl.s), owns, gl.s)
    ensures kind.OfTwo? && kind.kernel == EacR11 && kind.two.Two() == rg11
  {
    hide Tracks, Spells, WholeLife, Leads, Inv, Manned, Plays, Did, SameCall, TwoChannel.Creations;
    hide TwoChannel.Deletions;
    hide Owned, Others, Ready, Settled, Reached, Stays, Discreet, Context.Valid;
    hide CreateAll, DeleteAll, SetContent, AllFresh, NamesOf, Pipelines.StartDownload, Delete;
    hide Pipelines.Execute00, Pipelines.Execute01, Pipelines.Execute02, Pipelines.Execute03;
    var encoder := new EncoderEAC.Encoder(tag);
    ghost var start := gl.s;
    NothingYet(start, tag);
    encoder.InitResources(gl, image, rg11);
    Stayed(start, start, gl.s, tag);
    kind := OfTwo(EacR11, false, encoder.H());
    owns := [Begin(tag, image, kind)];
    SpellsFirst(tag, image, kind, uses);
    ghost var w := Begins(start, tag, image, kind, encoder.View(), gl.s);
    for i := 0 to |uses|
      invariant gl.Valid() && encoder.Valid(gl.s) && Discreet(start, gl.s, tag)
      invariant kind == OfTwo(EacR11, false, encoder.H())
      invariant Spells(owns, tag, image, kind, uses[..i])
      invariant Tracks(start, owns, w, tag, kind, encoder.View(), gl.s)
    {
      ghost var before, p := gl.s, encoder.View();
      assert uses[i] in uses;
      ghost var own := UseEAC(gl, encoder, uses[i], kind);
      Stayed(start, before, gl.s, tag);
      w := Continues(start, owns, w, tag, kind, p, before, own, encoder.View(), gl.s);
      SpellsOn(owns, tag, image, kind, uses, i, own);
      owns := owns + [own];
    }
    ghost var before, last := gl.s, encoder.View();
    encoder.DeinitResources(gl);
    Stayed(start, before, gl.s, tag);
    OnlyOthers(start, tag);
    DiscreetMeans(start, gl.s, tag);
    OnlyOthers(gl.s, tag);
    Ends(start, owns, w, tag, kind, last, before, gl.s);
    LifeIsWhole(owns, tag, image, kind, uses);
    owns := owns + [End(tag)];
  }

  method UseETC1(gl: Context, encoder: EncoderETC1.Encoder, use: Use, ghost kind: Kind) returns (ghost own: Own)
    requires gl.Valid() && encoder.Valid(gl.s)
    requires kind == OfEtc1(encoder.H())
    modifies gl, encoder`staging
    ensures gl.Valid() && encoder.Valid(gl.s) && Stays(old(gl.s), gl.s, encoder.tag)
    ensures SameCall(use, own, encoder.tag)
    ensures Did(kind, own, encoder.tag, old(encoder.View()), old(gl.s), encoder.View(), gl.s)
  {
    hide Ready, Settled, Stays, Context.Valid, Pipelines.StartDownload, Delete, EncoderETC1.Creations;
    hide EncoderETC1.Deletions, NamesOf;
    hide Pipelines.Execute00, Pipelines.Execute01, Pipelines.Execute02, Pipelines.Execute03;
    StillShaped(encoder.View(), gl.s);
    match use {
      case Use00 =>
        encoder.Execute00(gl);
        own := Own00(encoder.tag);
      case Use01(quality) =>
        encoder.Execute01(gl, quality);
        own := Own01(encoder.tag, quality);
      case Use02 =>
        encoder.Execute02(gl);
        own := Own02(encoder.tag);
      case Use03 =>
        encoder.Execute03(gl);
        own := Own03(encoder.tag);
      case UseDownload =>
        encoder.StartDownload(gl);
        own := Fetch(encoder.tag, encoder.staging);
    }
  }

  /** Neither does ETC1, with alpha and dithering or without. */
  method LiveETC1(gl: Context, tag: nat, image: int, compressAlpha: bool, dither: bool, uses: seq<Use>)
    returns (ghost owns: seq<Own>, ghost kind: Kind)
    requires gl.Valid() && Owned(gl.s, tag) == {}
    modifies gl
    ensures gl.Valid() && gl.s.objects == old(gl.s.objects) && Faultless(old(gl.s), gl.s)
    ensures WholeLife(owns, tag, image, kind, uses) && Leads(old(gl.s), owns, gl.s)
    ensures kind.OfEtc1? && kind.etc1.Dithers() == dither && kind.etc1.HasAlpha() == compressAlpha
  {
    hide Tracks, Spells, WholeLife, Leads, Inv, Manned, Plays, Did, SameCall, EncoderETC1.Creations;
    hide EncoderETC1.Deletions;
    hide Owned, Others, Ready, Settled, Reached, Stays, Discreet, Context.Valid;
    hide CreateAll, DeleteAll, SetContent, AllFresh, NamesOf, Pipelines.StartDownload, Delete;
    hide Pipelines.Execute00, Pipelines.Execute01, Pipelines.Execute02, Pipelines.Execute03;
    var encoder := new EncoderETC1.Encoder(tag);
    ghost var start := gl.s;
    NothingYet(start, tag);
    encoder.InitResources(gl, image, compressAlpha, dither);
    Stayed(start, start, gl.s, tag);
    kind := OfEtc1(encoder.H());
    owns := [Begin(tag, image, kind)];
    SpellsFirst(tag, image, kind, uses);
    ghost var w := Begins(start, tag, image, kind, encoder.View(), gl.s);
    for i := 0 to |uses|
      invariant gl.Valid() && encoder.Valid(gl.s) && Discreet(start, gl.s, tag)
      invariant kind == OfEtc1(encoder.H())
      invariant Spells(owns, tag, image, kind, uses[..i])
      invariant Tracks(start, owns, w, tag, kind, encoder.View(), gl.s)
    {
      ghost var before, p := gl.s, encoder.View();
      ghost var own := UseETC1(gl, encoder, uses[i], kind);
      Stayed(start, before, gl.s, tag);
      w := Continues(start, owns, w, tag, kind, p, before, own, encoder.View(), gl.s);
      SpellsOn(owns, tag, image, kind, uses, i, own);
      owns := owns + [own];
    }
    ghost var before, last := gl.s, encoder.View();
    encoder.DeinitResources(gl);
    Stayed(start, before, gl.s, tag);
    OnlyOthers(start, tag);
    DiscreetMeans(start, gl.s, tag);
    OnlyOthers(gl.s, tag);
    Ends(start, owns, w, tag, kind, last, before, gl.s);
    LifeIsWhole(owns, tag, image, kind, uses);
    owns := owns + [End(tag)];
  }

  method UseBC1(gl: Context, encoder: EncoderBC1.Encoder, use: Use, ghost kind: Kind) returns (ghost own: Own)
    requires gl.Valid() && encoder.Valid(gl.s) && !use.Use00?
    requires kind == OfBc1(encoder.H(), encoder.dithers)
    modifies gl, encoder`staging
    ensures gl.Valid() && encoder.Valid(gl.s) && Stays(old(gl.s), gl.s, encoder.tag)
    ensures SameCall(use, own, encoder.tag)
    ensures Did(kind, own, encoder.tag, old(encoder.View()), old(gl.s), encoder.View(), gl.s)
  {
    hide Ready, Settled, Stays, Context.Valid, Pipelines.StartDownload, Delete, EncoderBC1.Creations;
    hide EncoderBC1.Deletions, NamesOf;
    hide Pipelines.Execute00, Pipelines.Execute01, Pipelines.Execute02, Pipelines.Execute03;
    StillShaped(encoder.View(), gl.s);
    match use {
      case Use01(quality) =>
        encoder.Execute01(gl);
        own := Own01(encoder.tag, quality);
      case Use02 =>
        encoder.Execute02(gl);
        own := Own02(encoder.tag);
      case Use03 =>
        encoder.Execute03(gl);
        own := Own03(encoder.tag);
      case UseDownload =>
        encoder.StartDownload(gl);
        own := Fetch(encoder.tag, encoder.staging);
    }
  }

  /** BC1 leaves one object behind, BC3 four, whatever was called. */
  method LiveBC1(gl: Context, tag: nat, image: int, useBC3: bool, dither: bool, uses: seq<Use>)
    returns (ghost left: set<Name>, ghost owns: seq<Own>, ghost kind: Kind)
    requires gl.Valid() && Owned(gl.s, tag) == {}
    requires forall use :: use in uses ==> !use.Use00?
    modifies gl
    ensures gl.Valid() && Faultless(old(gl.s), gl.s)
    ensures Others(gl.s, tag) == old(gl.s.objects) && Owned(gl.s, tag) == left && |left| == if useBC3 then 4 else 1
    ensures WholeLife(owns, tag, image, kind, uses) && Leads(old(gl.s), owns, gl.s)
    ensures kind.OfBc1? && kind.dither == dither && kind.bc1.IsBC3() == useBC3
  {
    hide Tracks, Spells, WholeLife, Leads, Inv, Manned, Plays, Did, SameCall, EncoderBC1.Creations;
    hide EncoderBC1.Deletions;
    hide Owned, Others, Ready, Settled, Reached, Stays, Discreet, Context.Valid;
    hide CreateAll, DeleteAll, SetContent, AllFresh, NamesOf, Pipelines.StartDownload, Delete;
    hide Pipelines.Execute00, Pipelines.Execute01, Pipelines.Execute02, Pipelines.Execute03;
    hide SetOf, EncoderBC1.Leaked;
    var encoder := new EncoderBC1.Encoder(tag);
    ghost var start := gl.s;
    NothingYet(start, tag);
    encoder.InitResources(gl, image, useBC3, dither);
    Stayed(start, start, gl.s, tag);
    ghost var h := encoder.H();
    kind := OfBc1(h, dither);
    owns := [Begin(tag, image, kind)];
    SpellsFirst(tag, image, kind, uses);
    ghost var w := Begins(start, tag, image, kind, encoder.View(), gl.s);
    for i := 0 to |uses|
      invariant gl.Valid() && encoder.Valid(gl.s) && Discreet(start, gl.s, tag)
      invariant encoder.H() == h && encoder.dithers == dither
      invariant Spells(owns, tag, image, kind, uses[..i])
      invariant Tracks(start, owns, w, tag, kind, encoder.View(), gl.s)
    {
      ghost var before, p := gl.s, encoder.View();
      assert uses[i] in uses;
      ghost var own := UseBC1(gl, encoder, uses[i], kind);
      Stayed(start, before, gl.s, tag);
      w := Continues(start, owns, w, tag, kind, p, before, own, encoder.View(), gl.s);
      SpellsOn(owns, tag, image, kind, uses, i, own);
      owns := owns + [own];
    }
    ghost var before, last := gl.s, encoder.View();
    encoder.DeinitResources(gl);
    Stayed(start, before, gl.s, tag);
    OnlyOthers(start, tag);
    DiscreetMeans(start, gl.s, tag);
    left := SetOf(EncoderBC1.Leaked(h));
    EncoderBC1.LeakedSize(h);
    Ends(start, owns, w, tag, kind, last, before, gl.s);
    LifeIsWhole(owns, tag, image, kind, uses);
    owns := owns + [End(tag)];
  }
}
