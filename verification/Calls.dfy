/** The four encoders' calls are ones that Interleaving allows, whatever the others are doing. */
module Calls {
  import opened Gl
  import opened Interleaving
  import opened Lifetimes
  import opened Pipelines
  import EncoderBC1
  import EncoderETC1
  import TwoChannel

  /** The encoder tag is at work, on what it created. */
  ghost predicate Works(w: World, p: Pipeline, made: seq<(Name, Kernel)>) {
    && p.tag in w.active && w.active[p.tag].p == p && p.names == NamesOf(made)
    && forall tag :: tag in w.active ==> Healthy(w.active[tag], w.s, tag)
  }

  /** The calls that an encoder makes between its first and its last. */
  ghost predicate WorkIsAllowed(w: World, tag: nat, params: seq<seq<int>>) {
    Allowed(w, Step00(tag)) && Allowed(w, Step01(tag, params)) && Allowed(w, Step02(tag))
  }

  lemma TwoChannelStarts(w: World, kernel: Kernel, h: TwoChannel.Handles, tag: nat, image: int)
    requires !kernel.Stitch? && AllFresh(w.s, TwoChannel.Creations(kernel, h)) && tag !in w.active
    requires Owned(w.s, tag) == {}
    ensures var made := TwoChannel.Creations(kernel, h);
            Allowed(w, Init(TwoChannel.Describe(kernel, h, tag, image, NamesOf(made), 0), made))
  {
    hide Built, AllFresh, Owned, TwoChannel.Creations, NamesOf;
    var made := TwoChannel.Creations(kernel, h);
    TwoChannel.Build(kernel, w.s, h, TwoChannel.Describe(kernel, h, tag, image, NamesOf(made), 0), made);
  }

  /** BC4, BC5 and EAC give everything back. */
  lemma TwoChannelWorks(w: World, kernel: Kernel, h: TwoChannel.Handles, p: Pipeline, first: seq<int>, second: seq<int>)
    requires Works(w, p, TwoChannel.Creations(kernel, h)) && h.Coherent()
    requires p == TwoChannel.Describe(kernel, h, p.tag, p.image, p.names, p.staging)
    ensures WorkIsAllowed(w, p.tag, if h.Two() then [first, second] else [first])
    ensures (h.dst != 0 ==> Allowed(w, Step03(p.tag))) && Downloads(p)
    ensures Allowed(w, Deinit(p.tag, TwoChannel.Deletions(h, p.staging), []))
  {
    hide Reached, Owned, Distinct, NameSet, TwoChannel.Creations, TwoChannel.Deletions, Splits, AllNames, NamesOf;
    assert Healthy(w.active[p.tag], w.s, p.tag);
    TwoChannel.NothingIsLeft(kernel, w.s, p, h);
  }

  lemma Etc1Starts(w: World, h: EncoderETC1.Handles, tag: nat, image: int)
    requires AllFresh(w.s, EncoderETC1.Creations(h)) && tag !in w.active && Owned(w.s, tag) == {}
    ensures var made := EncoderETC1.Creations(h);
            Allowed(w, Init(EncoderETC1.Describe(h, tag, image, NamesOf(made), 0), made))
  {
    hide Built, AllFresh, Owned, EncoderETC1.Creations, NamesOf;
    var made := EncoderETC1.Creations(h);
    EncoderETC1.Build(h, w.s, EncoderETC1.Describe(h, tag, image, NamesOf(made), 0), made);
  }

  /** ETC1 with or without alpha gives everything back. */
  lemma Etc1Works(w: World, h: EncoderETC1.Handles, p: Pipeline, quality: nat)
    requires Works(w, p, EncoderETC1.Creations(h)) && h.Coherent() && h.dst != 0
    requires p == EncoderETC1.Describe(h, p.tag, p.image, p.names, p.staging)
    ensures var effort := EncoderETC1.Effort(quality);
            WorkIsAllowed(w, p.tag, if h.HasAlpha() then [effort, []] else [effort])
    ensures Allowed(w, Step03(p.tag)) && Downloads(p)
    ensures Allowed(w, Deinit(p.tag, EncoderETC1.Deletions(h, p.staging), []))
  {
    hide Reached, Owned, Distinct, NameSet, EncoderETC1.Creations, EncoderETC1.Deletions, StageReady, Splits;
    hide AllNames, NamesOf;
    assert Healthy(w.active[p.tag], w.s, p.tag);
    EncoderETC1.NothingIsLeft(h, w.s, p);
  }

  lemma Bc1Starts(w: World, h: EncoderBC1.Handles, dither: bool, tag: nat, image: int)
    requires AllFresh(w.s, EncoderBC1.Creations(h, dither)) && tag !in w.active && Owned(w.s, tag) == {}
    ensures var made := EncoderBC1.Creations(h, dither);
            Allowed(w, Init(EncoderBC1.Describe(h, dither, tag, image, NamesOf(made), 0), made))
  {
    hide Built, AllFresh, Owned, EncoderBC1.Creations, NamesOf;
    var made := EncoderBC1.Creations(h, dither);
    EncoderBC1.Build(h, dither, w.s, EncoderBC1.Describe(h, dither, tag, image, NamesOf(made), 0), made);
  }

  /** BC1 and BC3 never give everything back. */
  lemma Bc1Works(w: World, h: EncoderBC1.Handles, dither: bool, p: Pipeline)
    requires Works(w, p, EncoderBC1.Creations(h, dither)) && h.Coherent() && h.dst != 0
    requires p == EncoderBC1.Describe(h, dither, p.tag, p.image, p.names, p.staging)
    ensures WorkIsAllowed(w, p.tag, if h.IsBC3() then [[2], [3, 0]] else [[2]])
    ensures Allowed(w, Step03(p.tag)) && Downloads(p)
    ensures Allowed(w, Deinit(p.tag, EncoderBC1.Deletions(h, p.staging), EncoderBC1.Leaked(h)))
    ensures |SetOf(EncoderBC1.Leaked(h))| == if h.IsBC3() then 4 else 1
  {
    hide Reached, Owned, Distinct, NameSet, EncoderBC1.Creations, EncoderBC1.Deletions, EncoderBC1.Leaked;
    hide SetOf, StageReady, Splits, AllNames, NamesOf;
    assert Healthy(w.active[p.tag], w.s, p.tag);
    EncoderBC1.SomeAreLeft(h, dither, w.s, p);
    EncoderBC1.LeakedSize(h);
  }
}
