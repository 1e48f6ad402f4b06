/**
 Any number of encoders, created, driven and destroyed in any interleaving: nothing samples a
 texture that is still being written, every encoder computes what it would compute alone, and
 what is left over is exactly what was not given back.
 */
module Interleaving {
  import opened Gl
  import opened Lifetimes
  import opened Pipelines

  /** An encoder between initResources and deinitResources, and how far it has got. */
  datatype Active = Active(p: Pipeline, level: nat, params: seq<seq<int>>)

  datatype World = World(s: State, active: map<nat, Active>, leaked: set<Name>)

  /** One call, on the encoder tag. */
  datatype Call =
    | Init(p: Pipeline, made: seq<(Name, Kernel)>)
    | Step00(tag: nat)
    | Step01(tag: nat, params: seq<seq<int>>)
    | Step02(tag: nat)
    | Step03(tag: nat)
    | Download(tag: nat, buffer: nat)
    | Deinit(tag: nat, deleted: seq<Name>, left: seq<Name>)
  {
    function Encoder(): nat { if Init? then p.tag else tag }
  }

  /**
   Names are fresh when they are created, shaders without uniforms get none, and an encoder
   without a texture to copy to is not asked to copy. Nothing is asked of the order of calls.
   */
  ghost predicate Allowed(w: World, call: Call) {
    if call.Init? then
      && call.p.tag !in w.active && Owned(w.s, call.p.tag) == {}
      && AllFresh(w.s, call.made) && Built(call.p, call.made)
    else
      && call.tag in w.active
      && Shaped(w.active[call.tag].p)
      && var p := w.active[call.tag].p;
         match call
         case Step01(_, params) => ParamsFit(p, params)
         case Step03(_) => p.dst != 0
         case Download(_, buffer) => buffer != 0 && Buffer(buffer) !in Delete(w.s, Buffer(p.staging)).objects
         case Deinit(_, deleted, left) => Splits(AllNames(p), deleted, left)
         case _ => true
  }

  ghost function Perform(w: World, call: Call): World
    requires Allowed(w, call)
  {
    if call.Init? then
      World(SetContent(CreateAll(w.s, call.p.tag, call.made), Texture(call.p.src), Image(call.p.image)),
            w.active[call.p.tag := Active(call.p, 0, NoParams(call.p))], w.leaked)
    else
      var a := w.active[call.tag];
      match call
      case Step00(tag) =>
        World(Execute00(a.p, w.s), w.active[tag := a.(level := if a.level == 0 then 1 else a.level)], w.leaked)
      case Step01(tag, params) =>
        World(Execute01(a.p, w.s, params),
              w.active[tag := Active(a.p, if a.level >= 1 || a.p.pre == [] then 2 else a.level, params)], w.leaked)
      case Step02(tag) =>
        World(Execute02(a.p, w.s), w.active[tag := a.(level := if a.level >= 2 then 3 else a.level)], w.leaked)
      case Step03(tag) => World(Execute03(a.p, w.s), w.active, w.leaked)
      case Download(tag, buffer) =>
        World(StartDownload(a.p, w.s, buffer), w.active[tag := a.(p := a.p.(staging := buffer))], w.leaked)
      case Deinit(tag, deleted, left) => World(DeleteAll(w.s, deleted), w.active - {tag}, w.leaked + SetOf(left))
      case Init(_, _) => w
  }

  ghost predicate Healthy(a: Active, s: State, tag: nat) {
    a.p.tag == tag && Ready(a.p, s) && Reached(a.p, s, a.level, a.params)
  }

  /** base is what was there before; everything else is an encoder's or leaked. */
  ghost predicate Accounted(w: World, base: map<Name, Object>) {
    && (forall n :: n in base ==> n in w.s.objects && w.s.objects[n] == base[n] && base[n].owner !in w.active)
    && (forall n :: n in w.leaked ==> n in w.s.objects && w.s.objects[n].owner !in w.active)
    && (forall n :: n in w.s.objects ==> n in base || n in w.leaked || w.s.objects[n].owner in w.active)
  }

  ghost predicate Inv(w: World, base: map<Name, Object>) {
    && (forall tag :: tag in w.active ==> Healthy(w.active[tag], w.s, tag))
    && Accounted(w, base)
  }

  // ---- one call ----

  /** What the call does to its own encoder. */
  ghost predicate Minds(w: World, w': World, tag: nat) {
    && Stays(w.s, w'.s, tag)
    && (tag !in w.active ==> Owned(w.s, tag) == {})
    && (forall t :: t != tag ==> (t in w.active <==> t in w'.active) && (t in w.active ==> w'.active[t] == w.active[t]))
    && (if tag in w'.active then w'.leaked == w.leaked && Healthy(w'.active[tag], w'.s, tag)
        else w'.leaked == w.leaked + Owned(w'.s, tag))
  }

  lemma StillAccounted(w: World, w': World, tag: nat, base: map<Name, Object>)
    requires Accounted(w, base) && Stays(w.s, w'.s, tag) && (tag !in w.active ==> Owned(w.s, tag) == {})
    requires forall t :: t != tag ==> (t in w.active <==> t in w'.active)
    requires w'.leaked == if tag in w'.active then w.leaked else w.leaked + Owned(w'.s, tag)
    ensures Accounted(w', base)
  {
    assert forall n :: n in w.s.objects && w.s.objects[n].owner != tag ==> n in Others(w.s, tag);
    assert forall n :: n in w.s.objects && w.s.objects[n].owner == tag ==> n in Owned(w.s, tag);
    assert forall n :: n in w'.s.objects && w'.s.objects[n].owner != tag ==> n in Others(w'.s, tag);
    assert forall n :: n in w'.s.objects && w'.s.objects[n].owner == tag ==> n in Owned(w'.s, tag);
    forall n | n in base || n in w.leaked ensures n in w'.s.objects && w'.s.objects[n] == w.s.objects[n]
        && w.s.objects[n].owner != tag {
      assert n in w.s.objects && w.s.objects[n].owner != tag;
      assert n in Others(w'.s, tag) && Others(w'.s, tag)[n] == w.s.objects[n];
    }
    forall n | n in w'.s.objects ensures n in base || n in w'.leaked || w'.s.objects[n].owner in w'.active {
      if w'.s.objects[n].owner != tag {
        assert n in Others(w'.s, tag) && n in Others(w.s, tag) && Others(w'.s, tag)[n] == w.s.objects[n];
      }
    }
  }

  lemma MindingKeepsInv(w: World, w': World, tag: nat, base: map<Name, Object>)
    requires Inv(w, base) && Minds(w, w', tag)
    ensures Inv(w', base)
  {
    hide Ready, Reached, Stays, Accounted, Owned;
    StillAccounted(w, w', tag, base);
    forall t | t in w'.active && t != tag ensures Healthy(w'.active[t], w'.s, t) {
      var a := w.active[t];
      StepOfAnother(a.p, w.s, w'.s, tag, a.level, a.params);
    }
  }

  lemma CallMinds(w: World, call: Call, base: map<Name, Object>)
    requires Inv(w, base) && Allowed(w, call)
    ensures Minds(w, Perform(w, call), call.Encoder())
  {
    hide Ready, Reached, Owned, Accounted, Built, AllFresh, Splits, Stays;
    hide SetContent, CreateAll, DeleteAll, Execute00, Execute01, Execute02, Execute03, StartDownload;
    if call.Init? {
      InitReady(call.p, w.s, call.made, NoParams(call.p));
    } else {
      var a := w.active[call.tag];
      assert Healthy(a, w.s, call.tag);
      match call
      case Step00(_) => Execute00Keeps(a.p, w.s, a.level, a.params);
      case Step01(_, params) => Execute01Keeps(a.p, w.s, a.level, a.params, params);
      case Step02(_) => Execute02Keeps(a.p, w.s, a.level, a.params);
      case Step03(_) => Execute03Keeps(a.p, w.s, a.level, a.params);
      case Download(_, buffer) => DownloadKeeps(a.p, w.s, a.level, a.params, buffer);
      case Deinit(_, deleted, left) => DeinitLeaves(a.p, w.s, deleted, left);
    }
  }

  // ---- any number of calls ----

  ghost predicate Legal(w: World, calls: seq<Call>)
    decreases calls
  {
    calls == [] || (Allowed(w, calls[0]) && Legal(Perform(w, calls[0]), calls[1..]))
  }

  ghost function Run(w: World, calls: seq<Call>): World
    requires Legal(w, calls)
    decreases calls
  {
    if calls == [] then w else Run(Perform(w, calls[0]), calls[1..])
  }

  /** What the deinitResources calls among these leave behind. */
  function Forgotten(calls: seq<Call>): set<Name> {
    if calls == [] then {} else (if calls[0].Deinit? then SetOf(calls[0].left) else {}) + Forgotten(calls[1..])
  }

  /**
   Whatever the interleaving, no dispatch samples a texture with shader writes that are not yet
   visible, no name is deleted twice, and every encoder still holds what its own calls computed.
   */
  lemma {:induction false} AnyInterleaving(w: World, calls: seq<Call>, base: map<Name, Object>)
    requires Inv(w, base) && Legal(w, calls)
    ensures var w' := Run(w, calls);
            && Inv(w', base)
            && Faultless(w.s, w'.s)
            && w'.leaked == w.leaked + Forgotten(calls)
    decreases calls
  {
    hide Inv, Allowed, Perform;
    if calls != [] {
      var next := Perform(w, calls[0]);
      CallMinds(w, calls[0], base);
      MindingKeepsInv(w, next, calls[0].Encoder(), base);
      CallForgets(w, calls[0]);
      AnyInterleaving(next, calls[1..], base);
    }
  }

  lemma CallForgets(w: World, call: Call)
    requires Allowed(w, call)
    ensures Perform(w, call).leaked == w.leaked + if call.Deinit? then SetOf(call.left) else {}
  {
  }

  /** Once all encoders are gone, what they forgot is all that they have changed. */
  lemma Conservation(s: State, calls: seq<Call>)
    requires Legal(World(s, map[], {}), calls) && Run(World(s, map[], {}), calls).active == map[]
    ensures var s' := Run(World(s, map[], {}), calls).s;
            && (forall n :: n in s'.objects <==> n in s.objects || n in Forgotten(calls))
            && (forall n :: n in s.objects ==> s'.objects[n] == s.objects[n])
            && (Forgotten(calls) == {} ==> s'.objects == s.objects)
  {
    hide Legal, Run, Forgotten;
    AnyInterleaving(World(s, map[], {}), calls, s.objects);
  }

  // ---- downloads ----

  /** What an encoder that has run through is there to compute. */
  function Wanted(p: Pipeline, params: seq<seq<int>>): Content
    requires Shaped(p) && |params| == |p.stages| && (p.stitch != [] ==> |p.stages| == 2 && |p.stitch[0].inputs| == 2)
  {
    if p.stitch != [] then StitchContent(p, params) else StageContent(p, 0, params)
  }

  /** The downloaded texture is the one that the passes end with. */
  predicate Downloads(p: Pipeline) {
    0 < |p.stages| && p.result == if p.stitch != [] then p.stitch[0].target else p.stages[0].target
  }

  /** A finished encoder downloads what it is there to compute, exactly when that is readable. */
  lemma DownloadOf(p: Pipeline, s: State, params: seq<seq<int>>, buffer: nat)
    requires Ready(p, s) && Reached(p, s, 3, params) && Downloads(p)
    requires buffer != 0 && Buffer(buffer) !in Delete(s, Buffer(p.staging)).objects
    ensures p.stitch != [] ==> |p.stages| == 2 && |p.stitch[0].inputs| == 2
    ensures ContentOf(StartDownload(p, s, buffer), Buffer(buffer))
            == if Readable(s, p.result) then Wanted(p, params) else Undefined
  {
    hide Owned, NameSet, StageReady, StartDownload, StageContent, StitchContent, Delete;
    DownloadKeeps(p, s, 3, params, buffer);
    if p.stitch != [] {
      StitchTextures(p);
    }
  }

  /** So does one amid any number of others, whatever they are doing. */
  lemma DownloadAmongOthers(w: World, calls: seq<Call>, base: map<Name, Object>, tag: nat, buffer: nat)
    requires Inv(w, base) && Legal(w, calls) && tag in Run(w, calls).active
    requires var a := Run(w, calls).active[tag]; a.level == 3 && Downloads(a.p)
    requires var a, s := Run(w, calls).active[tag], Run(w, calls).s;
             buffer != 0 && Buffer(buffer) !in Delete(s, Buffer(a.p.staging)).objects
    ensures var a, s := Run(w, calls).active[tag], Run(w, calls).s;
            && Shaped(a.p) && |a.params| == |a.p.stages|
                  && (a.p.stitch != [] ==> |a.p.stages| == 2 && |a.p.stitch[0].inputs| == 2)
            && ContentOf(StartDownload(a.p, s, buffer), Buffer(buffer))
               == if Readable(s, a.p.result) then Wanted(a.p, a.params) else Undefined
  {
    hide Run, Legal, Accounted, Owned, NameSet, StageReady, StartDownload, Delete, Wanted, Downloads, Distinct;
    AnyInterleaving(w, calls, base);
    var a, s := Run(w, calls).active[tag], Run(w, calls).s;
    assert Healthy(a, s, tag);
    DownloadOf(a.p, s, a.params, buffer);
  }
}
