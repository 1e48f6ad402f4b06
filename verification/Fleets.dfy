/**
 Runs of several encoders' own calls, in any interleaving. Nothing is asked of them but that new
 names are new; what they leave behind is then exactly what BC1 and BC3 never give back.
 */
module Fleets {
  import opened Calls
  import opened Gl
  import opened Interleaving
  import opened Lifetimes
  import opened Pipelines
  import EncoderBC1
  import EncoderETC1
  import TwoChannel

  /** An encoder by what it is and what it created. */
  datatype Kind =
    | OfTwo(kernel: Kernel, snorm: bool, two: TwoChannel.Handles)
    | OfEtc1(etc1: EncoderETC1.Handles)
    | OfBc1(bc1: EncoderBC1.Handles, dither: bool)
  {
    /** Unused handles are 0, and all but EAC have a texture to copy to. */
    predicate Proper() {
      match this
      case OfTwo(kernel, _, h) => h.Coherent() && (if h.dst == 0 then kernel == EacR11 else kernel == Bc4)
      case OfEtc1(h) => h.Coherent() && h.dst != 0
      case OfBc1(h, _) => h.Coherent() && h.dst != 0
    }

    function Made(): seq<(Name, Kernel)> {
      match this
      case OfTwo(kernel, _, h) => TwoChannel.Creations(kernel, h)
      case OfEtc1(h) => EncoderETC1.Creations(h)
      case OfBc1(h, dither) => EncoderBC1.Creations(h, dither)
    }

    function Plan(tag: nat, image: int, names: seq<Name>, staging: nat): Pipeline {
      match this
      case OfTwo(kernel, _, h) => TwoChannel.Describe(kernel, h, tag, image, names, staging)
      case OfEtc1(h) => EncoderETC1.Describe(h, tag, image, names, staging)
      case OfBc1(h, dither) => EncoderBC1.Describe(h, dither, tag, image, names, staging)
    }

    function Params(quality: nat): seq<seq<int>> {
      match this
      case OfTwo(kernel, snorm, h) =>
        var first := if kernel == Bc4 then [0, if snorm then 1 else 0] else [0];
        var second := if kernel == Bc4 then [1, if snorm then 1 else 0] else [1];
        if h.Two() then [first, second] else [first]
      case OfEtc1(h) => if h.HasAlpha() then [EncoderETC1.Effort(quality), []] else [EncoderETC1.Effort(quality)]
      case OfBc1(h, _) => if h.IsBC3() then [[2], [3, 0]] else [[2]]
    }

    function Deletes(staging: nat): seq<Name> {
      match this
      case OfTwo(_, _, h) => TwoChannel.Deletions(h, staging)
      case OfEtc1(h) => EncoderETC1.Deletions(h, staging)
      case OfBc1(h, _) => EncoderBC1.Deletions(h, staging)
    }

    function Leaks(): seq<Name> { if OfBc1? then EncoderBC1.Leaked(bc1) else [] }

    function LeakCount(): nat { if !OfBc1? then 0 else if bc1.IsBC3() then 4 else 1 }

    function Source(): nat {
      match this
      case OfTwo(_, _, h) => h.src
      case OfEtc1(h) => h.src
      case OfBc1(h, _) => h.src
    }

    predicate HasCopy() { !OfTwo? || two.dst != 0 }
  }

  /** One call of a public member. */
  datatype Own =
    | Begin(tag: nat, image: int, kind: Kind)
    | Own00(tag: nat)
    | Own01(tag: nat, quality: nat)
    | Own02(tag: nat)
    | Own03(tag: nat)
    | Fetch(tag: nat, buffer: nat)
    | End(tag: nat)

  type Fleet = map<nat, Kind>

  /** The encoders at work are those of the fleet, on what they created. */
  ghost predicate Manned(w: World, fleet: Fleet) {
    && fleet.Keys == w.active.Keys
    && forall tag :: tag in fleet ==> Mans(w, fleet, tag)
  }

  ghost predicate Mans(w: World, fleet: Fleet, tag: nat)
    requires tag in fleet
  {
    && tag in w.active && fleet[tag].Proper()
    && var p := w.active[tag].p;
       p == fleet[tag].Plan(tag, p.image, p.names, p.staging) && p.names == NamesOf(fleet[tag].Made())
  }

  /** All that is asked: new names are new, and an encoder is used between its first call and its last. */
  ghost predicate Fresh(w: World, fleet: Fleet, own: Own) {
    match own
    case Begin(tag, _, kind) => tag !in fleet && Owned(w.s, tag) == {} && kind.Proper() && AllFresh(w.s, kind.Made())
    case Own03(tag) => tag in fleet && fleet[tag].HasCopy()
    case Fetch(tag, buffer) =>
      && tag in fleet && tag in w.active && buffer != 0
      && Buffer(buffer) !in Delete(w.s, Buffer(w.active[tag].p.staging)).objects
    case _ => own.tag in fleet
  }

  function ToCall(w: World, fleet: Fleet, own: Own): Call
    requires own.Begin? || (own.tag in fleet && own.tag in w.active)
  {
    match own
    case Begin(tag, image, kind) => Init(kind.Plan(tag, image, NamesOf(kind.Made()), 0), kind.Made())
    case Own00(tag) => Step00(tag)
    case Own01(tag, quality) => Step01(tag, fleet[tag].Params(quality))
    case Own02(tag) => Step02(tag)
    case Own03(tag) => Step03(tag)
    case Fetch(tag, buffer) => Download(tag, buffer)
    case End(tag) => Deinit(tag, fleet[tag].Deletes(w.active[tag].p.staging), fleet[tag].Leaks())
  }

  function Next(fleet: Fleet, own: Own): Fleet {
    if own.Begin? then fleet[own.tag := own.kind] else if own.End? then fleet - {own.tag} else fleet
  }

  lemma BeginIsAllowed(w: World, fleet: Fleet, own: Own)
    requires Manned(w, fleet) && own.Begin? && Fresh(w, fleet, own)
    ensures Allowed(w, ToCall(w, fleet, own))
  {
    hide Allowed, AllFresh, Owned, TwoChannel.Creations, EncoderETC1.Creations, EncoderBC1.Creations, NamesOf, Mans;
    match own.kind
    case OfTwo(kernel, _, h) => TwoChannelStarts(w, kernel, h, own.tag, own.image);
    case OfEtc1(h) => Etc1Starts(w, h, own.tag, own.image);
    case OfBc1(h, dither) => Bc1Starts(w, h, dither, own.tag, own.image);
  }

  lemma OthersAreAllowed(w: World, base: map<Name, Object>, fleet: Fleet, own: Own)
    requires Inv(w, base) && Manned(w, fleet) && !own.Begin? && Fresh(w, fleet, own)
    ensures Allowed(w, ToCall(w, fleet, own))
  {
    hide Accounted, Owned, TwoChannel.Creations, EncoderETC1.Creations, EncoderBC1.Creations, NamesOf, Splits;
    hide AllNames, Delete;
    hide TwoChannel.Deletions, EncoderETC1.Deletions, EncoderBC1.Deletions, EncoderBC1.Leaked, Settled, Reached;
    hide ParamsFit, Downloads;
    assert Mans(w, fleet, own.tag);
    var p, kind := w.active[own.tag].p, fleet[own.tag];
    var quality := if own.Own01? then own.quality else 0;
    assert Healthy(w.active[own.tag], w.s, own.tag);
    match kind
    case OfTwo(kernel, _, h) =>
      var params := kind.Params(quality);
      TwoChannelWorks(w, kernel, h, p, params[0], if h.Two() then params[1] else []);
    case OfEtc1(h) => Etc1Works(w, h, p, quality);
    case OfBc1(h, dither) => Bc1Works(w, h, dither, p);
  }

  lemma OwnIsAllowed(w: World, base: map<Name, Object>, fleet: Fleet, own: Own)
    requires Inv(w, base) && Manned(w, fleet) && Fresh(w, fleet, own)
    ensures Allowed(w, ToCall(w, fleet, own))
  {
    hide Inv, Allowed, Fresh, Mans;
    if own.Begin? {
      BeginIsAllowed(w, fleet, own);
    } else {
      OthersAreAllowed(w, base, fleet, own);
    }
  }

  /** Calls change no encoder's plan but for the staging buffer. */
  lemma PlanStays(w: World, call: Call)
    requires Allowed(w, call)
    ensures var active, tag := Perform(w, call).active, call.Encoder();
            && (forall t :: t != tag ==> (t in active <==> t in w.active) && (t in active ==> active[t] == w.active[t]))
            && (tag in active <==> !call.Deinit?)
            && (call.Init? ==> active[tag].p == call.p)
            && (!call.Init? && !call.Deinit? ==>
                  tag in w.active && active[tag].p == w.active[tag].p.(staging := active[tag].p.staging))
  {
    hide Ready, Owned, AllFresh, Built, Splits, AllNames, Delete, ParamsFit;
  }

  lemma PlanWithStaging(kind: Kind, tag: nat, image: int, names: seq<Name>, staging: nat, other: nat)
    ensures kind.Plan(tag, image, names, staging).(staging := other) == kind.Plan(tag, image, names, other)
    ensures var p := kind.Plan(tag, image, names, staging);
            p.tag == tag && p.image == image && p.names == names && p.staging == staging
  {
  }

  lemma StillManned(w: World, fleet: Fleet, own: Own)
    requires Manned(w, fleet) && Fresh(w, fleet, own) && Allowed(w, ToCall(w, fleet, own))
    ensures Manned(Perform(w, ToCall(w, fleet, own)), Next(fleet, own))
  {
    hide Owned, NamesOf, Delete, AllFresh, Allowed, Perform, Kind.Plan, Kind.Proper, Kind.Made, Kind.Deletes;
    hide Kind.Params;
    var call := ToCall(w, fleet, own);
    var w', fleet' := Perform(w, call), Next(fleet, own);
    PlanStays(w, call);
    if own.Begin? {
      PlanWithStaging(own.kind, own.tag, own.image, NamesOf(own.kind.Made()), 0, 0);
    }
    assert forall tag :: tag in fleet ==> Mans(w, fleet, tag);
    forall tag | tag in fleet' ensures Mans(w', fleet', tag) {
      if tag in fleet {
        StillMans(w, fleet, tag, w', fleet');
      }
    }
    assert forall tag :: tag in fleet' <==> tag in w'.active;
  }

  lemma StillMans(w: World, fleet: Fleet, tag: nat, w': World, fleet': Fleet)
    requires tag in fleet && Mans(w, fleet, tag) && tag in fleet' && tag in w'.active && fleet'[tag] == fleet[tag]
    requires w'.active[tag].p == w.active[tag].p.(staging := w'.active[tag].p.staging)
    ensures Mans(w', fleet', tag)
  {
    hide NamesOf, Kind.Plan, Kind.Proper, Kind.Made;
    var p := w.active[tag].p;
    PlanWithStaging(fleet[tag], tag, p.image, p.names, p.staging, w'.active[tag].p.staging);
  }

  // ---- whole runs ----

  /** Each call is in order when it is made; that it is then allowed is OwnIsAllowed. */
  ghost predicate Orderly(w: World, fleet: Fleet, owns: seq<Own>)
    requires Manned(w, fleet)
    decreases owns
  {
    owns == [] ||
    (&& Fresh(w, fleet, owns[0])
     && var call := ToCall(w, fleet, owns[0]);
        Allowed(w, call) ==>
          (StillManned(w, fleet, owns[0]); Orderly(Perform(w, call), Next(fleet, owns[0]), owns[1..])))
  }

  ghost function ToCalls(w: World, fleet: Fleet, owns: seq<Own>): seq<Call>
    requires Manned(w, fleet) && Orderly(w, fleet, owns)
    decreases owns
  {
    if owns == [] then []
    else
      var call := ToCall(w, fleet, owns[0]);
      if Allowed(w, call) then
        StillManned(w, fleet, owns[0]);
        [call] + ToCalls(Perform(w, call), Next(fleet, owns[0]), owns[1..])
      else []
  }

  function After(fleet: Fleet, owns: seq<Own>): Fleet
    decreases owns
  {
    if owns == [] then fleet else After(Next(fleet, owns[0]), owns[1..])
  }

  /** What the encoders that end among these calls never give back. */
  function LeakedBy(fleet: Fleet, owns: seq<Own>): set<Name>
    decreases owns
  {
    if owns == [] then {}
    else
      (if owns[0].End? && owns[0].tag in fleet then SetOf(fleet[owns[0].tag].Leaks()) else {})
      + LeakedBy(Next(fleet, owns[0]), owns[1..])
  }

  function LeakCount(fleet: Fleet, owns: seq<Own>): nat
    decreases owns
  {
    if owns == [] then 0
    else
      (if owns[0].End? && owns[0].tag in fleet then fleet[owns[0].tag].LeakCount() else 0)
      + LeakCount(Next(fleet, owns[0]), owns[1..])
  }

  /**
   Every orderly run of own calls is a run that the interleaving theorems cover, and forgets
   exactly what its BC1 and BC3 encoders leave.
   */
  lemma {:induction false} OrderlyIsLegal(w: World, base: map<Name, Object>, fleet: Fleet, owns: seq<Own>)
    requires Inv(w, base) && Manned(w, fleet) && Orderly(w, fleet, owns)
    ensures var calls := ToCalls(w, fleet, owns);
            && |calls| == |owns| && Legal(w, calls)
            && Manned(Run(w, calls), After(fleet, owns))
            && Forgotten(calls) == LeakedBy(fleet, owns)
            && |Run(w, calls).leaked| == |w.leaked| + LeakCount(fleet, owns)
    decreases owns
  {
    hide Inv, Allowed, Perform, Mans, SetOf, Kind.Leaks, Kind.LeakCount, AllFresh, Owned, Delete;
    if owns != [] {
      var own := owns[0];
      var call, fleet' := ToCall(w, fleet, own), Next(fleet, own);
      OwnIsAllowed(w, base, fleet, own);
      StillManned(w, fleet, own);
      var w' := Perform(w, call);
      CallMinds(w, call, base);
      MindingKeepsInv(w, w', call.Encoder(), base);
      OrderlyIsLegal(w', base, fleet', owns[1..]);
      assert ToCalls(w, fleet, owns) == [call] + ToCalls(w', fleet', owns[1..]);
      assert ToCalls(w, fleet, owns)[1..] == ToCalls(w', fleet', owns[1..]);
      OneCallLeaks(w, base, fleet, own);
    }
  }

  /** The calls are in order from w on, and lead to w'. */
  ghost predicate Plays(w: World, fleet: Fleet, owns: seq<Own>, w': World) {
    && Manned(w, fleet) && Orderly(w, fleet, owns)
    && Legal(w, ToCalls(w, fleet, owns)) && w' == Run(w, ToCalls(w, fleet, owns))
  }

  lemma NoneYet(w: World, fleet: Fleet)
    requires Manned(w, fleet)
    ensures Plays(w, fleet, [], w) && After(fleet, []) == fleet
  {
  }

  lemma PlayStarts(w: World, fleet: Fleet, owns: seq<Own>, w': World)
    requires Plays(w, fleet, owns, w')
    ensures Manned(w, fleet) && (owns == [] ==> w' == w) && (owns != [] ==> Fresh(w, fleet, owns[0]))
  {
    hide Allowed, Perform, Manned, Fresh, ToCall;
  }

  ghost predicate Callable(w: World, fleet: Fleet, own: Own) {
    own.Begin? || (own.tag in fleet && own.tag in w.active)
  }

  lemma CallKeepsFleet(w: World, base: map<Name, Object>, fleet: Fleet, own: Own)
    requires Inv(w, base) && Manned(w, fleet) && Fresh(w, fleet, own)
    ensures Callable(w, fleet, own)
    ensures Allowed(w, ToCall(w, fleet, own))
    ensures var w' := Perform(w, ToCall(w, fleet, own)); Inv(w', base) && Manned(w', Next(fleet, own))
  {
    hide Inv, Allowed, Perform, Mans, Owned, AllFresh, Delete, Kind.Proper, Kind.Made, Kind.HasCopy, ToCall;
    OwnIsAllowed(w, base, fleet, own);
    StillManned(w, fleet, own);
    var call := ToCall(w, fleet, own);
    CallMinds(w, call, base);
    MindingKeepsInv(w, Perform(w, call), call.Encoder(), base);
  }

  /** One more call at the end is one more call of the interleaving. */
  lemma {:induction false} OneMoreOwn(w: World, base: map<Name, Object>, fleet: Fleet, owns: seq<Own>, own: Own,
                                      w': World)
    requires Inv(w, base) && Plays(w, fleet, owns, w') && Manned(w', After(fleet, owns))
    requires Fresh(w', After(fleet, owns), own)
    ensures Callable(w', After(fleet, owns), own)
    ensures var fleet' := After(fleet, owns);
            && Allowed(w', ToCall(w', fleet', own))
            && Plays(w, fleet, owns + [own], Perform(w', ToCall(w', fleet', own)))
            && After(fleet, owns + [own]) == Next(fleet', own)
    decreases owns
  {
    hide Inv, Allowed, Perform, Mans, Fresh, Plays, Next, ToCall, Manned;
    PlayStarts(w, fleet, owns, w');
    if owns == [] {
      CallKeepsFleet(w, base, fleet, own);
      LastOwn(w, fleet, own);
    } else {
      var first := owns[0];
      CallKeepsFleet(w, base, fleet, first);
      var call, next := ToCall(w, fleet, first), Next(fleet, first);
      FirstOwn(w, fleet, owns, w');
      OneMoreOwn(Perform(w, call), base, next, owns[1..], own, w');
      assert (owns + [own])[0] == first && (owns + [own])[1..] == owns[1..] + [own];
      BackToFirst(w, fleet, owns + [own], Perform(w', ToCall(w', After(fleet, owns), own)));
    }
  }

  lemma LastOwn(w: World, fleet: Fleet, own: Own)
    requires Manned(w, fleet) && Fresh(w, fleet, own) && Allowed(w, ToCall(w, fleet, own))
    requires Manned(Perform(w, ToCall(w, fleet, own)), Next(fleet, own))
    ensures Plays(w, fleet, [] + [own], Perform(w, ToCall(w, fleet, own)))
    ensures After(fleet, [] + [own]) == Next(fleet, own)
  {
    hide Allowed, Perform, Mans, ToCall, Owned, AllFresh, Delete, Kind.Proper, Kind.Made, Kind.HasCopy;
    NoneYet(Perform(w, ToCall(w, fleet, own)), Next(fleet, own));
    assert ([] + [own])[1..] == [];
    BackToFirst(w, fleet, [] + [own], Perform(w, ToCall(w, fleet, own)));
  }

  lemma FirstOwn(w: World, fleet: Fleet, owns: seq<Own>, w': World)
    requires Plays(w, fleet, owns, w') && owns != [] && Allowed(w, ToCall(w, fleet, owns[0]))
    requires Manned(Perform(w, ToCall(w, fleet, owns[0])), Next(fleet, owns[0]))
    ensures Plays(Perform(w, ToCall(w, fleet, owns[0])), Next(fleet, owns[0]), owns[1..], w')
    ensures After(fleet, owns) == After(Next(fleet, owns[0]), owns[1..])
  {
    hide Allowed, Perform, Mans, ToCall, Owned, AllFresh, Delete, Kind.Proper, Kind.Made, Kind.HasCopy;
    var call := ToCall(w, fleet, owns[0]);
    var rest := ToCalls(Perform(w, call), Next(fleet, owns[0]), owns[1..]);
    assert ToCalls(w, fleet, owns) == [call] + rest;
    assert ([call] + rest)[1..] == rest;
  }

  lemma BackToFirst(w: World, fleet: Fleet, owns: seq<Own>, w': World)
    requires Manned(w, fleet) && owns != [] && Fresh(w, fleet, owns[0]) && Allowed(w, ToCall(w, fleet, owns[0]))
    requires Plays(Perform(w, ToCall(w, fleet, owns[0])), Next(fleet, owns[0]), owns[1..], w')
    ensures Plays(w, fleet, owns, w')
  {
    hide Allowed, Perform, Mans, ToCall, Owned, AllFresh, Delete, Kind.Proper, Kind.Made, Kind.HasCopy;
    var call := ToCall(w, fleet, owns[0]);
    var rest := ToCalls(Perform(w, call), Next(fleet, owns[0]), owns[1..]);
    assert ToCalls(w, fleet, owns) == [call] + rest;
    assert ([call] + rest)[1..] == rest;
  }

  lemma OneCallLeaks(w: World, base: map<Name, Object>, fleet: Fleet, own: Own)
    requires Inv(w, base) && Manned(w, fleet) && Fresh(w, fleet, own) && Allowed(w, ToCall(w, fleet, own))
    ensures var call, w' := ToCall(w, fleet, own), Perform(w, ToCall(w, fleet, own));
            && (call.Deinit? <==> own.End?)
            && (own.End? ==> own.tag in fleet && call.left == fleet[own.tag].Leaks())
            && |w'.leaked| == |w.leaked| + if own.End? then fleet[own.tag].LeakCount() else 0
  {
    hide Manned, AllFresh, Built, Splits, AllNames, Ready, Reached, Owned, ParamsFit, Delete, SetOf, Kind.Leaks;
    hide Kind.LeakCount;
    hide SetContent, CreateAll, DeleteAll, Execute00, Execute01, Execute02, Execute03, StartDownload, Accounted;
    if own.End? {
      var kind := fleet[own.tag];
      LeaksAreNew(w, base, own.tag, kind.Deletes(w.active[own.tag].p.staging), kind.Leaks());
      SizeOfLeaks(kind);
    }
  }

  lemma SizeOfLeaks(kind: Kind)
    ensures |SetOf(kind.Leaks())| == kind.LeakCount()
  {
    if kind.OfBc1? {
      EncoderBC1.LeakedSize(kind.bc1);
    }
  }

  /** What one encoder leaves, none before it has left. */
  lemma LeaksAreNew(w: World, base: map<Name, Object>, tag: nat, deleted: seq<Name>, left: seq<Name>)
    requires Inv(w, base) && tag in w.active && Shaped(w.active[tag].p)
    requires Splits(AllNames(w.active[tag].p), deleted, left)
    ensures SetOf(left) !! w.leaked
  {
    hide Reached, Distinct, StageReady, AllNames;
    var p := w.active[tag].p;
    assert Healthy(w.active[tag], w.s, tag);
    AllNamesAreNames(p);
    forall n | n in SetOf(left) ensures n !in w.leaked {
      assert n in NameSet(p) && n in Owned(w.s, tag);
    }
  }

  /**
   Once all encoders are gone the objects are those from before and what BC1 and BC3 never give
   back: one for each BC1, four for each BC3, and none if there were no such encoders.
   */
  lemma AllGone(s: State, owns: seq<Own>)
    requires Orderly(World(s, map[], {}), map[], owns) && After(map[], owns) == map[]
    ensures Legal(World(s, map[], {}), ToCalls(World(s, map[], {}), map[], owns))
    ensures var w := Run(World(s, map[], {}), ToCalls(World(s, map[], {}), map[], owns));
            && (forall n :: n in w.s.objects <==> n in s.objects || n in LeakedBy(map[], owns))
            && (forall n :: n in s.objects ==> w.s.objects[n] == s.objects[n])
            && Faultless(s, w.s) && |LeakedBy(map[], owns)| == LeakCount(map[], owns)
            && ((forall own :: own in owns && own.Begin? ==> !own.kind.OfBc1?) ==> w.s.objects == s.objects)
  {
    hide Run, Legal, Forgotten, Orderly, ToCalls, After, LeakedBy, LeakCount;
    var start, none: Fleet := World(s, map[], {}), map[];
    OrderlyIsLegal(start, s.objects, none, owns);
    AnyInterleaving(start, ToCalls(start, none, owns), s.objects);
    Conservation(s, ToCalls(start, none, owns));
    if forall own :: own in owns && own.Begin? ==> !own.kind.OfBc1? {
      NoLeaks(none, owns);
    }
  }

  lemma {:induction false} NoLeaks(fleet: Fleet, owns: seq<Own>)
    requires forall own :: own in owns && own.Begin? ==> !own.kind.OfBc1?
    requires forall tag :: tag in fleet ==> !fleet[tag].OfBc1?
    ensures LeakedBy(fleet, owns) == {}
    decreases owns
  {
    if owns != [] {
      assert owns[0] in owns && forall own :: own in owns[1..] ==> own in owns;
      NoLeaks(Next(fleet, owns[0]), owns[1..]);
    }
  }
}
