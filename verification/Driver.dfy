/** The order in which main calls an encoder, and what a run of the program leaves and produces. */
module Driver {
  import opened Gl
  import opened Interleaving
  import opened Pipelines

  /** One turn of the loop in main; execute03 is called under RenderDoc only. */
  function Turn(p: Pipeline, s: State, params: seq<seq<int>>, copy: bool): State
    requires Shaped(p) && |params| == |p.stages|
  {
    var passes := Execute02(p, Execute01(p, Execute00(p, s), params));
    if copy then Execute03(p, passes) else passes
  }

  function Turns(p: Pipeline, s: State, params: seq<seq<int>>, copy: bool, n: nat): State
    requires Shaped(p) && |params| == |p.stages|
  {
    if n == 0 then s else Turn(p, Turns(p, s, params, copy, n - 1), params, copy)
  }

  /** After the passes the result is there, but not yet for glGetTexImage to read. */
  lemma PassesFinish(p: Pipeline, s: State, level: nat, old': seq<seq<int>>, params: seq<seq<int>>)
    requires Ready(p, s) && Reached(p, s, level, old') && ParamsFit(p, params) && Downloads(p)
    ensures var s' := Execute02(p, Execute01(p, Execute00(p, s), params));
            Ready(p, s') && Stays(s, s', p.tag) && Reached(p, s', 3, params) && p.result in s'.unread
  {
    hide Execute00, Execute01, Execute02, Stays, Reached, Owned, StageReady, Distinct, NameSet;
    Execute00Keeps(p, s, level, old');
    var s0 := Execute00(p, s);
    var level0 := if level == 0 then 1 else level;
    Execute01Keeps(p, s0, level0, old', params);
    var s1 := Execute01(p, s0, params);
    Execute02Keeps(p, s1, 2, params);
    ResultIsUnread(p, s0, level0, old', params);
    StaysReady(p, s, s0, s1);
    StaysReady(p, s, s1, Execute02(p, s1));
  }

  lemma StaysReady(p: Pipeline, s: State, mid: State, s': State)
    requires Ready(p, s) && Ready(p, mid) && Stays(s, mid, p.tag) && Stays(mid, s', p.tag)
    ensures Stays(s, s', p.tag)
  {
    hide Stays, Owned;
    StaysTransitive(s, mid, s', p.tag);
  }

  lemma PassUnread(p: Pipeline, s: State, stage: Stage, params: seq<int>)
    requires StageReady(p, s, stage) && Owned(s, p.tag) == NameSet(p)
    ensures Pass(s, stage, params).unread == s.unread + {stage.target}
    ensures Pass(s, stage, params).unfetched == s.unfetched + {stage.target}
  {
    assert Texture(stage.target) in NameSet(p);
    assert Texture(stage.target) in Owned(s, p.tag);
  }

  lemma StagesUnread(p: Pipeline, s: State, params: seq<seq<int>>)
    requires Ready(p, s) && ParamsFit(p, params)
    ensures p.stages[0].target in Execute01(p, s, params).unread
    ensures forall i :: 0 <= i < |p.stages| ==> p.stages[i].target in Execute01(p, s, params).unfetched
  {
    hide Owned, NameSet, Distinct, Pass, StageReady;
    StageKeeps(p, s, 0, params[0]);
    PassUnread(p, s, p.stages[0], params[0]);
    if |p.stages| == 2 {
      PassUnread(p, Pass(s, p.stages[0], params[0]), p.stages[1], params[1]);
    }
  }

  /** Without its barrier, execute02 would sample what execute01 has only just written. */
  lemma BarrierIsNeeded(p: Pipeline, s: State, level: nat, old': seq<seq<int>>, params: seq<seq<int>>)
    requires Ready(p, s) && Reached(p, s, level, old') && ParamsFit(p, params) && p.stitch != []
    ensures var s1 := Execute01(p, s, params);
            Ready(p, s1) && Pass(s1, p.stitch[0], []).staleFetches == s.staleFetches + 1
  {
    hide Execute01, Pass, Reached, Owned, NameSet, Others, Distinct;
    Execute01Keeps(p, s, level, old', params);
    StagesUnread(p, s, params);
    StitchTextures(p);
    StalePass(p, Execute01(p, s, params), p.stitch[0]);
  }

  lemma StalePass(p: Pipeline, s: State, stage: Stage)
    requires StageReady(p, s, stage) && stage.kernel.Stitch? && Owned(s, p.tag) == NameSet(p)
    requires stage.inputs[0] in s.unfetched
    ensures Pass(s, stage, []).staleFetches == s.staleFetches + 1
  {
    assert Texture(stage.target) in NameSet(p);
    assert Texture(stage.target) in Owned(s, p.tag);
  }

  lemma StitchUnread(p: Pipeline, s: State)
    requires Ready(p, s) && p.stitch != []
    ensures p.stitch[0].target in Execute02(p, s).unread
  {
    hide Owned, NameSet, Distinct, Pass;
    SameObjects(s, Barrier(s, {TextureFetch}), p.tag);
    PassUnread(p, Barrier(s, {TextureFetch}), p.stitch[0], []);
  }

  lemma ResultIsUnread(p: Pipeline, s: State, level: nat, old': seq<seq<int>>, params: seq<seq<int>>)
    requires Ready(p, s) && Reached(p, s, level, old') && ParamsFit(p, params) && Downloads(p)
    ensures p.result in Execute02(p, Execute01(p, s, params)).unread
  {
    hide Execute01, Pass, Reached, Owned, NameSet, Stays, Distinct, StageReady;
    Execute01Keeps(p, s, level, old', params);
    if p.stitch != [] {
      StitchUnread(p, Execute01(p, s, params));
    } else {
      StagesUnread(p, s, params);
    }
  }

  /** Nothing has been computed yet, whatever the parameters. */
  lemma AtStart(p: Pipeline, s: State, some: seq<seq<int>>, params: seq<seq<int>>)
    requires Settled(p, s) && Reached(p, s, 0, some) && |params| == |p.stages|
    ensures Reached(p, s, 0, params)
  {
  }

  /** After any number of turns the encoder is done; the result is readable if execute03 was called. */
  lemma {:induction false} TurnsFinish(p: Pipeline, s: State, start: seq<seq<int>>, params: seq<seq<int>>, copy: bool,
                                       n: nat)
    requires Ready(p, s) && Reached(p, s, 0, start) && ParamsFit(p, params) && Downloads(p) && n > 0
    requires copy ==> p.dst != 0
    ensures var s' := Turns(p, s, params, copy, n);
            Ready(p, s') && Stays(s, s', p.tag) && Reached(p, s', 3, params) && (p.result in s'.unread <==> !copy)
  {
    hide Execute00, Execute01, Execute02, Execute03, Stays, Reached, Owned, StageReady, Distinct, NameSet, Downloads;
    var before := Turns(p, s, params, copy, n - 1);
    if n == 1 {
      TurnFinishes(p, s, 0, start, params, copy);
    } else {
      TurnsFinish(p, s, start, params, copy, n - 1);
      TurnFinishes(p, before, 3, params, params, copy);
      StaysReady(p, s, before, Turn(p, before, params, copy));
    }
  }

  lemma TurnFinishes(p: Pipeline, s: State, level: nat, old': seq<seq<int>>, params: seq<seq<int>>, copy: bool)
    requires Ready(p, s) && Reached(p, s, level, old') && ParamsFit(p, params) && Downloads(p) && (copy ==> p.dst != 0)
    ensures var s' := Turn(p, s, params, copy);
            Ready(p, s') && Stays(s, s', p.tag) && Reached(p, s', 3, params) && (p.result in s'.unread <==> !copy)
  {
    hide Execute00, Execute01, Execute02, Execute03, Stays, Reached, Owned, StageReady, Distinct, NameSet, Downloads;
    PassesFinish(p, s, level, old', params);
    var passes := Execute02(p, Execute01(p, Execute00(p, s), params));
    if copy {
      Execute03Keeps(p, passes, 3, params);
      StaysReady(p, s, passes, Execute03(p, passes));
    }
  }

  /** The encoder stays ready between the calls of a turn. */
  lemma Midway(p: Pipeline, s: State, level: nat, params: seq<seq<int>>)
    requires Ready(p, s) && Reached(p, s, level, params) && ParamsFit(p, params)
    ensures var s0 := Execute00(p, s);
            var s1 := Execute01(p, s0, params);
            Ready(p, s0) && Ready(p, s1) && Ready(p, Execute02(p, s1))
  {
    hide Execute00, Execute01, Execute02, Stays, Reached, Owned, StageReady, Distinct, NameSet;
    var s0, level0 := Execute00(p, s), if level == 0 then 1 else level;
    Execute00Keeps(p, s, level, params);
    Execute01Keeps(p, s0, level0, params, params);
    Execute02Keeps(p, Execute01(p, s0, params), 2, params);
  }

  /** The download after all turns holds what is wanted exactly if execute03 was called. */
  lemma DownloadAtEnd(p: Pipeline, s: State, params: seq<seq<int>>, copy: bool, n: nat, buffer: nat)
    requires Ready(p, s) && Reached(p, s, 0, params) && ParamsFit(p, params) && Downloads(p) && n > 0
    requires (copy ==> p.dst != 0)
    requires buffer != 0 && Buffer(buffer) !in Delete(Turns(p, s, params, copy, n), Buffer(p.staging)).objects
    ensures p.stitch != [] ==> |p.stages| == 2 && |p.stitch[0].inputs| == 2
    ensures var p', s' := p.(staging := buffer), StartDownload(p, Turns(p, s, params, copy, n), buffer);
            && Ready(p', s') && Stays(s, s', p.tag)
            && ContentOf(s', Buffer(buffer)) == if copy || s.ordered then Wanted(p, params) else Undefined
  {
    hide Turns, Reached, Owned, Others, StageReady, Distinct, NameSet, Delete, StartDownload, StageContent;
    hide StitchContent;
    TurnsFinish(p, s, params, params, copy, n);
    var last := Turns(p, s, params, copy, n);
    DownloadOf(p, last, params, buffer);
    DownloadKeeps(p, last, 3, params, buffer);
    StaysReady(p, s, last, StartDownload(p, last, buffer));
  }

  /** What execute03 copies: the stitched result or the first channel's. */
  predicate Copies(p: Pipeline) {
    0 < |p.stages| && (p.copied == p.stages[0].target || (p.stitch != [] && p.copied == p.stitch[0].target))
  }

  function CopyContent(p: Pipeline, params: seq<seq<int>>): Content
    requires Shaped(p) && |params| == |p.stages| && (p.stitch != [] ==> |p.stages| == 2 && |p.stitch[0].inputs| == 2)
  {
    if p.stitch != [] && p.copied == p.stitch[0].target then StitchContent(p, params) else StageContent(p, 0, params)
  }

  /** After any number of turns under RenderDoc the texture to copy to holds what the last turn computed. */
  lemma CopyAtEnd(p: Pipeline, s: State, start: seq<seq<int>>, params: seq<seq<int>>, n: nat)
    requires Ready(p, s) && Reached(p, s, 0, start) && ParamsFit(p, params) && Downloads(p) && n > 0
    requires p.dst != 0 && Copies(p)
    ensures p.stitch != [] ==> |p.stages| == 2 && |p.stitch[0].inputs| == 2
    ensures ContentOf(Turns(p, s, params, true, n), Texture(p.dst)) == CopyContent(p, params)
  {
    hide Execute00, Execute01, Execute02, Execute03, Stays, Owned, StageReady, NameSet, Downloads, StageContent;
    hide StitchContent;
    var before := Turns(p, s, params, true, n - 1);
    if n > 1 {
      TurnsFinish(p, s, start, params, true, n - 1);
    }
    PassesFinish(p, before, if n == 1 then 0 else 3, if n == 1 then start else params, params);
    Execute03Keeps(p, Execute02(p, Execute01(p, Execute00(p, before), params)), 3, params);
    if p.stitch != [] {
      StitchTextures(p);
    }
  }

  /** Nothing is left of an encoder that has come, worked and gone. */
  lemma NothingRemains(s: State, start: State, done: State, s': State, tag: nat)
    requires Stays(s, start, tag) && Stays(start, done, tag) && Stays(done, s', tag)
    requires Owned(s, tag) == {} && Owned(s', tag) == {}
    ensures s'.objects == s.objects && Faultless(s, s') && start.ordered == s.ordered
  {
    OnlyOthers(s, tag);
    OnlyOthers(s', tag);
  }

  lemma OthersRemain(s: State, start: State, done: State, s': State, tag: nat)
    requires Stays(s, start, tag) && Stays(start, done, tag) && Stays(done, s', tag) && Owned(s, tag) == {}
    ensures Others(s', tag) == s.objects && Faultless(s, s') && start.ordered == s.ordered
  {
    OnlyOthers(s, tag);
  }

  lemma OnlyOthers(s: State, tag: nat)
    requires Owned(s, tag) == {}
    ensures Others(s, tag) == s.objects
  {
    assert forall n :: n in s.objects ==> n !in Owned(s, tag) && n in Others(s, tag);
  }

  lemma FirstTurn(p: Pipeline, s: State, params: seq<seq<int>>, copy: bool)
    requires Shaped(p) && |params| == |p.stages|
    ensures Turns(p, s, params, copy, 0) == s
  {
  }

  lemma OneMoreTurn(p: Pipeline, s: State, params: seq<seq<int>>, copy: bool, n: nat)
    requires Shaped(p) && |params| == |p.stages|
    ensures Turns(p, s, params, copy, n + 1) == Turn(p, Turns(p, s, params, copy, n), params, copy)
  {
  }
}
