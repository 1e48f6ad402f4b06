/** Command-line parsing. */
module CmdLine {
  import opened Strings
  import opened CodecEnum

  datatype CmdLineParams = CmdLineParams(
    quality: nat, dither: bool, usingRenderDoc: bool, codec: Codec, filenames: seq<string>)

  /** The length of the longest common prefix. */
  function CommonPrefix(a: string, b: string): (n: nat)
    ensures n <= |a| && n <= |b|
  {
    if a == "" || b == "" || a[0] != b[0] then 0 else 1 + CommonPrefix(a[1..], b[1..])
  }

  /** outStartIdx is where str leaves what, also when they do not match. */
  method StartsWith(str: string, what: string) returns (matches: bool, outStartIdx: nat)
    ensures matches <==> what <= str
    ensures outStartIdx == CommonPrefix(str, what)
    ensures matches ==> outStartIdx == |what|
  {
    outStartIdx := 0;
    while outStartIdx < |str| && outStartIdx < |what| && str[outStartIdx] == what[outStartIdx]
      invariant outStartIdx <= |str| && outStartIdx <= |what|
      invariant str[..outStartIdx] == what[..outStartIdx]
      invariant CommonPrefix(str, what) == outStartIdx + CommonPrefix(str[outStartIdx..], what[outStartIdx..])
    {
      assert str[outStartIdx..][1..] == str[outStartIdx + 1..];
      assert what[outStartIdx..][1..] == what[outStartIdx + 1..];
      outStartIdx := outStartIdx + 1;
    }
    matches := outStartIdx == |what|;
    if matches {
      assert what[..outStartIdx] == what;
    }
  }

  // ---- what an argument is ----

  datatype Kind = CodecName(name: string) | QualityText(text: string) | Dither | RenderDoc | Help | Unknown | File

  function KindOf(arg: string): Kind {
    if "--codec=" <= arg then CodecName(arg[8..])
    else if "--quality=" <= arg then QualityText(arg[10..])
    else if "--dither" <= arg then Dither
    else if "--renderdoc" <= arg then RenderDoc
    else if "--help" <= arg then Help
    else if "--" <= arg then Unknown
    else File
  }

  predicate Acceptable(arg: string) {
    match KindOf(arg)
    case CodecName(name) => Lookup(SORTED_BY_STRING, name).Some?
    case Help => false
    case Unknown => false
    case _ => true
  }

  /** Values of the arguments of one kind, in order. */
  function Files(args: seq<string>): seq<string> {
    if args == [] then []
    else Files(args[..|args| - 1]) + if KindOf(args[|args| - 1]).File? then [args[|args| - 1]] else []
  }

  function CodecNames(args: seq<string>): seq<string> {
    if args == [] then []
    else
      var kind := KindOf(args[|args| - 1]);
      CodecNames(args[..|args| - 1]) + if kind.CodecName? then [kind.name] else []
  }

  function QualityTexts(args: seq<string>): seq<string> {
    if args == [] then []
    else
      var kind := KindOf(args[|args| - 1]);
      QualityTexts(args[..|args| - 1]) + if kind.QualityText? then [kind.text] else []
  }

  predicate Accepted(args: seq<string>) {
    (forall arg :: arg in args ==> Acceptable(arg)) && |Files(args)| == 2
  }

  /** static_cast<uint8_t>, then at most 2. */
  function Quality(atoi: string -> int, text: string): nat {
    var byte := atoi(text) % 256;
    if byte < 2 then byte else 2
  }

  function CodecOf(name: string, otherwise: Codec): Codec {
    match Lookup(SORTED_BY_STRING, name)
    case Some(codec) => codec
    case None => otherwise
  }

  /** The parameters that accepted arguments give: the last codec and the last quality count. */
  ghost function Result(atoi: string -> int, args: seq<string>, init: CmdLineParams): CmdLineParams {
    var codecs, qualities := CodecNames(args), QualityTexts(args);
    CmdLineParams(
      if qualities == [] then init.quality else Quality(atoi, qualities[|qualities| - 1]),
      init.dither || exists arg :: arg in args && KindOf(arg).Dither?,
      init.usingRenderDoc || exists arg :: arg in args && KindOf(arg).RenderDoc?,
      if codecs == [] then init.codec else CodecOf(codecs[|codecs| - 1], init.codec),
      Files(args)
    )
  }

  /** The effect of one acceptable argument. */
  function WithArg(atoi: string -> int, params: CmdLineParams, arg: string): CmdLineParams {
    match KindOf(arg)
    case CodecName(name) => params.(codec := CodecOf(name, params.codec))
    case QualityText(text) => params.(quality := Quality(atoi, text))
    case Dither => params.(dither := true)
    case RenderDoc => params.(usingRenderDoc := true)
    case File => params.(filenames := params.filenames + [arg])
    case _ => params
  }

  // ---- arguments by their text ----

  lemma TextsDiffer(arg: string, one: string, other: string, k: nat)
    requires one <= arg && k < |one| && k < |other| && one[k] != other[k]
    ensures !(other <= arg)
  {
  }

  lemma QualityByText(arg: string)
    requires "--quality=" <= arg
    ensures KindOf(arg) == QualityText(arg[10..])
  {
    TextsDiffer(arg, "--quality=", "--codec=", 2);
  }

  lemma DitherByText(arg: string)
    requires "--dither" <= arg
    ensures KindOf(arg) == Dither
  {
    TextsDiffer(arg, "--dither", "--codec=", 2);
    TextsDiffer(arg, "--dither", "--quality=", 2);
  }

  lemma RenderDocByText(arg: string)
    requires "--renderdoc" <= arg
    ensures KindOf(arg) == RenderDoc
  {
    TextsDiffer(arg, "--renderdoc", "--codec=", 2);
    TextsDiffer(arg, "--renderdoc", "--quality=", 2);
    TextsDiffer(arg, "--renderdoc", "--dither", 2);
  }

  lemma OptionByText(arg: string, option: string)
    requires "--" <= option && option <= arg
    ensures "--" <= arg
  {
    assert option[0] == '-' && option[1] == '-';
  }

  lemma FileByText(arg: string)
    ensures KindOf(arg).File? <==> !("--" <= arg)
  {
    if KindOf(arg).File? {
    } else if !("--" <= arg) {
      if "--codec=" <= arg { OptionByText(arg, "--codec="); }
      if "--quality=" <= arg { OptionByText(arg, "--quality="); }
      if "--dither" <= arg { OptionByText(arg, "--dither"); }
      if "--renderdoc" <= arg { OptionByText(arg, "--renderdoc"); }
      if "--help" <= arg { OptionByText(arg, "--help"); }
    }
  }

  /** What an argument does, by how it begins. */
  ghost predicate ArgDoes(atoi: string -> int, arg: string, init: CmdLineParams, ok: bool, params: CmdLineParams) {
    && ("--codec=" <= arg ==>
          match Lookup(SORTED_BY_STRING, arg[8..])
          case Some(codec) => ok && params == init.(codec := codec)
          case None => !ok)
    && ("--quality=" <= arg ==>
          var byte := atoi(arg[10..]) % 256;
          ok && params == init.(quality := if byte == 0 then 0 else if byte == 1 then 1 else 2))
    && ("--dither" <= arg ==> ok && params == init.(dither := true))
    && ("--renderdoc" <= arg ==> ok && params == init.(usingRenderDoc := true))
    && (!("--" <= arg) ==>
          && (ok <==> |init.filenames| < 2)
          && (ok ==> params == init.(filenames := init.filenames + [arg])))
    && ("--" <= arg && ok ==>
          "--codec=" <= arg || "--quality=" <= arg || "--dither" <= arg || "--renderdoc" <= arg)
  }

  /** This is all that ParseArg may do. */
  lemma ArgIsDone(atoi: string -> int, arg: string, init: CmdLineParams, ok: bool, params: CmdLineParams)
    requires ok <==> Acceptable(arg) && (KindOf(arg).File? ==> |init.filenames| < 2)
    requires ok ==> params == WithArg(atoi, init, arg)
    ensures ArgDoes(atoi, arg, init, ok, params)
  {
    hide Lookup, StrictlySorted;
    FileByText(arg);
    if "--quality=" <= arg {
      QualityByText(arg);
    }
    if "--dither" <= arg {
      DitherByText(arg);
    }
    if "--renderdoc" <= arg {
      RenderDocByText(arg);
    }
  }

  /** The chain of tests on one argument. */
  method ParseArg(arg: string, init: CmdLineParams, atoi: string -> int) returns (ok: bool, params: CmdLineParams)
    ensures ok <==> Acceptable(arg) && (KindOf(arg).File? ==> |init.filenames| < 2)
    ensures ok ==> params == WithArg(atoi, init, arg)
  {
    hide Lookup, CommonPrefix, StrictlySorted, Quality;
    ShippedTableIsSorted();
    params := init;
    var matches, startIdx := StartsWith(arg, "--codec=");
    if matches {
      var found, codec := CodecEnum.Find(SORTED_BY_STRING, arg[startIdx..], params.codec);
      return found, params.(codec := codec);
    }
    matches, startIdx := StartsWith(arg, "--quality=");
    if matches {
      return true, params.(quality := Quality(atoi, arg[startIdx..]));
    }
    matches, startIdx := StartsWith(arg, "--dither");
    if matches {
      return true, params.(dither := true);
    }
    matches, startIdx := StartsWith(arg, "--renderdoc");
    if matches {
      return true, params.(usingRenderDoc := true);
    }
    matches, startIdx := StartsWith(arg, "--help");
    if matches {
      return false, params;
    }
    matches, startIdx := StartsWith(arg, "--");
    if matches || |params.filenames| >= 2 {
      return false, params;
    }
    return true, params.(filenames := params.filenames + [arg]);
  }

  /** args[0] is the program's name. The parameters of a rejected command line are not used. */
  method ParseCmdLine(args: seq<string>, init: CmdLineParams, atoi: string -> int)
    returns (ok: bool, params: CmdLineParams)
    ensures ok <==> |args| >= 3 && Accepted(args[1..])
    ensures ok ==> params == Result(atoi, args[1..], init) && |params.filenames| == 2
  {
    hide KindOf, Acceptable, Result, Files, WithArg;
    params := init.(filenames := []);
    if |args| < 3 {
      return false, params;
    }
    ghost var all := args[1..];
    ResultOfNone(atoi, init);
    for i := 1 to |args|
      invariant forall arg :: arg in args[1..i] ==> Acceptable(arg)
      invariant |Files(args[1..i])| <= 2
      invariant params == Result(atoi, args[1..i], init)
    {
      ghost var before := args[1..i];
      assert args[1..i + 1] == before + [args[i]] == all[..i];
      FilesAdds(before, args[i]);
      FilesOfPrefix(all, i);
      assert args[i] in all && Result(atoi, before, init).filenames == Files(before) by {
        assert args[i] == all[i - 1];
        ResultFiles(atoi, before, init);
      }
      ok, params := ParseArg(args[i], params, atoi);
      if !ok {
        return;
      }
      ResultAdds(atoi, before, args[i], init);
    }
    ResultFiles(atoi, all, init);
    assert args[1..|args|] == all;
    ok := |params.filenames| == 2;
  }

  lemma ResultOfNone(atoi: string -> int, init: CmdLineParams)
    ensures Result(atoi, [], init) == init.(filenames := []) && Files([]) == []
  {
  }

  lemma ResultFiles(atoi: string -> int, args: seq<string>, init: CmdLineParams)
    ensures Result(atoi, args, init).filenames == Files(args)
  {
  }

  lemma {:induction false} FilesOfPrefix(args: seq<string>, n: nat)
    requires n <= |args|
    ensures |Files(args[..n])| <= |Files(args)|
    decreases |args|
  {
    if n < |args| {
      var rest := args[..|args| - 1];
      assert rest[..n] == args[..n];
      FilesOfPrefix(rest, n);
    } else {
      assert args[..n] == args;
    }
  }

  lemma FilesAdds(args: seq<string>, arg: string)
    ensures Files(args + [arg]) == Files(args) + (if KindOf(arg).File? then [arg] else [])
  {
    var all := args + [arg];
    assert all[..|all| - 1] == args && all[|all| - 1] == arg;
  }

  /** What one more argument adds. */
  lemma ResultAdds(atoi: string -> int, args: seq<string>, arg: string, init: CmdLineParams)
    requires Acceptable(arg)
    ensures Result(atoi, args + [arg], init) == WithArg(atoi, Result(atoi, args, init), arg)
  {
    hide KindOf, Quality, Lookup, Files, CodecNames, QualityTexts;
    var all := args + [arg];
    assert forall a :: a in all <==> a in args || a == arg;
    FilesAdds(args, arg);
    OptionsAdd(args, arg);
  }

  lemma OptionsAdd(args: seq<string>, arg: string)
    ensures CodecNames(args + [arg]) == CodecNames(args) + if KindOf(arg).CodecName? then [KindOf(arg).name] else []
    ensures QualityTexts(args + [arg])
            == QualityTexts(args) + if KindOf(arg).QualityText? then [KindOf(arg).text] else []
  {
    hide KindOf;
    var all := args + [arg];
    assert all[..|all| - 1] == args && all[|all| - 1] == arg;
  }

  // ---- the parameters by the arguments' texts ----

  lemma {:induction false} NoCodecs(args: seq<string>)
    requires forall i :: 0 <= i < |args| ==> !("--codec=" <= args[i])
    ensures CodecNames(args) == []
  {
    hide KindOf;
    if args != [] {
      NoCodecs(args[..|args| - 1]);
      KindByText(args[|args| - 1]);
    }
  }

  lemma {:induction false} NoQualities(args: seq<string>)
    requires forall i :: 0 <= i < |args| ==> !("--quality=" <= args[i])
    ensures QualityTexts(args) == []
  {
    hide KindOf;
    if args != [] {
      NoQualities(args[..|args| - 1]);
      KindByText(args[|args| - 1]);
    }
  }

  lemma KindByText(arg: string)
    ensures KindOf(arg).CodecName? <==> "--codec=" <= arg
    ensures KindOf(arg).QualityText? <==> "--quality=" <= arg
    ensures KindOf(arg).Dither? <==> "--dither" <= arg
    ensures KindOf(arg).RenderDoc? <==> "--renderdoc" <= arg
    ensures "--codec=" <= arg ==> KindOf(arg) == CodecName(arg[8..])
    ensures "--quality=" <= arg ==> KindOf(arg) == QualityText(arg[10..])
  {
    if "--quality=" <= arg {
      QualityByText(arg);
    }
    if "--dither" <= arg {
      DitherByText(arg);
    }
    if "--renderdoc" <= arg {
      RenderDocByText(arg);
    }
  }

  /** The last argument with that option is at i. */
  ghost predicate LastOf(args: seq<string>, option: string, i: nat) {
    i < |args| && option <= args[i] && forall j :: i < j < |args| ==> !(option <= args[j])
  }

  lemma {:induction false} LastQuality(args: seq<string>, i: nat)
    requires LastOf(args, "--quality=", i)
    ensures QualityTexts(args) != [] && QualityTexts(args)[|QualityTexts(args)| - 1] == args[i][10..]
  {
    hide KindOf;
    KindByText(args[|args| - 1]);
    if i < |args| - 1 {
      LastQuality(args[..|args| - 1], i);
    }
  }

  lemma {:induction false} LastCodec(args: seq<string>, i: nat)
    requires LastOf(args, "--codec=", i)
    ensures CodecNames(args) != [] && CodecNames(args)[|CodecNames(args)| - 1] == args[i][8..]
  {
    hide KindOf;
    KindByText(args[|args| - 1]);
    if i < |args| - 1 {
      LastCodec(args[..|args| - 1], i);
    }
  }

  /** Switches are on if they occur. */
  lemma SwitchesByText(atoi: string -> int, args: seq<string>, init: CmdLineParams)
    ensures var r := Result(atoi, args, init);
            && (r.dither <==> init.dither || exists arg :: arg in args && "--dither" <= arg)
            && (r.usingRenderDoc <==> init.usingRenderDoc || exists arg :: arg in args && "--renderdoc" <= arg)
  {
    hide KindOf, Lookup, CodecNames, QualityTexts, Files, Quality, CodecOf;
    forall arg | arg in args
      ensures (KindOf(arg).Dither? <==> "--dither" <= arg) && (KindOf(arg).RenderDoc? <==> "--renderdoc" <= arg)
    {
      KindByText(arg);
    }
  }

  /** The last quality counts: 0, 1 or 2 by the low byte of what atoi makes of it. */
  lemma LastQualityCounts(atoi: string -> int, args: seq<string>, init: CmdLineParams, i: nat)
    ensures (forall k :: 0 <= k < |args| ==> !("--quality=" <= args[k])) ==>
              Result(atoi, args, init).quality == init.quality
    ensures LastOf(args, "--quality=", i) ==>
              var byte := atoi(args[i][10..]) % 256;
              Result(atoi, args, init).quality == if byte == 0 then 0 else if byte == 1 then 1 else 2
  {
    hide KindOf, Lookup, CodecNames, QualityTexts, Files, CodecOf;
    if forall k :: 0 <= k < |args| ==> !("--quality=" <= args[k]) {
      NoQualities(args);
    }
    if LastOf(args, "--quality=", i) {
      LastQuality(args, i);
    }
  }

  /** The last codec counts. */
  lemma LastCodecCounts(atoi: string -> int, args: seq<string>, init: CmdLineParams, i: nat)
    ensures (forall k :: 0 <= k < |args| ==> !("--codec=" <= args[k])) ==> Result(atoi, args, init).codec == init.codec
    ensures LastOf(args, "--codec=", i) && Lookup(SORTED_BY_STRING, args[i][8..]).Some? ==>
              Some(Result(atoi, args, init).codec) == Lookup(SORTED_BY_STRING, args[i][8..])
  {
    hide KindOf, Lookup, CodecNames, QualityTexts, Files, Quality;
    if forall k :: 0 <= k < |args| ==> !("--codec=" <= args[k]) {
      NoCodecs(args);
    }
    if LastOf(args, "--codec=", i) {
      LastCodec(args, i);
    }
  }

  /** File names are the arguments that do not begin with two hyphens, in order. */
  lemma FilesByText(atoi: string -> int, args: seq<string>, arg: string, init: CmdLineParams)
    ensures Result(atoi, [], init).filenames == []
    ensures Result(atoi, args + [arg], init).filenames
            == Result(atoi, args, init).filenames + if "--" <= arg then [] else [arg]
  {
    hide KindOf;
    FileByText(arg);
    FilesAdds(args, arg);
  }

  /** Which command lines are accepted. */
  lemma AcceptedByText(args: seq<string>)
    ensures Accepted(args) <==>
            && |Files(args)| == 2
            && forall arg :: arg in args && "--" <= arg ==>
                 || "--quality=" <= arg || "--dither" <= arg || "--renderdoc" <= arg
                 || ("--codec=" <= arg && Lookup(SORTED_BY_STRING, arg[8..]).Some?)
  {
    hide Lookup, Files, KindOf;
    forall arg | arg in args
      ensures Acceptable(arg) <==>
              ("--" <= arg ==> || "--quality=" <= arg || "--dither" <= arg || "--renderdoc" <= arg
                               || ("--codec=" <= arg && Lookup(SORTED_BY_STRING, arg[8..]).Some?))
    {
      AcceptableByText(arg);
    }
  }

  lemma AcceptableByText(arg: string)
    ensures Acceptable(arg) <==>
            ("--" <= arg ==> || "--quality=" <= arg || "--dither" <= arg || "--renderdoc" <= arg
                             || ("--codec=" <= arg && Lookup(SORTED_BY_STRING, arg[8..]).Some?))
  {
    hide Lookup;
    FileByText(arg);
    KindByText(arg);
  }

  // ---- the order of arguments ----

  lemma {:induction false} FilesCount(args: seq<string>, arg: string)
    ensures multiset(Files(args))[arg] == if KindOf(arg).File? then multiset(args)[arg] else 0
  {
    hide KindOf;
    if args != [] {
      var rest, last := args[..|args| - 1], args[|args| - 1];
      FilesCount(rest, arg);
      FilesAdds(rest, last);
      assert args == rest + [last];
    }
  }

  /** Whether a command line is accepted does not depend on the order of its arguments. */
  lemma VerdictIgnoresOrder(a: seq<string>, b: seq<string>)
    requires multiset(a) == multiset(b)
    ensures Accepted(a) <==> Accepted(b)
  {
    hide KindOf, Acceptable, Files;
    forall arg ensures multiset(Files(a))[arg] == multiset(Files(b))[arg] && (arg in a <==> arg in b) {
      FilesCount(a, arg);
      FilesCount(b, arg);
      assert arg in a <==> arg in multiset(a);
      assert arg in b <==> arg in multiset(b);
    }
    assert multiset(Files(a)) == multiset(Files(b));
    assert |Files(a)| == |multiset(Files(a))| && |Files(b)| == |multiset(Files(b))|;
  }

  /**
   Neither do the parameters, as long as file names, codecs and qualities each keep their own
   relative order.
   */
  lemma ResultIgnoresInterleaving(atoi: string -> int, a: seq<string>, b: seq<string>, init: CmdLineParams)
    requires multiset(a) == multiset(b)
    requires Files(a) == Files(b) && CodecNames(a) == CodecNames(b) && QualityTexts(a) == QualityTexts(b)
    ensures Result(atoi, a, init) == Result(atoi, b, init)
  {
    hide KindOf, Files, CodecNames, QualityTexts;
    forall arg ensures arg in a <==> arg in b {
      assert arg in a <==> arg in multiset(a);
      assert arg in b <==> arg in multiset(b);
    }
  }
}
