/** sds::fstream: a C file with its own status bits, and strings with an 8-bit length. */
module Fstream {
  import opened Strings

  newtype Byte = x: int | 0 <= x < 256

  /** What read and write return when they are not allowed. */
  const SIZE_MAX := 0xFFFF_FFFF_FFFF_FFFF

  datatype Mode = Input | InputEnd | OutputKeep | OutputKeepEnd | OutputDiscard | InOutKeep | InOutEnd
  {
    predicate Reads() { Input? || InputEnd? || InOutKeep? || InOutEnd? }

    predicate Writes() { !Input? && !InputEnd? }

    predicate AtEnd() { InputEnd? || OutputKeepEnd? || InOutEnd? }
  }

  datatype Whence = Beg | Cur | End

  /** The status bits. */
  datatype Bits = Bits(eof: bool, bad: bool, fail: bool)

  const CLEAR := Bits(false, false, false)

  /** Every bit of a is set in b. */
  predicate Within(a: Bits, b: Bits) { (a.eof ==> b.eof) && (a.bad ==> b.bad) && (a.fail ==> b.fail) }

  /** An open C file: its indicators are feof and ferror. */
  datatype Handle = Handle(path: string, cursor: nat, feof: bool, ferror: bool)

  /** room is how long the disk lets a file become. */
  datatype State = State(
    files: map<string, seq<Byte>>, room: nat,
    handle: Option<Handle>, bits: Bits, canRead: bool, canWrite: bool)
  {
    function Content(): seq<Byte> {
      if handle.Some? && handle.value.path in files then files[handle.value.path] else []
    }
  }

  // ---- the C library ----

  function Min(a: nat, b: nat): nat { if a < b then a else b }

  function Monus(a: nat, b: nat): nat { if a < b then 0 else a - b }

  function Zeros(n: nat): seq<Byte> { seq(n, i => 0) }

  /** fread: what it returns, and the file afterwards. */
  function Fread(h: Handle, content: seq<Byte>, n: nat): (seq<Byte>, Handle) {
    var k := Min(n, Monus(|content|, h.cursor));
    var data := if k == 0 then [] else content[h.cursor..h.cursor + k];
    (data, h.(cursor := h.cursor + k, feof := h.feof || k < n))
  }

  /** fwrite: how many bytes fit, the content and the file afterwards. A gap is filled with zeros. */
  function Fwrite(h: Handle, content: seq<Byte>, data: seq<Byte>, room: nat): (nat, seq<Byte>, Handle) {
    var k := Min(|data|, Monus(room, h.cursor));
    var after := if k == 0 then content else Overwrite(content, h.cursor, data[..k]);
    (k, after, h.(cursor := h.cursor + k, ferror := h.ferror || k < |data|))
  }

  function Overwrite(content: seq<Byte>, at: nat, data: seq<Byte>): seq<Byte> {
    var padded := content + Zeros(Monus(at, |content|));
    padded[..at] + data + padded[Min(at + |data|, |padded|)..]
  }

  // ---- the members of fstream ----

  function Close(s: State): State { s.(handle := None, bits := CLEAR, canRead := false, canWrite := false) }

  function Open(s: State, path: string, mode: Mode): State {
    var allowed := Close(s).(canRead := mode.Reads(), canWrite := mode.Writes());
    if mode.OutputDiscard? then allowed.(files := s.files[path := []], handle := Some(Handle(path, 0, false, false)))
    else if path !in s.files then allowed
    else
      var start := allowed.(handle := Some(Handle(path, 0, false, false)));
      if mode.AtEnd() then Seek(start, 0, End) else start
  }

  /** Asking sets badbit when the C file is in error. */
  function Good(s: State): (State, bool) {
    if s.handle.None? then (s, false)
    else
      var bad := s.bits.bad || (!s.bits.fail && s.handle.value.ferror);
      var asked := s.(bits := s.bits.(bad := bad));
      (asked, !bad && !s.bits.fail)
  }

  function Read(s: State, n: nat): (State, seq<Byte>, nat)
    requires s.canRead ==> s.handle.Some?
  {
    if s.canRead then
      var (data, h) := Fread(s.handle.value, s.Content(), n);
      var bits := if |data| == n then s.bits else s.bits.(bad := s.bits.bad || h.ferror, eof := s.bits.eof || h.feof);
      (s.(handle := Some(h), bits := bits), data, |data|)
    else (s.(bits := s.bits.(fail := true)), [], SIZE_MAX)
  }

  function Write(s: State, data: seq<Byte>): (State, nat)
    requires s.canWrite ==> s.handle.Some?
  {
    if s.canWrite then
      var (k, content, h) := Fwrite(s.handle.value, s.Content(), data, s.room);
      var bits := if k == |data| then s.bits else s.bits.(bad := true);
      (s.(files := s.files[h.path := content], handle := Some(h), bits := bits), k)
    else (s.(bits := s.bits.(fail := true)), SIZE_MAX)
  }

  /** A position before the start of the file is refused, which does not put the C file in error. */
  function Seek(s: State, dir: int, whence: Whence): State {
    var (asked, good) := Good(s);
    if !good then asked.(bits := asked.bits.(fail := true))
    else
      var h := s.handle.value;
      var from := match whence case Beg => 0 case Cur => h.cursor case End => |s.Content()|;
      if from + dir < 0 then asked.(bits := asked.bits.(fail := true))
      else asked.(handle := Some(h.(cursor := from + dir, feof := false)))
  }

  function Tell(s: State): (State, nat) {
    var (asked, good) := Good(s);
    if !good then (asked.(bits := asked.bits.(fail := true)), SIZE_MAX) else (asked, s.handle.value.cursor)
  }

  // ---- strings ----

  function Cut(text: seq<Byte>): (r: seq<Byte>)
    ensures |r| <= 255 && r <= text
  {
    text[..Min(|text|, 255)]
  }

  function WriteString8(s: State, text: seq<Byte>): State
    requires s.canWrite ==> s.handle.Some?
  {
    Write(Write(s, [|Cut(text)| as Byte]).0, Cut(text)).0
  }

  /** The length is 0 when it cannot be read; what is missing of the text is zeros. */
  function ReadString8(s: State): (State, seq<Byte>)
    requires s.canRead ==> s.handle.Some?
  {
    var (s', length, _) := Read(s, 1);
    if length == [] || length[0] == 0 then (s', [])
    else
      var n := length[0] as nat;
      var (s'', data, _) := Read(s', n);
      (s'', data + Zeros(Monus(n, |data|)))
  }

  // ---- what always holds ----

  datatype Op = OpRead(n: nat) | OpWrite(data: seq<Byte>) | OpSeek(dir: int, whence: Whence) | OpGood | OpTell

  /** The source uses the C file without a check once it may read or write. */
  predicate Usable(s: State, op: Op) {
    (op.OpRead? && s.canRead) || (op.OpWrite? && s.canWrite) ==> s.handle.Some?
  }

  function Apply(s: State, op: Op): State
    requires Usable(s, op)
  {
    match op
    case OpRead(n) => Read(s, n).0
    case OpWrite(data) => Write(s, data).0
    case OpSeek(dir, whence) => Seek(s, dir, whence)
    case OpGood => Good(s).0
    case OpTell => Tell(s).0
  }

  /** Between open and close only the status bits, the cursor and the stream's own file change. */
  ghost predicate SameStream(s: State, s': State) {
    && s'.canRead == s.canRead && s'.canWrite == s.canWrite && s'.room == s.room && Within(s.bits, s'.bits)
    && (s.handle.Some? <==> s'.handle.Some?) && (s.handle.Some? ==> s'.handle.value.path == s.handle.value.path)
    && (forall path :: path in s.files && (s.handle.None? || path != s.handle.value.path) ==>
          path in s'.files && s'.files[path] == s.files[path])
    && (!s.canWrite ==> s'.files == s.files)
  }

  lemma OpKeeps(s: State, op: Op)
    requires Usable(s, op)
    ensures SameStream(s, Apply(s, op))
  {
  }

  lemma StillUsable(s: State, ops: seq<Op>)
    requires ops != [] && forall op :: op in ops ==> Usable(s, op)
    ensures Usable(s, ops[0]) && SameStream(s, Apply(s, ops[0]))
    ensures forall op :: op in ops[1..] ==> Usable(Apply(s, ops[0]), op)
  {
    hide Apply;
    assert ops[0] in ops;
    OpKeeps(s, ops[0]);
    forall op | op in ops[1..] ensures Usable(Apply(s, ops[0]), op) {
      assert op in ops && Usable(s, op);
    }
  }

  function Run(s: State, ops: seq<Op>): State
    requires forall op :: op in ops ==> Usable(s, op)
    decreases ops
  {
    if ops == [] then s
    else
      StillUsable(s, ops);
      Run(Apply(s, ops[0]), ops[1..])
  }

  /**
   Until the stream is closed no status bit is ever reset, a stream that may not write leaves
   every file alone, and one that may leaves all files but its own alone.
   */
  lemma {:induction false} RunKeeps(s: State, ops: seq<Op>)
    requires forall op :: op in ops ==> Usable(s, op)
    ensures SameStream(s, Run(s, ops))
    decreases ops
  {
    hide Apply;
    if ops != [] {
      StillUsable(s, ops);
      RunKeeps(Apply(s, ops[0]), ops[1..]);
    }
  }

  /**
   Once a stream has failed, or if it could not be opened, it neither moves nor tells where it
   is until it is closed.
   */
  lemma {:induction false} StuckAfterFailure(s: State, ops: seq<Op>, dir: int, whence: Whence)
    requires forall op :: op in ops ==> Usable(s, op)
    requires s.bits.bad || s.bits.fail || s.handle.None?
    ensures var s' := Run(s, ops);
            && !Good(s').1 && Tell(s').1 == SIZE_MAX
            && Seek(s', dir, whence).handle == s'.handle && Seek(s', dir, whence).bits.fail
  {
    hide Run;
    RunKeeps(s, ops);
  }

  // ---- strings written one after the other come back ----

  function Encoded(texts: seq<seq<Byte>>): seq<Byte> {
    if texts == [] then [] else [|Cut(texts[0])| as Byte] + Cut(texts[0]) + Encoded(texts[1..])
  }

  function Cuts(texts: seq<seq<Byte>>): seq<seq<Byte>> { seq(|texts|, i requires 0 <= i < |texts| => Cut(texts[i])) }

  function WriteAll(s: State, texts: seq<seq<Byte>>): State
    requires s.canWrite ==> s.handle.Some?
    decreases texts
  {
    if texts == [] then s else WriteAll(WriteString8(s, texts[0]), texts[1..])
  }

  function ReadAll(s: State, n: nat): (State, seq<seq<Byte>>)
    requires s.canRead ==> s.handle.Some?
    decreases n
  {
    if n == 0 then (s, [])
    else
      var (s', text) := ReadString8(s);
      var (s'', texts) := ReadAll(s', n - 1);
      (s'', [text] + texts)
  }

  function Take(x: seq<Byte>, n: nat): seq<Byte> { if |x| <= n then x else x[..n] }

  /** Writing at the end of a file that the disk can hold. */
  ghost predicate Appends(s: State) {
    && s.canWrite && s.handle.Some? && s.handle.value.path in s.files
    && s.handle.value.cursor == |s.Content()| <= s.room
  }

  lemma WriteAppends(s: State, data: seq<Byte>)
    requires Appends(s)
    ensures var s' := Write(s, data).0;
            && Appends(s') && s'.canWrite && s'.handle.Some? && s'.Content() == Take(s.Content() + data, s.room)
            && s' == s.(files := s.files[s.handle.value.path := s'.Content()], handle := s'.handle,
                        bits := s.bits.(bad := s.bits.bad || |s.Content()| + |data| > s.room))
            && s'.handle.value.path == s.handle.value.path
  {
    var content, h := s.Content(), s.handle.value;
    var k := Min(|data|, Monus(s.room, h.cursor));
    assert Overwrite(content, h.cursor, data[..k]) == content + data[..k];
    assert Take(content + data, s.room) == content + data[..k];
    assert content + data[..0] == content;
  }

  lemma TakeTwice(a: seq<Byte>, b: seq<Byte>, c: seq<Byte>, n: nat)
    requires |a| <= n
    ensures Take(Take(a + b, n) + c, n) == Take(a + (b + c), n)
  {
    hide Take;
    assert a + (b + c) == (a + b) + c;
    TakeOfTake(a + b, c, n);
  }

  lemma TakeOfTake(x: seq<Byte>, c: seq<Byte>, n: nat)
    ensures Take(Take(x, n) + c, n) == Take(x + c, n)
  {
    var l, r := Take(Take(x, n) + c, n), Take(x + c, n);
    if |x| > n {
      assert |l| == n && |r| == n;
      forall i | 0 <= i < n ensures l[i] == r[i] {
        assert l[i] == x[i] && r[i] == x[i];
      }
    }
  }

  /** The disk holds as much of the strings as fits, and badbit says whether that is not all. */
  lemma {:induction false} WriteAllAppends(s: State, texts: seq<seq<Byte>>)
    requires s.canWrite && s.handle.Some? && Appends(s)
    ensures var s' := WriteAll(s, texts);
            && s'.Content() == Take(s.Content() + Encoded(texts), s.room)
            && s'.files == s.files[s.handle.value.path := s'.Content()] && s'.room == s.room
            && s'.bits == s.bits.(bad := s.bits.bad || |s.Content()| + |Encoded(texts)| > s.room)
    decreases texts
  {
    hide Write, Take, Appends;
    if texts == [] {
      NothingWritten(s);
    } else {
      var length, text, rest := [|Cut(texts[0])| as Byte], Cut(texts[0]), Encoded(texts[1..]);
      var s1 := Write(s, length).0;
      WriteAppends(s, length);
      WriteAppends(s1, text);
      WriteAllAppends(WriteString8(s, texts[0]), texts[1..]);
      Fits(s);
      TakeTwice(s.Content(), length, text, s.room);
      TakeTwice(s.Content(), length + text, rest, s.room);
      TakeSize(s.Content() + length, s.room);
      TakeSize(s.Content() + (length + text), s.room);
    }
  }

  lemma Fits(s: State)
    requires Appends(s)
    ensures |s.Content()| <= s.room
  {
  }

  lemma TakeSize(x: seq<Byte>, n: nat)
    ensures |Take(x, n)| == Min(|x|, n)
  {
  }

  lemma NothingWritten(s: State)
    requires Appends(s)
    ensures Take(s.Content() + [], s.room) == s.Content()
    ensures s.files == s.files[s.handle.value.path := s.Content()] && |s.Content()| <= s.room
  {
    assert s.Content() + [] == s.Content();
  }

  /** Reading the strings from cursor on. */
  ghost predicate ReadsFrom(s: State, rest: seq<Byte>) {
    && s.canRead && s.handle.Some? && !s.handle.value.ferror
    && s.handle.value.cursor <= |s.Content()| && s.Content()[s.handle.value.cursor..] == rest
  }

  lemma ReadExactly(s: State, data: seq<Byte>, rest: seq<Byte>)
    requires ReadsFrom(s, data + rest)
    ensures var s' := Read(s, |data|).0;
            Read(s, |data|) == (s', data, |data|) && ReadsFrom(s', rest) && s' == s.(handle := s'.handle)
  {
    var content, at := s.Content(), s.handle.value.cursor;
    assert content[at..][..|data|] == data && content[at..][|data|..] == rest;
    assert content[at..at + |data|] == data && content[at + |data|..] == rest;
  }

  lemma ReadBack(s: State, text: seq<Byte>, rest: seq<Byte>)
    requires ReadsFrom(s, [|Cut(text)| as Byte] + Cut(text) + rest)
    ensures var (s', r) := ReadString8(s);
            r == Cut(text) && s'.handle.Some? && ReadsFrom(s', rest) && s' == s.(handle := s'.handle)
  {
    hide Read;
    var length := [|Cut(text)| as Byte];
    assert length + Cut(text) + rest == length + (Cut(text) + rest);
    ReadExactly(s, length, Cut(text) + rest);
    ReadExactly(Read(s, 1).0, Cut(text), rest);
    assert Cut(text) + Zeros(0) == Cut(text);
    assert Cut(text) == [] ==> Cut(text) + rest == rest;
  }

  /** What is missing of a text is read as zeros: it comes back if it was zeros, and eof tells. */
  lemma ReadCutOff(s: State, text: seq<Byte>, k: nat)
    requires k < 1 + |Cut(text)| && ReadsFrom(s, ([|Cut(text)| as Byte] + Cut(text))[..k])
    ensures var (s', r) := ReadString8(s);
            && (r == Cut(text) <==> AllZero([|Cut(text)| as Byte] + Cut(text), k))
            && s' == s.(handle := s'.handle, bits := s.bits.(eof := true)) && s'.handle.Some? && ReadsFrom(s', [])
  {
    hide Cut, AllZero, ReadString8, ReadsFrom, Zeros;
    var length, cut := [|Cut(text)| as Byte], Cut(text);
    var code := length + cut;
    if k == 0 {
      assert code[..k] == [];
      ReadAtEnd(s);
      NoLength(cut, code);
    } else {
      assert code[..k] == length + cut[..k - 1];
      ReadLength(s, |cut|, cut[..k - 1]);
      ZeroTail(cut, code, k);
    }
  }

  /** At the end of the file there is only the empty string, and eof. */
  lemma ReadAtEnd(s: State)
    requires ReadsFrom(s, [])
    ensures var (s', r) := ReadString8(s);
            && r == [] && s' == s.(handle := s'.handle, bits := s.bits.(eof := true))
            && s'.handle.Some? && ReadsFrom(s', [])
  {
    hide Read;
    ReadShort(s, [], 1);
  }

  lemma ReadLength(s: State, n: nat, data: seq<Byte>)
    requires |data| < n <= 255 && ReadsFrom(s, [n as Byte] + data)
    ensures var (s', r) := ReadString8(s);
            && r == data + Zeros(n - |data|) && s' == s.(handle := s'.handle, bits := s.bits.(eof := true))
            && s'.handle.Some? && ReadsFrom(s', [])
  {
    hide Read, Zeros;
    ReadExactly(s, [n as Byte], data);
    ReadShort(Read(s, 1).0, data, n);
  }

  lemma NoLength(cut: seq<Byte>, code: seq<Byte>)
    requires |cut| <= 255 && code == [|cut| as Byte] + cut
    ensures cut == [] <==> AllZero(code, 0)
  {
    assert code[0] == |cut| as Byte;
  }

  lemma ZeroTail(cut: seq<Byte>, code: seq<Byte>, k: nat)
    requires |cut| <= 255 && code == [|cut| as Byte] + cut && 0 < k <= |cut|
    ensures cut[..k - 1] + Zeros(|cut| - (k - 1)) == cut <==> AllZero(code, k)
  {
    var r := cut[..k - 1] + Zeros(|cut| - (k - 1));
    if r == cut {
      forall i | k <= i < |code| ensures code[i] == 0 {
        assert code[i] == r[i - 1];
      }
    }
    if AllZero(code, k) {
      forall i | 0 <= i < |r| ensures r[i] == cut[i] {
        assert code[i + 1] == cut[i];
      }
    }
  }

  /** code is zero from k on. */
  predicate AllZero(code: seq<Byte>, k: nat) { forall i :: k <= i < |code| ==> code[i] == 0 }

  lemma ReadShort(s: State, data: seq<Byte>, n: nat)
    requires ReadsFrom(s, data) && |data| < n
    ensures var (s', r, _) := Read(s, n);
            r == data && ReadsFrom(s', []) && s' == s.(handle := s'.handle, bits := s.bits.(eof := true))
  {
    var content, at := s.Content(), s.handle.value.cursor;
    assert |data| > 0 ==> content[at..at + |data|] == data;
  }

  lemma AllZeroOfSum(a: seq<Byte>, b: seq<Byte>, k: nat)
    ensures k <= |a| ==> (AllZero(a + b, k) <==> AllZero(a, k) && AllZero(b, 0))
    ensures k >= |a| ==> (AllZero(a + b, k) <==> AllZero(b, k - |a|))
  {
    assert forall i :: 0 <= i < |b| ==> (a + b)[|a| + i] == b[i];
    assert forall i :: 0 <= i < |a| ==> (a + b)[i] == a[i];
  }

  /** Strings of which the first k bytes are left come back exactly when the others were zero. */
  lemma {:induction false} ReadAllBack(s: State, texts: seq<seq<Byte>>, k: nat)
    requires s.canRead && s.handle.Some? && k <= |Encoded(texts)| && ReadsFrom(s, Encoded(texts)[..k])
    ensures var (s', r) := ReadAll(s, |texts|);
            && (r == Cuts(texts) <==> AllZero(Encoded(texts), k))
            && s' == s.(handle := s'.handle, bits := s.bits.(eof := s.bits.eof || k < |Encoded(texts)|))
            && s'.handle.Some? && ReadsFrom(s', [])
    decreases texts
  {
    hide ReadString8, Cut, ReadsFrom, AllZero;
    if texts != [] {
      var code, rest := [|Cut(texts[0])| as Byte] + Cut(texts[0]), Encoded(texts[1..]);
      AllZeroOfSum(code, rest, k);
      if k < |code| {
        assert (code + rest)[..k] == code[..k];
        ReadCutOff(s, texts[0], k);
        assert rest[..0] == [];
        ReadAllBack(ReadString8(s).0, texts[1..], 0);
      } else {
        assert (code + rest)[..k] == code + rest[..k - |code|];
        ReadBack(s, texts[0], rest[..k - |code|]);
        ReadAllBack(ReadString8(s).0, texts[1..], k - |code|);
      }
      ConsCuts(texts, ReadString8(s).1, ReadAll(ReadString8(s).0, |texts| - 1).1);
    } else {
      assert Encoded(texts)[..k] == [];
      NoZeros();
    }
  }

  lemma NoZeros()
    ensures AllZero([], 0)
  {
  }

  lemma ConsCuts(texts: seq<seq<Byte>>, first: seq<Byte>, others: seq<seq<Byte>>)
    requires texts != []
    ensures [first] + others == Cuts(texts) <==> first == Cut(texts[0]) && others == Cuts(texts[1..])
  {
    hide Cut;
    assert [Cut(texts[0])] + Cuts(texts[1..]) == Cuts(texts);
    if [first] + others == Cuts(texts) {
      assert first == ([first] + others)[0] && others == ([first] + others)[1..];
      assert Cuts(texts[1..]) == Cuts(texts)[1..];
    }
  }

  function Written(s: State, path: string, texts: seq<seq<Byte>>): State {
    WriteAll(Open(s, path, OutputDiscard), texts)
  }

  /**
   Strings written to a new file and read back are the same, each cut to 255 bytes, exactly
   when all bytes that did not fit the disk were zero. badbit after writing and eof after
   reading say whether there are such bytes.
   */
  lemma RoundTrip(s: State, path: string, texts: seq<seq<Byte>>)
    ensures var written, fits := Written(s, path, texts), |Encoded(texts)| <= s.room;
            && (written.bits.bad <==> !fits)
            && written.files == s.files[path := Take(Encoded(texts), s.room)]
            && var (done, r) := ReadAll(Open(Close(written), path, Input), |texts|);
               && done.handle.Some?
               && (r == Cuts(texts) <==> AllZero(Encoded(texts), s.room))
               && (fits ==> r == Cuts(texts))
               && done.bits == CLEAR.(eof := !fits) && done.files == written.files
               && ReadString8(done).1 == [] && ReadString8(done).0.bits == CLEAR.(eof := true)
  {
    hide WriteAll, ReadAll, Encoded;
    var start := Open(s, path, OutputDiscard);
    assert start.Content() == [] && [] + Encoded(texts) == Encoded(texts);
    WriteAllAppends(start, texts);
    var written, code := Written(s, path, texts), Encoded(texts);
    var k := Min(|code|, s.room);
    assert Take(code, s.room) == code[..k];
    ReadAllBack(Open(Close(written), path, Input), texts, k);
    ReadAtEnd(ReadAll(Open(Close(written), path, Input), |texts|).0);
  }

  // ---- the class ----

  class Disk {
    var files: map<string, seq<Byte>>
    const room: nat

    constructor (room: nat)
      ensures files == map[] && this.room == room
    {
      files := map[];
      this.room := room;
    }
  }

  class Stream {
    const disk: Disk
    var handle: Option<Handle>
    var bits: Bits
    var canRead: bool
    var canWrite: bool

    function S(): State
      reads this, disk
    {
      State(disk.files, disk.room, handle, bits, canRead, canWrite)
    }

    constructor (disk: Disk)
      ensures this.disk == disk && S() == State(disk.files, disk.room, None, CLEAR, false, false)
    {
      this.disk := disk;
      handle, bits, canRead, canWrite := None, CLEAR, false, false;
    }

    method CloseFile()
      modifies this
      ensures S() == Close(old(S()))
    {
      if handle.Some? {
        handle := None;
      }
      bits := CLEAR;
      canRead, canWrite := false, false;
    }

    method OpenFile(path: string, mode: Mode)
      modifies this, disk
      ensures S() == Open(old(S()), path, mode)
    {
      CloseFile();
      match mode {
        case Input | InputEnd => canRead := true;
        case OutputKeep | OutputKeepEnd | OutputDiscard => canWrite := true;
        case InOutKeep | InOutEnd => canRead, canWrite := true, true;
      }
      if mode.OutputDiscard? {
        disk.files := disk.files[path := []];
      }
      if path in disk.files {
        handle := Some(Handle(path, 0, false, false));
      }
      if handle.Some? && (mode.InputEnd? || mode.InOutEnd? || mode.OutputKeepEnd?) {
        SeekTo(0, End);
      }
    }

    method IsGood() returns (good: bool)
      modifies this
      ensures (S(), good) == Good(old(S()))
    {
      if handle.None? {
        return false;
      }
      if !bits.bad && !bits.fail {
        if handle.value.ferror {
          bits := bits.(bad := true);
        }
      }
      return bits == CLEAR || bits == CLEAR.(eof := true);
    }

    method ReadBytes(n: nat) returns (data: seq<Byte>, count: nat)
      requires canRead ==> handle.Some?
      modifies this
      ensures (S(), data, count) == Read(old(S()), n)
    {
      if canRead {
        var (got, after) := Fread(handle.value, S().Content(), n);
        handle := Some(after);
        if |got| != n {
          if after.ferror {
            bits := bits.(bad := true);
          }
          if after.feof {
            bits := bits.(eof := true);
          }
        }
        return got, |got|;
      } else {
        bits := bits.(fail := true);
        return [], SIZE_MAX;
      }
    }

    method WriteBytes(data: seq<Byte>) returns (count: nat)
      requires canWrite ==> handle.Some?
      modifies this, disk
      ensures (S(), count) == Write(old(S()), data)
    {
      if canWrite {
        var (k, content, after) := Fwrite(handle.value, S().Content(), data, disk.room);
        disk.files := disk.files[after.path := content];
        handle := Some(after);
        if k != |data| {
          bits := bits.(bad := true);
        }
        return k;
      } else {
        bits := bits.(fail := true);
        return SIZE_MAX;
      }
    }

    method SeekTo(dir: int, whence: Whence)
      modifies this
      ensures S() == Seek(old(S()), dir, whence)
    {
      var good := IsGood();
      if !good {
        bits := bits.(fail := true);
        return;
      }
      var from := match whence case Beg => 0 case Cur => handle.value.cursor case End => |S().Content()|;
      if from + dir < 0 {
        bits := bits.(fail := true);
      } else {
        handle := Some(handle.value.(cursor := from + dir, feof := false));
      }
    }

    method Position() returns (at: nat)
      modifies this
      ensures (S(), at) == Tell(old(S()))
    {
      var good := IsGood();
      if !good {
        bits := bits.(fail := true);
        return SIZE_MAX;
      }
      return handle.value.cursor;
    }

    method ReadText() returns (text: seq<Byte>)
      requires canRead ==> handle.Some?
      modifies this
      ensures (S(), text) == ReadString8(old(S()))
    {
      var length, count := ReadBytes(1);
      if length == [] || length[0] == 0 {
        return [];
      }
      text := Zeros(length[0] as nat);
      var data, got := ReadBytes(|text|);
      assert text[|data|..] == Zeros(Monus(|text|, |data|));
      text := data + text[|data|..];
    }

    method WriteText(text: seq<Byte>)
      requires canWrite ==> handle.Some?
      modifies this, disk
      ensures S() == WriteString8(old(S()), text)
    {
      var size := if |text| < 255 then |text| else 255;
      var one := WriteBytes([size as Byte]);
      var all := WriteBytes(text[..size]);
    }
  }
}
