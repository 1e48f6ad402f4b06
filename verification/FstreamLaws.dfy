/** Where a stream's calls leave it, byte by byte. */
module FstreamLaws {
  import opened Strings
  import opened Fstream

  /** Nothing has gone wrong yet. */
  predicate Well(s: State) {
    s.handle.Some? && !s.bits.bad && !s.bits.fail && !s.handle.value.ferror
  }

  lemma GoodMeans(s: State)
    ensures Good(s).1 <==> Well(s)
    ensures Well(s) ==> Good(s).0 == s
    ensures Good(s).0.bits.bad <==>
            s.bits.bad || (s.handle.Some? && !s.bits.fail && s.handle.value.ferror)
  {
  }

  // ---- opening ----

  /** A mode says what is allowed, and where a file that exists, or has been made, is entered. */
  lemma OpenByMode(s: State, path: string, mode: Mode)
    ensures var s' := Open(s, path, mode);
            && (s'.canRead <==> mode in {Input, InputEnd, InOutKeep, InOutEnd})
            && (s'.canWrite <==> mode in {OutputKeep, OutputKeepEnd, OutputDiscard, InOutKeep, InOutEnd})
            && s'.bits == Bits(false, false, false) && s'.room == s.room
            && s'.files == (if mode == OutputDiscard then s.files[path := []] else s.files)
            && (s'.handle.None? <==> mode != OutputDiscard && path !in s.files)
            && (s'.handle.Some? ==>
                  var end := if mode in {InputEnd, OutputKeepEnd, InOutEnd} then |s.files[path]| else 0;
                  s'.handle.value == Handle(path, end, false, false))
  {
  }

  lemma CloseMeans(s: State)
    ensures var s' := Close(s);
            && s'.handle.None? && s'.bits == Bits(false, false, false) && !s'.canRead && !s'.canWrite
            && s'.files == s.files && s'.room == s.room
  {
  }

  // ---- moving ----

  /** From the beginning, from where the stream is, or from the end of the file. */
  function Target(s: State, dir: int, whence: Whence): int
    requires s.handle.Some?
  {
    match whence
    case Beg => dir
    case Cur => dir + s.handle.value.cursor
    case End => dir + |s.Content()|
  }

  /**
   A stream that is well goes where it is told, forward beyond the end as well, and says so. A position before the
   beginning is refused with failbit, and the stream stays where it is.
   */
  lemma SeekThenTell(s: State, dir: int, whence: Whence)
    requires Well(s)
    ensures var s' := Seek(s, dir, whence);
            if Target(s, dir, whence) >= 0 then
              && Tell(s') == (s', Target(s, dir, whence))
              && s' == s.(handle := Some(Handle(s.handle.value.path, Target(s, dir, whence), false, false)))
            else s' == s.(bits := s.bits.(fail := true)) && Tell(s') == (s', 0xFFFF_FFFF_FFFF_FFFF)
  {
  }

  // ---- reading ----

  /** As many bytes as there are, from the cursor on; eof and badbit only if they are too few. */
  lemma ReadMeans(s: State, n: nat)
    requires s.canRead && s.handle.Some?
    ensures var (s', data, count) := Read(s, n);
            var content, at := s.Content(), s.handle.value.cursor;
            && count == |data| <= n && (count < n ==> |content| <= at + count)
            && (forall i :: 0 <= i < count ==> at + i < |content| && data[i] == content[at + i])
            && s'.handle == Some(s.handle.value.(cursor := at + count, feof := s.handle.value.feof || count < n))
            && s' == s.(handle := s'.handle, bits := s'.bits)
            && s'.bits == Bits(s.bits.eof || count < n, s.bits.bad || (count < n && s.handle.value.ferror), s.bits.fail)
  {
  }

  lemma ReadForbidden(s: State, n: nat)
    requires !s.canRead
    ensures Read(s, n) == (s.(bits := s.bits.(fail := true)), [], 0xFFFF_FFFF_FFFF_FFFF)
  {
  }

  // ---- writing ----

  /** As many bytes as fit, from the cursor on; what lies between the end and the cursor becomes zeros. */
  lemma WriteMeans(s: State, data: seq<Byte>)
    requires s.canWrite && s.handle.Some?
    ensures var (s', count) := Write(s, data);
            var content, at := s.Content(), s.handle.value.cursor;
            && count <= |data| && (count < |data| ==> s.room <= at + count) && (count > 0 ==> at + count <= s.room)
            && s'.handle == Some(s.handle.value.(cursor := at + count,
                                                 ferror := s.handle.value.ferror || count < |data|))
            && s'.bits == s.bits.(bad := s.bits.bad || count < |data|)
            && s' == s.(files := s'.files, handle := s'.handle, bits := s'.bits)
            && s'.files == s.files[s.handle.value.path := s'.Content()]
            && (count == 0 ==> s'.Content() == content)
            && (count > 0 ==>
                  && |s'.Content()| == (if |content| < at + count then at + count else |content|)
                  && forall i :: 0 <= i < |s'.Content()| ==>
                       s'.Content()[i] == if at <= i < at + count then data[i - at]
                                          else if i < |content| then content[i] else 0)
  {
  }

  lemma WriteForbidden(s: State, data: seq<Byte>)
    requires !s.canWrite
    ensures Write(s, data) == (s.(bits := s.bits.(fail := true)), 0xFFFF_FFFF_FFFF_FFFF)
  {
  }

  /** Whatever has been written is read after going back to where it was written, over old bytes or beyond the end. */
  lemma WrittenIsRead(s: State, data: seq<Byte>)
    requires s.canRead && s.canWrite && Well(s) && s.handle.value.cursor + |data| <= s.room
    ensures var at := s.handle.value.cursor;
            var back := Seek(Write(s, data).0, at, Beg);
            && back.canRead && back.handle.Some? && back.bits == s.bits
            && Read(back, |data|).1 == data && Tell(Read(back, |data|).0).1 == at + |data|
  {
    hide Read, Write, Seek, Tell, Good;
    var at := s.handle.value.cursor;
    WriteMeans(s, data);
    var written := Write(s, data).0;
    SeekThenTell(written, at, Beg);
    var back := Seek(written, at, Beg);
    ReadMeans(back, |data|);
    assert Read(back, |data|).1 == data;
    TellsCursor(Read(back, |data|).0);
  }

  lemma TellsCursor(s: State)
    requires Well(s)
    ensures Tell(s) == (s, s.handle.value.cursor)
  {
  }

  // ---- strings ----

  /** One byte for the length, which is at most 255, and that many bytes. */
  lemma EncodingMeans(text: seq<Byte>, texts: seq<seq<Byte>>)
    ensures Encoded([]) == [] && Cuts([]) == []
    ensures var n := if |text| < 255 then |text| else 255;
            && Encoded([text] + texts) == [n as Byte] + text[..n] + Encoded(texts)
            && Cuts([text] + texts) == [text[..n]] + Cuts(texts)
  {
    assert ([text] + texts)[0] == text && ([text] + texts)[1..] == texts;
  }
}
