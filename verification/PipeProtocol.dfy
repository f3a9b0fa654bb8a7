/** One reader and one writer on a pipe, their calls split where they sleep. */
module PipeProtocol {
  import opened PipeSpec

  const R: int := 1   // the reader's pid
  const W: int := 2   // the writer's pid

  /** What the reader is doing: nothing, or asleep (or woken and not yet resumed) inside `pipe_read`. */
  datatype Reader = NotReading | ForWriter(len: nat) | ForData(len: nat, got: seq<Byte>)

  /** Likewise; `closing` says that the write is the one with which `pipe_close` ends the pipe. */
  datatype Writer = NotWriting | ForRoom(data: seq<Byte>, closing: bool)

  /** `written` and `read` are the data bytes that have gone into and out of the pipe; `gone` says that
      it has been freed, `stray` that the writer's `pipe_close` went on to write to it after that. */
  datatype Sys = Sys(pipe: Pipe, reader: Reader, writer: Writer, written: seq<Byte>, read: seq<Byte>,
                     gone: bool, stray: bool)

  datatype Op =
    | OpenW | OpenR
    | Read(len: nat) | ReadOn
    | Write(data: seq<Byte>) | CloseW | WriteOn
    | CloseR

  const START := Sys(FRESH, NotReading, NotWriting, [], [], false, false)

  predicate Enabled(s: Sys, op: Op) {
    match op
    case OpenW => !s.gone && s.writer == NotWriting
    case OpenR => !s.gone && s.reader == NotReading
    case Read(len) => !s.gone && s.reader == NotReading && s.pipe.outPid == R && len > 0
    case ReadOn => s.reader != NotReading && R !in s.pipe.blocked
    case Write(data) => !s.gone && s.writer == NotWriting && s.pipe.inPid == W && data != []
    case CloseW => !s.gone && s.writer == NotWriting && s.pipe.inPid == W
    case WriteOn => s.writer != NotWriting && W !in s.pipe.blocked
    case CloseR => !s.gone && s.reader == NotReading && s.pipe.outPid == R
  }

  /** The bytes without the end marker that may stand last. */
  function Payload(bytes: seq<Byte>): seq<Byte> {
    if bytes != [] && bytes[|bytes| - 1] == EOF_MARKER then bytes[..|bytes| - 1] else bytes
  }

  /** The call that the reader takes part in, from where it stands. */
  function ReadTurn(s: Sys, op: Op): Turn {
    match s.reader
    case NotReading => ReadStart(s.pipe, if op.Read? then op.len else 0)
    case ForWriter(len) => ReadStart(s.pipe, len)
    case ForData(len, got) => ReadResume(s.pipe, len, got)
  }

  function ReadLen(s: Sys, op: Op): nat {
    match s.reader
    case NotReading => if op.Read? then op.len else 0
    case ForWriter(len) => len
    case ForData(len, _) => len
  }

  function Got(s: Sys): seq<Byte> {
    if s.reader.ForData? then s.reader.got else []
  }

  function ReadStep(s: Sys, op: Op): Sys {
    var t := ReadTurn(s, op);
    var len := ReadLen(s, op);
    s.(pipe := t.pipe,
       read := s.read + if |Got(s)| <= |t.bytes| then Payload(t.bytes[|Got(s)|..]) else [],
       reader := if !t.asleep then NotReading
                 else if !s.reader.ForData? && NoWriterYet(s.pipe) then ForWriter(len) else ForData(len, t.bytes))
  }

  /** The write of `data` from where it stands to its end or its next sleep. */
  function WriteStep(s: Sys, t: Turn, data: seq<Byte>, closing: bool): Sys {
    var pipe := if closing && !t.asleep then ShutWrite(t.pipe) else t.pipe;
    s.(pipe := pipe, written := s.written + Payload(t.bytes),
       writer := if t.asleep && |t.bytes| <= |data| then ForRoom(data[|t.bytes|..], closing) else NotWriting)
  }

  function Step(s: Sys, op: Op): Sys {
    match op
    case OpenW => s.(pipe := OpenWrite(s.pipe, W))
    case OpenR => s.(pipe := OpenRead(s.pipe, R))
    case Read(_) => ReadStep(s, op)
    case ReadOn => ReadStep(s, op)
    case Write(data) => WriteStep(s, WriteLoop(s.pipe, data, []), data, false)
    case CloseW => WriteStep(s, WriteLoop(s.pipe, [EOF_MARKER], []), [EOF_MARKER], true)
    case WriteOn =>
      if !s.writer.ForRoom? then s
      else if s.gone then s.(writer := NotWriting, stray := s.stray || s.writer.closing)
      else WriteStep(s, WriteResume(s.pipe, s.writer.data, []), s.writer.data, s.writer.closing)
    case CloseR => s.(pipe := ShutRead(s.pipe), gone := true)
  }

  // ---------------------------------------------------------------- invariant

  /** A sleeping reader has an empty pipe without an end marker before it, a sleeping writer a full
      one; the flag is up exactly while one of them sleeps. */
  ghost predicate SleepOk(p: Pipe) {
    && p.blocked <= {R, W} && (p.blocking <==> p.blocked != {})
    && (p.outPid == R || p.outPid == NO_PID) && (p.inPid == W || p.inPid == NO_PID)
    && (R in p.blocked ==> Dry(p) && p.outPid == R)
    && (W in p.blocked ==> Full(p) && p.inPid == W)
  }

  ghost predicate Ok(s: Sys) {
    && WellFormed(s.pipe) && SleepOk(s.pipe) && EOF_MARKER !in s.written && s.written == s.read + s.pipe.live
    && (s.gone ==> s.pipe.blocked == {} && s.reader == NotReading) && (s.stray ==> s.gone)
    && (s.reader != NotReading ==> s.pipe.outPid == R)
    && (R in s.pipe.blocked ==> s.reader != NotReading && (s.reader.ForWriter? <==> s.pipe.inPid == NO_PID))
    && (W in s.pipe.blocked ==> s.writer != NotWriting)
    && (s.reader.ForWriter? ==> s.reader.len > 0)
    && (s.reader.ForData? ==> ReadingOn(s.pipe, s.reader.len, s.reader.got, s.read))
    && (s.writer.ForRoom? ==> s.writer.data != [] && (s.gone || (s.pipe.inPid == W && !s.pipe.eof)))
    && (s.writer.ForRoom? && s.writer.closing ==> s.writer.data == [EOF_MARKER])
    && (s.pipe.inPid == NO_PID && !s.pipe.eof && !s.gone ==> s.pipe.live == [])
  }

  /** A reader in its second loop has had a writer, and holds the last bytes read. */
  ghost predicate ReadingOn(p: Pipe, len: nat, got: seq<Byte>, read: seq<Byte>) {
    |got| < len && Suffix(got, read) && (p.inPid == W || p.eof)
  }

  ghost predicate Suffix(a: seq<Byte>, b: seq<Byte>) {
    |a| <= |b| && b[|b| - |a|..] == a
  }

  // ---------------------------------------------------------------- reading

  /** A stretch of reading from `p` with `got` in hand takes `data` out, and maybe the end marker. */
  ghost predicate ReadOk(p: Pipe, t: Turn, len: nat, got: seq<Byte>, data: seq<Byte>, end: bool) {
    && EOF_MARKER !in data && t.bytes == got + (if end then data + [EOF_MARKER] else data)
    && p.live == data + t.pipe.live && WellFormed(t.pipe) && SleepOk(t.pipe)
    && t.pipe.eof == p.eof && t.pipe.inPid == p.inPid && t.pipe.outPid == p.outPid
    && (end ==> p.eof && t.pipe.live == [] && !t.asleep)
    && (t.asleep <==> R in t.pipe.blocked) && (t.asleep ==> |t.bytes| < len)
    && |t.bytes| <= len && (!t.asleep && !end ==> |t.bytes| == len)
    && (W in t.pipe.blocked ==> W in p.blocked && data == [])
  }

  lemma RoundOk(p: Pipe, want: nat) returns (data: seq<Byte>)
    requires WellFormed(p) && SleepOk(p) && p.outPid == R && R !in p.blocked
    ensures var m := ReadRound(p, want);
            && Data(m.bytes, m.end, data) && p.live == data + m.pipe.live && WellFormed(m.pipe) && SleepOk(m.pipe)
            && R !in m.pipe.blocked && W !in m.pipe.blocked && |m.bytes| <= want
            && m.pipe.eof == p.eof && m.pipe.inPid == p.inPid && m.pipe.outPid == p.outPid
            && (m.end ==> p.eof && m.pipe.live == []) && (|m.bytes| < want && !m.end ==> Dry(m.pipe))
  {
    data := DrainFifo(p, want);
  }

  lemma LoopOk(p: Pipe, len: nat, got: seq<Byte>, eofRead: bool) returns (data: seq<Byte>, end: bool)
    requires WellFormed(p) && SleepOk(p) && p.outPid == R && R !in p.blocked && |got| <= len && !eofRead
    requires W in p.blocked ==> |got| < len
    ensures ReadOk(p, ReadLoop(p, len, got, eofRead), len, got, data, end)
    ensures |got| < len && !Dry(p) ==> W !in ReadLoop(p, len, got, eofRead).pipe.blocked
  {
    data, end := [], false;
    if |got| < len && !Dry(p) {
      data := RoundOk(p, len - |got|);
      var m := ReadRound(p, len - |got|);
      end := m.end;
      var t := ReadLoop(m.pipe, len, got + m.bytes, m.end);
      if |got| + |m.bytes| < len && !m.end {
        assert t == Turn(Sleep(m.pipe, m.pipe.outPid), got + m.bytes, true);
      } else {
        assert t == Turn(m.pipe, got + m.bytes, false);
      }
      assert ReadLoop(p, len, got, eofRead) == t;
    }
  }

  lemma ResumeOk(p: Pipe, len: nat, got: seq<Byte>) returns (data: seq<Byte>, end: bool)
    requires WellFormed(p) && SleepOk(p) && p.outPid == R && R !in p.blocked && |got| < len
    ensures ReadOk(p, ReadResume(p, len, got), len, got, data, end) && W !in ReadResume(p, len, got).pipe.blocked
  {
    data := RoundOk(p, len - |got|);
    var m := ReadRound(p, len - |got|);
    end := m.end;
    if |got| + |m.bytes| < len && !m.end {
      assert ReadLoop(m.pipe, len, got + m.bytes, m.end) == Turn(Sleep(m.pipe, m.pipe.outPid), got + m.bytes, true);
    }
  }

  /** Any stretch of reading that may happen: what it takes out, and whom it wakes. */
  lemma ReadTurnOk(s: Sys, op: Op) returns (data: seq<Byte>, end: bool)
    requires Ok(s) && Enabled(s, op) && (op.Read? || op.ReadOn?)
    ensures ReadOk(s.pipe, ReadTurn(s, op), ReadLen(s, op), Got(s), data, end) && |Got(s)| < ReadLen(s, op)
    ensures !(NoWriterYet(s.pipe) && !s.reader.ForData?) ==> W !in ReadTurn(s, op).pipe.blocked || Dry(s.pipe)
  {
    match s.reader
    case NotReading => data, end := StartOk(s.pipe, op.len);
    case ForWriter(len) => data, end := StartOk(s.pipe, len);
    case ForData(len, got) => data, end := ResumeOk(s.pipe, len, got);
  }

  lemma StartOk(p: Pipe, len: nat) returns (data: seq<Byte>, end: bool)
    requires WellFormed(p) && SleepOk(p) && p.outPid == R && R !in p.blocked && len > 0
    ensures ReadOk(p, ReadStart(p, len), len, [], data, end)
    ensures !Dry(p) ==> W !in ReadStart(p, len).pipe.blocked
  {
    if NoWriterYet(p) {
      data, end := [], false;
    } else {
      data, end := LoopOk(p, len, [], false);
    }
  }

  lemma PayloadOf(data: seq<Byte>, end: bool)
    requires EOF_MARKER !in data
    ensures Payload(if end then data + [EOF_MARKER] else data) == data
  {
  }

  lemma ReadStepOk(s: Sys, op: Op)
    requires Ok(s) && Enabled(s, op) && (op.Read? || op.ReadOn?)
    ensures Ok(Step(s, op))
  {
    hide Ok, ReadTurn, ReadLen, ReadOk, SleepOk, Suffix;
    var data, end := ReadTurnOk(s, op);
    AsleepSide(s, op, data, end);
    var t, got, u := ReadTurn(s, op), Got(s), Step(s, op);
    ReadMoves(s, op, data, end);
    ReaderAfter(s, op, data, end);
    ReaderHere(s, op);
    ReadSettles(s, u, t, ReadLen(s, op), got, data, end);
  }

  lemma ReaderHere(s: Sys, op: Op)
    requires Ok(s) && Enabled(s, op) && (op.Read? || op.ReadOn?)
    ensures !s.gone && s.pipe.outPid == R && R !in s.pipe.blocked
  {
  }

  lemma ReadMoves(s: Sys, op: Op, data: seq<Byte>, end: bool)
    requires Ok(s) && Enabled(s, op) && (op.Read? || op.ReadOn?)
    requires ReadOk(s.pipe, ReadTurn(s, op), ReadLen(s, op), Got(s), data, end)
    ensures var u := Step(s, op);
            && u.pipe == ReadTurn(s, op).pipe && u.read == s.read + data && u.written == s.written
               && u.gone == s.gone && u.stray == s.stray
            && u.writer == s.writer && u.written == u.read + u.pipe.live
            && (ReadTurn(s, op).asleep <==> u.reader != NotReading)
  {
    hide SleepOk, ReadTurn, ReadLen;
    var t, got := ReadTurn(s, op), Got(s);
    PayloadOf(data, end);
    assert t.bytes[|got|..] == if end then data + [EOF_MARKER] else data;
    assert s.read + s.pipe.live == (s.read + data) + t.pipe.live;
  }

  lemma ReaderAfter(s: Sys, op: Op, data: seq<Byte>, end: bool)
    requires Ok(s) && Enabled(s, op) && (op.Read? || op.ReadOn?)
    requires ReadOk(s.pipe, ReadTurn(s, op), ReadLen(s, op), Got(s), data, end) && |Got(s)| < ReadLen(s, op)
    ensures var r, t, read := Step(s, op).reader, ReadTurn(s, op), s.read + data;
            && (r.ForWriter? ==> r.len > 0 && t.asleep && s.pipe.inPid == NO_PID)
            && (r.ForData? ==> ReadingOn(t.pipe, r.len, r.got, read) && (t.asleep ==> s.pipe.inPid != NO_PID))
  {
    AsleepSide(s, op, data, end);
    if s.reader.ForData? {
      GrowSuffix(Got(s), s.read, data);
    } else {
      GrowSuffix([], s.read, data);
    }
    hide ReadTurn, ReadLen, SleepOk, Suffix;
  }

  lemma ReadSettles(s: Sys, u: Sys, t: Turn, len: nat, got: seq<Byte>, data: seq<Byte>, end: bool)
    requires Ok(s) && !s.gone && s.pipe.outPid == R
    requires R !in s.pipe.blocked && ReadOk(s.pipe, t, len, got, data, end)
    requires u.pipe == t.pipe && u.read == s.read + data && u.written == s.written && u.gone == s.gone
             && u.stray == s.stray
    requires u.writer == s.writer && u.written == u.read + u.pipe.live && (t.asleep <==> u.reader != NotReading)
    requires u.reader.ForWriter? ==> u.reader.len > 0 && t.asleep && s.pipe.inPid == NO_PID
    requires u.reader.ForData? ==> ReadingOn(t.pipe, u.reader.len, u.reader.got, u.read)
    requires u.reader.ForData? && t.asleep ==> s.pipe.inPid != NO_PID
    ensures Ok(u)
  {
  }

  lemma GrowSuffix(a: seq<Byte>, b: seq<Byte>, more: seq<Byte>)
    requires Suffix(a, b)
    ensures Suffix(a + more, b + more)
  {
  }

  /** A reader that sleeps before a writer came sleeps in the first loop, and only such a one does. */
  lemma AsleepSide(s: Sys, op: Op, data: seq<Byte>, end: bool)
    requires Ok(s) && Enabled(s, op) && (op.Read? || op.ReadOn?)
    requires ReadOk(s.pipe, ReadTurn(s, op), ReadLen(s, op), Got(s), data, end)
    ensures ReadTurn(s, op).asleep ==> (!s.reader.ForData? && NoWriterYet(s.pipe) <==> s.pipe.inPid == NO_PID)
  {
    hide ReadTurn, ReadLen;
  }

  // ---------------------------------------------------------------- writing

  /** A stretch of writing into `p` puts `kept`, the first data bytes of `data`, in, and maybe the end marker. */
  ghost predicate WriteOk(p: Pipe, t: Turn, data: seq<Byte>, kept: seq<Byte>, end: bool) {
    && Data(t.bytes, end, kept) && |t.bytes| <= |data| && t.bytes == data[..|t.bytes|]
    && t.pipe.live == p.live + kept && WellFormed(t.pipe) && SleepOk(t.pipe)
    && t.pipe.inPid == p.inPid && t.pipe.outPid == p.outPid
    && (t.pipe.eof <==> p.eof || end)
    && (t.asleep <==> W in t.pipe.blocked) && (t.asleep ==> |t.bytes| < |data| && !t.pipe.eof)
    && (!t.asleep && !t.pipe.eof ==> |t.bytes| == |data|)
    && (R in t.pipe.blocked ==> R in p.blocked && t.bytes == [])
  }

  lemma WriteRoundOk(p: Pipe, data: seq<Byte>) returns (kept: seq<Byte>)
    requires WellFormed(p) && SleepOk(p) && p.inPid == W && W !in p.blocked && !p.eof && data != []
    ensures var m := WriteRound(p, data);
            && Data(m.bytes, m.end, kept) && m.pipe.live == p.live + kept && WellFormed(m.pipe) && SleepOk(m.pipe)
            && W !in m.pipe.blocked && R !in m.pipe.blocked && |m.bytes| <= |data| && m.bytes == data[..|m.bytes|]
            && m.pipe.eof == m.end && m.pipe.inPid == p.inPid && m.pipe.outPid == p.outPid
            && (|m.bytes| < |data| && !m.end ==> Full(m.pipe)) && (!Full(p) ==> m.bytes != [])
  {
    kept := FillFifo(p, data);
  }

  lemma WriteLoopOk(p: Pipe, data: seq<Byte>) returns (kept: seq<Byte>, end: bool)
    requires WellFormed(p) && SleepOk(p) && p.inPid == W && W !in p.blocked && data != []
    ensures WriteOk(p, WriteLoop(p, data, []), data, kept, end)
    ensures !p.eof && !Full(p) ==> R !in WriteLoop(p, data, []).pipe.blocked && WriteLoop(p, data, []).bytes != []
  {
    kept, end := [], false;
    if !p.eof && !Full(p) {
      kept := WriteRoundOk(p, data);
      var m := WriteRound(p, data);
      end := m.end;
      Settle(m.pipe, data, m.bytes, m.end);
      assert WriteLoop(p, data, []) == WriteLoop(m.pipe, data[|m.bytes|..], [] + m.bytes);
    }
  }

  /** Behind a round the loop ends or sleeps. */
  lemma Settle(p: Pipe, data: seq<Byte>, bytes: seq<Byte>, end: bool)
    requires |bytes| <= |data| && p.eof == end && (|bytes| < |data| && !end ==> Full(p))
    ensures [] + bytes == bytes
    ensures WriteLoop(p, data[|bytes|..], bytes)
            == if |bytes| < |data| && !end then Turn(Sleep(p, p.inPid), bytes, true) else Turn(p, bytes, false)
  {
  }

  lemma WriteResumeOk(p: Pipe, data: seq<Byte>) returns (kept: seq<Byte>, end: bool)
    requires WellFormed(p) && SleepOk(p) && p.inPid == W && W !in p.blocked && !p.eof && data != []
    ensures WriteOk(p, WriteResume(p, data, []), data, kept, end) && R !in WriteResume(p, data, []).pipe.blocked
  {
    kept := WriteRoundOk(p, data);
    var m := WriteRound(p, data);
    end := m.end;
    Settle(m.pipe, data, m.bytes, m.end);
  }

  lemma WriteStepOk(s: Sys, t: Turn, data: seq<Byte>, closing: bool, kept: seq<Byte>, end: bool)
    requires Ok(s) && !s.gone && s.pipe.inPid == W && WriteOk(s.pipe, t, data, kept, end) && data != []
    requires closing ==> data == [EOF_MARKER]
    ensures Ok(WriteStep(s, t, data, closing))
  {
    hide WellFormed, Payload;
    PayloadOf(kept, end);
    WriteEnds(s, t, data, closing, kept, end);
    var u := WriteStep(s, t, data, closing);
    assert u.written == s.written + kept == s.read + u.pipe.live;
    hide Data, Suffix;
  }

  lemma MarkerEnds(bytes: seq<Byte>, end: bool, kept: seq<Byte>)
    requires Data(bytes, end, kept)
    ensures bytes == [EOF_MARKER] ==> end
  {
    assert EOF_MARKER in [EOF_MARKER];
  }

  /** The pipe after the stretch, with the writer's end shut if that was the last. */
  lemma WriteEnds(s: Sys, t: Turn, data: seq<Byte>, closing: bool, kept: seq<Byte>, end: bool)
    requires SleepOk(s.pipe) && s.pipe.inPid == W && WriteOk(s.pipe, t, data, kept, end)
    requires closing ==> data == [EOF_MARKER]
    ensures var pipe := if closing && !t.asleep then ShutWrite(t.pipe) else t.pipe;
            && WellFormed(pipe) && SleepOk(pipe) && pipe.live == t.pipe.live && pipe.eof == t.pipe.eof
            && pipe.outPid == t.pipe.outPid && pipe.blocked <= t.pipe.blocked
            && (closing && !t.asleep ==> pipe.eof && pipe.blocked == {} && pipe.inPid == NO_PID)
  {
    if closing && !t.asleep {
      MarkerEnds(t.bytes, end, kept);
      assert t.pipe.eof;
      assert t.pipe.blocked == {};
    }
  }

  // ---------------------------------------------------------------- runs

  lemma WriterHere(s: Sys, op: Op)
    requires Ok(s) && Enabled(s, op) && (op.Write? || op.CloseW? || (op.WriteOn? && !s.gone))
    ensures !s.gone && s.pipe.inPid == W && W !in s.pipe.blocked && WellFormed(s.pipe) && SleepOk(s.pipe)
    ensures op.WriteOn? ==> s.writer.ForRoom? && s.writer.data != [] && !s.pipe.eof
  {
  }

  /** The bytes offered in a step of the writer. */
  function Offered(s: Sys, op: Op): seq<Byte> {
    match op
    case Write(data) => data
    case CloseW => [EOF_MARKER]
    case _ => if s.writer.ForRoom? then s.writer.data else []
  }

  function WriteTurn(s: Sys, op: Op): Turn {
    if op.WriteOn? then WriteResume(s.pipe, Offered(s, op), []) else WriteLoop(s.pipe, Offered(s, op), [])
  }

  /** Any stretch of writing that may happen: what it puts in, and that it wakes a sleeping reader. */
  lemma WriteTurnOk(s: Sys, op: Op) returns (kept: seq<Byte>, end: bool)
    requires Ok(s) && Enabled(s, op) && (op.Write? || op.CloseW? || (op.WriteOn? && !s.gone))
    ensures WriteOk(s.pipe, WriteTurn(s, op), Offered(s, op), kept, end) && Offered(s, op) != []
    ensures R in s.pipe.blocked ==> R !in WriteTurn(s, op).pipe.blocked && WriteTurn(s, op).bytes != []
  {
    WriterHere(s, op);
    hide Ok;
    if op.WriteOn? {
      kept, end := WriteResumeOk(s.pipe, s.writer.data);
    } else {
      kept, end := WriteLoopOk(s.pipe, Offered(s, op));
    }
  }

  lemma WriterStepOk(s: Sys, op: Op)
    requires Ok(s) && Enabled(s, op) && (op.Write? || op.CloseW? || (op.WriteOn? && !s.gone))
    ensures Ok(Step(s, op)) && Step(s, op) == WriteStep(s, WriteTurn(s, op), Offered(s, op), Closing(s, op))
  {
    WriterHere(s, op);
    ClosingData(s, op);
    hide Ok, WriteOk, WriteResume, WriteLoop;
    var kept, end := WriteTurnOk(s, op);
    WriteStepOk(s, WriteTurn(s, op), Offered(s, op), Closing(s, op), kept, end);
  }

  predicate Closing(s: Sys, op: Op) {
    op.CloseW? || (op.WriteOn? && s.writer.ForRoom? && s.writer.closing)
  }

  lemma ClosingData(s: Sys, op: Op)
    requires Ok(s) && Enabled(s, op)
    ensures Closing(s, op) ==> Offered(s, op) == [EOF_MARKER]
  {
  }

  lemma StepOk(s: Sys, op: Op)
    requires Ok(s) && Enabled(s, op)
    ensures Ok(Step(s, op))
  {
    match op
    case Read(_) => ReadStepOk(s, op);
    case ReadOn => ReadStepOk(s, op);
    case Write(_) => WriterStepOk(s, op);
    case CloseW => WriterStepOk(s, op);
    case WriteOn =>
      if !s.gone {
        WriterStepOk(s, op);
      }
    case OpenW =>
    case OpenR =>
    case CloseR =>
  }

  predicate Runs(s: Sys, ops: seq<Op>)
    decreases |ops|
  {
    ops == [] || (Enabled(s, ops[0]) && Runs(Step(s, ops[0]), ops[1..]))
  }

  function After(s: Sys, ops: seq<Op>): Sys
    decreases |ops|
  {
    if ops == [] then s else After(Step(s, ops[0]), ops[1..])
  }

  lemma {:induction false} RunOk(s: Sys, ops: seq<Op>)
    requires Ok(s) && Runs(s, ops)
    ensures Ok(After(s, ops))
    decreases |ops|
  {
    hide Ok, Step, Enabled;
    if ops != [] {
      StepOk(s, ops[0]);
      RunOk(Step(s, ops[0]), ops[1..]);
    }
  }

  /** In every run the bytes written are the bytes read and then those still in the pipe, and the two
      sides never sleep at once. */
  lemma Fifo(ops: seq<Op>)
    requires Runs(START, ops)
    ensures var s := After(START, ops);
            && s.written == s.read + s.pipe.live
            && !(R in s.pipe.blocked && W in s.pipe.blocked)
            && (R in s.pipe.blocked ==> s.pipe.live == [] && !s.pipe.eof)
            && (W in s.pipe.blocked ==> |s.pipe.live| == PIPE_SIZE)
            && (s.pipe.blocking <==> s.pipe.blocked != {}) && s.pipe.blocked <= {R, W}
  {
    RunOk(START, ops);
    hide Runs, After;
  }

  /** A sleeping reader is awake after the writer's next transfer. */
  lemma WriterWakesReader(s: Sys, op: Op)
    requires Ok(s) && Enabled(s, op) && R in s.pipe.blocked
    requires op.Write? || op.CloseW? || op.WriteOn?
    ensures R !in Step(s, op).pipe.blocked && WriteTurn(s, op).bytes != []
  {
    var kept, end := WriteTurnOk(s, op);
    WriterStepOk(s, op);
    hide Ok, WriteTurn, Step;
  }

  /** A sleeping writer is awake after the reader's next transfer. */
  lemma ReaderWakesWriter(s: Sys, op: Op)
    requires Ok(s) && Enabled(s, op) && W in s.pipe.blocked && (op.Read? || op.ReadOn?)
    ensures W !in Step(s, op).pipe.blocked && s.read < Step(s, op).read
  {
    var data, end := ReadTurnOk(s, op);
    ReadMoves(s, op, data, end);
    assert !Dry(s.pipe) && Full(s.pipe);
    hide ReadTurn, ReadLen;
    assert !NoWriterYet(s.pipe);
    assert data != [] by {
      SomethingTaken(s, op, data, end);
    }
  }

  lemma SomethingTaken(s: Sys, op: Op, data: seq<Byte>, end: bool)
    requires Ok(s) && Full(s.pipe) && |Got(s)| < ReadLen(s, op)
    requires ReadOk(s.pipe, ReadTurn(s, op), ReadLen(s, op), Got(s), data, end)
    ensures data != []
  {
    hide ReadTurn, ReadLen;
  }

  /** Whoever opens its end takes that end only, leaves the bytes and the end marker alone, and wakes
      the other side if that sleeps: nobody sleeps then. */
  lemma OpenWakes(s: Sys, op: Op)
    requires Ok(s) && Enabled(s, op) && (op.OpenW? || op.OpenR?)
    ensures var p, q := s.pipe, Step(s, op).pipe;
            && q.blocked == {} && !q.blocking && q.live == p.live && q.eof == p.eof
            && q.inPid == (if op.OpenW? then W else p.inPid) && q.outPid == (if op.OpenR? then R else p.outPid)
            && Step(s, op) == s.(pipe := q)
  {
  }

  /** The reader's close shuts its end, wakes a sleeping writer and frees the pipe. */
  lemma CloseFrees(s: Sys)
    requires Ok(s) && Enabled(s, CloseR)
    ensures var q := Step(s, CloseR).pipe;
            && q == s.pipe.(outPid := NO_PID, blocking := false, blocked := {})
            && Step(s, CloseR) == s.(pipe := q, gone := true)
  {
  }

  /** What a finished `pipe_read` returns is the next bytes of the stream, all that were asked for,
      unless the end marker stands last: then everything ever written has been read. */
  lemma ReadReturns(s: Sys, op: Op)
    requires Ok(s) && Enabled(s, op) && (op.Read? || op.ReadOn?) && !ReadTurn(s, op).asleep
    ensures var t, u := ReadTurn(s, op), Step(s, op);
            && t.bytes != [] && Suffix(Payload(t.bytes), u.read)
            && (if t.bytes[|t.bytes| - 1] == EOF_MARKER then u.read == u.written && u.pipe.eof
                else |t.bytes| == ReadLen(s, op))
  {
    hide ReadTurn, ReadLen, Ok, Suffix, Payload, SleepOk, Step;
    var data, end := ReadTurnOk(s, op);
    ReadMoves(s, op, data, end);
    NoMarker(s);
    GotSuffix(s);
    var got := Got(s);
    PayloadOf(got + data, end);
    assert ReadTurn(s, op).bytes == if end then (got + data) + [EOF_MARKER] else got + data;
    GrowSuffix(got, s.read, data);
  }

  lemma GotSuffix(s: Sys)
    requires Ok(s)
    ensures Suffix(Got(s), s.read)
  {
  }

  lemma NoMarker(s: Sys)
    requires Ok(s)
    ensures EOF_MARKER !in Got(s)
  {
    if s.reader.ForData? {
      var a, b := s.reader.got, s.read;
      assert forall x :: x in b[|b| - |a|..] ==> x in s.written;
    }
  }

  /** Once the end marker is in, nothing more is written, and it stays until the pipe is freed. */
  lemma EndIsFinal(s: Sys, op: Op)
    requires Ok(s) && Enabled(s, op) && s.pipe.eof
    ensures Step(s, op).pipe.eof && Step(s, op).written == s.written
  {
    if op.Read? || op.ReadOn? {
      var data, end := ReadTurnOk(s, op);
      ReadMoves(s, op, data, end);
      hide ReadTurn, ReadLen;
    } else if op.Write? || op.CloseW? || (op.WriteOn? && !s.gone) {
      WriterHere(s, op);
      hide Ok;
    }
  }

  /** The writer's `pipe_close` reaches the freed pipe exactly when the write of its end marker slept
      and the reader closed before it resumed. */
  lemma StrayExactly(s: Sys, op: Op)
    requires Ok(s) && Enabled(s, op)
    ensures Step(s, op).stray <==> s.stray || (op.WriteOn? && s.writer.ForRoom? && s.writer.closing && s.gone)
  {
    hide Ok, ReadTurn, WriteLoop, WriteResume;
  }

  /** That write sleeps exactly in a full pipe, */
  lemma CloseSleeps(s: Sys)
    requires Ok(s) && Enabled(s, CloseW)
    ensures Step(s, CloseW).writer == ForRoom([EOF_MARKER], true) <==> Full(s.pipe)
    ensures !Full(s.pipe) ==>
              var q := Step(s, CloseW).pipe;
              && Step(s, CloseW).writer == NotWriting
              && q.inPid == NO_PID && q.eof && q.blocked == {} && q.live == s.pipe.live
  {
    WriterHere(s, CloseW);
    WriterStepOk(s, CloseW);
    var kept, end := WriteTurnOk(s, CloseW);
    if !Full(s.pipe) {
      FilledEnd(s.pipe);
    }
  }

  lemma FilledEnd(p: Pipe)
    requires WellFormed(p) && SleepOk(p) && p.inPid == W && W !in p.blocked && !Full(p)
    ensures !WriteLoop(p, [EOF_MARKER], []).asleep
  {
    if !p.eof {
      assert WriteRound(p, [EOF_MARKER]).bytes == [EOF_MARKER];
      var kept, end := WriteLoopOk(p, [EOF_MARKER]);
    }
  }

  /** and from any full pipe with both sides at rest it then happens: writer closes, reader closes. */
  lemma FullCloseStrays(s: Sys)
    requires Ok(s) && Full(s.pipe) && Enabled(s, CloseW) && s.reader == NotReading && s.pipe.outPid == R
    ensures Runs(s, [CloseW, CloseR, WriteOn]) && After(s, [CloseW, CloseR, WriteOn]).stray
  {
    var t := Step(s, CloseW);
    CloseSleeps(s);
    StepOk(s, CloseW);
    assert t.reader == NotReading && !t.gone;
    assert t.pipe == Sleep(s.pipe, W);
    var u := Step(t, CloseR);
    StepOk(t, CloseR);
    assert u.gone && u.writer == t.writer;
    assert Enabled(u, WriteOn) && Step(u, WriteOn).stray;
    assert [CloseW, CloseR, WriteOn][1..] == [CloseR, WriteOn] && [CloseR, WriteOn][1..] == [WriteOn];
    hide Step, Enabled, Ok;
    assert Runs(u, [WriteOn]) && After(u, [WriteOn]).stray by { LastStep(u, WriteOn); }
    assert Runs(t, [CloseR, WriteOn]) && After(t, [CloseR, WriteOn]).stray;
  }

  lemma LastStep(s: Sys, op: Op)
    requires Enabled(s, op)
    ensures Runs(s, [op]) && After(s, [op]) == Step(s, op)
  {
    assert [op][1..] == [];
    assert After(Step(s, op), []) == Step(s, op);
    hide Step, Enabled;
  }
}
