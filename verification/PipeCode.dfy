/** A pipe's ring buffer and its sleep flag, updated in place. */
module PipeCode {
  import opened PipeSpec

  function Slot(start: nat, i: nat): (k: nat)
    ensures k < PIPE_SIZE
  {
    (start + i) % PIPE_SIZE
  }

  /** The bytes to be read, from `start` on around the buffer. */
  ghost function Live(b: seq<Byte>, start: nat, size: nat): (live: seq<Byte>)
    requires |b| == PIPE_SIZE
    ensures |live| == size && forall i :: 0 <= i < size ==> live[i] == b[Slot(start, i)]
  {
    seq(size, i requires 0 <= i < size => b[Slot(start, i)])
  }

  /** No slot, live or stale, holds the end marker, but for the one behind the live bytes. */
  ghost predicate Ring(b: seq<Byte>, start: nat, size: nat) {
    && |b| == PIPE_SIZE && start < PIPE_SIZE && size <= PIPE_SIZE
    && (forall k :: 0 <= k < PIPE_SIZE && k != Slot(start, size) ==> b[k] != EOF_MARKER)
    && (size == PIPE_SIZE ==> b[start] != EOF_MARKER)
  }

  ghost predicate Ended(b: seq<Byte>, start: nat, size: nat)
    requires |b| == PIPE_SIZE
  {
    b[Slot(start, size)] == EOF_MARKER
  }

  lemma LiveIsData(b: seq<Byte>, start: nat, size: nat)
    requires Ring(b, start, size)
    ensures EOF_MARKER !in Live(b, start, size) && (Ended(b, start, size) ==> size < PIPE_SIZE)
  {
    forall i | 0 <= i < size
      ensures b[Slot(start, i)] != EOF_MARKER
    {
      assert i < size < PIPE_SIZE ==> Slot(start, i) != Slot(start, size);
      assert size == PIPE_SIZE ==> Slot(start, size) == start;
    }
  }

  /** Taking the oldest byte out leaves the end marker where it was. */
  lemma TakeByte(b: seq<Byte>, start: nat, size: nat, start': nat)
    requires Ring(b, start, size) && size > 0 && start' == Slot(start, 1)
    ensures Ring(b, start', size - 1) && b[start] != EOF_MARKER
    ensures Live(b, start, size) == [b[start]] + Live(b, start', size - 1)
    ensures Ended(b, start', size - 1) <==> Ended(b, start, size)
  {
    LiveIsData(b, start, size);
    assert Live(b, start, size)[0] == b[start];
    assert Slot(start', size - 1) == Slot(start, size);
    assert forall i :: 0 <= i < size - 1 ==> Slot(start', i) == Slot(start, i + 1);
  }

  lemma PutByte(b: seq<Byte>, start: nat, size: nat, x: Byte, b': seq<Byte>)
    requires Ring(b, start, size) && size < PIPE_SIZE && b' == b[Slot(start, size) := x]
    ensures x == EOF_MARKER ==>
              Ring(b', start, size) && Live(b', start, size) == Live(b, start, size) && Ended(b', start, size)
    ensures x != EOF_MARKER ==>
              && Ring(b', start, size + 1) && !Ended(b', start, size + 1)
              && Live(b', start, size + 1) == Live(b, start, size) + [x]
  {
    assert forall i :: 0 <= i < size ==> Slot(start, i) != Slot(start, size);
    if x != EOF_MARKER {
      assert size + 1 < PIPE_SIZE ==> Slot(start, size + 1) != Slot(start, size);
      assert size + 1 == PIPE_SIZE ==> Slot(start, size + 1) == start;
    }
  }

  /** One byte of a drain: the head of the data, or the end marker. */
  lemma DrainStep(p: PipeSpec.Pipe, x: Byte, want: nat)
    requires want > 0 && (if p.live == [] then p.eof && x == EOF_MARKER else p.live[0] == x)
    ensures p.live == [] ==> Drain(p, want) == Moved(p, [x], true)
    ensures p.live != [] ==>
              var m := Drain(p.(live := p.live[1..]), want - 1);
              Drain(p, want) == Moved(m.pipe, [x] + m.bytes, m.end)
  {
    if p.live != [] {
      var rest := p.live[1..];
      if want <= |p.live| {
        assert p.live[..want] == [x] + rest[..want - 1];
        assert p.live[want..] == rest[want - 1..];
      } else if p.eof {
        assert p.live + [EOF_MARKER] == [x] + (rest + [EOF_MARKER]);
      }
    }
  }

  lemma NothingWanted(p: PipeSpec.Pipe)
    ensures Drain(p, 0) == Moved(p, [], false)
    ensures Dry(p) ==> forall want :: Drain(p, want) == Moved(p, [], false)
  {
    assert p.live[0..] == p.live && p.(live := p.live) == p;
  }

  /** How far a call got: turned away, asleep before a writer came, asleep with the bytes moved so
      far, or done. */
  datatype Outcome = Refused | AsleepForWriter | Asleep(bytes: seq<Byte>) | Done(bytes: seq<Byte>)

  /** One byte of a fill: it goes in behind the data, or ends it. */
  lemma FillStep(p: PipeSpec.Pipe, data: seq<Byte>, from: nat)
    requires from < |data| && !Full(p)
    ensures data[from] == EOF_MARKER ==> Fill(p, data[from..]) == Moved(p.(eof := true), [EOF_MARKER], true)
    ensures data[from] != EOF_MARKER ==>
              var m := Fill(p.(live := p.live + [data[from]], eof := false), data[from + 1..]);
              Fill(p, data[from..]) == Moved(m.pipe, [data[from]] + m.bytes, m.end)
  {
    assert data[from..][0] == data[from] && data[from..][1..] == data[from + 1..];
  }

  class Pipe {
    const buffer: array<Byte>
    var startPosition: nat
    var currentSize: nat
    var inputPid: int
    var outputPid: int
    var isBlocking: bool
    var blocked: set<int>   // the pids that `set_status` has blocked here and not made ready since

    ghost predicate Valid()
      reads this, buffer
    {
      buffer.Length == PIPE_SIZE && Ring(buffer[..], startPosition, currentSize)
    }

    ghost function Contents(): PipeSpec.Pipe
      requires Valid()
      reads this, buffer
    {
      PipeSpec.Pipe(Live(buffer[..], startPosition, currentSize), Ended(buffer[..], startPosition, currentSize),
                    inputPid, outputPid, isBlocking, blocked)
    }

    constructor ()
      ensures Valid() && Contents() == FRESH && fresh(buffer)
    {
      buffer := new Byte[PIPE_SIZE](_ => 0);
      startPosition, currentSize, inputPid, outputPid, isBlocking, blocked := 0, 0, NO_PID, NO_PID, false, {};
    }

    /** The slot at `startPosition` shows the next byte, or the end marker behind the last one. */
    lemma Head()
      requires Valid()
      ensures startPosition < buffer.Length && currentSize == |Contents().live| && WellFormed(Contents())
      ensures buffer[startPosition] == EOF_MARKER <==> currentSize == 0 && Contents().eof
      ensures currentSize > 0 ==> Contents().live[0] == buffer[startPosition]
    {
      LiveIsData(buffer[..], startPosition, currentSize);
      if currentSize > 0 {
        TakeByte(buffer[..], startPosition, currentSize, Slot(startPosition, 1));
      }
    }

    method SkipByte()
      requires Valid() && currentSize > 0
      modifies this`startPosition, this`currentSize
      ensures Valid() && currentSize == old(currentSize) - 1
      ensures Contents() == old(Contents()).(live := old(Contents()).live[1..])
    {
      TakeByte(buffer[..], startPosition, currentSize, Slot(startPosition, 1));
      currentSize := currentSize - 1;
      startPosition := Slot(startPosition, 1);
    }

    /** The inner loop of `pipe_read`: `want` is what is left of the caller's buffer. */
    method Drained(want: nat) returns (got: seq<Byte>, eofRead: bool)
      requires Valid()
      modifies this`startPosition, this`currentSize
      ensures Valid()
      ensures Contents() == Drain(old(Contents()), want).pipe
      ensures got == Drain(old(Contents()), want).bytes && eofRead == Drain(old(Contents()), want).end
    {
      hide Valid, Contents, Drain;
      got, eofRead := [], false;
      Head();
      NothingWanted(Contents());
      while (currentSize > 0 || buffer[startPosition] == EOF_MARKER) && |got| < want
        invariant Valid() && |got| <= want && !eofRead && startPosition < buffer.Length
        invariant currentSize == |Contents().live|
        invariant buffer[startPosition] == EOF_MARKER <==> currentSize == 0 && Contents().eof
        invariant var m := Drain(Contents(), want - |got|);
                  Drain(old(Contents()), want) == Moved(m.pipe, got + m.bytes, m.end)
        decreases currentSize
      {
        Head();
        var byte := buffer[startPosition];
        DrainStep(Contents(), byte, want - |got|);
        got := got + [byte];
        if byte == EOF_MARKER {
          eofRead := true;
          break;
        }
        SkipByte();
        Head();
      }
      NothingWanted(Contents());
    }

    /** Puts a byte behind the data; an end marker is put there without being counted. */
    method StoreByte(x: Byte)
      requires Valid() && currentSize < PIPE_SIZE
      modifies this`currentSize, buffer
      ensures Valid() && currentSize == old(currentSize) + if x == EOF_MARKER then 0 else 1
      ensures x == EOF_MARKER ==> Contents() == old(Contents()).(eof := true)
      ensures x != EOF_MARKER ==>
                Contents() == old(Contents()).(live := old(Contents()).live + [x], eof := false)
    {
      ghost var b := buffer[..];
      var position := Slot(startPosition, currentSize);
      buffer[position] := x;
      PutByte(b, startPosition, currentSize, x, buffer[..]);
      if x != EOF_MARKER {
        currentSize := currentSize + 1;
      }
    }

    /** The inner loop of `pipe_write`: the bytes of `data` from `from` on. */
    method Filled(data: seq<Byte>, from: nat) returns (written: nat)
      requires Valid() && from <= |data|
      modifies this`currentSize, buffer
      ensures Valid() && from <= written <= |data|
      ensures var m := Fill(old(Contents()), data[from..]);
              Contents() == m.pipe && m.bytes == data[from..written]
    {
      hide Valid, Contents, Fill;
      written := from;
      Head();
      ghost var ended := false;
      assert data[from..written] == [];
      while currentSize < PIPE_SIZE && written < |data|
        invariant Valid() && from <= written <= |data|
        invariant currentSize == |Contents().live|
        invariant var m := Fill(Contents(), data[written..]);
                  Fill(old(Contents()), data[from..]) == Moved(m.pipe, data[from..written] + m.bytes, m.end)
        decreases |data| - written
      {
        ghost var p := Contents();
        FillStep(p, data, written);
        assert data[from..written + 1] == data[from..written] + [data[written]];
        StoreByte(data[written]);
        Head();
        written := written + 1;
        if data[written - 1] == EOF_MARKER {
          return;
        }
        assert Contents() == p.(live := p.live + [data[written - 1]], eof := false);
      }
      NothingStored(Contents(), data[written..]);
    }

    lemma NothingStored(p: PipeSpec.Pipe, data: seq<Byte>)
      requires data == [] || Full(p)
      ensures Fill(p, data) == Moved(p, [], false)
    {
    }

    method WakeInput()
      modifies this`isBlocking, this`blocked
      requires Valid()
      ensures Valid() && Contents() == WakeWriter(old(Contents()))
    {
      if isBlocking {
        blocked := blocked - {inputPid};
        isBlocking := false;
      }
    }

    method WakeOutput()
      modifies this`isBlocking, this`blocked
      requires Valid()
      ensures Valid() && Contents() == WakeReader(old(Contents()))
    {
      if isBlocking {
        blocked := blocked - {outputPid};
        isBlocking := false;
      }
    }

    method GoToSleep(pid: int)
      modifies this`isBlocking, this`blocked
      requires Valid()
      ensures Valid() && Contents() == Sleep(old(Contents()), pid)
    {
      isBlocking := true;
      blocked := blocked + {pid};
    }

    // ---------------------------------------------------------------- pipe_read

    /** `pipe_read` up to its return or its first `yield`. */
    method Read(pid: int, len: nat) returns (r: Outcome)
      requires Valid()
      modifies this
      ensures Valid()
      ensures old(outputPid) != pid || len == 0 ==> r == Refused && Contents() == old(Contents())
      ensures old(outputPid) == pid && len > 0 ==>
                var t := ReadStart(old(Contents()), len);
                && Contents() == t.pipe
                && r == if t.asleep then (if NoWriterYet(old(Contents())) then AsleepForWriter
                   else Asleep(t.bytes)) else Done(t.bytes)
    {
      hide Valid, Contents;
      Fields();
      if outputPid != pid || len == 0 {
        return Refused;
      }
      r := ReadFromWriter(len);
    }

    /** The first loop of `pipe_read`, entered afresh or after a `yield`, and what comes behind it. */
    method ReadFromWriter(len: nat) returns (r: Outcome)
      requires Valid()
      modifies this
      ensures Valid()
      ensures var t := ReadStart(old(Contents()), len);
              && Contents() == t.pipe
              && r == if t.asleep then (if NoWriterYet(old(Contents())) then AsleepForWriter else Asleep(t.bytes))
                 else Done(t.bytes)
    {
      hide Valid, Contents, ReadLoop;
      Fields();
      Head();
      if inputPid == NO_PID && currentSize == 0 && buffer[startPosition] != EOF_MARKER {
        GoToSleep(outputPid);
        return AsleepForWriter;
      }
      r := ReadOn(len, [], false);
    }

    lemma Fields()
      requires Valid()
      ensures Contents().inPid == inputPid && Contents().outPid == outputPid
    {
    }

    /** The second loop of `pipe_read`. */
    method ReadOn(len: nat, got0: seq<Byte>, eof0: bool) returns (r: Outcome)
      requires Valid()
      modifies this
      ensures Valid()
      ensures var t := ReadLoop(old(Contents()), len, got0, eof0);
              Contents() == t.pipe && r == if t.asleep then Asleep(t.bytes) else Done(t.bytes)
    {
      hide Valid, Contents, Drain;
      var got, eofRead := got0, eof0;
      while |got| < len && !eofRead
        invariant Valid()
        invariant ReadLoop(Contents(), len, got, eofRead) == ReadLoop(old(Contents()), len, got0, eof0)
        decreases if eofRead then 0 else 1, |Contents().live|
      {
        Head();
        Fields();
        if currentSize == 0 && buffer[startPosition] != EOF_MARKER {
          GoToSleep(outputPid);
          return Asleep(got);
        }
        DrainShrinks(Contents(), len - |got|);
        var bytes;
        bytes, eofRead := Drained(len - |got|);
        got := got + bytes;
        WakeInput();
      }
      r := Done(got);
    }

    lemma DrainShrinks(p: PipeSpec.Pipe, want: nat)
      requires want > 0 && !Dry(p)
      ensures var m := Drain(p, want); |m.pipe.live| < |p.live| || (m.end && |m.pipe.live| <= |p.live|)
    {
    }

    /** `pipe_read` from its second `yield` on. */
    method ReadAgain(len: nat, got0: seq<Byte>) returns (r: Outcome)
      requires Valid() && |got0| <= len
      modifies this
      ensures Valid()
      ensures var t := ReadResume(old(Contents()), len, got0);
              Contents() == t.pipe && r == if t.asleep then Asleep(t.bytes) else Done(t.bytes)
    {
      hide Valid, Contents, Drain, ReadLoop;
      var bytes, eofRead := Drained(len - |got0|);
      WakeInput();
      r := ReadOn(len, got0 + bytes, eofRead);
    }

    // ---------------------------------------------------------------- pipe_write

    /** `pipe_write` up to its return or its first `yield`. */
    method Write(pid: int, data: seq<Byte>) returns (r: Outcome)
      requires Valid()
      modifies this, buffer
      ensures Valid()
      ensures old(inputPid) != pid || data == [] ==> r == Refused && Contents() == old(Contents())
      ensures old(inputPid) == pid && data != [] ==>
                var t := WriteLoop(old(Contents()), data, []);
                Contents() == t.pipe && r == if t.asleep then Asleep(t.bytes) else Done(t.bytes)
    {
      hide Valid, Contents, WriteLoop;
      if inputPid != pid || data == [] {
        return Refused;
      }
      assert data[0..] == data && data[..0] == [];
      r := WriteOn(data, 0);
    }

    /** The loop of `pipe_write`, with the bytes of `data` before `from` written. */
    method WriteOn(data: seq<Byte>, from: nat) returns (r: Outcome)
      requires Valid() && from <= |data|
      modifies this, buffer
      ensures Valid()
      ensures var t := WriteLoop(old(Contents()), data[from..], data[..from]);
              Contents() == t.pipe && r == if t.asleep then Asleep(t.bytes) else Done(t.bytes)
    {
      hide Valid, Contents, Fill;
      var written := from;
      Tail();
      while written < |data| && buffer[Slot(startPosition, currentSize)] != EOF_MARKER
        invariant Valid() && from <= written <= |data| && buffer.Length == PIPE_SIZE
        invariant buffer[Slot(startPosition, currentSize)] == EOF_MARKER <==> Contents().eof
        invariant WriteLoop(Contents(), data[written..], data[..written])
                  == WriteLoop(old(Contents()), data[from..], data[..from])
        decreases |data| - written
      {
        Head();
        Fields();
        if currentSize >= PIPE_SIZE {
          GoToSleep(inputPid);
          return Asleep(data[..written]);
        }
        WriteStep(Contents(), data, written);
        written := Filled(data, written);
        WakeOutput();
        Tail();
      }
      r := Done(data[..written]);
    }

    lemma Tail()
      requires Valid()
      ensures buffer.Length == PIPE_SIZE && (buffer[Slot(startPosition, currentSize)] == EOF_MARKER <==> Contents().eof)
    {
    }

    lemma WriteStep(p: PipeSpec.Pipe, data: seq<Byte>, from: nat)
      requires WellFormed(p) && from < |data| && !p.eof && !Full(p)
      ensures var m := Fill(p, data[from..]);
              && 0 < |m.bytes| <= |data| - from
              && WriteLoop(p, data[from..], data[..from])
                 == WriteLoop(WakeReader(m.pipe), data[from + |m.bytes|..], data[..from + |m.bytes|])
    {
      hide WriteLoop, WakeReader;
      var _ := FillFifo(p, data[from..]);
      var n := |Fill(p, data[from..]).bytes|;
      Unfolded(p, data[from..], data[..from]);
      assert data[from..][n..] == data[from + n..];
      assert data[..from] + data[from..][..n] == data[..from + n];
    }

    lemma Unfolded(p: PipeSpec.Pipe, data: seq<Byte>, done: seq<Byte>)
      requires data != [] && !p.eof && !Full(p) && 0 < |WriteRound(p, data).bytes| <= |data|
      ensures var m := WriteRound(p, data);
              WriteLoop(p, data, done) == WriteLoop(m.pipe, data[|m.bytes|..], done + m.bytes)
    {
    }

    /** `pipe_write` from its `yield` on, in a pipe that is still open. */
    method WriteAgain(data: seq<Byte>, from: nat) returns (r: Outcome)
      requires Valid() && from <= |data|
      modifies this, buffer
      ensures Valid()
      ensures var t := WriteResume(old(Contents()), data[from..], data[..from]);
              Contents() == t.pipe && r == if t.asleep then Asleep(t.bytes) else Done(t.bytes)
    {
      hide Valid, Contents, WriteLoop;
      Head();
      ResumeStep(Contents(), data, from);
      var written := Filled(data, from);
      WakeOutput();
      r := WriteOn(data, written);
    }

    lemma ResumeStep(p: PipeSpec.Pipe, data: seq<Byte>, from: nat)
      requires WellFormed(p) && from <= |data|
      ensures var m := Fill(p, data[from..]);
              && |m.bytes| <= |data| - from
              && WriteResume(p, data[from..], data[..from])
                 == WriteLoop(WakeReader(m.pipe), data[from + |m.bytes|..], data[..from + |m.bytes|])
    {
      hide WriteLoop, WakeReader;
      var _ := FillFifo(p, data[from..]);
      var n := |Fill(p, data[from..]).bytes|;
      assert data[from..][n..] == data[from + n..];
      assert data[..from] + data[from..][..n] == data[..from + n];
    }

    // ---------------------------------------------------------------- pipe_open and pipe_close

    method OpenInput(pid: int) returns (result: int)
      requires Valid()
      modifies this
      ensures Valid()
      ensures if old(inputPid) != NO_PID && old(inputPid) != pid then result == -1 && Contents() == old(Contents())
              else result == 0 && Contents() == OpenWrite(old(Contents()), pid)
    {
      if inputPid != NO_PID && inputPid != pid {
        return -1;
      }
      inputPid := pid;
      if outputPid != NO_PID && isBlocking {
        blocked := blocked - {outputPid};
        isBlocking := false;
      }
      result := 0;
    }

    method OpenOutput(pid: int) returns (result: int)
      requires Valid()
      modifies this
      ensures Valid()
      ensures if old(outputPid) != NO_PID && old(outputPid) != pid then result == -1 && Contents() == old(Contents())
              else result == 0 && Contents() == OpenRead(old(Contents()), pid)
    {
      if outputPid != NO_PID && outputPid != pid {
        return -1;
      }
      outputPid := pid;
      if inputPid != NO_PID && isBlocking {
        blocked := blocked - {inputPid};
        isBlocking := false;
      }
      result := 0;
    }

    /** What `pipe_close` does behind the write of the end marker. */
    method CloseInput()
      requires Valid()
      modifies this
      ensures Valid() && Contents() == ShutWrite(old(Contents()))
    {
      inputPid := NO_PID;
      if isBlocking && outputPid != NO_PID {
        blocked := blocked - {outputPid};
        isBlocking := false;
      }
    }

    /** What `pipe_close` does before it frees the pipe. */
    method CloseOutput()
      requires Valid()
      modifies this
      ensures Valid() && Contents() == ShutRead(old(Contents()))
    {
      outputPid := NO_PID;
      if isBlocking && inputPid != NO_PID {
        blocked := blocked - {inputPid};
        isBlocking := false;
      }
    }
  }
}
