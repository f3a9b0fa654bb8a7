/** What the operations on one pipe do to the bytes in it, its end marker, its ends and its sleepers. */
module PipeSpec {
  const PIPE_SIZE: nat := 4096
  const EOF_MARKER: int := -1
  const NO_PID: int := -1

  /** A signed byte, as the buffer holds it. */
  type Byte = x: int | -128 <= x < 128

  /** `live` is what is to be read, `eof` whether the end marker follows it, `blocked` the pids that
      the pipe has put to sleep and not woken. */
  datatype Pipe = Pipe(live: seq<Byte>, eof: bool, inPid: int, outPid: int, blocking: bool, blocked: set<int>)

  /** A pipe after some bytes went in or out; `end` says that the last of them is the end marker. */
  datatype Moved = Moved(pipe: Pipe, bytes: seq<Byte>, end: bool)

  /** A call up to where it returns or goes to sleep. */
  datatype Turn = Turn(pipe: Pipe, bytes: seq<Byte>, asleep: bool)

  predicate Dry(p: Pipe) {
    p.live == [] && !p.eof
  }

  predicate Full(p: Pipe) {
    |p.live| >= PIPE_SIZE
  }

  /** No data byte is the end marker, and the marker has a slot of its own. */
  predicate WellFormed(p: Pipe) {
    EOF_MARKER !in p.live && |p.live| <= PIPE_SIZE && (p.eof ==> |p.live| < PIPE_SIZE)
  }

  /** What a reader that wants `want` more bytes gets at once. The end marker stays in the pipe. */
  function Drain(p: Pipe, want: nat): Moved {
    if want <= |p.live| then Moved(p.(live := p.live[want..]), p.live[..want], false)
    else if p.eof then Moved(p.(live := []), p.live + [EOF_MARKER], true)
    else Moved(p.(live := []), p.live, false)
  }

  /** What a writer gets rid of at once, up to an end marker of its own. A byte goes over an end
      marker that is there. */
  function Fill(p: Pipe, data: seq<Byte>): Moved
    decreases |data|
  {
    if data == [] || Full(p) then Moved(p, [], false)
    else if data[0] == EOF_MARKER then Moved(p.(eof := true), [EOF_MARKER], true)
    else
      var m := Fill(p.(live := p.live + [data[0]], eof := false), data[1..]);
      Moved(m.pipe, [data[0]] + m.bytes, m.end)
  }

  function WakeWriter(p: Pipe): Pipe {
    if p.blocking then p.(blocking := false, blocked := p.blocked - {p.inPid}) else p
  }

  function WakeReader(p: Pipe): Pipe {
    if p.blocking then p.(blocking := false, blocked := p.blocked - {p.outPid}) else p
  }

  function Sleep(p: Pipe, pid: int): Pipe {
    p.(blocking := true, blocked := p.blocked + {pid})
  }

  // ---------------------------------------------------------------- reading

  /** One round of the read loop behind its sleep. */
  function ReadRound(p: Pipe, want: nat): Moved {
    var m := Drain(p, want);
    Moved(WakeWriter(m.pipe), m.bytes, m.end)
  }

  /** The read loop from its head: it ends, sleeps, or transfers and comes back. */
  function ReadLoop(p: Pipe, len: nat, got: seq<Byte>, eofRead: bool): Turn
    decreases if eofRead then 0 else 1, |p.live|
  {
    if |got| >= len || eofRead then Turn(p, got, false)
    else if Dry(p) then Turn(Sleep(p, p.outPid), got, true)
    else
      var m := ReadRound(p, len - |got|);
      ReadLoop(m.pipe, len, got + m.bytes, m.end)
  }

  /** A reader that was woken while it waited for data. */
  function ReadResume(p: Pipe, len: nat, got: seq<Byte>): Turn {
    var m := ReadRound(p, if |got| <= len then len - |got| else 0);
    ReadLoop(m.pipe, len, got + m.bytes, m.end)
  }

  predicate NoWriterYet(p: Pipe) {
    p.inPid == NO_PID && Dry(p)
  }

  /** `pipe_read` from its first loop on: it waits there for a writer to open an empty pipe. */
  function ReadStart(p: Pipe, len: nat): Turn {
    if NoWriterYet(p) then Turn(Sleep(p, p.outPid), [], true) else ReadLoop(p, len, [], false)
  }

  // ---------------------------------------------------------------- writing

  function WriteRound(p: Pipe, data: seq<Byte>): Moved {
    var m := Fill(p, data);
    Moved(WakeReader(m.pipe), m.bytes, m.end)
  }

  /** The write loop from its head, with `data` left to write; `bytes` are those that went in. */
  function WriteLoop(p: Pipe, data: seq<Byte>, done: seq<Byte>): Turn
    decreases |data|
  {
    if data == [] || p.eof then Turn(p, done, false)
    else if Full(p) then Turn(Sleep(p, p.inPid), done, true)
    else
      var m := WriteRound(p, data);
      if 0 < |m.bytes| <= |data| then WriteLoop(m.pipe, data[|m.bytes|..], done + m.bytes)
      else Turn(m.pipe, done, false)
  }

  function WriteResume(p: Pipe, data: seq<Byte>, done: seq<Byte>): Turn {
    var m := WriteRound(p, data);
    if |m.bytes| <= |data| then WriteLoop(m.pipe, data[|m.bytes|..], done + m.bytes) else Turn(m.pipe, done, false)
  }

  // ---------------------------------------------------------------- ends

  function OpenWrite(p: Pipe, pid: int): Pipe {
    var q := p.(inPid := pid);
    if q.outPid != NO_PID then WakeReader(q) else q
  }

  function OpenRead(p: Pipe, pid: int): Pipe {
    var q := p.(outPid := pid);
    if q.inPid != NO_PID then WakeWriter(q) else q
  }

  /** The writer's end is shut, behind the write of the end marker. */
  function ShutWrite(p: Pipe): Pipe {
    var q := p.(inPid := NO_PID);
    if q.outPid != NO_PID then WakeReader(q) else q
  }

  /** The reader's end is shut, before the pipe is freed. */
  function ShutRead(p: Pipe): Pipe {
    var q := p.(outPid := NO_PID);
    if q.inPid != NO_PID then WakeWriter(q) else q
  }

  const FRESH := Pipe([], false, NO_PID, NO_PID, false, {})

  // ---------------------------------------------------------------- what they mean

  ghost predicate Data(bytes: seq<Byte>, end: bool, data: seq<Byte>) {
    EOF_MARKER !in data && bytes == if end then data + [EOF_MARKER] else data
  }

  /** Draining hands over the oldest bytes in order; it yields the end marker exactly when that is
      there and every byte before it has been taken, and leaves it in place. */
  lemma DrainFifo(p: Pipe, want: nat) returns (data: seq<Byte>)
    requires WellFormed(p)
    ensures var m := Drain(p, want);
            && Data(m.bytes, m.end, data) && p.live == data + m.pipe.live && WellFormed(m.pipe)
            && m.pipe == p.(live := m.pipe.live) && |m.bytes| <= want
            && (m.end <==> p.eof && |p.live| < want) && (m.end ==> m.pipe.live == [])
            && (|m.bytes| < want && !m.end ==> Dry(m.pipe))
            && (want > 0 && !Dry(p) ==> m.bytes != [])
  {
    data := if want <= |p.live| then p.live[..want] else p.live;
    assert p.live == p.live[..|data|] + p.live[|data|..];
  }

  /** Filling takes the first bytes of `data` in order, up to its first end marker or a full pipe. */
  lemma {:induction false} FillFifo(p: Pipe, data: seq<Byte>) returns (kept: seq<Byte>)
    requires WellFormed(p)
    ensures var m := Fill(p, data);
            && Data(m.bytes, m.end, kept) && m.pipe.live == p.live + kept && WellFormed(m.pipe)
            && m.pipe == p.(live := m.pipe.live, eof := m.end || (p.eof && m.bytes == []))
            && |m.bytes| <= |data| && m.bytes == data[..|m.bytes|]
            && (|m.bytes| < |data| && !m.end ==> Full(m.pipe)) && (data != [] && !Full(p) ==> m.bytes != [])
    decreases |data|
  {
    if data == [] || Full(p) || data[0] == EOF_MARKER {
      kept := [];
    } else {
      var q := p.(live := p.live + [data[0]], eof := false);
      var rest := FillFifo(q, data[1..]);
      kept := [data[0]] + rest;
      var m := Fill(q, data[1..]);
      assert q.live + rest == p.live + kept;
      assert [data[0]] + data[1..][..|m.bytes|] == data[..|m.bytes| + 1];
    }
  }
}
