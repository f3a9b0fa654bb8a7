/** When a writer that closes a pipe writes to it after it was freed. */
module PipeStray {
  import opened PipeSpec
  import opened PipeProtocol

  /** The state of the run after its first `n` steps. */
  function At(ops: seq<Op>, n: nat): Sys
    requires n <= |ops|
  {
    After(START, ops[..n])
  }

  lemma {:induction false} Prefix(s: Sys, ops: seq<Op>, n: nat)
    requires Runs(s, ops) && n < |ops| && Ok(s)
    ensures Enabled(After(s, ops[..n]), ops[n]) && After(s, ops[..n + 1]) == Step(After(s, ops[..n]), ops[n])
    ensures Ok(After(s, ops[..n]))
    decreases n
  {
    hide Ok, Step, Enabled;
    assert ops[..n + 1][0] == ops[0] && ops[..n + 1][1..] == ops[1..][..n];
    if n > 0 {
      assert ops[..n][1..] == ops[1..][..n - 1];
      StepOk(s, ops[0]);
      Prefix(Step(s, ops[0]), ops[1..], n - 1);
    }
  }

  lemma StepAt(ops: seq<Op>, n: nat)
    requires Runs(START, ops) && n < |ops|
    ensures Enabled(At(ops, n), ops[n]) && At(ops, n + 1) == Step(At(ops, n), ops[n]) && Ok(At(ops, n))
  {
    Prefix(START, ops, n);
  }

  /** The writer sleeps, or is woken and not resumed, in the write of its end marker. */
  predicate Closing(s: Sys) {
    s.writer.ForRoom? && s.writer.closing
  }

  /** Step `i` closed the writer's end of a full pipe, and every resumption before step `n` found the
      pipe full again. */
  ghost predicate ClosingSince(ops: seq<Op>, i: nat, n: nat)
    requires n <= |ops|
  {
    && i < n && ops[i] == CloseW && Full(At(ops, i).pipe)
    && forall m :: i < m < n && ops[m] == WriteOn ==> Full(At(ops, m).pipe)
  }

  /** A step makes the writer close exactly by closing a full pipe, and leaves it closing exactly
      unless it resumes with room in the pipe. */
  lemma ClosingStep(s: Sys, op: Op)
    requires Ok(s) && Enabled(s, op) && !s.gone
    ensures Closing(Step(s, op)) <==> (op == CloseW && Full(s.pipe)) || (Closing(s) && (op == WriteOn ==> Full(s.pipe)))
  {
    match op
    case CloseW => CloseSleeps(s); ClosesOnce(s);
    case WriteOn => ResumeSleeps(s);
    case Write(data) => hide WriteLoop;
    case OpenW =>
    case OpenR =>
    case CloseR =>
    case Read(_) => hide ReadStart;
    case ReadOn => hide ReadTurn;
  }

  lemma ClosesOnce(s: Sys)
    requires Ok(s) && Enabled(s, CloseW)
    ensures !Closing(s)
  {
  }

  /** A writer that resumes to write its end marker sleeps again exactly in a full pipe. */
  lemma ResumeSleeps(s: Sys)
    requires Ok(s) && Enabled(s, WriteOn) && !s.gone
    ensures Closing(Step(s, WriteOn)) <==> Closing(s) && Full(s.pipe)
  {
    WriterHere(s, WriteOn);
    WriterStepOk(s, WriteOn);
    if Closing(s) {
      assert s.writer.data == [EOF_MARKER];
      MarkerResumes(s.pipe);
    }
  }

  lemma MarkerResumes(p: Pipe)
    requires WellFormed(p) && SleepOk(p) && p.inPid == W && W !in p.blocked && !p.eof
    ensures WriteResume(p, [EOF_MARKER], []).asleep <==> Full(p)
    ensures WriteResume(p, [EOF_MARKER], []).asleep ==> WriteResume(p, [EOF_MARKER], []).bytes == []
  {
    var m := WriteRound(p, [EOF_MARKER]);
    if Full(p) {
      assert m.bytes == [] && [EOF_MARKER][|m.bytes|..] == [EOF_MARKER] && [] + m.bytes == [];
    } else {
      assert m.bytes == [EOF_MARKER] && [EOF_MARKER][|m.bytes|..] == [];
    }
  }

  ghost predicate ClosingBy(ops: seq<Op>, n: nat)
    requires n <= |ops|
  {
    exists i: nat :: ClosingSince(ops, i, n)
  }

  /** While the pipe is there, the writer is closing exactly since it closed a full pipe. */
  lemma {:induction false} ClosingWhen(ops: seq<Op>, n: nat)
    requires Runs(START, ops) && n <= |ops| && !At(ops, n).gone
    ensures Closing(At(ops, n)) <==> ClosingBy(ops, n)
  {
    if n > 0 {
      StepAt(ops, n - 1);
      var s := At(ops, n - 1);
      hide At, Runs, Ok, Enabled, ClosingBy;
      StaysGone(s, ops[n - 1]);
      ClosingWhen(ops, n - 1);
      ClosingStep(s, ops[n - 1]);
      SinceStep(ops, n - 1, n);
    } else {
      assert forall i: nat :: !ClosingSince(ops, i, n);
    }
  }

  lemma StaysGone(s: Sys, op: Op)
    ensures s.gone ==> Step(s, op).gone
  {
  }

  lemma SinceStep(ops: seq<Op>, n: nat, p: nat)
    requires n < |ops| && p == n + 1
    ensures ClosingBy(ops, p) <==>
              || (ops[n] == CloseW && Full(At(ops, n).pipe))
              || (ClosingBy(ops, n) && (ops[n] == WriteOn ==> Full(At(ops, n).pipe)))
  {
    hide At;
    if ClosingBy(ops, p) {
      var i: nat :| ClosingSince(ops, i, p);
      assert i < n ==> ClosingSince(ops, i, n);
    }
    if ops[n] == CloseW && Full(At(ops, n).pipe) {
      assert ClosingSince(ops, n, p);
    }
    if ClosingBy(ops, n) && (ops[n] == WriteOn ==> Full(At(ops, n).pipe)) {
      var i: nat :| ClosingSince(ops, i, n);
      assert ClosingSince(ops, i, p);
    }
  }

  /** Behind the reader's close nothing can happen but one resumption of the writer. */
  lemma GoneWhen(ops: seq<Op>, n: nat)
    requires Runs(START, ops) && n <= |ops|
    ensures At(ops, n).gone && At(ops, n).writer != NotWriting ==>
              n > 0 && ops[n - 1] == CloseR && !At(ops, n - 1).gone && At(ops, n - 1).writer == At(ops, n).writer
  {
    if n > 0 {
      StepAt(ops, n - 1);
      hide At, Runs;
      if At(ops, n).gone && At(ops, n).writer != NotWriting {
        GoneStep(At(ops, n - 1), ops[n - 1]);
      }
    }
  }

  lemma GoneStep(s: Sys, op: Op)
    requires Ok(s) && Enabled(s, op) && Step(s, op).gone && Step(s, op).writer != NotWriting
    ensures op == CloseR && !s.gone && s.writer == Step(s, op).writer
  {
    hide ReadTurn, WriteLoop, WriteResume;
  }

  /** The writer has closed a full pipe and not got its end marker in, the reader closes at step `j`,
      and the writer resumes. */
  ghost predicate Strays(ops: seq<Op>, j: nat) {
    j + 1 < |ops| && ClosingBy(ops, j) && ops[j] == CloseR && ops[j + 1] == WriteOn
  }

  /** A run from the start ends with a stray write behind it exactly if that has happened in it. */
  lemma StrayRuns(ops: seq<Op>)
    requires Runs(START, ops)
    ensures After(START, ops).stray <==> exists j: nat :: Strays(ops, j)
  {
    assert ops[..|ops|] == ops;
    StrayWhen(ops, |ops|);
  }

  lemma {:induction false} StrayWhen(ops: seq<Op>, n: nat)
    requires Runs(START, ops) && n <= |ops|
    ensures At(ops, n).stray <==> exists j: nat :: j + 1 < n && Strays(ops, j)
  {
    hide At, Runs, Closing, Strays;
    if n > 0 {
      StrayWhen(ops, n - 1);
      StrayStep(ops, n - 1);
      assert n >= 2 && Strays(ops, n - 2) ==> n - 2 + 1 < n;
    } else {
      NoStrayAtStart(ops);
    }
  }

  lemma NoStrayAtStart(ops: seq<Op>)
    ensures !At(ops, 0).stray
  {
  }

  /** A step strays exactly behind a reader's close that cut a writer's close short. */
  lemma StrayStep(ops: seq<Op>, n: nat)
    requires Runs(START, ops) && n < |ops|
    ensures At(ops, n + 1).stray <==> At(ops, n).stray || (n > 0 && Strays(ops, n - 1))
  {
    StepAt(ops, n);
    var s := At(ops, n);
    StrayExactly(s, ops[n]);
    GoneWhen(ops, n);
    hide At, Runs, Ok, Enabled, ClosingBy;
    if ops[n] == WriteOn && Closing(s) && s.gone {
      ClosingWhen(ops, n - 1);
    }
    if n > 0 && Strays(ops, n - 1) {
      ClosedAfter(ops, n - 1);
    }
  }

  lemma ClosedAfter(ops: seq<Op>, j: nat)
    requires Runs(START, ops) && Strays(ops, j)
    ensures At(ops, j + 1).gone && Closing(At(ops, j + 1))
  {
    StepAt(ops, j);
    hide At, Runs, ClosingBy;
    ClosingWhen(ops, j);
  }

  // ---------------------------------------------------------------- it does happen

  /** Both open, the writer writes a pipeful, closes, the reader closes, the writer resumes. */
  function Mishap(data: seq<Byte>): seq<Op> {
    [OpenR, OpenW, Write(data), CloseW, CloseR, WriteOn]
  }

  lemma MishapStrays(data: seq<Byte>)
    requires |data| == PIPE_SIZE && EOF_MARKER !in data
    ensures Runs(START, Mishap(data)) && After(START, Mishap(data)).stray
  {
    hide Step, Enabled, Ok, Full, WellFormed;
    var r := Step(START, OpenR);
    var s := Step(r, OpenW);
    BothOpen(data);
    FillsUp(s, data);
    StepOk(s, Write(data));
    MayClose(Step(s, Write(data)));
    FullCloseStrays(Step(s, Write(data)));
    var rest := [CloseW, CloseR, WriteOn];
    OneMore(s, Write(data), rest);
    OneMore(r, OpenW, [Write(data)] + rest);
    OneMore(START, OpenR, [OpenW] + ([Write(data)] + rest));
    assert Mishap(data) == [OpenR] + ([OpenW] + ([Write(data)] + rest));
  }

  lemma BothOpen(data: seq<Byte>)
    requires data != []
    ensures Enabled(START, OpenR) && Enabled(Step(START, OpenR), OpenW)
    ensures var s := Step(Step(START, OpenR), OpenW);
            && Ok(s) && Enabled(s, Write(data)) && s.pipe.live == [] && !s.pipe.eof && s.reader == NotReading
            && s.pipe.outPid == R
  {
  }

  lemma MayClose(s: Sys)
    requires !s.gone && s.writer == NotWriting && s.pipe.inPid == W
    ensures Enabled(s, CloseW)
  {
  }

  lemma OneMore(s: Sys, op: Op, ops: seq<Op>)
    requires Enabled(s, op) && Runs(Step(s, op), ops)
    ensures Runs(s, [op] + ops) && After(s, [op] + ops) == After(Step(s, op), ops)
  {
    assert ([op] + ops)[1..] == ops;
    hide Step, Enabled;
  }

  /** A pipeful fills an empty pipe at once. */
  lemma FillsUp(s: Sys, data: seq<Byte>)
    requires Ok(s) && Enabled(s, Write(data)) && s.pipe.live == [] && !s.pipe.eof && s.reader == NotReading
    requires |data| == PIPE_SIZE && EOF_MARKER !in data
    ensures var t := Step(s, Write(data));
            && Full(t.pipe) && !t.gone && t.writer == NotWriting && t.pipe.inPid == W && t.reader == NotReading
            && t.pipe.outPid == s.pipe.outPid
  {
    WriterHere(s, Write(data));
    var kept, end := WriteTurnOk(s, Write(data));
    var turn := WriteTurn(s, Write(data));
    hide WriteLoop, Ok;
    NoMarkerNoEnd(turn.bytes, end, kept, data);
    assert turn.pipe.live == kept && !turn.asleep;
  }

  lemma NoMarkerNoEnd(bytes: seq<Byte>, end: bool, kept: seq<Byte>, data: seq<Byte>)
    requires Data(bytes, end, kept) && |bytes| <= |data| && bytes == data[..|bytes|] && EOF_MARKER !in data
    ensures !end && bytes == kept
  {
    assert EOF_MARKER in kept + [EOF_MARKER];
    assert forall x :: x in bytes ==> x in data;
  }
}
