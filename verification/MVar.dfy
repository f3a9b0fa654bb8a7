/** The readers and writers that share one cell through three semaphores, any number of each, their
    steps interleaved in any way. */
module MVar {
  import opened SemaphoreSpec

  /** Where a process stands: before its first wait, before the lock, before the access, before the
      lock's release, before the post that hands over; or ended, a wait having failed. */
  datatype Place = AtGate | AtLock | AtCell | AtUnlock | AtHandover | Ended
  datatype Process = Writer(letter: int, place: Place) | Reader(place: Place)

  datatype State = State(mutex: Semaphore, read: Semaphore, write: Semaphore, cell: int, processes: map<nat, Process>,
                         written: seq<int>, seen: seq<int>)

  function At(p: Process, place: Place): Process {
    p.(place := place)
  }

  function Gate(s: State, p: Process): Semaphore {
    if p.Writer? then s.write else s.read
  }

  function SetGate(s: State, p: Process, sem: Semaphore): State {
    if p.Writer? then s.(write := sem) else s.(read := sem)
  }

  /** The process can go on: it has not ended and does not sleep in a semaphore. */
  predicate Enabled(s: State, pid: nat) {
    && pid in s.processes
    && var p := s.processes[pid];
    && p.place != Ended
    && (p.place == AtGate ==> pid !in Gate(s, p).blocked)
    && (p.place == AtLock ==> pid !in s.mutex.blocked)
  }

  /** One call, or one access to the cell, of process `pid`; `oom` says whether a queue node that the
      call needs is refused. */
  function Step(s: State, pid: nat, oom: bool): State {
    if pid !in s.processes then s
    else
      var p := s.processes[pid];
      match p.place
      case AtGate =>
        var t := SetGate(s, p, Down(Gate(s, p), pid, oom));
        if Passes(Gate(s, p)) then Move(t, pid, AtLock) else if oom then Move(t, pid, Ended) else t
      case AtLock =>
        var t := s.(mutex := Down(s.mutex, pid, oom));
        if Passes(s.mutex) then Move(t, pid, AtCell) else if oom then Move(t, pid, Ended) else t
      case AtCell =>
        if p.Writer? then Move(s.(cell := p.letter, written := s.written + [p.letter]), pid, AtUnlock)
        else Move(s.(seen := s.seen + [s.cell]), pid, AtUnlock)
      case AtUnlock => Move(s.(mutex := Up(s.mutex)), pid, AtHandover)
      case AtHandover =>
        if p.Writer? then Move(s.(read := Up(s.read)), pid, AtGate) else Move(s.(write := Up(s.write)), pid, AtGate)
      case Ended => s
  }

  function Move(s: State, pid: nat, place: Place): State {
    if pid in s.processes then s.(processes := s.processes[pid := At(s.processes[pid], place)]) else s
  }

  /** The semaphores as `mvar` makes them, and processes that have done nothing yet. */
  ghost predicate Initial(s: State) {
    && s.mutex == New(1) && s.read == New(0) && s.write == New(1) && s.written == [] && s.seen == []
    && 0 !in s.processes && forall pid :: pid in s.processes ==> s.processes[pid].place == AtGate
  }

  // ---------------------------------------------------------------- invariant

  /** Who has the one token: a semaphore, or a process between its gate and its handover. */
  datatype Token = InRead | InWrite | With(pid: nat)

  predicate InFlight(p: Process) {
    p.place != AtGate && p.place != Ended
  }

  predicate Locked(p: Process) {
    p.place == AtCell || p.place == AtUnlock
  }

  /** One value is in the cell, unread. */
  predicate Pending(s: State, token: Token) {
    match token
    case InRead => true
    case InWrite => false
    case With(pid) =>
      && pid in s.processes
      && var p := s.processes[pid];
      if p.Writer? then p.place == AtUnlock || p.place == AtHandover else p.place == AtLock || p.place == AtCell
  }

  ghost predicate Sleepers(s: State) {
    && Ok(s.mutex) && Ok(s.read) && Ok(s.write)
    && s.mutex.waiting == {}
    && AtTheirGate(s.processes, s.read.waiting, false) && AtTheirGate(s.processes, s.write.waiting, true)
  }

  /** Those inside a gate's `down` stand before that gate. */
  ghost predicate AtTheirGate(processes: map<nat, Process>, waiting: set<nat>, writers: bool) {
    forall pid :: pid in waiting ==>
      pid in processes && processes[pid].place == AtGate && (processes[pid].Writer? <==> writers)
  }

  /** One who is not inside a gate's `down` may stand anywhere. */
  lemma Elsewhere(processes: map<nat, Process>, waiting: set<nat>, writers: bool, pid: nat, p: Process)
    requires AtTheirGate(processes, waiting, writers)
    ensures AtTheirGate(processes[pid := p], waiting - {pid}, writers)
  {
  }

  ghost predicate Held(s: State, token: Token) {
    && s.read.value == (if token == InRead then 1 else 0)
    && s.write.value == (if token == InWrite then 1 else 0)
    && (forall pid :: pid in s.processes && InFlight(s.processes[pid]) ==> token == With(pid))
    && (token.With? ==> token.pid in s.processes && InFlight(s.processes[token.pid]))
    && s.mutex.value == (if token.With? && token.pid in s.processes && Locked(s.processes[token.pid]) then 0 else 1)
  }

  ghost predicate Linear(s: State, pending: bool) {
    if pending then s.written == s.seen + [s.cell] else s.written == s.seen
  }

  ghost predicate Good(s: State, token: Token) {
    0 !in s.processes && Sleepers(s) && Held(s, token) && Linear(s, Pending(s, token))
  }

  /** Where the token goes when `pid` takes its next step. */
  function Next(s: State, token: Token, pid: nat): Token {
    if pid !in s.processes then token
    else
      var p := s.processes[pid];
      match p.place
      case AtGate => if Passes(Gate(s, p)) then With(pid) else token
      case AtHandover => if p.Writer? then InRead else InWrite
      case _ => token
  }

  lemma GateSleepers(s: State, token: Token, pid: nat, oom: bool)
    requires Good(s, token) && Enabled(s, pid) && s.processes[pid].place == AtGate
    ensures Sleepers(Step(s, pid, oom))
  {
    hide Ok, Held, Linear;
    var p := s.processes[pid];
    assert pid > 0;
    DownOk(Gate(s, p), pid, oom);
    var other := if p.Writer? then s.read.waiting else s.write.waiting;
    assert other - {pid} == other;
    Elsewhere(s.processes, Gate(s, p).waiting, p.Writer?, pid, At(p, AtLock));
    Elsewhere(s.processes, Gate(s, p).waiting, p.Writer?, pid, At(p, Ended));
    Elsewhere(s.processes, other, !p.Writer?, pid, At(p, AtLock));
    Elsewhere(s.processes, other, !p.Writer?, pid, At(p, Ended));
    GateJoined(s.processes, Gate(s, p).waiting, p.Writer?, pid);
    hide AtTheirGate;
  }

  lemma GateJoined(processes: map<nat, Process>, waiting: set<nat>, writers: bool, pid: nat)
    requires AtTheirGate(processes, waiting, writers)
    requires pid in processes && processes[pid].place == AtGate && (processes[pid].Writer? <==> writers)
    ensures AtTheirGate(processes, waiting + {pid}, writers)
  {
  }

  lemma GateHeld(s: State, token: Token, pid: nat, oom: bool)
    requires Good(s, token) && Enabled(s, pid) && s.processes[pid].place == AtGate
    ensures Held(Step(s, pid, oom), Next(s, token, pid))
  {
    hide Ok, Linear, Sleepers, Pending;
    var p, p' := s.processes[pid], Step(s, pid, oom).processes[pid];
    assert p'.place == if Passes(Gate(s, p)) then AtLock else if oom then Ended else AtGate;
    assert forall q :: q in s.processes && q != pid ==> Step(s, pid, oom).processes[q] == s.processes[q];
  }

  lemma GateGood(s: State, token: Token, pid: nat, oom: bool)
    requires Good(s, token) && Enabled(s, pid) && s.processes[pid].place == AtGate
    ensures Good(Step(s, pid, oom), Next(s, token, pid))
  {
    hide Ok, Sleepers;
    GateSleepers(s, token, pid, oom);
    GateHeld(s, token, pid, oom);
  }

  lemma LockGood(s: State, token: Token, pid: nat, oom: bool)
    requires Good(s, token) && Enabled(s, pid) && s.processes[pid].place == AtLock
    ensures Passes(s.mutex) && Good(Step(s, pid, oom), token)
  {
    DownOk(s.mutex, pid, oom);
    hide Ok;
  }

  lemma CellGood(s: State, token: Token, pid: nat, oom: bool)
    requires Good(s, token) && Enabled(s, pid) && s.processes[pid].place == AtCell
    ensures Good(Step(s, pid, oom), token)
  {
    hide Ok;
  }

  lemma UnlockGood(s: State, token: Token, pid: nat, oom: bool)
    requires Good(s, token) && Enabled(s, pid) && s.processes[pid].place == AtUnlock
    ensures Good(Step(s, pid, oom), token)
  {
    UpOk(s.mutex);
    hide Ok;
  }

  lemma HandoverSleepers(s: State, token: Token, pid: nat, oom: bool)
    requires Good(s, token) && Enabled(s, pid) && s.processes[pid].place == AtHandover
    ensures Sleepers(Step(s, pid, oom))
  {
    hide Ok, Held, Linear;
    UpOk(s.read);
    UpOk(s.write);
    var p := s.processes[pid];
    assert s.read.waiting - {pid} == s.read.waiting && s.write.waiting - {pid} == s.write.waiting;
    Elsewhere(s.processes, s.read.waiting, false, pid, At(p, AtGate));
    Elsewhere(s.processes, s.write.waiting, true, pid, At(p, AtGate));
    hide AtTheirGate, Up;
  }

  lemma HandoverHeld(s: State, token: Token, pid: nat, oom: bool)
    requires Good(s, token) && Enabled(s, pid) && s.processes[pid].place == AtHandover
    ensures Held(Step(s, pid, oom), Next(s, token, pid))
  {
    UpOk(s.read);
    UpOk(s.write);
    hide Ok, Linear;
  }

  lemma HandoverGood(s: State, token: Token, pid: nat, oom: bool)
    requires Good(s, token) && Enabled(s, pid) && s.processes[pid].place == AtHandover
    ensures Good(Step(s, pid, oom), Next(s, token, pid))
  {
    hide Ok, Sleepers;
    HandoverSleepers(s, token, pid, oom);
    HandoverHeld(s, token, pid, oom);
  }

  lemma PlaceGood(s: State, token: Token, pid: nat, oom: bool)
    requires Good(s, token) && Enabled(s, pid)
    ensures Good(Step(s, pid, oom), Next(s, token, pid))
  {
    hide Good, Step;
    match s.processes[pid].place
    case AtGate => GateGood(s, token, pid, oom);
    case AtLock => LockGood(s, token, pid, oom);
    case AtCell => CellGood(s, token, pid, oom);
    case AtUnlock => UnlockGood(s, token, pid, oom);
    case AtHandover => HandoverGood(s, token, pid, oom);
  }

  /** Every step of every process keeps exactly one token about, the lock with whoever is at the cell,
      and the values read in step with the values written. */
  lemma StepGood(s: State, token: Token, pid: nat, oom: bool)
    requires Good(s, token) && Enabled(s, pid)
    ensures Good(Step(s, pid, oom), Next(s, token, pid))
    ensures var p, t := s.processes[pid], Step(s, pid, oom);
            && t.cell == (if p.Writer? && p.place == AtCell then p.letter else s.cell)
            && t.written == s.written + (if p.Writer? && p.place == AtCell then [p.letter] else [])
            && t.seen == s.seen + if p.Reader? && p.place == AtCell then [s.cell] else []
  {
    hide Good, Step, Next;
    PlaceGood(s, token, pid, oom);
    StepAtCell(s, pid, oom);
  }

  lemma InitialGood(s: State)
    requires Initial(s)
    ensures Good(s, InWrite)
  {
  }

  // ---------------------------------------------------------------- runs

  /** Whose step it is, and whether memory is short. */
  datatype Turn = Turn(pid: nat, oom: bool)

  predicate Runs(s: State, turns: seq<Turn>)
    decreases |turns|
  {
    turns == [] || (Enabled(s, turns[0].pid) && Runs(Step(s, turns[0].pid, turns[0].oom), turns[1..]))
  }

  function After(s: State, turns: seq<Turn>): State
    decreases |turns|
  {
    if turns == [] then s else After(Step(s, turns[0].pid, turns[0].oom), turns[1..])
  }

  lemma {:induction false} RunGood(s: State, token: Token, turns: seq<Turn>) returns (token': Token)
    requires Good(s, token) && Runs(s, turns)
    ensures Good(After(s, turns), token')
    decreases |turns|
  {
    hide Good, Step, Enabled, Next;
    if turns == [] {
      token' := token;
    } else {
      var pid, oom := turns[0].pid, turns[0].oom;
      StepGood(s, token, pid, oom);
      token' := RunGood(Step(s, pid, oom), Next(s, token, pid), turns[1..]);
    }
  }

  ghost function Flying(s: State): set<nat> {
    set pid | pid in s.processes && InFlight(s.processes[pid])
  }

  lemma OneToken(s: State, token: Token)
    requires Good(s, token)
    ensures s.read.value + s.write.value + |Flying(s)| == 1
  {
    hide Ok;
    if token.With? {
      assert Flying(s) == {token.pid};
    } else {
      assert Flying(s) == {};
    }
  }

  /** In every run of any number of readers and writers: the two gates and the processes between gate
      and handover hold one token between them, no two processes are ever at the cell together, and
      the values read are the values written, in order, but for at most the last. */
  lemma Linearizes(s: State, turns: seq<Turn>)
    requires Initial(s) && Runs(s, turns)
    ensures var t := After(s, turns);
            && t.read.value + t.write.value + |Flying(t)| == 1
            && AloneAtCell(t.processes)
            && |t.seen| <= |t.written| <= |t.seen| + 1 && t.seen == t.written[..|t.seen|]
  {
    InitialGood(s);
    var token := RunGood(s, InWrite, turns);
    hide Runs, After;
    OneToken(After(s, turns), token);
    InOrder(After(s, turns), token);
  }

  /** No two processes are at the cell together. */
  ghost predicate AloneAtCell(processes: map<nat, Process>) {
    forall a, b :: a in processes && b in processes && Locked(processes[a]) && Locked(processes[b]) ==> a == b
  }

  lemma InOrder(t: State, token: Token)
    requires Good(t, token)
    ensures AloneAtCell(t.processes)
    ensures |t.seen| <= |t.written| <= |t.seen| + 1 && t.seen == t.written[..|t.seen|]
  {
    hide Ok;
  }

  /** Reads and writes take turns: a write finds everything read, a read finds one value unread, and
      takes the last one written. */
  lemma Alternates(s: State, token: Token, pid: nat, oom: bool)
    requires Good(s, token) && Enabled(s, pid) && s.processes[pid].place == AtCell
    ensures s.processes[pid].Writer? ==> s.written == s.seen
    ensures s.processes[pid].Reader? ==>
              && |s.written| == |s.seen| + 1
              && Step(s, pid, oom).seen == s.seen + [s.written[|s.written| - 1]] && Step(s, pid, oom).seen == s.written
  {
    hide Ok;
  }

  /** Which semaphore a step touches: a writer waits for the writers' gate and opens the readers', a
      reader the other way about, and both take and release the lock around the cell. */
  lemma StepAtSemaphore(s: State, token: Token, pid: nat, oom: bool)
    requires Good(s, token) && Enabled(s, pid)
    ensures var p, t := s.processes[pid], Step(s, pid, oom);
            match p.place
            case AtGate => t.mutex == s.mutex && (if p.Writer? then t.read == s.read else t.write == s.write)
            case AtLock => t.read == s.read && t.write == s.write && s.mutex.value == 1 && t.mutex.value == 0
            case AtCell => t.read == s.read && t.write == s.write && t.mutex == s.mutex && s.mutex.value == 0
            case AtUnlock => t.read == s.read && t.write == s.write && s.mutex.value == 0 && t.mutex.value == 1
            case AtHandover =>
              && t.mutex == s.mutex
              && if p.Writer? then t.write == s.write && s.read.value == 0 && t.read.value == 1
                 else t.read == s.read && s.write.value == 0 && t.write.value == 1
            case Ended => t == s
  {
    UpOk(s.mutex);
    UpOk(s.read);
    UpOk(s.write);
    hide Ok, Up, Linear, Sleepers;
  }

  // ---------------------------------------------------------------- whose letters are read

  /** Nobody joins or leaves, and nobody changes from writer to reader or takes another letter. */
  ghost predicate SameRoles(processes: map<nat, Process>, processes': map<nat, Process>) {
    && processes'.Keys == processes.Keys
    && forall pid :: pid in processes ==> processes'[pid] == At(processes[pid], processes'[pid].place)
  }

  /** A writer at the cell stores its own letter, a reader there takes what the cell holds, and a step
      from any other place leaves the cell and both logs alone. */
  lemma StepAtCell(s: State, pid: nat, oom: bool)
    requires pid in s.processes
    ensures var p, t := s.processes[pid], Step(s, pid, oom);
            && (p.place == AtCell && p.Writer? ==>
                  t.cell == p.letter && t.written == s.written + [p.letter] && t.seen == s.seen)
            && (p.place == AtCell && p.Reader? ==>
                  t.cell == s.cell && t.written == s.written && t.seen == s.seen + [s.cell])
            && (p.place != AtCell ==> t.cell == s.cell && t.written == s.written && t.seen == s.seen)
    ensures SameRoles(s.processes, Step(s, pid, oom).processes)
  {
    hide Down, Up;
  }

  /** The letters of the writers whose turns at the cell are in the run, in the order of those turns. */
  ghost function Letters(s: State, turns: seq<Turn>): seq<int>
    decreases |turns|
  {
    if turns == [] then []
    else
      var pid := turns[0].pid;
      (if pid in s.processes && s.processes[pid].Writer? && s.processes[pid].place == AtCell
       then [s.processes[pid].letter] else []) + Letters(Step(s, pid, turns[0].oom), turns[1..])
  }

  ghost predicate LetterOf(processes: map<nat, Process>, letter: int) {
    exists pid :: pid in processes && processes[pid].Writer? && processes[pid].letter == letter
  }

  lemma {:induction false} RunWrites(s: State, turns: seq<Turn>)
    requires Runs(s, turns)
    ensures After(s, turns).written == s.written + Letters(s, turns)
    ensures SameRoles(s.processes, After(s, turns).processes)
    ensures forall letter :: letter in Letters(s, turns) ==> LetterOf(s.processes, letter)
    decreases |turns|
  {
    hide Step, LetterOf, SameRoles;
    if turns == [] {
      SameRolesHere(s.processes);
    } else {
      var pid, t := turns[0].pid, Step(s, turns[0].pid, turns[0].oom);
      StepAtCell(s, pid, turns[0].oom);
      RunWrites(t, turns[1..]);
      SameRolesOn(s.processes, t.processes, After(t, turns[1..]).processes);
      assert s.processes[pid].Writer? ==> LetterOf(s.processes, s.processes[pid].letter) by {
        WritersLetter(s.processes, pid);
      }
    }
  }

  lemma SameRolesHere(processes: map<nat, Process>)
    ensures SameRoles(processes, processes)
  {
  }

  lemma SameRolesOn(a: map<nat, Process>, b: map<nat, Process>, c: map<nat, Process>)
    requires SameRoles(a, b) && SameRoles(b, c)
    ensures SameRoles(a, c)
    ensures forall letter :: LetterOf(b, letter) ==> LetterOf(a, letter)
  {
    forall letter | LetterOf(b, letter)
      ensures LetterOf(a, letter)
    {
      var pid :| pid in b && b[pid].Writer? && b[pid].letter == letter;
      assert a[pid].Writer? && a[pid].letter == letter;
    }
  }

  lemma WritersLetter(processes: map<nat, Process>, pid: nat)
    requires pid in processes
    ensures processes[pid].Writer? ==> LetterOf(processes, processes[pid].letter)
  {
  }

  /** In every run the values written are the writers' own letters in the order of their turns at the
      cell, and the values seen are those letters in that order, but for at most the last. */
  lemma LettersAreRead(s: State, turns: seq<Turn>)
    requires Initial(s) && Runs(s, turns)
    ensures var letters, seen := Letters(s, turns), After(s, turns).seen;
            && After(s, turns).written == letters
            && |seen| <= |letters| <= |seen| + 1 && seen == letters[..|seen|]
    ensures forall value :: value in After(s, turns).seen ==> LetterOf(s.processes, value)
  {
    hide Runs, After, Letters, LetterOf, AloneAtCell;
    Linearizes(s, turns);
    RunWrites(s, turns);
    assert [] + Letters(s, turns) == Letters(s, turns);
  }

  // ---------------------------------------------------------------- progress

  /** Where a process goes on to from a place: once round its loop. */
  function Successor(place: Place): Place {
    match place
    case AtGate => AtLock
    case AtLock => AtCell
    case AtCell => AtUnlock
    case AtUnlock => AtHandover
    case AtHandover => AtGate
    case Ended => Ended
  }

  /** The step of `pid` passes what it stands before, however short memory is. */
  predicate Advances(s: State, pid: nat) {
    && pid in s.processes
    && var p := s.processes[pid];
    match p.place
    case AtGate => Passes(Gate(s, p))
    case AtLock => Passes(s.mutex)
    case _ => p.place != Ended
  }

  /** With a writer and a reader that have not ended, some process that is awake goes on to its next
      place, however short memory is: no wakeup is lost between the gates, and the lock never holds
      anybody up. */
  lemma NoDeadlock(s: State, token: Token, writer: nat, reader: nat) returns (pid: nat)
    requires Good(s, token) && writer in s.processes && s.processes[writer].Writer?
             && s.processes[writer].place != Ended
    requires reader in s.processes && s.processes[reader].Reader? && s.processes[reader].place != Ended
    ensures Enabled(s, pid)
    ensures forall oom :: pid in Step(s, pid, oom).processes
                          && Step(s, pid, oom).processes[pid].place == Successor(s.processes[pid].place)
  {
    match token {
      case With(holder) =>
        pid := holder;
        Onwards(s, token, pid);
      case InWrite =>
        pid := AtOpenGate(s, s.write, writer);
        Through(s, pid);
      case InRead =>
        pid := AtOpenGate(s, s.read, reader);
        Through(s, pid);
    }
    forall oom
      ensures pid in Step(s, pid, oom).processes
              && Step(s, pid, oom).processes[pid].place == Successor(s.processes[pid].place)
    {
      AdvancesOn(s, pid, oom);
    }
  }

  /** Someone at an open gate is awake: the given process, or one that was woken. */
  lemma AtOpenGate(s: State, gate: Semaphore, someone: nat) returns (pid: nat)
    requires Ok(gate) && gate.value == 1
    ensures pid !in gate.blocked && (pid == someone || pid in gate.waiting)
  {
    if someone !in gate.blocked {
      pid := someone;
    } else {
      assert gate.queue != [];
      assert |Roused(gate)| >= 1;
      pid :| pid in Roused(gate);
    }
  }

  lemma Through(s: State, pid: nat)
    requires pid in s.processes && s.processes[pid].place == AtGate
    requires Passes(Gate(s, s.processes[pid])) && pid !in Gate(s, s.processes[pid]).blocked
    ensures Enabled(s, pid) && Advances(s, pid)
  {
  }

  lemma Onwards(s: State, token: Token, pid: nat)
    requires Good(s, token) && token == With(pid)
    ensures Enabled(s, pid) && Advances(s, pid)
  {
    assert s.mutex.blocked == {};
    hide Ok;
  }

  /** A process that advances comes to its next place, memory or no memory. */
  lemma AdvancesOn(s: State, pid: nat, oom: bool)
    requires Enabled(s, pid) && Advances(s, pid)
    ensures pid in Step(s, pid, oom).processes
    ensures Step(s, pid, oom).processes[pid].place == Successor(s.processes[pid].place)
  {
  }

  /** The lock is free to whoever comes to it and no post overflows, so only a wait at the gate can fail. */
  lemma OnlyGatesFail(s: State, token: Token, pid: nat, oom: bool)
    requires Good(s, token) && Enabled(s, pid) && Step(s, pid, oom).processes[pid].place == Ended
    ensures s.processes[pid].place == AtGate && oom && !Passes(Gate(s, s.processes[pid]))
    ensures s.mutex.value + 1 < LIMIT && s.read.value + 1 < LIMIT && s.write.value + 1 < LIMIT
  {
    hide Ok;
  }
}
