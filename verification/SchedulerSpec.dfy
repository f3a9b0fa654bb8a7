/** The scheduler's data and what each of its operations does to it. */
module SchedulerSpec {
  const MAX_PROCESSES: nat := 20
  const IDLE_PID: nat := 0
  const NUM_PRIORITIES: nat := 5
  const AGING_THRESHOLD: nat := 10

  datatype Status = Ready | Running | Blocked | Zombie
  /** A list node: its identity and the process it carries. */
  datatype Node = Node(id: nat, pid: nat)
  /** A process; `node` is the list node its table slot points at. */
  datatype Proc = Proc(parent: nat, priority: nat, status: Status, retval: int, unkillable: bool, stdin: bool,
                       consumed: nat, waiting: nat, node: nat, zombies: seq<Node>)
  datatype State = State(procs: map<nat, Proc>, ready: seq<seq<Node>>, blocked: seq<Node>, current: nat,
                         nextUnused: nat, count: int, remaining: int, initial: int, killFlag: bool,
                         foreground: nat, level: nat, nextNode: nat)
  datatype Place = ReadyQ(level: nat) | BlockedQ | ZombiesOf(parent: nat)

  function Quantum(priority: nat): nat {
    4 * match priority { case 0 => 1 case 1 => 2 case 2 => 4 case 3 => 8 case _ => 16 }
  }

  /** The level after `level` in the rotation. */
  function Below(level: nat): nat {
    if level == 0 then NUM_PRIORITIES - 1 else level - 1
  }

  /** The list a process belongs in. */
  function Home(p: Proc): Place {
    match p.status
    case Zombie => ZombiesOf(p.parent)
    case Blocked => BlockedQ
    case _ => ReadyQ(p.priority)
  }

  function ListAt(s: State, place: Place): seq<Node> {
    match place
    case ReadyQ(l) => if l < |s.ready| then s.ready[l] else []
    case BlockedQ => s.blocked
    case ZombiesOf(p) => if p in s.procs then s.procs[p].zombies else []
  }

  function SetList(s: State, place: Place, list: seq<Node>): State {
    match place
    case ReadyQ(l) => if l < |s.ready| then s.(ready := s.ready[l := list]) else s
    case BlockedQ => s.(blocked := list)
    case ZombiesOf(p) => if p in s.procs then s.(procs := s.procs[p := s.procs[p].(zombies := list)]) else s
  }

  function Remove(list: seq<Node>, n: Node): seq<Node> {
    if list == [] then [] else if list[0] == n then list[1..] else [list[0]] + Remove(list[1..], n)
  }

  function Put(s: State, pid: nat, p: Proc): State {
    s.(procs := s.procs[pid := p])
  }

  /** The process leaves its list. */
  function Unlink(s: State, pid: nat): State {
    if pid !in s.procs then s
    else
      var home := Home(s.procs[pid]);
      SetList(s, home, Remove(ListAt(s, home), Node(s.procs[pid].node, pid)))
  }

  /** The process enters the list it belongs in on a new node. */
  function Link(s: State, pid: nat, front: bool): State {
    if pid !in s.procs then s
    else
      var n := Node(s.nextNode, pid);
      var t := Put(s, pid, s.procs[pid].(node := n.id)).(nextNode := s.nextNode + 1);
      var list := ListAt(t, Home(s.procs[pid]));
      SetList(t, Home(s.procs[pid]), if front then [n] + list else list + [n])
  }

  /** The process's slot is emptied and its memory given back. */
  function Drop(s: State, pid: nat): State {
    s.(procs := s.procs - {pid}, count := s.count - 1)
  }

  /** A process becomes `p` and moves to the list that then is its own. */
  function Move(s: State, pid: nat, p: Proc, front: bool): State {
    Link(Put(Unlink(s, pid), pid, p), pid, front)
  }

  function CanChange(s: State, pid: nat): bool {
    pid < MAX_PROCESSES && pid in s.procs && pid != IDLE_PID
  }

  // ---------------------------------------------------------------- operations

  function SetPriority(s: State, pid: nat, priority: nat): State {
    if !CanChange(s, pid) || priority >= NUM_PRIORITIES then s
    else
      var p := s.procs[pid].(priority := priority);
      if p.status == Ready || p.status == Running then Move(s, pid, p, false) else Put(s, pid, p)
  }

  function Slept(p: Proc): Proc {
    p.(status := Blocked, priority := if p.priority > 0 then p.priority - 1 else 0, consumed := 0)
  }

  function Woken(p: Proc): Proc {
    p.(status := Ready, priority := NUM_PRIORITIES - 1)
  }

  function SetStatus(s: State, pid: nat, status: Status): State {
    if !CanChange(s, pid) then s
    else
      var p := s.procs[pid];
      if status == Running || status == Zombie || p.status == Zombie || status == p.status then s
      else if status == Blocked then
        Move(s, pid, Slept(p), false)
      else if p.status == Blocked then
        Move(s, pid, Woken(p), true).(remaining := 0)
      else Put(s, pid, p.(status := Ready))
  }

  /** The first level with a process, from `level` down and around, trying `tries` levels. */
  function NextLevel(ready: seq<seq<Node>>, level: nat, tries: nat): nat
    decreases tries
  {
    if tries == 0 || (level < |ready| && ready[level] != []) then level else NextLevel(ready, Below(level), tries - 1)
  }

  function Pick(s: State): State {
    var l := NextLevel(s.ready, s.level, NUM_PRIORITIES);
    if l < |s.ready| && s.ready[l] != [] then s.(current := s.ready[l][0].pid, level := Below(l))
    else s.(current := IDLE_PID, level := l)
  }

  /** The quantum ran out, rather than being given up. */
  function Expired(s: State): bool {
    s.remaining == 0 && s.initial > 0
  }

  /** The 16-bit count of quanta used up in a row. */
  function Consumed(s: State, p: Proc): nat {
    if Expired(s) then (p.consumed + 1) % 0x1_0000 else p.consumed
  }

  function Ages(s: State, p: Proc): bool {
    Expired(s) && Consumed(s, p) >= AGING_THRESHOLD && p.priority < NUM_PRIORITIES - 1
  }

  function Stopped(s: State, p: Proc): Proc {
    p.(status := Ready, consumed := if Ages(s, p) then 0 else Consumed(s, p))
  }

  /** The running process goes to the end of its queue; one whose quantum ran out ages. */
  function Preempt(s: State): State {
    if s.current !in s.procs || s.procs[s.current].status != Running then s
    else
      var p := s.procs[s.current];
      SetPriority(Put(s, s.current, Stopped(s, p)), s.current, if Ages(s, p) then p.priority + 1 else p.priority)
  }

  /** The picked process starts on a full quantum. */
  function Dispatch(s: State): State {
    if s.current !in s.procs then s
    else
      var p := s.procs[s.current];
      Put(s, s.current, p.(status := Running)).(initial := Quantum(p.priority), remaining := Quantum(p.priority))
  }

  function Switch(s: State): State {
    Dispatch(Pick(Preempt(s)))
  }

  function Ticked(s: State): State {
    s.(remaining := s.remaining - 1)
  }

  /** The part of `schedule` behind the Ctrl+C test. */
  function Schedule(s: State): State {
    if s.count == 0 || s.remaining > 1 then Ticked(s) else Switch(Ticked(s))
  }

  /** The current process gives up the processor, and no Ctrl+C is pending. */
  function GiveUp(s: State): State {
    Schedule(Demote(s).(remaining := 0))
  }

  /** What `yield` takes from the process that gives up the processor. */
  function Demote(s: State): State {
    if s.current !in s.procs || s.initial <= 0 then s
    else
      var p := s.procs[s.current];
      var t := if p.priority > 0 then SetPriority(s, s.current, p.priority - 1) else s;
      if s.current in t.procs then Put(t, s.current, t.procs[s.current].(consumed := 0)) else t
  }

  function Zombies(s: State, pid: nat): seq<Node> {
    ListAt(s, ZombiesOf(pid))
  }

  /** The process's zombie children are reaped, first to last. */
  function Reap(s: State, pid: nat): State
    decreases |Zombies(s, pid)|
  {
    var zombies := Zombies(s, pid);
    if zombies == [] then s
    else Reap(Drop(SetList(s, ZombiesOf(pid), zombies[1..]), zombies[0].pid), pid)
  }

  /** Killing has an effect on a live process that may be killed. */
  function Killable(s: State, pid: nat): bool {
    pid < MAX_PROCESSES && pid in s.procs && s.procs[pid].status != Zombie && !s.procs[pid].unkillable
  }

  /** The process has left its queue, has reaped its children and is a zombie. */
  function Die(s: State, pid: nat, retval: int): State {
    var t := Reap(Unlink(s, pid), pid);
    if pid !in t.procs then t
    else
      var foreground := if pid == t.foreground then 0 else t.foreground;
      Put(t, pid, t.procs[pid].(status := Zombie, retval := retval)).(foreground := foreground)
  }

  function HasParent(s: State, parent: nat): bool {
    parent < MAX_PROCESSES && parent in s.procs && s.procs[parent].status != Zombie
  }

  /** The dead process goes to its parent, which wakes if it waits for it; an orphan is freed. */
  function Bequeath(s: State, pid: nat): State {
    if pid !in s.procs then s
    else
      var parent := s.procs[pid].parent;
      if !HasParent(s, parent) then Drop(s, pid)
      else
        var t := Link(s, pid, false);
        if parent in t.procs && t.procs[parent].waiting == pid && t.procs[parent].status == Blocked
        then SetStatus(t, parent, Ready) else t
  }

  /** `kill_process` up to its final `yield`. */
  function Terminate(s: State, pid: nat, retval: int): State {
    if Killable(s, pid) then Bequeath(Die(s, pid, retval), pid) else s
  }

  /** A pending Ctrl+C reaches a current process that reads the keyboard and may be killed. */
  predicate CtrlC(s: State) {
    s.killFlag && s.current != IDLE_PID && s.current in s.procs && s.procs[s.current].stdin && Killable(s, s.current)
  }

  /** The whole of `schedule`: Ctrl+C kills the current process, which then yields. */
  function Tick(s: State): State {
    var t := s.(killFlag := false);
    if CtrlC(s) then GiveUp(Terminate(t, s.current, -1)) else Schedule(t)
  }

  function Yield(s: State): State {
    Tick(Demote(s).(remaining := 0))
  }

  function Kill(s: State, pid: nat, retval: int): State {
    var t := Terminate(s, pid, retval);
    if Killable(s, pid) && pid == s.current then Yield(t) else t
  }

  /** The free slot that a search from `pid` reaches first, trying `tries` slots. */
  function FreeSlot(procs: map<nat, Proc>, pid: nat, tries: nat): nat
    decreases tries
  {
    if tries == 0 || pid !in procs then pid else FreeSlot(procs, (pid + 1) % MAX_PROCESSES, tries - 1)
  }

  function NewProc(parent: nat, priority: nat, unkillable: bool, stdin: bool): Proc {
    Proc(parent, if priority >= NUM_PRIORITIES then NUM_PRIORITIES - 1
      else priority, Ready, 0, unkillable, stdin, 0, 0, 0, [])
  }

  /** A new process in its slot and, but for the idle process, at the end of its queue. */
  function Enter(s: State, priority: nat, unkillable: bool, stdin: bool): State {
    var pid := s.nextUnused;
    var t := Put(s, pid, NewProc(s.current, priority, unkillable, stdin));
    if pid == IDLE_PID then Put(t, pid, t.procs[pid].(node := t.nextNode)).(nextNode := t.nextNode + 1)
      else Link(t, pid, false)
  }

  /** `oom` says whether the heap refuses one of the process's blocks. */
  function Create(s: State, priority: nat, unkillable: bool, stdin: bool, oom: bool): State {
    if s.count >= MAX_PROCESSES || oom then s
    else
      var t := Enter(s, priority, unkillable, stdin);
      t.(nextUnused := FreeSlot(t.procs, t.nextUnused, MAX_PROCESSES), count := t.count + 1)
  }

  function CanWait(s: State, pid: nat): bool {
    pid < MAX_PROCESSES && pid in s.procs && s.procs[pid].parent == s.current && s.current in s.procs
  }

  /** The list without its first node that carries `pid`. */
  function WithoutPid(list: seq<Node>, pid: nat): seq<Node> {
    if list == [] then [] else if list[0].pid == pid then list[1..] else [list[0]] + WithoutPid(list[1..], pid)
  }

  /** `waitpid` behind its `yield`: the child's zombie is taken out and its slot emptied. */
  function WaitFinish(s: State): State {
    if s.current !in s.procs then s
    else
      var child := s.procs[s.current].waiting;
      if child !in s.procs then s
      else
        var t := Drop(SetList(s, ZombiesOf(s.current), WithoutPid(Zombies(s, s.current), child)), child);
        if s.current in t.procs then Put(t, s.current, t.procs[s.current].(waiting := 0)).(foreground := 0) else t
  }

  /** The caller now waits for `pid`. */
  function Await(s: State, pid: nat): State
    requires s.current in s.procs
  {
    Put(s, s.current, s.procs[s.current].(waiting := pid)).(foreground := pid)
  }

  /** `waitpid` up to its `yield`, or to its end when the child is a zombie already. */
  function WaitBegin(s: State, pid: nat): State {
    if !CanWait(s, pid) then s
    else
      var t := Await(s, pid);
      if s.procs[pid].status != Zombie then Yield(SetStatus(t, s.current, Blocked)) else WaitFinish(t)
  }

  /** What `waitpid` returns behind its `yield`. */
  function WaitResult(s: State): int {
    if s.current in s.procs && s.procs[s.current].waiting in s.procs
      then s.procs[s.procs[s.current].waiting].retval else -1
  }

  // ---------------------------------------------------------------- runs

  datatype Op =
    | OpTick
    | OpYield
    | OpCreate(priority: nat, unkillable: bool, stdin: bool, oom: bool)
    | OpSetPriority(pid: nat, priority: nat)
    | OpSetStatus(pid: nat, status: Status)
    | OpKill(pid: nat, retval: int)
    | OpCtrlC
    | OpWaitBegin(pid: nat)
    | OpWaitFinish

  function Step(s: State, op: Op): State {
    match op
    case OpTick => Tick(s)
    case OpYield => Yield(s)
    case OpCreate(priority, unkillable, stdin, oom) => Create(s, priority, unkillable, stdin, oom)
    case OpSetPriority(pid, priority) => SetPriority(s, pid, priority)
    case OpSetStatus(pid, status) => SetStatus(s, pid, status)
    case OpKill(pid, retval) => Kill(s, pid, retval)
    case OpCtrlC => s.(killFlag := true)
    case OpWaitBegin(pid) => WaitBegin(s, pid)
    case OpWaitFinish => WaitFinish(s)
  }

  /** A process woken inside `waitpid` is the current one and has yet to take its child. */
  predicate InWait(s: State) {
    s.current in s.procs && s.procs[s.current].waiting != 0
  }

  /** Kernel calls run to their end before another starts, `create_process` needs a slot to spare
      and makes the unkillable idle process first, and nobody but a dying child changes the status
      of a process that waits. */
  predicate Enabled(s: State, op: Op) {
    && (InWait(s) <==> op.OpWaitFinish?)
    && (op.OpCreate? ==> s.count + 1 < MAX_PROCESSES && (s.procs == map[] ==> op.unkillable))
    && (op.OpSetStatus? && op.pid in s.procs ==> s.procs[op.pid].waiting == 0)
    && (op.OpWaitBegin? ==> s.current != IDLE_PID)
  }

  function Init(): State {
    State(map[], [[], [], [], [], []], [], 0, 0, 0, 1, 0, false, 0, NUM_PRIORITIES - 1, 0)
  }

  /** A run: every step enabled where it is taken. */
  predicate Runs(s: State, ops: seq<Op>)
    decreases |ops|
  {
    ops == [] || (Enabled(s, ops[0]) && Runs(Step(s, ops[0]), ops[1..]))
  }

  function After(s: State, ops: seq<Op>): State
    decreases |ops|
  {
    if ops == [] then s else After(Step(s, ops[0]), ops[1..])
  }
}
