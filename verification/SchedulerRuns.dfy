/** What holds throughout every run of the scheduler. */
module SchedulerRuns {
  import opened SchedulerSpec
  import opened SchedulerLists
  import opened SchedulerInvariant
  import opened SchedulerSteps
  import opened SchedulerCalm

  lemma InitHolds()
    ensures Inv(Init()) && Settled(Init())
  {
    assert forall place :: ListAt(Init(), place) == [];
  }

  lemma SetPrioritySettled(s: State, pid: nat, priority: nat)
    requires Inv(s) && Settled(s)
    ensures Settled(SetPriority(s, pid, priority))
  {
    SetPriorityFacts(s, pid, priority);
    hide Inv, SetPriority;
  }

  lemma SetStatusSettled(s: State, pid: nat, status: Status)
    requires Inv(s) && Settled(s) && (pid in s.procs ==> s.procs[pid].waiting == 0)
    ensures Settled(SetStatus(s, pid, status)) && SetStatus(s, pid, status).current == s.current
    ensures SetStatus(s, pid, status).procs.Keys == s.procs.Keys
  {
    if CanChange(s, pid) {
      var p := s.procs[pid];
      hide Inv, Moved, Move;
      if status == Running || status == Zombie || p.status == Zombie || status == p.status {
      } else if status == Blocked {
        SleepKeeps(s, pid);
        MovedSettled(s, Move(s, pid, Slept(p), false), pid, Slept(p), false);
      } else if p.status == Blocked {
        WakeKeeps(s, pid);
        MovedSettled(s, Move(s, pid, Woken(p), true), pid, Woken(p), true);
      }
    }
  }

  lemma MovedSettled(s: State, t: State, pid: nat, p: Proc, front: bool)
    requires Settled(s) && pid in s.procs && Moved(s, t, pid, p, front) && p.status != Zombie && p.waiting == 0
    ensures Settled(t) && t.current == s.current && t.procs.Keys == s.procs.Keys
  {
    hide ListAt, Home;
    assert t.procs == s.procs[pid := p.(node := s.nextNode)];
  }

  lemma WaitBeginKeeps(s: State, pid: nat)
    requires Inv(s) && Settled(s) && !InWait(s) && s.current != IDLE_PID
    ensures Inv(WaitBegin(s, pid)) && Settled(WaitBegin(s, pid))
  {
    if CanWait(s, pid) {
      assert pid != s.current by {
        OkOf(s, pid);
      }
      assert s.procs[pid].status == Zombie ==> pid != IDLE_PID by {
        OkOf(s, pid);
      }
      hide Inv, SetStatus, Yield, WaitFinish, Await;
      if s.procs[pid].status == Zombie {
        FinishKeeps(s, pid);
      } else {
        AsleepKeeps(s, pid);
        var t := SetStatus(Await(s, pid), s.current, Blocked);
        AsleepExists(s, pid);
        YieldKeeps(t);
      }
    }
  }

  lemma AsleepExists(s: State, pid: nat)
    requires Inv(s) && CanWait(s, pid)
    ensures SetStatus(Await(s, pid), s.current, Blocked).procs != map[]
  {
    var t := SetStatus(Await(s, pid), s.current, Blocked);
    StillThere(Await(s, pid), s.current, Blocked);
  }

  lemma StillThere(s: State, pid: nat, status: Status)
    requires pid in s.procs
    ensures pid in SetStatus(s, pid, status).procs
  {
    if CanChange(s, pid) {
      LinkThere(Put(Unlink(s, pid), pid, Slept(s.procs[pid])), pid, false);
      LinkThere(Put(Unlink(s, pid), pid, Woken(s.procs[pid])), pid, true);
      hide Link, Unlink;
    }
  }

  lemma LinkThere(s: State, pid: nat, front: bool)
    requires pid in s.procs
    ensures pid in Link(s, pid, front).procs
  {
  }

  /** Every enabled operation keeps every process in exactly one list on its slot's node, the table
      counted with a free pid at hand, and every waiting parent matched with its child. */
  lemma StepKeeps(s: State, op: Op)
    requires Inv(s) && Settled(s) && Enabled(s, op)
    ensures Inv(Step(s, op)) && Settled(Step(s, op))
  {
    hide Inv;
    match op
    case OpTick => TickKeeps(s);
    case OpYield => if s.procs != map[] { YieldKeeps(s); } else { EmptyYield(s); }
    case OpCreate(priority, unkillable, stdin, oom) => CreateKeeps(s, priority, unkillable, stdin, oom);
    case OpSetPriority(pid, priority) =>
      SetPriorityKeeps(s, pid, priority);
      SetPrioritySettled(s, pid, priority);
    case OpSetStatus(pid, status) =>
      SetStatusKeeps(s, pid, status);
      SetStatusSettled(s, pid, status);
    case OpKill(pid, retval) => KillKeeps(s, pid, retval);
    case OpCtrlC => FlagKeeps(s);
    case OpWaitBegin(pid) => WaitBeginKeeps(s, pid);
    case OpWaitFinish => WaitFinishKeeps(s);
  }

  lemma EmptyYield(s: State)
    requires Inv(s) && Settled(s) && s.procs == map[]
    ensures Inv(Yield(s)) && Settled(Yield(s))
  {
    assert Demote(s) == s;
    Retimed(s, 0);
    TickKeeps(s.(remaining := 0));
  }

  lemma FlagKeeps(s: State)
    requires Inv(s) && Settled(s)
    ensures Inv(s.(killFlag := true)) && Settled(s.(killFlag := true))
  {
    SameLists(s, s.(killFlag := true), {IDLE_PID});
    hide Listed, ProcsOk;
  }

  lemma {:induction false} RunKeeps(s: State, ops: seq<Op>)
    requires Inv(s) && Settled(s) && Runs(s, ops)
    ensures Inv(After(s, ops)) && Settled(After(s, ops))
    decreases |ops|
  {
    hide Inv, Settled, Step, Enabled;
    if ops != [] {
      StepKeeps(s, ops[0]);
      RunKeeps(Step(s, ops[0]), ops[1..]);
    }
  }

  // ---------------------------------------------------------------- what a reachable state looks like

  /** Every process but the idle one is in exactly one place of exactly one list: the queue of its
      priority, the blocked queue or its parent's zombies, on the node its slot points at. */
  lemma ExactlyOneList(s: State, pid: nat) returns (i: nat)
    requires Inv(s) && pid in s.procs && pid != IDLE_PID
    ensures var home, n := Home(s.procs[pid]), Node(s.procs[pid].node, pid);
            && i < |ListAt(s, home)| && ListAt(s, home)[i] == n
            && forall place, j ::
                 0 <= j < |ListAt(s, place)| && ListAt(s, place)[j].pid == pid ==> place == home && j == i
  {
    var home, n := Home(s.procs[pid]), Node(s.procs[pid].node, pid);
    assert AtHome(s, pid);
    i :| 0 <= i < |ListAt(s, home)| && ListAt(s, home)[i] == n;
    forall place, j | 0 <= j < |ListAt(s, place)| && ListAt(s, place)[j].pid == pid
      ensures place == home && j == i
    {
      assert ListAt(s, place)[j] in ListAt(s, place);
      assert OnHome(s, {IDLE_PID}, ListAt(s, place)[j], place);
      assert Distinct(ListAt(s, place));
    }
  }

  /** A zombie's parent is alive and has it in its list, so no zombie outlives its parent. */
  lemma ZombieOwned(s: State, z: nat)
    requires Inv(s) && z in s.procs && s.procs[z].status == Zombie
    ensures var parent := s.procs[z].parent;
            && parent in s.procs && s.procs[parent].status != Zombie
            && Node(s.procs[z].node, z) in s.procs[parent].zombies
  {
    OkOf(s, z);
    OkOf(s, IDLE_PID);
    assert AtHome(s, z);
  }

  /** Zombies come from kills with their results, quanta are counted only as they run out. */
  lemma StepAccounted(s: State, op: Op)
    requires Inv(s) && Settled(s) && Enabled(s, op)
    ensures Accounted(s, op, Step(s, op).procs)
  {
    SameCalm(s.procs);
    hide Inv, Calm, Accounted;
    match op
    case OpTick => TickAccounted(s);
    case OpYield => YieldAccounted(s, op, s);
    case OpCreate(_, _, _, _) => CreateAccounted(s, op);
    case OpSetPriority(pid, priority) =>
      SetPriorityCalm(s, pid, priority);
      CalmAccounted(s, op, SetPriority(s, pid, priority).procs);
    case OpSetStatus(pid, status) =>
      SetStatusCalm(s, pid, status);
      CalmAccounted(s, op, SetStatus(s, pid, status).procs);
    case OpKill(_, _) => KillAccounted(s, op);
    case OpCtrlC => SameAccounted(s, op);
    case OpWaitBegin(pid) => WaitBeginAccounted(s, op);
    case OpWaitFinish => WaitFinishAccounted(s, op);
  }

  lemma SameAccounted(s: State, op: Op)
    ensures Accounted(s, op, s.procs)
  {
  }

  lemma WaitFinishAccounted(s: State, op: Op)
    requires Inv(s) && Settled(s) && InWait(s)
    ensures Accounted(s, op, WaitFinish(s).procs)
  {
    hide Inv, Settled, WaitFinish, Calm, AllAlike, Accounted;
    WaitFinishKeeps(s);
    var p := s.procs[s.current].(waiting := 0);
    var child := s.procs[s.current].waiting;
    TakenCalm(s.procs[s.current := p], WaitFinish(s).procs, child);
    assert Calm(s.procs, s.procs[s.current := p]) by {
      WaitingCalm(s.procs, s.current, p);
    }
    CalmAll(s.procs, s.procs[s.current := p], WaitFinish(s).procs);
    CalmAccounted(s, op, WaitFinish(s).procs);
  }

  lemma WaitingCalm(procs: map<nat, Proc>, pid: nat, p: Proc)
    requires pid in procs && p == procs[pid].(waiting := p.waiting)
    ensures Calm(procs, procs[pid := p])
  {
  }

  /** The result of the last kill of each pid in a run. */
  ghost function Kills(s: State, ops: seq<Op>, results: map<nat, int>): map<nat, int>
    decreases |ops|
  {
    if ops == [] then results else Kills(Step(s, ops[0]), ops[1..], Recorded(s, ops[0], results))
  }

  ghost function Recorded(s: State, op: Op, results: map<nat, int>): map<nat, int> {
    if op.OpKill? && Killable(s, op.pid) then results[op.pid := op.retval]
    else if Interrupts(s, op) && CtrlC(s) then results[s.current := -1]
    else results
  }

  /** Every zombie carries the result of the last kill of its pid. */
  ghost predicate Faithful(s: State, results: map<nat, int>) {
    forall z :: z in s.procs && s.procs[z].status == Zombie ==> z in results && results[z] == s.procs[z].retval
  }

  lemma StepFaithful(s: State, op: Op, results: map<nat, int>)
    requires Accounted(s, op, Step(s, op).procs) && Faithful(s, results)
    ensures Faithful(Step(s, op), Recorded(s, op, results))
  {
    hide Step;
    var t := Step(s, op);
    forall z | z in t.procs && t.procs[z].status == Zombie
      ensures z in Recorded(s, op, results) && Recorded(s, op, results)[z] == t.procs[z].retval
    {
      assert AccountedAt(s, op, z, t.procs[z]);
    }
  }

  lemma {:induction false} RunFaithful(s: State, ops: seq<Op>, results: map<nat, int>)
    requires Inv(s) && Settled(s) && Runs(s, ops) && Faithful(s, results)
    ensures Faithful(After(s, ops), Kills(s, ops, results))
    decreases |ops|
  {
    hide Inv, Settled, Step, Enabled, Faithful, Accounted, Recorded;
    if ops != [] {
      StepKeeps(s, ops[0]);
      StepAccounted(s, ops[0]);
      StepFaithful(s, ops[0], results);
      RunFaithful(Step(s, ops[0]), ops[1..], Recorded(s, ops[0], results));
    }
  }

  /** In every run: when a process comes back inside `waitpid` its child is a zombie in its own
      list, and `waitpid` returns the result that the child was killed with. */
  lemma WaitHandshake(ops: seq<Op>)
    requires Runs(Init(), ops) && InWait(After(Init(), ops))
    ensures var s := After(Init(), ops);
            var child := s.procs[s.current].waiting;
            && child in s.procs && s.procs[child].status == Zombie && s.procs[child].parent == s.current
            && Node(s.procs[child].node, child) in s.procs[s.current].zombies
            && child in Kills(Init(), ops, map[]) && WaitResult(s) == Kills(Init(), ops, map[])[child]
            && child !in Step(s, OpWaitFinish).procs
  {
    hide Step, Enabled, Runs, After, Kills, Inv, Settled, Faithful, InWait;
    InitHolds();
    InitFaithful();
    RunKeeps(Init(), ops);
    RunFaithful(Init(), ops, map[]);
    Handshake(After(Init(), ops), Kills(Init(), ops, map[]));
  }

  lemma InitFaithful()
    ensures Faithful(Init(), map[])
  {
  }

  lemma Handshake(s: State, results: map<nat, int>)
    requires Inv(s) && Settled(s) && InWait(s) && Faithful(s, results)
    ensures s.current in s.procs
    ensures var child := s.procs[s.current].waiting;
            && child in s.procs && s.procs[child].status == Zombie && s.procs[child].parent == s.current
            && Node(s.procs[child].node, child) in s.procs[s.current].zombies
            && child in results && WaitResult(s) == results[child] && child !in Step(s, OpWaitFinish).procs
  {
    hide WaitFinish, Inv;
    OkOf(s, s.current);
    var child := s.procs[s.current].waiting;
    ZombieOwned(s, child);
    ChildTaken(s);
  }

  lemma ChildTaken(s: State)
    requires Inv(s) && Settled(s) && InWait(s)
    ensures s.procs[s.current].waiting !in WaitFinish(s).procs
  {
    hide WaitFinish, Inv, Settled;
    WaitFinishKeeps(s);
  }
}
