/** The scheduler updated in place, each call against what `SchedulerSpec` says it does. */
module SchedulerCode {
  import opened SchedulerSpec
  import opened SchedulerLists
  import opened SchedulerInvariant
  import opened SchedulerSteps
  import opened Options
  import SchedulerQuantum

  /** What falling asleep does to the fields. */
  lemma SleepValue(s: State, pid: nat)
    requires pid in s.procs && s.procs[pid].status != Zombie && s.procs[pid].status != Blocked
    requires s.procs[pid].priority < |s.ready|
    ensures var p, l := s.procs[pid], s.procs[pid].priority;
            Move(s, pid, Slept(p), false)
            == s.(procs := s.procs[pid := Slept(p).(node := s.nextNode)],
                  ready := s.ready[l := Remove(s.ready[l], Node(p.node, pid))],
                  blocked := s.blocked + [Node(s.nextNode, pid)], nextNode := s.nextNode + 1)
  {
    Overwritten(s.procs, pid, Slept(s.procs[pid]), Slept(s.procs[pid]).(node := s.nextNode));
  }

  /** What waking up does to the fields. */
  lemma WakeValue(s: State, pid: nat)
    requires pid in s.procs && s.procs[pid].status == Blocked && |s.ready| == NUM_PRIORITIES
    ensures var p, l := s.procs[pid], NUM_PRIORITIES - 1;
            Move(s, pid, Woken(p), true)
            == s.(procs := s.procs[pid := Woken(p).(node := s.nextNode)],
                  ready := s.ready[l := [Node(s.nextNode, pid)] + s.ready[l]],
                  blocked := Remove(s.blocked, Node(p.node, pid)), nextNode := s.nextNode + 1)
  {
    Overwritten(s.procs, pid, Woken(s.procs[pid]), Woken(s.procs[pid]).(node := s.nextNode));
  }

  /** What a change of priority does to the fields. */
  lemma PriorityValue(s: State, pid: nat, priority: nat)
    requires CanChange(s, pid) && priority < NUM_PRIORITIES && |s.ready| == NUM_PRIORITIES
    requires s.procs[pid].status == Ready || s.procs[pid].status == Running
    requires s.procs[pid].priority < NUM_PRIORITIES
    ensures var p, l := s.procs[pid], s.procs[pid].priority;
            var ready := s.ready[l := Remove(s.ready[l], Node(p.node, pid))];
            SetPriority(s, pid, priority)
            == s.(procs := s.procs[pid := p.(priority := priority, node := s.nextNode)],
                  ready := ready[priority := ready[priority] + [Node(s.nextNode, pid)]], nextNode := s.nextNode + 1)
  {
    var p := s.procs[pid].(priority := priority);
    Overwritten(s.procs, pid, p, p.(node := s.nextNode));
  }

  /** The count that `schedule` resets after a promotion might as well be reset before it. */
  lemma ResetCommutes(s: State, pid: nat, p: Proc, priority: nat)
    requires pid in s.procs && pid < MAX_PROCESSES && priority < NUM_PRIORITIES && |s.ready| == NUM_PRIORITIES
    requires p.status == Ready && p.priority < NUM_PRIORITIES
    ensures var t := SetPriority(Put(s, pid, p), pid, priority);
            && pid in t.procs
            && Put(t, pid, t.procs[pid].(consumed := 0)) == SetPriority(Put(s, pid, p.(consumed := 0)), pid, priority)
  {
    Overwritten(s.procs, pid, p, p.(consumed := 0));
    if pid != IDLE_PID {
      ResetQueued(s, pid, p, priority);
    }
  }

  lemma ResetQueued(s: State, pid: nat, p: Proc, priority: nat)
    requires pid in s.procs && pid < MAX_PROCESSES && priority < NUM_PRIORITIES && |s.ready| == NUM_PRIORITIES
    requires p.status == Ready && p.priority < NUM_PRIORITIES && pid != IDLE_PID
    ensures var t := SetPriority(Put(s, pid, p), pid, priority);
            && pid in t.procs
            && Put(t, pid, t.procs[pid].(consumed := 0)) == SetPriority(Put(s, pid, p.(consumed := 0)), pid, priority)
  {
    hide SetPriority;
    var r, q := p.(consumed := 0), p.(priority := priority, node := s.nextNode);
    PriorityValue(Put(s, pid, p), pid, priority);
    PriorityValue(Put(s, pid, r), pid, priority);
    Overwritten(s.procs, pid, p, q);
    Overwritten(s.procs, pid, q, q.(consumed := 0));
    Overwritten(s.procs, pid, r, q.(consumed := 0));
  }

  lemma FlagDown(s: State)
    requires Inv(s)
    ensures Inv(s.(killFlag := false))
  {
    SameLists(s, s.(killFlag := false), {IDLE_PID});
    hide Listed, ProcsOk;
  }

  lemma Counted(s: State)
    requires Inv(s)
    ensures Inv(s.(remaining := s.remaining - 1)) && (s.count == 0 <==> s.procs == map[])
  {
    Retimed(s, s.remaining - 1);
    hide Listed, ProcsOk;
  }

  lemma NoKill(s: State, pid: nat, retval: int)
    ensures !Killable(s, pid) ==> Kill(s, pid, retval) == s
  {
  }

  /** The kill that a pending Ctrl+C brings about ends in a `yield` that finds no Ctrl+C pending. */
  lemma NestedKill(s: State)
    requires Inv(s) && CtrlC(s)
    ensures Kill(s.(killFlag := false), s.current, -1) == Tick(s)
  {
    var t := s.(killFlag := false);
    FlagDown(s);
    TerminateKeeps(t, s.current, -1);
    var u := Terminate(t, s.current, -1);
    assert !u.killFlag;
    DemoteKeepsFlag(u);
    hide Inv, Terminate, Demote, Schedule, Buried;
    var v := Demote(u).(remaining := 0);
    assert v.(killFlag := false) == v;
  }

  lemma DemoteKeepsFlag(s: State)
    requires Inv(s)
    ensures Demote(s).killFlag == s.killFlag
  {
    hide Inv, SetPriority;
    if s.current in s.procs && s.initial > 0 && s.procs[s.current].priority > 0 {
      SetPriorityFacts(s, s.current, s.procs[s.current].priority - 1);
    }
  }

  class Scheduler {
    var processes: map<nat, Proc>
    var readyQueues: seq<seq<Node>>
    var blockedQueue: seq<Node>
    var currentPid: nat
    var nextUnusedPid: nat
    var numProcesses: int
    var remainingQuantum: int
    var initialQuantum: int
    var killFgFlag: bool
    var foregroundPid: nat
    var currentPriorityLevel: nat
    var nextNode: nat   // stands for the address of the next list node

    ghost function Contents(): State
      reads this
    {
      State(processes, readyQueues, blockedQueue, currentPid, nextUnusedPid, numProcesses, remainingQuantum,
            initialQuantum, killFgFlag, foregroundPid, currentPriorityLevel, nextNode)
    }

    constructor ()
      ensures Contents() == Init() && Inv(Contents())
      ensures processes == map[] && readyQueues == [[], [], [], [], []] && blockedQueue == [] && numProcesses == 0
      ensures currentPid == 0 && nextUnusedPid == 0 && remainingQuantum == 1 && initialQuantum == 0
      ensures !killFgFlag && foregroundPid == 0 && currentPriorityLevel == 4
    {
      processes := map[];
      readyQueues := [[], [], [], [], []];
      blockedQueue := [];
      currentPid, nextUnusedPid, numProcesses := 0, 0, 0;
      remainingQuantum, initialQuantum := 1, 0;
      killFgFlag, foregroundPid := false, 0;
      currentPriorityLevel := NUM_PRIORITIES - 1;
      nextNode := 0;
      new;
      assert forall place :: ListAt(Init(), place) == [];
    }

    // ---------------------------------------------------------------- list calls

    method RemoveReady(level: nat, node: Node)
      requires level < |readyQueues| && node in readyQueues[level]
      modifies this`readyQueues
      ensures readyQueues == old(readyQueues)[level := Remove(old(readyQueues[level]), node)]
    {
      readyQueues := readyQueues[level := Remove(readyQueues[level], node)];
    }

    method AppendReady(level: nat, pid: nat) returns (node: nat)
      requires level < |readyQueues|
      modifies this`readyQueues, this`nextNode
      ensures node == old(nextNode) && nextNode == node + 1
      ensures readyQueues == old(readyQueues)[level := old(readyQueues[level]) + [Node(node, pid)]]
    {
      node := nextNode;
      readyQueues := readyQueues[level := readyQueues[level] + [Node(node, pid)]];
      nextNode := nextNode + 1;
    }

    method SetPriority(pid: nat, newPriority: nat) returns (result: int)
      requires Listed(Contents(), {IDLE_PID}) && |readyQueues| == NUM_PRIORITIES
      modifies this
      ensures Contents() == SchedulerSpec.SetPriority(old(Contents()), pid, newPriority)
      ensures result == if CanChange(old(Contents()), pid) && newPriority < NUM_PRIORITIES then newPriority else -1
    {
      if pid >= MAX_PROCESSES || pid !in processes || pid == IDLE_PID || newPriority >= NUM_PRIORITIES {
        return -1;
      }
      ghost var s := Contents();
      assert AtHome(s, pid);
      var process := processes[pid];
      if process.status == Ready || process.status == Running {
        RemoveReady(process.priority, Node(process.node, pid));
        var node := AppendReady(newPriority, pid);
        process := process.(node := node);
        processes := processes[pid := process];
      }
      processes := processes[pid := process.(priority := newPriority)];
      Overwritten(s.procs, pid, process, process.(priority := newPriority));
      Overwritten(s.procs, pid, s.procs[pid].(priority := newPriority), process.(priority := newPriority));
      result := newPriority;
    }

    method SetStatus(pid: nat, newStatus: Status) returns (result: Option<Status>)
      requires Listed(Contents(), {IDLE_PID}) && |readyQueues| == NUM_PRIORITIES
      modifies this
      ensures Contents() == SchedulerSpec.SetStatus(old(Contents()), pid, newStatus)
      ensures result == if CanChange(old(Contents()), pid) && newStatus != Running && newStatus != Zombie
                           && old(processes[pid].status) != Zombie then Some(newStatus) else None
    {
      if pid >= MAX_PROCESSES || pid !in processes || pid == IDLE_PID {
        return None;
      }
      ghost var s := Contents();
      assert AtHome(s, pid);
      var process := processes[pid];
      var node := Node(process.node, pid);
      var oldStatus := process.status;
      if newStatus == Running || newStatus == Zombie || oldStatus == Zombie {
        return None;
      }
      if newStatus == oldStatus {
        return Some(newStatus);
      }
      result := Some(newStatus);
      hide Listed, Move;
      if newStatus == Blocked {
        Sleep(pid);
      } else if oldStatus == Blocked {
        Wake(pid);
      } else {
        processes := processes[pid := process.(status := newStatus)];
      }
    }

    /** The part of `set_status` that blocks a process that can run. */
    method Sleep(pid: nat)
      requires pid in processes && AtHome(Contents(), pid) && processes[pid].priority < |readyQueues|
      requires processes[pid].status == Ready || processes[pid].status == Running
      modifies this
      ensures Contents() == Move(old(Contents()), pid, Slept(old(processes[pid])), false)
    {
      ghost var s := Contents();
      SleepValue(s, pid);
      var process := processes[pid].(status := Blocked);
      var oldPriority := process.priority;
      if process.priority > 0 {
        process := process.(priority := process.priority - 1);
      }
      process := process.(consumed := 0);
      RemoveReady(oldPriority, Node(process.node, pid));
      blockedQueue := blockedQueue + [Node(nextNode, pid)];
      processes := processes[pid := process.(node := nextNode)];
      nextNode := nextNode + 1;
      hide Move, ListAt;
    }

    /** The part of `set_status` that wakes a blocked process: it jumps the top queue. */
    method Wake(pid: nat)
      requires pid in processes && AtHome(Contents(), pid) && processes[pid].status == Blocked
      requires |readyQueues| == NUM_PRIORITIES
      modifies this
      ensures Contents() == Move(old(Contents()), pid, Woken(old(processes[pid])), true).(remaining := 0)
    {
      ghost var s := Contents();
      WakeValue(s, pid);
      var process := processes[pid].(status := Ready);
      blockedQueue := Remove(blockedQueue, Node(process.node, pid));
      process := process.(priority := NUM_PRIORITIES - 1);
      readyQueues := readyQueues[process.priority := [Node(nextNode, pid)] + readyQueues[process.priority]];
      processes := processes[pid := process.(node := nextNode)];
      nextNode := nextNode + 1;
      remainingQuantum := 0;
      hide Move, ListAt;
    }

    // ---------------------------------------------------------------- the processor

    /** Searches the levels downwards from the current one, and steps past the level it takes from. */
    method GetNextPid() returns (pid: nat)
      requires |readyQueues| == NUM_PRIORITIES && currentPriorityLevel < NUM_PRIORITIES
      modifies this`currentPriorityLevel
      ensures var t := Pick(old(Contents())); pid == t.current && currentPriorityLevel == t.level
    {
      ghost var start := currentPriorityLevel;
      for i := 0 to NUM_PRIORITIES
        invariant currentPriorityLevel == (if start >= i then start - i else start + NUM_PRIORITIES - i)
        invariant i > 0 ==> readyQueues[start] == []
        invariant NextLevel(readyQueues, start, NUM_PRIORITIES)
                  == NextLevel(readyQueues, currentPriorityLevel, NUM_PRIORITIES - i)
      {
        var level := currentPriorityLevel;
        currentPriorityLevel := Below(currentPriorityLevel);
        if readyQueues[level] != [] {
          return readyQueues[level][0].pid;
        }
      }
      pid := IDLE_PID;
    }

    /** A running process goes to the end of its queue, and up a level once ten quanta in a row ran out. */
    method StopCurrent()
      requires Inv(Contents())
      modifies this
      ensures Contents() == Preempt(old(Contents()))
    {
      hide Inv, Listed, SchedulerSpec.SetPriority, Put, Ages, Consumed, Stopped;
      if currentPid in processes && processes[currentPid].status == Running {
        ghost var s := Contents();
        StopListed(s);
        var aged := CountQuantum();
        StoppedValue(s, Contents());
        Requeue(aged);
      }
    }

    method Requeue(aged: bool)
      requires Listed(Contents(), {IDLE_PID}) && |readyQueues| == NUM_PRIORITIES && currentPid in processes
      modifies this
      ensures var s := old(Contents());
              var p := s.procs[s.current];
              if aged then
                var t := SchedulerSpec.SetPriority(s, s.current, p.priority + 1);
                s.current in t.procs && Contents() == Put(t, s.current, t.procs[s.current].(consumed := 0))
              else Contents() == SchedulerSpec.SetPriority(s, s.current, p.priority)
    {
      hide Listed, SchedulerSpec.SetPriority, Put;
      PriorityThere(Contents(), currentPid, processes[currentPid].priority + 1);
      if aged {
        var _ := SetPriority(currentPid, processes[currentPid].priority + 1);
        ResetCount();
      } else {
        var _ := SetPriority(currentPid, processes[currentPid].priority);
      }
    }

    method ResetCount()
      requires currentPid in processes
      modifies this`processes
      ensures Contents() == Put(old(Contents()), currentPid, old(Contents()).procs[currentPid].(consumed := 0))
    {
      processes := processes[currentPid := processes[currentPid].(consumed := 0)];
    }

    lemma PriorityThere(s: State, pid: nat, priority: nat)
      requires pid in s.procs
      ensures var t := SchedulerSpec.SetPriority(s, pid, priority); pid in t.procs && t.current == s.current
    {
    }

    /** The current process stops; the 16-bit count goes up if the quantum ran out. */
    method CountQuantum() returns (aged: bool)
      requires currentPid in processes
      modifies this`processes
      ensures var s, p := old(Contents()), old(processes[currentPid]);
              && Contents() == Put(s, s.current, p.(status := Ready, consumed := Consumed(s, p))) && aged == Ages(s, p)
    {
      var process := processes[currentPid].(status := Ready);
      aged := false;
      if remainingQuantum == 0 && initialQuantum > 0 {
        process := process.(consumed := (process.consumed + 1) % 0x1_0000);
        aged := process.consumed >= AGING_THRESHOLD && process.priority < NUM_PRIORITIES - 1;
      }
      processes := processes[currentPid := process];
    }

    /** Halfway through: the process has stopped and is counted, and goes on to its queue. */
    lemma StoppedValue(s: State, t: State)
      requires Inv(s) && s.current in s.procs && s.procs[s.current].status == Running
      requires var p := s.procs[s.current]; t == Put(s, s.current, p.(status := Ready, consumed := Consumed(s, p)))
      ensures var p := s.procs[s.current];
              && s.current in t.procs && t.procs[s.current].priority == p.priority
              && (!Ages(s, p) ==> Preempt(s) == SchedulerSpec.SetPriority(t, s.current, p.priority))
              && (Ages(s, p) ==>
                    var u := SchedulerSpec.SetPriority(t, s.current, p.priority + 1);
                    s.current in u.procs && Preempt(s) == Put(u, s.current, u.procs[s.current].(consumed := 0)))
    {
      OkOf(s, s.current);
      var p := s.procs[s.current];
      hide Inv, SchedulerSpec.SetPriority, Consumed;
      if Ages(s, p) {
        ResetCommutes(s, s.current, p.(status := Ready, consumed := Consumed(s, p)), p.priority + 1);
      }
    }

    lemma StopListed(s: State)
      requires Inv(s) && s.current in s.procs && s.procs[s.current].status == Running
      ensures |s.ready| == NUM_PRIORITIES
      ensures forall n :: Listed(Put(s, s.current, s.procs[s.current].(status := Ready, consumed := n)), {IDLE_PID})
    {
      OkOf(s, s.current);
      forall n
        ensures Listed(Put(s, s.current, s.procs[s.current].(status := Ready, consumed := n)), {IDLE_PID})
      {
        PutListed(s, {IDLE_PID}, s.current, s.procs[s.current].(status := Ready, consumed := n));
      }
    }

    method SwitchToNext()
      requires Inv(Contents()) && NoneRuns(processes) && processes != map[]
      modifies this
      ensures Contents() == Dispatch(Pick(old(Contents())))
    {
      hide Inv, Pick, NoneRuns;
      PickKeeps(Contents());
      PickSame(Contents());
      FiveQueues(Contents());
      currentPid := GetNextPid();
      var next := processes[currentPid];
      initialQuantum := Quantum(next.priority);
      remainingQuantum := initialQuantum;
      processes := processes[currentPid := next.(status := Running)];
    }

    /** A call that switches leaves the process it picked on a full quantum. */
    method Schedule()
      requires Inv(Contents())
      modifies this
      ensures Contents() == Tick(old(Contents()))
      ensures old(processes) != map[] && (old(remainingQuantum) <= 1 || CtrlC(old(Contents()))) ==>
                SchedulerQuantum.Fresh(Contents(), old(currentPriorityLevel))
      decreases if killFgFlag then 1 else 0, 0
    {
      hide Inv, Kill, Preempt, Pick, Dispatch, GiveUp, Terminate, NoneRuns, SchedulerQuantum.Fresh;
      ghost var s0 := Contents();
      if processes != map[] && (remainingQuantum <= 1 || CtrlC(s0)) {
        SchedulerQuantum.TickFresh(s0);
      }
      if killFgFlag {
        killFgFlag := false;
        FlagDown(s0);
        if currentPid != IDLE_PID && currentPid in processes && processes[currentPid].stdin {
          NoKill(Contents(), currentPid, -1);
          var killed := KillProcess(currentPid, -1);
          if killed == 0 {
            NestedKill(s0);
            return;   // the interrupted stack was the killed process's: nothing resumes it
          }
        }
      }
      Counted(Contents());
      remainingQuantum := remainingQuantum - 1;
      if numProcesses == 0 || remainingQuantum > 0 {
        return;
      }
      PreemptKeeps(Contents());
      StopCurrent();
      SwitchToNext();
    }

    /** A running process that yields, with no Ctrl+C to kill it, is last in the queue one level down. */
    method Yield()
      requires Inv(Contents())
      modifies this
      ensures Contents() == SchedulerSpec.Yield(old(Contents()))
      ensures var s := old(Contents());
              s.current in s.procs && s.current != IDLE_PID && s.procs[s.current].status == Running && s.initial > 0
              && !CtrlC(s) ==>
                var priority := s.procs[s.current].priority;
                SchedulerQuantum.Requeued(Contents(), s.current, if priority > 0 then priority - 1 else 0, 0)
      decreases if killFgFlag then 1 else 0, 1
    {
      hide Inv, Tick, Listed, CtrlC, SchedulerQuantum.Requeued, SchedulerQuantum.Fresh, SchedulerQuantum.Handover;
      ghost var s := Contents();
      if s.current in s.procs && s.current != IDLE_PID && s.procs[s.current].status == Running && s.initial > 0
         && !CtrlC(s) {
        SchedulerQuantum.YieldRule(s);
      }
      Demoted();
      remainingQuantum := 0;
      Schedule();
    }

    /** The part of `yield` that costs its caller a level and its count. */
    method Demoted()
      requires Inv(Contents())
      modifies this
      ensures Contents() == Demote(old(Contents())) && Inv(Contents()) && Inv(Contents().(remaining := 0))
    {
      hide Inv, Listed, SchedulerSpec.SetPriority, Put;
      DemoteKeeps(Contents());
      Retimed(Demote(Contents()), 0);
      ListedNow(Contents());
      if currentPid in processes && initialQuantum > 0 {
        if processes[currentPid].priority > 0 {
          PriorityThere(Contents(), currentPid, processes[currentPid].priority - 1);
          var _ := SetPriority(currentPid, processes[currentPid].priority - 1);
        }
        ResetCount();
      }
    }

    lemma ListedNow(s: State)
      requires Inv(s)
      ensures Listed(s, {IDLE_PID}) && |s.ready| == NUM_PRIORITIES
    {
    }

    method KillProcess(pid: nat, retval: int) returns (result: int)
      requires Inv(Contents())
      modifies this
      ensures Contents() == Kill(old(Contents()), pid, retval)
      ensures result == if Killable(old(Contents()), pid) then 0 else -1
      decreases if killFgFlag then 1 else 0, 2
    {
      hide Inv, Listed, Die, Bequeath, SchedulerSpec.Yield, Buried, Dead;
      if pid >= MAX_PROCESSES || pid !in processes || processes[pid].status == Zombie || processes[pid].unkillable {
        return -1;
      }
      ghost var s := Contents();
      TerminateKeeps(s, pid, retval);
      DieFacts(s, pid, retval);
      BecomeZombie(pid, retval);
      LeaveToParent(pid, s, retval);
      if pid == currentPid {
        Yield();
      }
      result := 0;
    }

    /** The process leaves its queue, frees its zombie children one by one and turns zombie. */
    method BecomeZombie(pid: nat, retval: int)
      requires Inv(Contents()) && Killable(Contents(), pid)
      modifies this
      ensures Contents() == Die(old(Contents()), pid, retval)
    {
      hide Inv, Listed, Reap;
      ghost var s := Contents();
      GoneFromQueue(s, pid);
      LeaveQueue(pid);
      ReapChildren(pid);
      processes := processes[pid := processes[pid].(status := Zombie, retval := retval)];
      if pid == foregroundPid {
        foregroundPid := 0;
      }
    }

    lemma GoneFromQueue(s: State, pid: nat)
      requires Inv(s) && Killable(s, pid)
      ensures AtHome(s, pid) && |s.ready| == NUM_PRIORITIES && s.procs[pid].priority < NUM_PRIORITIES
      ensures Listed(Unlink(s, pid), {IDLE_PID, pid}) && pid in Unlink(s, pid).procs
              && pid in Reap(Unlink(s, pid), pid).procs
      ensures Childless(Unlink(s, pid).procs, pid)
    {
      OkOf(s, pid);
      UnlinkListed(s, {IDLE_PID}, pid);
      assert {IDLE_PID} + {pid} == {IDLE_PID, pid};
      forall q | Child(s.procs, pid, q)
        ensures s.procs[q].zombies == []
      {
        ZombiesReaped(s, q);
      }
      hide Inv, Listed, Unlink;
      var _ := GoneFromLists(s, pid);
    }

    method LeaveQueue(pid: nat)
      requires pid in processes && AtHome(Contents(), pid) && processes[pid].status != Zombie
      requires |readyQueues| == NUM_PRIORITIES && processes[pid].priority < NUM_PRIORITIES
      modifies this`readyQueues, this`blockedQueue
      ensures Contents() == Unlink(old(Contents()), pid)
    {
      var node := Node(processes[pid].node, pid);
      if processes[pid].status == Blocked {
        blockedQueue := Remove(blockedQueue, node);
      } else {
        RemoveReady(processes[pid].priority, node);
      }
    }

    method ReapChildren(pid: nat)
      requires pid in processes && Listed(Contents(), {IDLE_PID, pid})
      requires Childless(processes, pid)
      modifies this`processes, this`numProcesses
      ensures Contents() == Reap(old(Contents()), pid)
    {
      hide Listed, Childless;
      while processes[pid].zombies != []
        invariant pid in processes && Listed(Contents(), {IDLE_PID, pid})
        invariant Childless(processes, pid)
        invariant Reap(Contents(), pid) == Reap(old(Contents()), pid)
        decreases |processes[pid].zombies|
      {
        ghost var s := Contents();
        var zombieNode := processes[pid].zombies[0];
        var zombiePid := zombieNode.pid;
        var t := ReapStep(s, pid, zombiePid);
        StillChildless(s.procs, t.procs, pid, zombiePid);
        RemoveFirst(processes[pid].zombies);
        processes := processes[pid := processes[pid].(zombies := Remove(processes[pid].zombies, zombieNode))];
        processes := processes - {zombiePid};
        numProcesses := numProcesses - 1;
        assert Contents() == t;
      }
    }

    lemma RemoveFirst(list: seq<Node>)
      requires list != []
      ensures Remove(list, list[0]) == list[1..]
    {
    }

    /** The zombie goes to its parent's list, or is freed if nobody is left to take it. */
    method LeaveToParent(pid: nat, ghost s: State, ghost retval: int)
      requires Inv(s) && Killable(s, pid) && Dead(s, Contents(), pid, retval) && Listed(Contents(), {IDLE_PID, pid})
      modifies this
      ensures Contents() == Bequeath(old(Contents()), pid)
    {
      hide Inv, Listed, Killable, Dead, SchedulerSpec.SetStatus, ListAt;
      StillSlotted(s, Contents(), pid, retval);
      FiveQueues(s);
      ghost var d := Contents();
      ParentKept(s, d, pid, retval);
      var parentPid := processes[pid].parent;
      if parentPid < MAX_PROCESSES && parentPid in processes {
        var parent := processes[parentPid];
        if parent.status != Zombie {
          ZombieLinked(s, d, pid, retval);
          AppendZombie(parentPid, pid);
          parent := processes[parentPid];
          if parent.waiting == pid && parent.status == Blocked {
            var _ := SetStatus(parentPid, Ready);
          }
        } else {
          processes := processes - {pid};
          numProcesses := numProcesses - 1;
        }
      } else {
        processes := processes - {pid};
        numProcesses := numProcesses - 1;
      }
    }

    lemma StillSlotted(s: State, t: State, pid: nat, retval: int)
      requires Dead(s, t, pid, retval)
      ensures pid in t.procs && t.procs[pid].status == Zombie
    {
    }

    method AppendZombie(parentPid: nat, pid: nat)
      requires parentPid in processes && pid in processes && processes[pid].status == Zombie
      requires processes[pid].parent == parentPid && parentPid != pid
      modifies this`processes, this`nextNode
      ensures Contents() == Link(old(Contents()), pid, false)
    {
      var parent := processes[parentPid];
      processes := processes[parentPid := parent.(zombies := parent.zombies + [Node(nextNode, pid)])];
      processes := processes[pid := processes[pid].(node := nextNode)];
      nextNode := nextNode + 1;
    }

    method KillForegroundProcess()
      modifies this`killFgFlag
      ensures Contents() == Step(old(Contents()), OpCtrlC)
    {
      killFgFlag := true;
    }

    // ---------------------------------------------------------------- births and waits

    /** `oom` says whether the heap refuses one of the blocks. The pid search ends because a slot
        is still free behind the insertion. */
    method CreateProcess(priority: nat, unkillable: bool, stdin: bool, oom: bool) returns (pid: int)
      requires Inv(Contents()) && Settled(Contents()) && numProcesses + 1 < MAX_PROCESSES
      requires processes == map[] ==> unkillable
      modifies this
      ensures Contents() == Create(old(Contents()), priority, unkillable, stdin, oom)
      ensures pid == if oom then -1 else old(nextUnusedPid)
    {
      hide Inv, Settled, Enter, FreeSlot;
      if numProcesses >= MAX_PROCESSES {
        return -1;
      }
      var level := if priority >= NUM_PRIORITIES then NUM_PRIORITIES - 1 else priority;
      if oom {
        return -1;
      }
      SameLevel(Contents(), priority, level, unkillable, stdin);
      RoomLeft(Contents());
      pid := nextUnusedPid;
      InsertNew(level, unkillable, stdin);
      EndCreate();
    }

    method EndCreate()
      requires nextUnusedPid < MAX_PROCESSES && |processes| < MAX_PROCESSES
               && forall q :: q in processes ==> q < MAX_PROCESSES
      modifies this`nextUnusedPid, this`numProcesses
      ensures var t := old(Contents());
              Contents() == t.(nextUnused := FreeSlot(t.procs, t.nextUnused, MAX_PROCESSES), count := t.count + 1)
    {
      FindUnused();
      numProcesses := numProcesses + 1;
    }

    lemma SameLevel(s: State, priority: nat, level: nat, unkillable: bool, stdin: bool)
      requires level == if priority >= NUM_PRIORITIES then NUM_PRIORITIES - 1 else priority
      ensures Enter(s, level, unkillable, stdin) == Enter(s, priority, unkillable, stdin)
    {
    }

    lemma RoomLeft(s: State)
      requires Inv(s) && s.count + 1 < MAX_PROCESSES
      ensures s.nextUnused !in s.procs && s.nextUnused < MAX_PROCESSES && |s.ready| == NUM_PRIORITIES
      ensures forall procs: map<nat, Proc> :: procs.Keys == s.procs.Keys + {s.nextUnused} ==>
                |procs| < MAX_PROCESSES && forall q :: q in procs ==> q < MAX_PROCESSES
    {
      hide Listed, ProcsOk;
      forall procs: map<nat, Proc> | procs.Keys == s.procs.Keys + {s.nextUnused}
        ensures |procs| < MAX_PROCESSES && forall q :: q in procs ==> q < MAX_PROCESSES
      {
        assert |procs.Keys| == |s.procs.Keys| + 1;
      }
    }

    method InsertNew(level: nat, unkillable: bool, stdin: bool)
      requires nextUnusedPid !in processes && level < NUM_PRIORITIES == |readyQueues|
      modifies this`processes, this`readyQueues, this`nextNode
      ensures processes.Keys == old(processes).Keys + {nextUnusedPid}
      ensures Contents() == Enter(old(Contents()), level, unkillable, stdin)
    {
      var process := NewProc(currentPid, level, unkillable, stdin);
      Overwritten(processes, nextUnusedPid, process, process.(node := nextNode));
      var node := nextNode;
      if nextUnusedPid != IDLE_PID {
        node := AppendReady(level, nextUnusedPid);
      } else {
        nextNode := nextNode + 1;
      }
      processes := processes[nextUnusedPid := process.(node := node)];
    }

    /** Steps round the table from the pid just used to the next free one. */
    method FindUnused()
      requires nextUnusedPid < MAX_PROCESSES && |processes| < MAX_PROCESSES
               && forall q :: q in processes ==> q < MAX_PROCESSES
      modifies this`nextUnusedPid
      ensures nextUnusedPid == FreeSlot(processes, old(nextUnusedPid), MAX_PROCESSES)
    {
      ghost var tries: nat := MAX_PROCESSES;
      FreeSlotFound(processes, nextUnusedPid);
      while nextUnusedPid in processes
        invariant FreeSlot(processes, nextUnusedPid, tries) == FreeSlot(processes, old(nextUnusedPid), MAX_PROCESSES)
        decreases tries
      {
        nextUnusedPid := (nextUnusedPid + 1) % MAX_PROCESSES;
        tries := tries - 1;
      }
    }

    /** `waitpid` up to its `yield`. Nothing is returned yet when the caller went to sleep. */
    method WaitpidBegin(pid: nat) returns (result: Option<int>)
      requires Inv(Contents()) && Settled(Contents()) && !InWait(Contents()) && currentPid != IDLE_PID
      modifies this
      ensures Contents() == WaitBegin(old(Contents()), pid)
      ensures result == if !CanWait(old(Contents()), pid) then Some(-1)
                        else if old(processes[pid].status) != Zombie then None else Some(old(processes[pid].retval))
    {
      hide Inv, Listed, SchedulerSpec.SetStatus, SchedulerSpec.Yield, WaitFinish, Settled;
      ghost var s := Contents();
      if pid >= MAX_PROCESSES || pid !in processes || processes[pid].parent != currentPid || currentPid !in processes {
        return Some(-1);
      }
      var child := processes[pid];
      AwaitListed(s, pid);
      processes := processes[currentPid := processes[currentPid].(waiting := pid)];
      foregroundPid := pid;
      if child.status != Zombie {
        AsleepKeeps(s, pid);
        var _ := SetStatus(currentPid, Blocked);
        Yield();
        result := None;
      } else {
        var retval := WaitpidFinish();
        result := Some(retval);
      }
    }

    lemma AwaitListed(s: State, pid: nat)
      requires Inv(s) && s.current in s.procs && s.current != IDLE_PID && Settled(s) && CanWait(s, pid)
      ensures Listed(Await(s, pid), {IDLE_PID}) && |s.ready| == NUM_PRIORITIES && s.procs[s.current].status != Zombie
      ensures pid != s.current
    {
      AwaitKeeps(s, pid);
      OkOf(s, s.current);
    }

    /** `waitpid` from its `yield` on: finds the child among the caller's zombies and empties its slot. */
    method WaitpidFinish() returns (retval: int)
      requires currentPid in processes && processes[currentPid].waiting in processes
               && processes[currentPid].waiting != currentPid
      modifies this
      ensures Contents() == WaitFinish(old(Contents())) && retval == WaitResult(old(Contents()))
    {
      var pid := processes[currentPid].waiting;
      retval := processes[pid].retval;
      TakeZombie(pid);
      processes := processes - {pid};
      numProcesses := numProcesses - 1;
      processes := processes[currentPid := processes[currentPid].(waiting := 0)];
      foregroundPid := 0;
    }

    method TakeZombie(pid: nat)
      requires currentPid in processes
      modifies this`processes
      ensures var s := old(Contents());
              Contents() == SetList(s, ZombiesOf(s.current), WithoutPid(Zombies(s, s.current), pid))
    {
      var zombies := processes[currentPid].zombies;
      var i := FindZombie(zombies, pid);
      if i < |zombies| {
        zombies := zombies[..i] + zombies[i + 1..];
      }
      processes := processes[currentPid := processes[currentPid].(zombies := zombies)];
    }

    /** Walks the zombies to the first one with the pid, if there is one. */
    method FindZombie(zombies: seq<Node>, pid: nat) returns (i: nat)
      ensures i <= |zombies| && (i < |zombies| ==> zombies[i].pid == pid)
              && forall j :: 0 <= j < i ==> zombies[j].pid != pid
      ensures WithoutPid(zombies, pid) == if i < |zombies| then zombies[..i] + zombies[i + 1..] else zombies
    {
      i := 0;
      while i < |zombies| && zombies[i].pid != pid
        invariant i <= |zombies| && forall j :: 0 <= j < i ==> zombies[j].pid != pid
        invariant WithoutPid(zombies, pid) == zombies[..i] + WithoutPid(zombies[i..], pid)
      {
        assert zombies[i..][1..] == zombies[i + 1..];
        assert zombies[..i + 1] == zombies[..i] + [zombies[i]];
        i := i + 1;
      }
      if i < |zombies| {
        assert zombies[i..][1..] == zombies[i + 1..];
      }
    }
  }
}
