/** What operations leave alone: only a kill makes a zombie, and only a quantum that ran out counts. */
module SchedulerCalm {
  import opened SchedulerSpec
  import opened SchedulerLists
  import opened SchedulerInvariant
  import opened SchedulerSteps

  /** Nobody is made a zombie, no zombie's result changes, and nobody's count of used-up quanta grows. */
  ghost predicate Calm(procs: map<nat, Proc>, procs': map<nat, Proc>) {
    forall q :: q in procs' && q in procs ==> CalmAt(procs[q], procs'[q])
  }

  ghost predicate CalmAt(p: Proc, p': Proc) {
    && p'.consumed <= p.consumed
    && (p'.status == Zombie ==> p.status == Zombie && p'.retval == p.retval)
  }

  lemma CalmAll(a: map<nat, Proc>, b: map<nat, Proc>, c: map<nat, Proc>)
    requires Calm(a, b) && Calm(b, c) && c.Keys <= b.Keys <= a.Keys
    ensures Calm(a, c)
  {
    forall q | q in c && q in a
      ensures CalmAt(a[q], c[q])
    {
      assert q in b && CalmAt(a[q], b[q]) && CalmAt(b[q], c[q]);
    }
  }

  lemma SetPriorityCalm(s: State, pid: nat, priority: nat)
    requires Inv(s)
    ensures Calm(s.procs, SetPriority(s, pid, priority).procs)
            && SetPriority(s, pid, priority).procs.Keys == s.procs.Keys
  {
    SetPriorityFacts(s, pid, priority);
    hide Inv, SetPriority;
  }

  lemma SetStatusCalm(s: State, pid: nat, status: Status)
    requires Inv(s) && (pid in s.procs ==> s.procs[pid].waiting == 0)
    ensures Calm(s.procs, SetStatus(s, pid, status).procs) && SetStatus(s, pid, status).procs.Keys == s.procs.Keys
  {
    if CanChange(s, pid) {
      var p := s.procs[pid];
      hide Inv, Moved, Move;
      if status == Running || status == Zombie || p.status == Zombie || status == p.status {
      } else if status == Blocked {
        SleepKeeps(s, pid);
        MovedCalm(s, Move(s, pid, Slept(p), false), pid, Slept(p), false);
      } else if p.status == Blocked {
        WakeKeeps(s, pid);
        MovedCalm(s, Move(s, pid, Woken(p), true), pid, Woken(p), true);
      }
    }
  }

  lemma MovedCalm(s: State, t: State, pid: nat, p: Proc, front: bool)
    requires pid in s.procs && Moved(s, t, pid, p, front) && p.status != Zombie && p.consumed <= s.procs[pid].consumed
    ensures Calm(s.procs, t.procs) && t.procs.Keys == s.procs.Keys
  {
    hide ListAt, Home;
    assert t.procs == s.procs[pid := p.(node := s.nextNode)];
  }

  lemma DemoteCalm(s: State)
    requires Inv(s)
    ensures Calm(s.procs, Demote(s).procs) && Demote(s).procs.Keys == s.procs.Keys
  {
    hide Inv, SetPriority, Calm;
    if s.current in s.procs && s.initial > 0 {
      var p := s.procs[s.current];
      var t := if p.priority > 0 then SetPriority(s, s.current, p.priority - 1) else s;
      SameCalm(s.procs);
      if p.priority > 0 {
        SetPriorityCalm(s, s.current, p.priority - 1);
        SetPriorityFacts(s, s.current, p.priority - 1);
      }
      ResetCalm(t.procs, s.current);
      CalmAll(s.procs, t.procs, Demote(s).procs);
    } else {
      SameCalm(s.procs);
    }
  }

  lemma SameCalm(procs: map<nat, Proc>)
    ensures Calm(procs, procs)
  {
  }

  lemma ResetCalm(procs: map<nat, Proc>, pid: nat)
    requires pid in procs
    ensures var procs' := procs[pid := procs[pid].(consumed := 0)]; Calm(procs, procs') && procs'.Keys == procs.Keys
  {
  }

  /** Calm, but for a current process that ran when its quantum ran out: it counts one more. */
  ghost predicate CountedAt(s: State, q: nat, p: Proc, p': Proc) {
    && (p'.status == Zombie ==> p.status == Zombie && p'.retval == p.retval)
    && (p'.consumed > p.consumed ==>
          q == s.current && p.status == Running && Expired(s) && p'.consumed == p.consumed + 1)
  }

  ghost predicate Counted(s: State, t: State) {
    t.procs.Keys == s.procs.Keys && forall q :: q in s.procs ==> CountedAt(s, q, s.procs[q], t.procs[q])
  }

  /** A switch counts one more used-up quantum for the current process only, and only if it ran
      when its quantum ran out. */
  lemma SwitchCounts(s: State)
    requires Inv(s) && s.procs != map[]
    ensures Counted(s, Switch(s))
  {
    PreemptKeeps(s);
    PreemptFacts(s);
    var t := Preempt(s);
    PickKeeps(t);
    PickSame(t);
    DispatchFacts(Pick(t));
    hide Inv, Preempt, Pick, Dispatch, CountedAt;
    forall q | q in s.procs
      ensures CountedAt(s, q, s.procs[q], Switch(s).procs[q])
    {
      CountedLater(s, q, s.procs[q], t.procs[q], Switch(s).procs[q]);
    }
  }

  lemma CountedLater(s: State, q: nat, p: Proc, p': Proc, p'': Proc)
    requires CountedAt(s, q, p, p') && p''.consumed == p'.consumed && p''.retval == p'.retval
    requires p''.status == Zombie ==> p'.status == Zombie
    ensures CountedAt(s, q, p, p'')
  {
  }

  lemma PreemptFacts(s: State)
    requires Inv(s)
    ensures Counted(s, Preempt(s))
  {
    if s.current in s.procs && s.procs[s.current].status == Running {
      StopKeeps(s);
      StopCounts(s);
      hide Inv, SetPriority, Ages, Stopped, Counted, Reprioritised, Put;
      var p := s.procs[s.current];
      var t := Put(s, s.current, Stopped(s, p));
      var priority := if Ages(s, p) then p.priority + 1 else p.priority;
      SetPriorityFacts(t, s.current, priority);
      CountedStill(s, t, SetPriority(t, s.current, priority), s.current);
    }
  }

  lemma StopCounts(s: State)
    requires s.current in s.procs && s.procs[s.current].status == Running
    ensures Counted(s, Put(s, s.current, Stopped(s, s.procs[s.current])))
  {
    hide Ages;
  }

  lemma CountedStill(s: State, t: State, u: State, pid: nat)
    requires Counted(s, t) && Reprioritised(t, u, pid)
    ensures Counted(s, u)
  {
    forall q | q in s.procs
      ensures CountedAt(s, q, s.procs[q], u.procs[q])
    {
      CountedLater(s, q, s.procs[q], t.procs[q], u.procs[q]);
    }
  }

  lemma DispatchFacts(s: State)
    requires s.current in s.procs && s.procs[s.current].status == Ready
    ensures var t := Dispatch(s);
            && t.procs.Keys == s.procs.Keys
            && forall q :: q in s.procs ==> t.procs[q] == s.procs[q].(status := t.procs[q].status)
                                            && (t.procs[q].status == Zombie ==> s.procs[q].status == Zombie)
  {
  }

  // ---------------------------------------------------------------- whole operations

  /** The operation calls `schedule` while the current process is alive. */
  predicate Interrupts(s: State, op: Op) {
    op.OpTick? || op.OpYield? || (op.OpWaitBegin? && CanWait(s, op.pid) && s.procs[op.pid].status != Zombie)
  }

  /** The operation kills `pid` with result `retval`. */
  predicate Slays(s: State, op: Op, pid: nat, retval: int) {
    || (op.OpKill? && op.pid == pid && op.retval == retval && Killable(s, pid))
    || (Interrupts(s, op) && CtrlC(s) && pid == s.current && retval == -1)
  }

  /** The operation is the clock tick on which the running process `pid` uses up its quantum. */
  predicate Expires(s: State, op: Op, pid: nat) {
    op.OpTick? && pid == s.current && pid in s.procs && s.procs[pid].status == Running && s.remaining == 1
      && s.initial > 0
  }

  ghost predicate AccountedAt(s: State, op: Op, pid: nat, p': Proc) {
    if pid in s.procs then
      && var p := s.procs[pid];
      && (p'.status == Zombie ==> Slays(s, op, pid, p'.retval) || (p.status == Zombie && p'.retval == p.retval))
      && (p'.consumed > p.consumed ==> Expires(s, op, pid) && p'.consumed == p.consumed + 1)
    else op.OpCreate? && p'.status == Ready
  }

  ghost predicate Accounted(s: State, op: Op, procs: map<nat, Proc>) {
    forall pid :: pid in procs ==> AccountedAt(s, op, pid, procs[pid])
  }

  lemma CalmAccounted(s: State, op: Op, procs: map<nat, Proc>)
    requires Calm(s.procs, procs) && procs.Keys <= s.procs.Keys
    ensures Accounted(s, op, procs)
  {
    forall pid | pid in procs
      ensures AccountedAt(s, op, pid, procs[pid])
    {
      assert CalmAt(s.procs[pid], procs[pid]);
    }
  }

  lemma CalmLater(s: State, op: Op, mid: map<nat, Proc>, procs: map<nat, Proc>)
    requires Accounted(s, op, mid) && Calm(mid, procs) && procs.Keys <= mid.Keys <= s.procs.Keys
    ensures Accounted(s, op, procs)
  {
    forall pid | pid in procs
      ensures AccountedAt(s, op, pid, procs[pid])
    {
      assert AccountedAt(s, op, pid, mid[pid]) && CalmAt(mid[pid], procs[pid]);
    }
  }

  lemma ScheduleCounts(s: State)
    requires Inv(s)
    ensures Counted(Ticked(s), Schedule(s))
  {
    hide Inv, Switch, Counted, Ticked;
    TickedFacts(s);
    if s.count != 0 && s.remaining <= 1 {
      SwitchCounts(Ticked(s));
    }
  }

  lemma TickedFacts(s: State)
    requires Inv(s)
    ensures Inv(Ticked(s)) && Counted(Ticked(s), Ticked(s)) && (s.count == 0 <==> Ticked(s).procs == map[])
  {
    hide Inv, Counted;
    Peopled(s);
    Retimed(s, s.remaining - 1);
    CountedSelf(Ticked(s));
  }

  lemma CountedSelf(s: State)
    ensures Counted(s, s)
  {
  }

  lemma Peopled(s: State)
    requires Inv(s)
    ensures (s.count == 0 <==> s.procs == map[]) && s.remaining <= 64
  {
  }

  /** Giving up the processor never counts as a used-up quantum. */
  lemma GiveUpCalm(s: State)
    requires Inv(s)
    ensures Calm(s.procs, GiveUp(s).procs) && GiveUp(s).procs.Keys == s.procs.Keys
  {
    DemoteKeeps(s);
    DemoteCalm(s);
    var t := Demote(s).(remaining := 0);
    Retimed(Demote(s), 0);
    hide Inv, Demote, Schedule;
    ScheduleCounts(t);
    assert Calm(t.procs, Schedule(t).procs) by {
      forall q | q in t.procs
        ensures CalmAt(t.procs[q], Schedule(t).procs[q])
      {
        assert CountedAt(Ticked(t), q, t.procs[q], Schedule(t).procs[q]);
      }
    }
    CalmAll(s.procs, t.procs, Schedule(t).procs);
  }

  /** A death after some calm steps, and calm steps after it. */
  lemma DeathAccounted(s: State, op: Op, t: State, pid: nat, retval: int)
    requires Inv(t) && Killable(t, pid) && Slays(s, op, pid, retval)
    requires Calm(s.procs, t.procs) && t.procs.Keys == s.procs.Keys
    ensures Accounted(s, op, Terminate(t, pid, retval).procs)
    ensures Terminate(t, pid, retval).procs.Keys <= s.procs.Keys
  {
    hide Inv, Terminate, Slays, Calm, Accounted, SameClock, Buried;
    TerminateKeeps(t, pid, retval);
    BurialAccounted(s, op, t.procs, Terminate(t, pid, retval).procs, pid, retval);
  }

  lemma BurialAccounted(s: State, op: Op, mid: map<nat, Proc>, procs: map<nat, Proc>, pid: nat, retval: int)
    requires Buried(mid, procs, pid, retval) && Slays(s, op, pid, retval)
    requires Calm(s.procs, mid) && mid.Keys == s.procs.Keys
    ensures Accounted(s, op, procs) && procs.Keys <= mid.Keys
  {
    hide Slays, Expires;
    forall q | q in procs
      ensures AccountedAt(s, op, q, procs[q])
    {
      assert q == pid || (q == mid[pid].parent && Wakes(mid, pid)) || Alike(mid[q], procs[q]);
      assert CalmAt(s.procs[q], mid[q]);
    }
  }

  /** The timer interrupt at the end of an operation whose other steps are calm. */
  lemma TickAfter(s: State, op: Op, t: State)
    requires Inv(t) && t.remaining <= 0 && Interrupts(s, op)
    requires Calm(s.procs, t.procs) && t.procs.Keys == s.procs.Keys && (CtrlC(t) ==> CtrlC(s) && t.current == s.current)
    ensures Accounted(s, op, Tick(t).procs)
  {
    var u := t.(killFlag := false);
    SameLists(t, u, {IDLE_PID});
    assert Inv(u);
    assert CtrlC(t) ==> Killable(u, t.current);
    hide Inv, Schedule, GiveUp, Terminate, Calm, Accounted, Interrupts, Killable;
    if CtrlC(t) {
      DeathAccounted(s, op, u, t.current, -1);
      var v := Terminate(u, t.current, -1);
      TerminateKeeps(u, t.current, -1);
      hide Buried;
      GiveUpCalm(v);
      CalmLater(s, op, v.procs, GiveUp(v).procs);
    } else {
      UnexpiredCalm(u);
      CalmAll(s.procs, u.procs, Schedule(u).procs);
      CalmAccounted(s, op, Schedule(u).procs);
    }
  }

  lemma UnexpiredCalm(s: State)
    requires Inv(s) && s.remaining <= 0
    ensures Calm(s.procs, Schedule(s).procs) && Schedule(s).procs.Keys == s.procs.Keys
  {
    hide Inv, Schedule;
    ScheduleCounts(s);
    forall q | q in s.procs
      ensures CalmAt(s.procs[q], Schedule(s).procs[q])
    {
      assert CountedAt(Ticked(s), q, s.procs[q], Schedule(s).procs[q]);
    }
  }

  /** A yield at the end of an operation whose other steps are calm. */
  lemma YieldAccounted(s: State, op: Op, t: State)
    requires Inv(t) && Calm(s.procs, t.procs) && t.procs.Keys == s.procs.Keys && Interrupts(s, op)
    requires CtrlC(t) ==> CtrlC(s) && t.current == s.current
    ensures Accounted(s, op, Yield(t).procs)
  {
    DemoteKeeps(t);
    DemoteCalm(t);
    DemoteFlag(t);
    Retimed(Demote(t), 0);
    hide Inv, Demote, Tick, Calm, Accounted, CtrlC;
    CalmAll(s.procs, t.procs, Demote(t).procs);
    TickAfter(s, op, Demote(t).(remaining := 0));
  }

  lemma DemoteFlag(s: State)
    requires Inv(s)
    ensures CtrlC(Demote(s).(remaining := 0)) <==> CtrlC(s)
  {
    hide Inv, SetPriority, Reprioritised;
    if s.current in s.procs && s.initial > 0 {
      var p := s.procs[s.current];
      if p.priority > 0 {
        SetPriorityFacts(s, s.current, p.priority - 1);
        PriorityFlag(s, SetPriority(s, s.current, p.priority - 1));
      }
    }
  }

  lemma PriorityFlag(s: State, t: State)
    requires s.current in s.procs && Reprioritised(s, t, s.current)
    ensures t.current == s.current && t.killFlag == s.killFlag && s.current in t.procs
    ensures t.procs[s.current].stdin == s.procs[s.current].stdin && Killable(t, s.current) == Killable(s, s.current)
  {
  }

  lemma KillAccounted(s: State, op: Op)
    requires Inv(s) && op.OpKill?
    ensures Accounted(s, op, Kill(s, op.pid, op.retval).procs)
  {
    var pid, retval := op.pid, op.retval;
    SameCalm(s.procs);
    if Killable(s, pid) {
      DeathAccounted(s, op, s, pid, retval);
      var t := Terminate(s, pid, retval);
      TerminateKeeps(s, pid, retval);
      DeadFlag(s, t, pid, retval);
      hide Inv, Terminate, Yield, Buried, CtrlC, Calm, Accounted, Slays;
      if pid == s.current {
        YieldCalm(t);
        CalmLater(s, op, t.procs, Yield(t).procs);
      }
    } else {
      CalmAccounted(s, op, s.procs);
    }
  }

  lemma DeadFlag(s: State, t: State, pid: nat, retval: int)
    requires Buried(s.procs, t.procs, pid, retval) && t.current == s.current
    ensures pid == s.current ==> !CtrlC(t)
  {
  }

  lemma YieldCalm(s: State)
    requires Inv(s) && !CtrlC(s)
    ensures Calm(s.procs, Yield(s).procs) && Yield(s).procs.Keys == s.procs.Keys
  {
    DemoteKeeps(s);
    DemoteCalm(s);
    DemoteFlag(s);
    Retimed(Demote(s), 0);
    var t := Demote(s).(remaining := 0);
    hide Inv, Demote, Tick, CtrlC;
    TickCalm(t);
    CalmAll(s.procs, t.procs, Tick(t).procs);
  }

  lemma TickCalm(s: State)
    requires Inv(s) && s.remaining <= 0 && !CtrlC(s)
    ensures Calm(s.procs, Tick(s).procs) && Tick(s).procs.Keys == s.procs.Keys
  {
    var t := s.(killFlag := false);
    SameLists(s, t, {IDLE_PID});
    assert Inv(t);
    hide Inv, Schedule;
    UnexpiredCalm(t);
  }

  lemma TickAccounted(s: State)
    requires Inv(s)
    ensures Accounted(s, OpTick, Tick(s).procs)
  {
    SameCalm(s.procs);
    if CtrlC(s) {
      var u := s.(killFlag := false);
      SameLists(s, u, {IDLE_PID});
      assert Inv(u) && Killable(u, s.current);
      hide Inv, Schedule, GiveUp, Terminate, Calm, Accounted, Killable;
      DeathAccounted(s, OpTick, u, s.current, -1);
      var v := Terminate(u, s.current, -1);
      TerminateKeeps(u, s.current, -1);
      hide Buried;
      GiveUpCalm(v);
      CalmLater(s, OpTick, v.procs, GiveUp(v).procs);
    } else {
      QuietTick(s);
    }
  }

  lemma QuietTick(s: State)
    requires Inv(s) && !CtrlC(s)
    ensures Accounted(s, OpTick, Tick(s).procs)
  {
    var t := s.(killFlag := false);
    SameLists(s, t, {IDLE_PID});
    assert Inv(t);
    hide Inv, Schedule, Slays;
    ScheduleCounts(t);
    forall pid | pid in t.procs
      ensures AccountedAt(s, OpTick, pid, Schedule(t).procs[pid])
    {
      assert CountedAt(Ticked(t), pid, t.procs[pid], Schedule(t).procs[pid]);
    }
  }

  lemma CreateAccounted(s: State, op: Op)
    requires Inv(s) && op.OpCreate? && s.count + 1 < MAX_PROCESSES
    ensures Accounted(s, op, Create(s, op.priority, op.unkillable, op.stdin, op.oom).procs)
  {
    if !op.oom {
      var u := Born(s, op.priority, op.unkillable, op.stdin);
      hide Inv;
    }
  }

  lemma WaitBeginAccounted(s: State, op: Op)
    requires Inv(s) && Settled(s) && !InWait(s) && s.current != IDLE_PID && op.OpWaitBegin?
    ensures Accounted(s, op, WaitBegin(s, op.pid).procs)
  {
    var pid := op.pid;
    if CanWait(s, pid) {
      OkOf(s, pid);
      hide Inv, SetStatus, Yield, WaitFinish, Await;
      if s.procs[pid].status == Zombie {
        FinishKeeps(s, pid);
        TakenCalm(s.procs, WaitFinish(Await(s, pid)).procs, pid);
        CalmAccounted(s, op, WaitFinish(Await(s, pid)).procs);
      } else {
        AsleepKeeps(s, pid);
        AsleepCalm(s, pid);
        var t := SetStatus(Await(s, pid), s.current, Blocked);
        AsleepFlag(s, pid);
        YieldAccounted(s, op, t);
      }
    } else {
      CalmAccounted(s, op, s.procs);
    }
  }

  lemma TakenCalm(procs: map<nat, Proc>, procs': map<nat, Proc>, child: nat)
    requires AllAlike(procs - {child}, procs')
    ensures Calm(procs, procs') && procs'.Keys <= procs.Keys
  {
    assert forall q :: q in procs' ==> q in procs - {child} && Alike((procs - {child})[q], procs'[q]);
  }

  lemma AsleepCalm(s: State, child: nat)
    requires Inv(s) && CanWait(s, child) && s.current != IDLE_PID && s.procs[s.current].status != Zombie
    ensures Await(s, child).current == s.current
    ensures var t := SetStatus(Await(s, child), s.current, Blocked);
            Calm(s.procs, t.procs) && t.procs.Keys == s.procs.Keys
  {
    var t := Await(s, child);
    AwaitCalm(s, child);
    OkOf(s, s.current);
    hide Inv, ProcsOk, Listed, Table, Await, ListAt, Move, Moved, Slept, Calm;
    if t.procs[t.current].status != Blocked {
      SleepCalm(t, t.current);
      CalmAll(s.procs, t.procs, SetStatus(t, t.current, Blocked).procs);
    }
  }

  lemma AwaitCalm(s: State, child: nat)
    requires Inv(s) && s.current in s.procs
    ensures var t := Await(s, child);
            && Listed(t, {IDLE_PID}) && Table(t) && t.current == s.current && Calm(s.procs, t.procs)
            && t.procs.Keys == s.procs.Keys && t.procs[t.current].status == s.procs[s.current].status
            && t.procs[t.current].priority == s.procs[s.current].priority
  {
    AwaitKeeps(s, child);
    hide Listed, ProcsOk, Table;
    assert Await(s, child).procs.Keys == s.procs.Keys;
  }

  lemma SleepCalm(s: State, pid: nat)
    requires Listed(s, {IDLE_PID}) && Table(s) && pid in s.procs && pid != IDLE_PID
    requires s.procs[pid].status != Blocked && s.procs[pid].status != Zombie && s.procs[pid].priority < NUM_PRIORITIES
    ensures var t := SetStatus(s, pid, Blocked); Calm(s.procs, t.procs) && t.procs.Keys == s.procs.Keys
  {
    var p := s.procs[pid];
    SleptHome(p);
    hide Listed, ListAt, Move, Moved, Slept, Calm;
    assert Slept(p).status != Zombie && Slept(p).consumed <= p.consumed by { SleptCount(p); }
    MoveListed(s, pid, Slept(p), false);
    MovedCalm(s, Move(s, pid, Slept(p), false), pid, Slept(p), false);
  }

  lemma AsleepFlag(s: State, child: nat)
    requires Inv(s) && CanWait(s, child) && s.current != IDLE_PID && s.procs[s.current].status != Zombie
    ensures var t := SetStatus(Await(s, child), s.current, Blocked);
            t.current == s.current && (CtrlC(t) ==> CtrlC(s))
  {
    var t := Await(s, child);
    AwaitKeeps(s, child);
    OkOf(s, s.current);
    assert CtrlC(t) ==> CtrlC(s);
    var p := t.procs[t.current];
    hide Inv, ProcsOk, Listed, Table, Await;
    if p.status != Blocked {
      SleptHome(p);
      hide ListAt, Move;
      MoveListed(t, t.current, Slept(p), false);
    }
  }
}
