/** Who is picked, for how long it runs, and what stopping or yielding costs it. */
module SchedulerQuantum {
  import opened Dyadic
  import opened SchedulerSpec
  import opened SchedulerLists
  import opened SchedulerInvariant
  import opened SchedulerSteps
  import opened SchedulerCalm
  import opened SchedulerRules
  import opened SchedulerRuns
  import opened FairnessRuns

  // ---------------------------------------------------------------- who is picked

  /** The level `d` places after `level` in the rotation downwards. */
  function Round(level: nat, d: nat): nat
    requires level < 5 && d <= 5
  {
    (level + 5 - d) % 5
  }

  /** The search from `level` passed `d` empty queues and stopped at the next. */
  predicate StopsAfter(ready: seq<seq<Node>>, level: nat, d: nat)
    requires |ready| == 5 && level < 5
  {
    d < 5 && ready[Round(level, d)] != [] && forall e: nat :: e < d ==> ready[Round(level, e)] == []
  }

  /** The current process heads the first queue that is not empty, from `level` down and around, and
      the next search begins one level below it; with all queues empty it is the idle process. */
  ghost predicate PickedFrom(t: State, level: nat) {
    && |t.ready| == 5 && level < 5
    && if forall l :: 0 <= l < 5 ==> t.ready[l] == [] then t.current == IDLE_PID && t.level == level
       else exists d: nat :: StopsAfter(t.ready, level, d) && t.current == t.ready[Round(level, d)][0].pid
                             && t.level == Round(level, d + 1)
  }

  lemma {:induction false} SearchStops(ready: seq<seq<Node>>, level: nat, start: nat, d: nat) returns (e: nat)
    requires |ready| == 5 && start < 5 && d <= 5 && level == Round(start, d)
    requires forall k: nat :: k < d ==> ready[Round(start, k)] == []
    ensures e <= 5 && NextLevel(ready, level, 5 - d) == Round(start, e)
    ensures forall k: nat :: k < e ==> ready[Round(start, k)] == []
    ensures e < 5 ==> ready[Round(start, e)] != []
    decreases 5 - d
  {
    if d == 5 || ready[level] != [] {
      e := d;
    } else {
      e := SearchStops(ready, Below(level), start, d + 1);
    }
  }

  lemma AllRounds(ready: seq<seq<Node>>, level: nat)
    requires |ready| == 5 && level < 5 && forall k: nat :: k < 5 ==> ready[Round(level, k)] == []
    ensures forall l :: 0 <= l < 5 ==> ready[l] == []
  {
    forall l | 0 <= l < 5
      ensures ready[l] == []
    {
      var k := (level + 5 - l) % 5;
      assert Round(level, k) == l;
    }
  }

  lemma PickRounds(s: State)
    requires |s.ready| == 5 && s.level < 5
    ensures PickedFrom(Pick(s), s.level)
  {
    hide Round, NextLevel, Below;
    RoundBegins(s.level);
    var e := SearchStops(s.ready, s.level, s.level, 0);
    if e == 5 {
      AllRounds(s.ready, s.level);
    } else {
      assert StopsAfter(s.ready, s.level, e);
      RoundSteps(s.level, e);
    }
  }

  lemma RoundBegins(level: nat)
    requires level < 5
    ensures Round(level, 0) == Round(level, 5) == level
  {
  }

  lemma RoundSteps(level: nat, d: nat)
    requires level < 5 && d < 5
    ensures Round(level, d) < 5 && Below(Round(level, d)) == Round(level, d + 1)
  {
  }

  /** The process runs, on a full quantum of `4 * 2^priority` ticks, and no Ctrl+C is pending. */
  ghost predicate Started(t: State) {
    && t.current in t.procs && t.procs[t.current].status == Running && !t.killFlag
    && t.remaining == t.initial == 4 * Pow2(t.procs[t.current].priority)
  }

  lemma DispatchStarts(s: State)
    requires s.current in s.procs && s.procs[s.current].priority < NUM_PRIORITIES && !s.killFlag
    ensures Started(Dispatch(s))
    ensures forall place :: ListAt(Dispatch(s), place) == ListAt(s, place)
    ensures Dispatch(s).ready == s.ready && Dispatch(s).current == s.current && Dispatch(s).level == s.level
  {
    assert Pow2(0) == 1 && Pow2(1) == 2 && Pow2(2) == 4 && Pow2(3) == 8 && Pow2(4) == 16;
  }

  ghost predicate Fresh(t: State, level: nat) {
    PickedFrom(t, level) && Started(t)
  }

  /** What stopping leaves, the pick and the start on a quantum leave too, but for who runs. */
  lemma SwitchFresh(s: State)
    requires Inv(s) && s.procs != map[] && !s.killFlag
    ensures Fresh(Switch(s), s.level)
    ensures forall place :: ListAt(Switch(s), place) == ListAt(Preempt(s), place)
    ensures var procs, next := Preempt(s).procs, Switch(s).current;
            && next in procs && procs.Keys == s.procs.Keys && NoneRuns(procs) && procs[next].status == Ready
            && Switch(s).procs == procs[next := procs[next].(status := Running)]
  {
    PreemptKeeps(s);
    PreemptHalts(s);
    var t := Preempt(s);
    PickKeeps(t);
    PickSame(t);
    FiveQueues(t);
    PickRounds(t);
    var next := Pick(t).current;
    OkOf(Pick(t), next);
    assert t.procs[next].status == Ready;
    DispatchStarts(Pick(t));
    SwitchedRecords(Pick(t));
    hide Inv, NoneRuns, Preempt, Pick, Dispatch, PickedFrom, Started;
    PickedStill(Pick(t), Switch(s), s.level);
    PickLists(t);
  }

  lemma PickLists(s: State)
    ensures forall place :: ListAt(Pick(s), place) == ListAt(s, place)
  {
    hide NextLevel;
  }

  lemma PickedStill(s: State, t: State, level: nat)
    requires PickedFrom(s, level) && t.ready == s.ready && t.current == s.current && t.level == s.level
    ensures PickedFrom(t, level)
  {
    if !(forall l :: 0 <= l < 5 ==> t.ready[l] == []) {
      var d: nat :| StopsAfter(s.ready, level, d) && s.current == s.ready[Round(level, d)][0].pid
                    && s.level == Round(level, d + 1);
      assert StopsAfter(t.ready, level, d);
    }
  }

  lemma SwitchedRecords(s: State)
    requires s.current in s.procs
    ensures Dispatch(s).procs == s.procs[s.current := s.procs[s.current].(status := Running)]
  {
  }

  /** Whoever ran is ready, and no other record and no flag has changed. */
  ghost predicate Halts(s: State, t: State) {
    && t.killFlag == s.killFlag && t.procs.Keys == s.procs.Keys
    && (forall q :: q in s.procs && q != s.current ==> t.procs[q] == s.procs[q])
    && (s.current in s.procs && s.procs[s.current].status == Running ==> t.procs[s.current].status == Ready)
  }

  lemma PreemptHalts(s: State)
    requires Inv(s)
    ensures Halts(s, Preempt(s))
  {
    hide Inv, SetPriority, Ages, Stopped, Put;
    if s.current in s.procs && s.procs[s.current].status == Running {
      var p := s.procs[s.current];
      var t := Put(s, s.current, Stopped(s, p));
      StopKeeps(s);
      StoppedPut(s);
      var priority := if Ages(s, p) then p.priority + 1 else p.priority;
      SetPriorityFacts(t, s.current, priority);
      HaltsStill(s, t, SetPriority(t, s.current, priority));
    }
  }

  lemma StoppedPut(s: State)
    requires s.current in s.procs
    ensures var t := Put(s, s.current, Stopped(s, s.procs[s.current])); Halts(s, t) && t.current == s.current
  {
    hide Ages, Consumed;
  }

  lemma HaltsStill(s: State, t: State, u: State)
    requires Halts(s, t) && t.current == s.current && Reprioritised(t, u, s.current)
    ensures Halts(s, u)
  {
  }

  lemma DemoteClock(s: State)
    requires Inv(s)
    ensures Demote(s).level == s.level && Demote(s).killFlag == s.killFlag && Demote(s).count == s.count
  {
    hide Inv, SetPriority;
    if s.current in s.procs && s.initial > 0 && s.procs[s.current].priority > 0 {
      SetPriorityFacts(s, s.current, s.procs[s.current].priority - 1);
    }
  }

  lemma ScheduleFresh(s: State)
    requires Inv(s) && s.procs != map[] && !s.killFlag && s.remaining <= 1
    ensures Fresh(Schedule(s), s.level) && Schedule(s) == Switch(Ticked(s))
  {
    hide Inv, Switch, Fresh;
    Peopled(s);
    Retimed(s, s.remaining - 1);
    SwitchFresh(Ticked(s));
  }

  lemma GiveUpFresh(s: State)
    requires Inv(s) && s.procs != map[] && !s.killFlag
    ensures Fresh(GiveUp(s), s.level)
  {
    hide Inv, Demote, Schedule, Fresh;
    DemoteKeeps(s);
    DemoteClock(s);
    Retimed(Demote(s), 0);
    assert Demote(s).procs.Keys == s.procs.Keys;
    ScheduleFresh(Demote(s).(remaining := 0));
  }

  lemma TickFresh(s: State)
    requires Inv(s) && s.procs != map[] && (s.remaining <= 1 || CtrlC(s))
    ensures Fresh(Tick(s), s.level)
  {
    var t := s.(killFlag := false);
    SameLists(s, t, {IDLE_PID});
    assert Inv(t);
    hide Inv, Schedule, GiveUp, Terminate, Fresh;
    if CtrlC(s) {
      TerminateKeeps(t, s.current, -1);
      GiveUpFresh(Terminate(t, s.current, -1));
    } else {
      ScheduleFresh(t);
    }
  }

  lemma YieldFresh(s: State)
    requires Inv(s) && s.procs != map[]
    ensures Fresh(Yield(s), s.level)
  {
    hide Inv, Demote, Tick, Fresh;
    DemoteKeeps(s);
    DemoteClock(s);
    Retimed(Demote(s), 0);
    assert Demote(s).procs.Keys == s.procs.Keys;
    TickFresh(Demote(s).(remaining := 0));
  }

  /** However a switch comes about, it takes the head of the first queue that is not empty, from where
      the last search left off, and starts it on the quantum of its priority. */
  lemma SwitchPicks(s: State, op: Op)
    requires Inv(s) && Settled(s) && Enabled(s, op) && s.procs != map[] && Switches(s, op) == 1
    ensures Fresh(Step(s, op), s.level)
  {
    hide Inv, Settled, Fresh, Tick, Yield, Terminate, SetStatus, Await;
    match op
    case OpTick => TickFresh(s);
    case OpYield => YieldFresh(s);
    case OpKill(pid, retval) =>
      TerminateKeeps(s, pid, retval);
      YieldFresh(Terminate(s, pid, retval));
    case OpWaitBegin(pid) =>
      AliveNow(s);
      AsleepKeeps(s, pid);
      AsleepExists(s, pid);
      AsleepLevel(s, pid);
      YieldFresh(SetStatus(Await(s, pid), s.current, Blocked));
    case _ =>
  }

  lemma AsleepLevel(s: State, child: nat)
    requires s.current in s.procs
    ensures SetStatus(Await(s, child), s.current, Blocked).level == s.level
  {
    hide Slept, Home, Remove;
  }

  // ---------------------------------------------------------------- what stopping and yielding cost

  /** Nobody but the current process, which stops, and the one that is picked, which runs, has changed. */
  ghost predicate Handover(s: State, t: State) {
    && t.procs.Keys == s.procs.Keys
    && forall q :: q in s.procs ==>
         && t.procs[q].status == (if q == t.current then Running else if q == s.current then Ready
                                  else s.procs[q].status)
         && (q != s.current ==> t.procs[q] == s.procs[q].(status := t.procs[q].status))
  }

  /** The record of `pid` and its place: priority and count as given, the last of its queue. */
  ghost predicate Requeued(t: State, pid: nat, priority: nat, consumed: nat) {
    && pid in t.procs && t.procs[pid].priority == priority && t.procs[pid].consumed == consumed
    && AtEnd(ListAt(t, ReadyQ(priority)), pid)
  }

  lemma SwitchRequeues(s: State)
    requires Inv(s) && s.current in s.procs && s.current != IDLE_PID && s.procs[s.current].status == Running
    requires !s.killFlag
    ensures var p, t := s.procs[s.current], Switch(s);
            if Tenth(s, p) then Requeued(t, s.current, p.priority + 1, 0)
            else Requeued(t, s.current, p.priority, Count(s, p))
    ensures Handover(s, Switch(s))
  {
    hide Inv, Preempt, Switch, Fresh, Tenth, Count, ListAt, NoneRuns;
    assert s.procs != map[];
    SwitchFresh(s);
    Aging(s);
    PreemptHalts(s);
  }

  /** A process stopped by the timer stands last in the queue of its level. When its quantum ran out
      it counts one more, in 16 bits, and at ten or more it moves up a level, if there is one, and
      counts from zero; when its quantum was cut short, neither. */
  lemma StopRule(s: State)
    requires Inv(s) && !CtrlC(s) && s.remaining <= 1
    requires s.current in s.procs && s.current != IDLE_PID && s.procs[s.current].status == Running
    ensures var p, t := s.procs[s.current], Step(s, OpTick);
            var count := if s.remaining == 1 && s.initial > 0 then (p.consumed + 1) % 0x1_0000 else p.consumed;
            if s.remaining == 1 && s.initial > 0 && count >= 10 && p.priority < 4
            then Requeued(t, s.current, p.priority + 1, 0)
            else Requeued(t, s.current, p.priority, count)
    ensures Handover(s, Step(s, OpTick))
  {
    hide Inv, Switch, Requeued, CtrlC, Tick, Handover;
    TickSwitches(s);
    SwitchRequeues(s.(killFlag := false, remaining := s.remaining - 1));
    HandoverAside(s, s.(killFlag := false, remaining := s.remaining - 1), Step(s, OpTick));
  }

  lemma HandoverAside(s: State, u: State, t: State)
    requires Handover(u, t) && u.procs == s.procs && u.current == s.current
    ensures Handover(s, t)
  {
  }

  lemma TickSwitches(s: State)
    requires Inv(s) && !CtrlC(s) && s.remaining <= 1 && s.procs != map[]
    ensures var t := s.(killFlag := false, remaining := s.remaining - 1);
            Inv(t) && Step(s, OpTick) == Switch(t)
  {
    hide Switch, CtrlC;
    Peopled(s);
    Unflagged(s);
    Retimed(s.(killFlag := false), s.remaining - 1);
  }

  /** A process that yields goes down one level, the lowest staying the lowest, stands last in the
      queue there, and its count starts again. */
  lemma YieldRule(s: State)
    requires Inv(s) && !CtrlC(s) && s.initial > 0
    requires s.current in s.procs && s.current != IDLE_PID && s.procs[s.current].status == Running
    ensures var p, t := s.procs[s.current], Step(s, OpYield);
            Requeued(t, s.current, if p.priority > 0 then p.priority - 1 else 0, 0)
    ensures Handover(s, Step(s, OpYield))
  {
    DemoteKeeps(s);
    DemoteFlag(s);
    DemoteRule(s);
    Retimed(Demote(s), 0);
    var t := Demote(s).(remaining := 0);
    hide Inv, Demote, CtrlC, Requeued, Tick, Handover;
    StopRule(t);
    YieldHandover(s, t, Step(s, OpYield));
  }

  lemma YieldHandover(s: State, u: State, t: State)
    requires Handover(u, t) && u.procs.Keys == s.procs.Keys && u.current == s.current
    requires forall q :: q in s.procs && q != s.current ==> u.procs[q] == s.procs[q]
    ensures Handover(s, t)
  {
  }

  lemma DemoteRule(s: State)
    requires Inv(s) && s.initial > 0 && s.current in s.procs && s.current != IDLE_PID
    requires s.procs[s.current].status == Running || s.procs[s.current].status == Ready
    ensures var p, t := s.procs[s.current], Demote(s);
            && s.current in t.procs && t.procs[s.current].status == p.status
            && t.procs[s.current].priority == (if p.priority > 0 then p.priority - 1 else 0)
            && t.procs[s.current].consumed == 0
            && forall q :: q in s.procs && q != s.current ==> q in t.procs && t.procs[q] == s.procs[q]
  {
    hide Inv, SetPriority;
    PriorityBelow(s, s.current);
    var p := s.procs[s.current];
    if p.priority > 0 {
      Lowered(s, s.current, p.priority - 1);
    }
  }

  lemma PriorityBelow(s: State, pid: nat)
    requires Inv(s) && pid in s.procs
    ensures s.procs[pid].priority < NUM_PRIORITIES
  {
    OkOf(s, pid);
  }

  lemma Lowered(s: State, pid: nat, priority: nat)
    requires Inv(s) && pid in s.procs && pid != IDLE_PID && priority < NUM_PRIORITIES
    requires s.procs[pid].status == Running || s.procs[pid].status == Ready
    ensures var p, t := s.procs[pid].(priority := priority), SetPriority(s, pid, priority);
            t.current == s.current && t.procs == s.procs[pid := p.(node := s.nextNode)]
  {
    hide Inv, Moved, AtEnd, ListAt, SetPriority;
    PriorityRule(s, pid, priority);
    MovedRecord(s, SetPriority(s, pid, priority), pid, s.procs[pid].(priority := priority));
  }

  lemma MovedRecord(s: State, t: State, pid: nat, p: Proc)
    requires pid in s.procs && Moved(s, t, pid, p, false)
    ensures t.current == s.current && t.procs == s.procs[pid := p.(node := s.nextNode)]
  {
    hide ListAt;
  }

  // ---------------------------------------------------------------- a whole quantum

  /** `n` clock ticks in a row. */
  function Clock(n: nat): seq<Op> {
    seq(n, _ => OpTick)
  }

  lemma {:induction false} Ticking(s: State, n: nat)
    requires s.count != 0 && !s.killFlag && n < s.remaining
    ensures After(s, Clock(n)) == s.(remaining := s.remaining - n) && TotalSwitches(s, Clock(n)) == 0
    decreases n
  {
    if n > 0 {
      assert Clock(n)[1..] == Clock(n - 1);
      assert Step(s, OpTick) == s.(remaining := s.remaining - 1);
      Ticking(Step(s, OpTick), n - 1);
    }
  }

  lemma {:induction false} LastTick(s: State, n: nat)
    requires s.count != 0 && !s.killFlag && n == s.remaining > 0
    ensures After(s, Clock(n)) == Step(s.(remaining := 1), OpTick) && TotalSwitches(s, Clock(n)) == 1
    decreases n
  {
    assert Clock(n)[1..] == Clock(n - 1);
    hide Schedule, Terminate, GiveUp;
    if n > 1 {
      assert Step(s, OpTick) == s.(remaining := s.remaining - 1) by { OneTick(s); }
      LastTick(Step(s, OpTick), n - 1);
    } else {
      assert s == s.(remaining := 1);
    }
  }

  lemma OneTick(s: State)
    requires s.count != 0 && !s.killFlag && s.remaining > 1
    ensures Step(s, OpTick) == s.(remaining := s.remaining - 1)
  {
  }

  /** A process of priority `l` that a switch dispatched runs, under the clock alone, for the next
      `4 * 2^l - 1` ticks, in which nothing else changes. The tick after those switches, and the process
      stands last in the queue of its level, or of the one above if it aged. */
  lemma FullQuantum(s: State, op: Op)
    requires Inv(s) && Settled(s) && Enabled(s, op) && s.procs != map[] && Switches(s, op) == 1
    ensures var t := Step(s, op);
            && t.current in t.procs && t.procs[t.current].status == Running
            && var p := t.procs[t.current];
            && var quantum := 4 * Pow2(p.priority);
            && t.remaining == t.initial == quantum
            && (forall n: nat :: n < quantum ==>
                  After(t, Clock(n)) == t.(remaining := quantum - n) && TotalSwitches(t, Clock(n)) == 0)
            && TotalSwitches(t, Clock(quantum)) == 1
            && var count, u := (p.consumed + 1) % 0x1_0000, After(t, Clock(quantum));
            t.current != IDLE_PID ==>
              if count >= 10 && p.priority < 4 then Requeued(u, t.current, p.priority + 1, 0)
              else Requeued(u, t.current, p.priority, count)
  {
    hide Inv, Settled, Enabled, Step, Switches, PickedFrom, Requeued, After, TotalSwitches, Clock;
    SwitchPicks(s, op);
    StepKeeps(s, op);
    var t := Step(s, op);
    var quantum := 4 * Pow2(t.procs[t.current].priority);
    Peopled(t);
    assert t.procs != map[];
    forall n: nat | n < quantum
      ensures After(t, Clock(n)) == t.(remaining := quantum - n) && TotalSwitches(t, Clock(n)) == 0
    {
      Ticking(t, n);
    }
    LastTick(t, quantum);
    if t.current != IDLE_PID {
      Retimed(t, 1);
      StopRule(t.(remaining := 1));
    }
  }
}
