/** Bounded waiting over runs: whatever else happens, a process that is left alone comes up in time. */
module FairnessRuns {
  import opened SchedulerSpec
  import opened SchedulerLists
  import opened SchedulerInvariant
  import opened SchedulerSteps
  import opened SchedulerCalm
  import opened SchedulerRuns
  import opened Fairness

  /** The places lost to wakeups: only those at the top level, where a wakeup goes in front of all. */
  function Setback(level: nat, wakeups: nat): nat {
    if level == NUM_PRIORITIES - 1 then wakeups else 0
  }

  /** No pick has happened and `pid` is no worse off but for the wakeups. */
  ghost predicate Still(s: State, t: State, pid: nat, level: nat, wakeups: nat) {
    && Waiting(t, pid, level) && Position(t, pid, level) <= Position(s, pid, level) + Setback(level, wakeups)
    && t.level == s.level && (t.remaining <= s.remaining || t.remaining <= 1)
  }

  /** `pid` still waits, and the bounds have shrunk by the calls made, but for the wakeups. */
  ghost predicate Closer(s: State, t: State, pid: nat, level: nat, switches: nat, calls: nat, wakeups: nat) {
    && Waiting(s, pid, level) && Waiting(t, pid, level)
    && Picks(t, pid, level) + switches <= Picks(s, pid, level) + 5 * Setback(level, wakeups)
    && Ticks(t, pid, level) + calls <= Ticks(s, pid, level) + 124 * Setback(level, wakeups)
  }

  lemma StillCloser(s: State, t: State, pid: nat, level: nat, wakeups: nat)
    requires Waiting(s, pid, level) && Still(s, t, pid, level, wakeups)
    ensures Closer(s, t, pid, level, 0, 0, wakeups)
  {
    hide Position;
  }

  lemma Chain(s: State, t: State, u: State, pid: nat, level: nat, a: nat, b: nat, switches: nat, calls: nat)
    requires Closer(s, t, pid, level, 0, 0, a) && Closer(t, u, pid, level, switches, calls, b)
    ensures Closer(s, u, pid, level, switches, calls, a + b)
  {
    hide Picks, Ticks;
  }

  lemma SetPriorityStill(s: State, mover: nat, priority: nat, pid: nat, level: nat)
    requires Inv(s) && Waiting(s, pid, level) && mover != pid
    ensures Still(s, SetPriority(s, mover, priority), pid, level, 0)
  {
    SetPriorityWaits(s, mover, priority, pid, level, Runner(s), Runner(s));
    SetPriorityFacts(s, mover, priority);
    hide Inv, SetPriority, Before, ListAt;
  }

  lemma DemoteWaits(s: State, pid: nat, level: nat)
    requires Inv(s) && Waiting(s, pid, level)
    ensures Still(s, Demote(s).(remaining := 0), pid, level, 0)
  {
    hide Inv, SetPriority, Reprioritised, Position, Waiting, Put;
    NotYetPicked(s, pid, level);
    if s.current in s.procs && s.initial > 0 {
      var p := s.procs[s.current];
      var t := if p.priority > 0 then SetPriority(s, s.current, p.priority - 1) else s;
      if p.priority > 0 {
        SetPriorityStill(s, s.current, p.priority - 1, pid, level);
        SetPriorityFacts(s, s.current, p.priority - 1);
        SameKeys(s, t, s.current);
      }
      ResetStill(t, pid, level);
    } else {
      Stays(s, s.(remaining := 0), pid, level);
    }
  }

  lemma ResetStill(s: State, pid: nat, level: nat)
    requires Waiting(s, pid, level) && s.current in s.procs
    ensures var t := Put(s, s.current, s.procs[s.current].(consumed := 0)).(remaining := 0);
            Waiting(t, pid, level) && Position(t, pid, level) == Position(s, pid, level) && t.level == s.level
  {
  }

  lemma GiveUpWaits(s: State, pid: nat, level: nat)
    requires Inv(s) && Waiting(s, pid, level)
    ensures var t := GiveUp(s); t.current == pid || Closer(s, t, pid, level, 1, 1, 0)
  {
    DemoteKeeps(s);
    DemoteWaits(s, pid, level);
    Retimed(Demote(s), 0);
    var t := Demote(s).(remaining := 0);
    assert t.remaining == 0 && Waiting(t, pid, level);
    hide Inv, Waiting, Demote, Schedule, Picks, Ticks, Still;
    StillCloser(s, t, pid, level, 0);
    ScheduleWaits(t, pid, level);
  }

  lemma MovedStill(s: State, t: State, mover: nat, p: Proc, front: bool, pid: nat, level: nat)
    requires Listed(s, {IDLE_PID}) && Waiting(s, pid, level) && mover in s.procs && mover != IDLE_PID && mover != pid
    requires Moved(s, t, mover, p, front) && (front ==> Home(p) != ReadyQ(level)) && p.status != Running
    requires p.status == Ready ==> s.procs[mover].status != Running
    ensures Still(s, t, pid, level, 0)
  {
    InQueue(s, pid, level);
    assert t.procs[pid] == s.procs[pid] && t.procs[mover].status == p.status;
    hide Listed, ListAt, Home, Before;
    MovedBefore(s, t, mover, p, front, pid, level, Runner(s), Runner(t));
  }

  lemma WokenStill(s: State, t: State, sleeper: nat, pid: nat, level: nat)
    requires Listed(s, {IDLE_PID}) && Waiting(s, pid, level) && sleeper in s.procs && sleeper != IDLE_PID
             && sleeper != pid
    requires s.procs[sleeper].status == Blocked && Moved(s, t, sleeper, Woken(s.procs[sleeper]), true)
    ensures Still(s, t, pid, level, 1)
  {
    WokenRunner(s, t, sleeper);
    if level == NUM_PRIORITIES - 1 {
      WokenBefore(s, t, sleeper, pid, Runner(s));
      hide Listed, ListAt, Home, Before;
      assert t.procs[pid] == s.procs[pid];
    } else {
      MovedStill(s, t, sleeper, Woken(s.procs[sleeper]), true, pid, level);
    }
  }

  lemma WokenRunner(s: State, t: State, sleeper: nat)
    requires sleeper in s.procs && s.procs[sleeper].status == Blocked && sleeper != IDLE_PID
    requires Moved(s, t, sleeper, Woken(s.procs[sleeper]), true)
    ensures Runner(t) == Runner(s) != sleeper
  {
    hide ListAt, Home;
  }

  /** `set_status` wakes the process. */
  predicate Rouses(s: State, pid: nat, status: Status) {
    CanChange(s, pid) && s.procs[pid].status == Blocked && status == Ready
  }

  lemma SetStatusWaits(s: State, mover: nat, status: Status, pid: nat, level: nat)
    requires Inv(s) && Waiting(s, pid, level) && mover != pid && (mover in s.procs ==> s.procs[mover].waiting == 0)
    requires !(status == Ready && mover in s.procs && s.procs[mover].status == Running)
    ensures Still(s, SetStatus(s, mover, status), pid, level, if Rouses(s, mover, status) then 1 else 0)
  {
    if CanChange(s, mover) {
      var p := s.procs[mover];
      assert Listed(s, {IDLE_PID});
      hide Inv, Moved, Move, Position, ListAt, Waiting;
      if status == Running || status == Zombie || p.status == Zombie || status == p.status {
      } else if status == Blocked {
        SleepKeeps(s, mover);
        MovedStill(s, Move(s, mover, Slept(p), false), mover, Slept(p), false, pid, level);
      } else if p.status == Blocked {
        WakeKeeps(s, mover);
        var t := Move(s, mover, Woken(p), true);
        WokenStill(s, t, mover, pid, level);
        Stays(t, t.(remaining := 0), pid, level);
      }
    }
  }

  // ---------------------------------------------------------------- deaths, births and waits

  /** The queue of `level` after a death: the dying process has left it, and nobody has joined it but
      a parent that was waiting, at the head of the top queue. */
  ghost predicate Bereft(s: State, victim: nat, queue': seq<Node>, level: nat)
    requires victim in s.procs
  {
    var here := ReadyQ(level);
    var queue := ListAt(s, here);
    var rest := if Home(s.procs[victim]) == here then Remove(queue, Node(s.procs[victim].node, victim)) else queue;
    if level == NUM_PRIORITIES - 1 && Wakes(s.procs, victim)
    then queue' != [] && queue'[0].pid == s.procs[victim].parent && queue'[1..] == rest
    else queue' == rest
  }

  lemma TerminateQueue(s: State, victim: nat, retval: int, level: nat)
    requires Inv(s) && Killable(s, victim)
    ensures Bereft(s, victim, ListAt(Terminate(s, victim, retval), ReadyQ(level)), level)
  {
    hide Inv, Die, Bequeath, ListAt, Unlink, Dead;
    DieFacts(s, victim, retval);
    DieReady(s, victim, retval);
    DieParent(s, Die(s, victim, retval), victim, retval);
    BequeathQueue(Die(s, victim, retval), victim, level);
    UnlinkedQueue(s, victim, level);
  }

  lemma DieParent(s: State, d: State, victim: nat, retval: int)
    requires Inv(s) && Killable(s, victim) && Dead(s, d, victim, retval)
    ensures victim in d.procs && d.procs[victim].status == Zombie && d.procs[victim].parent == s.procs[victim].parent
    ensures d.procs[victim].parent != victim && |d.ready| == NUM_PRIORITIES
    ensures Wakes(s.procs, victim) <==>
              HasParent(d, d.procs[victim].parent) && d.procs[victim].parent != IDLE_PID && Wakes(d.procs, victim)
  {
    ParentKept(s, d, victim, retval);
    FiveQueues(s);
    hide Inv;
  }

  lemma DieReady(s: State, victim: nat, retval: int)
    requires Inv(s) && Killable(s, victim)
    ensures forall l :: ListAt(Die(s, victim, retval), ReadyQ(l)) == ListAt(Unlink(s, victim), ReadyQ(l))
  {
    var v := GoneFromLists(s, victim);
    ReapReady(Unlink(s, victim), victim);
    hide Inv, Unlink, Reap;
  }

  lemma {:induction false} ReapReady(s: State, pid: nat)
    ensures Reap(s, pid).ready == s.ready && Reap(s, pid).level == s.level
    decreases |Zombies(s, pid)|
  {
    var zombies := Zombies(s, pid);
    if zombies != [] {
      ReapReady(Drop(SetList(s, ZombiesOf(pid), zombies[1..]), zombies[0].pid), pid);
    }
  }

  lemma UnlinkedQueue(s: State, pid: nat, level: nat)
    requires Inv(s) && pid in s.procs
    ensures var queue, n, here := ListAt(s, ReadyQ(level)), Node(s.procs[pid].node, pid), ReadyQ(level);
            ListAt(Unlink(s, pid), here) == if Home(s.procs[pid]) == here then Remove(queue, n) else queue
  {
    OkOf(s, pid);
  }

  lemma BequeathQueue(s: State, pid: nat, level: nat)
    requires pid in s.procs && s.procs[pid].status == Zombie && s.procs[pid].parent != pid
             && |s.ready| == NUM_PRIORITIES
    ensures var parent, queue := s.procs[pid].parent, ListAt(Bequeath(s, pid), ReadyQ(level));
            if level == NUM_PRIORITIES - 1 && HasParent(s, parent) && parent != IDLE_PID && Wakes(s.procs, pid)
            then queue != [] && queue[0].pid == parent && queue[1..] == ListAt(s, ReadyQ(level))
            else queue == ListAt(s, ReadyQ(level))
    ensures Bequeath(s, pid).level == s.level
  {
    var parent := s.procs[pid].parent;
    if HasParent(s, parent) {
      var t := Link(s, pid, false);
      assert t.ready == s.ready && parent in t.procs && t.level == s.level && |t.ready| == NUM_PRIORITIES;
      assert t.procs[parent].waiting == s.procs[parent].waiting && t.procs[parent].status == s.procs[parent].status;
      hide Link;
      if CanChange(t, parent) && t.procs[parent].status == Blocked {
        WokenQueue(t, parent, level);
      }
    }
  }

  lemma WokenQueue(s: State, pid: nat, level: nat)
    requires CanChange(s, pid) && s.procs[pid].status == Blocked && |s.ready| == NUM_PRIORITIES
    ensures var queue := ListAt(SetStatus(s, pid, Ready), ReadyQ(level));
            if level == NUM_PRIORITIES - 1 then queue == [Node(s.nextNode, pid)] + ListAt(s, ReadyQ(level))
            else queue == ListAt(s, ReadyQ(level))
    ensures SetStatus(s, pid, Ready).level == s.level
  {
  }

  /** Who runs after a death: whoever ran, unless it is the one that died. */
  lemma TerminateRunner(s: State, t: State, victim: nat, retval: int, pid: nat)
    requires Inv(s) && Killable(s, victim) && Buried(s.procs, t.procs, victim, retval) && t.current == s.current
    requires victim != pid && pid in s.procs && s.procs[pid].status == Ready && pid != IDLE_PID
    ensures Runner(t) == if Runner(s) == victim then IDLE_PID else Runner(s)
    ensures pid in t.procs && Alike(s.procs[pid], t.procs[pid])
  {
    OkOf(s, victim);
    hide Inv;
    var procs, parent := s.procs, s.procs[victim].parent;
    assert !Child(procs, victim, pid) && !(pid == parent && Wakes(procs, victim));
    if s.current in procs && s.current != victim {
      assert procs[s.current].status == Running ==> !Child(procs, victim, s.current);
    }
  }

  /** A death of `victim` that wakes its parent. */
  ghost function DeathWakes(s: State, victim: nat): nat {
    if Killable(s, victim) && Wakes(s.procs, victim) then 1 else 0
  }

  lemma TerminateStill(s: State, victim: nat, retval: int, pid: nat, level: nat)
    requires Inv(s) && Waiting(s, pid, level) && victim != pid
    ensures Still(s, Terminate(s, victim, retval), pid, level, DeathWakes(s, victim))
  {
    hide Inv, Bequeath, Die, Buried, ListAt, Before, Bereft, Wakes;
    if Killable(s, victim) {
      var t := Terminate(s, victim, retval);
      TerminateKeeps(s, victim, retval);
      TerminateQueue(s, victim, retval, level);
      TerminateRunner(s, t, victim, retval, pid);
      FiveQueues(t);
      VictimLeaves(s, ListAt(t, ReadyQ(level)), victim, pid, level, Runner(t));
    }
  }

  lemma VictimLeaves(s: State, queue': seq<Node>, victim: nat, pid: nat, level: nat, skip': nat)
    requires Inv(s) && Waiting(s, pid, level) && victim != pid && Killable(s, victim)
             && Bereft(s, victim, queue', level)
    requires skip' == if Runner(s) == victim then IDLE_PID else Runner(s)
    ensures Before(queue', pid, skip') <= Position(s, pid, level) + Setback(level, DeathWakes(s, victim))
  {
    TidyQueue(s, level);
    hide Inv, ListAt, Waiting;
    var queue, n := ListAt(s, ReadyQ(level)), Node(s.procs[victim].node, victim);
    if Home(s.procs[victim]) == ReadyQ(level) {
      RemoveBefore(queue, n, pid, Runner(s), skip');
    } else if skip' != Runner(s) {
      assert !Has(queue, victim);
      SkipIrrelevant(queue, pid, Runner(s), skip');
    }
  }

  /** The wakeup that a call of `schedule` brings about, by Ctrl+C. */
  ghost function TickWakes(s: State): nat {
    if CtrlC(s) then DeathWakes(s, s.current) else 0
  }

  lemma SameTickWakes(s: State, t: State)
    requires Inv(s) && t.current == s.current && (CtrlC(t) ==> CtrlC(s)) && t.procs.Keys == s.procs.Keys
    requires forall q :: q in s.procs && q != s.current ==> t.procs[q] == s.procs[q]
    requires s.current in s.procs ==> t.procs[s.current].parent == s.procs[s.current].parent
    ensures TickWakes(t) <= TickWakes(s)
  {
    if s.current in s.procs {
      OkOf(s, s.current);
    }
    hide Inv;
  }

  lemma TickWaits(s: State, pid: nat, level: nat)
    requires Inv(s) && Waiting(s, pid, level)
    ensures var t, n := Tick(s), if !CtrlC(s) && s.remaining > 1 then 0 else 1;
            t.current == pid || Closer(s, t, pid, level, n, 1, TickWakes(s))
  {
    hide Inv, Waiting, Schedule, GiveUp, Terminate, Picks, Ticks, Position, Still, Wakes;
    var u := s.(killFlag := false);
    Unflagged(s);
    NotYetPicked(s, pid, level);
    Stays(s, u, pid, level);
    StayBounds(s, u, pid, level);
    if CtrlC(s) {
      TerminateStill(u, s.current, -1, pid, level);
      TerminateKeeps(u, s.current, -1);
      hide Buried, SameClock;
      var v := Terminate(u, s.current, -1);
      StillCloser(u, v, pid, level, DeathWakes(u, s.current));
      GiveUpWaits(v, pid, level);
      if GiveUp(v).current != pid {
        Chain(u, v, GiveUp(v), pid, level, DeathWakes(u, s.current), 0, 1, 1);
      }
    } else {
      ScheduleWaits(u, pid, level);
    }
  }

  lemma Unflagged(s: State)
    requires Inv(s)
    ensures Inv(s.(killFlag := false))
  {
    SameLists(s, s.(killFlag := false), {IDLE_PID});
    hide Listed, ProcsOk;
  }

  lemma StayBounds(s: State, t: State, pid: nat, level: nat)
    requires Waiting(s, pid, level) && Waiting(t, pid, level) && Position(t, pid, level) == Position(s, pid, level)
    requires t.level == s.level && t.remaining == s.remaining
    ensures Picks(t, pid, level) == Picks(s, pid, level) && Ticks(t, pid, level) == Ticks(s, pid, level)
  {
    hide Position;
  }

  lemma YieldWaits(s: State, pid: nat, level: nat)
    requires Inv(s) && Waiting(s, pid, level)
    ensures var t := Yield(s); t.current == pid || Closer(s, t, pid, level, 1, 1, TickWakes(s))
  {
    DemoteKeeps(s);
    DemoteWaits(s, pid, level);
    DemoteTickWakes(s);
    Retimed(Demote(s), 0);
    var t := Demote(s).(remaining := 0);
    assert t.remaining == 0 && Waiting(t, pid, level);
    hide Inv, Waiting, Demote, Tick, Picks, Ticks, Still, Closer, TickWakes;
    StillCloser(s, t, pid, level, 0);
    TickWaits(t, pid, level);
    if Tick(t).current != pid {
      Chain(s, t, Tick(t), pid, level, 0, TickWakes(t), 1, 1);
      FewerWakes(s, Tick(t), pid, level, 1, 1, TickWakes(t), TickWakes(s));
    }
  }

  lemma FewerWakes(s: State, t: State, pid: nat, level: nat, switches: nat, calls: nat, a: nat, b: nat)
    requires Closer(s, t, pid, level, switches, calls, a) && a <= b
    ensures Closer(s, t, pid, level, switches, calls, b)
  {
    hide Picks, Ticks;
  }

  lemma DemoteTickWakes(s: State)
    requires Inv(s)
    ensures TickWakes(Demote(s).(remaining := 0)) <= TickWakes(s)
  {
    hide Inv, SetPriority, TickWakes;
    DemoteFlag(s);
    if s.current in s.procs && s.initial > 0 && s.procs[s.current].priority > 0 {
      SetPriorityFacts(s, s.current, s.procs[s.current].priority - 1);
    }
    SameTickWakes(s, Demote(s).(remaining := 0));
  }

  lemma KillWaits(s: State, victim: nat, retval: int, pid: nat, level: nat)
    requires Inv(s) && Waiting(s, pid, level) && victim != pid
    ensures var t, n := Kill(s, victim, retval), if Killable(s, victim) && victim == s.current then 1 else 0;
            t.current == pid || Closer(s, t, pid, level, n, n, DeathWakes(s, victim))
  {
    TerminateKeeps(s, victim, retval);
    TerminateStill(s, victim, retval, pid, level);
    var t := Terminate(s, victim, retval);
    assert Waiting(t, pid, level);
    StillCloser(s, t, pid, level, DeathWakes(s, victim));
    hide Inv, Terminate, Yield, Picks, Ticks, Still, Waiting, SameClock, Closer, DeathWakes;
    if Killable(s, victim) && victim == s.current {
      DeadFlag(s, t, victim, retval);
      hide Buried;
      YieldWaits(t, pid, level);
      if Yield(t).current != pid {
        Chain(s, t, Yield(t), pid, level, DeathWakes(s, victim), 0, 1, 1);
      }
    }
  }

  lemma CreateStill(s: State, priority: nat, unkillable: bool, stdin: bool, oom: bool, pid: nat, level: nat)
    requires Inv(s) && Waiting(s, pid, level) && s.count + 1 < MAX_PROCESSES
    ensures Still(s, Create(s, priority, unkillable, stdin, oom), pid, level, 0)
  {
    hide Inv, ListAt, Create, Before, Waiting;
    if oom {
      NotCreated(s, priority, unkillable, stdin);
    } else {
      CreateWaits(s, priority, unkillable, stdin, pid, level);
      InQueue(s, pid, level) by { ListedOf(s); }
      BornQueue(s, priority, unkillable, stdin, level);
      AppendBefore(ListAt(s, ReadyQ(level)), Node(s.nextNode, s.nextUnused), pid, Runner(s));
    }
  }

  lemma ListedOf(s: State)
    requires Inv(s)
    ensures Listed(s, {IDLE_PID})
  {
  }

  lemma NotCreated(s: State, priority: nat, unkillable: bool, stdin: bool)
    ensures Create(s, priority, unkillable, stdin, true) == s
  {
  }

  lemma CreateWaits(s: State, priority: nat, unkillable: bool, stdin: bool, pid: nat, level: nat)
    requires Inv(s) && Waiting(s, pid, level) && s.count + 1 < MAX_PROCESSES
    ensures var t := Create(s, priority, unkillable, stdin, false);
            Waiting(t, pid, level) && Runner(t) == Runner(s) && t.level == s.level && t.remaining == s.remaining
  {
    hide Listed, ListAt, FreeSlot;
    var u := Born(s, priority, unkillable, stdin);
    assert s.current != s.nextUnused ==> (s.current in u.procs <==> s.current in s.procs);
    hide Inv;
  }

  lemma BornQueue(s: State, priority: nat, unkillable: bool, stdin: bool, level: nat)
    requires Inv(s) && s.count < MAX_PROCESSES
    ensures var queue, t := ListAt(s, ReadyQ(level)), Create(s, priority, unkillable, stdin, false);
            ListAt(t, ReadyQ(level)) == queue || ListAt(t, ReadyQ(level)) == queue + [Node(s.nextNode, s.nextUnused)]
  {
    hide Inv, FreeSlot, Link;
    var p := NewProc(s.current, priority, unkillable, stdin);
    NewLinked(Put(s, s.nextUnused, p), s.nextUnused, level);
  }

  lemma NewLinked(s: State, pid: nat, level: nat)
    requires pid in s.procs && s.procs[pid].status == Ready
    ensures var queue, t := ListAt(s, ReadyQ(level)), Link(s, pid, false);
            ListAt(t, ReadyQ(level)) == queue || ListAt(t, ReadyQ(level)) == queue + [Node(s.nextNode, pid)]
  {
  }

  lemma WaitBeginWaits(s: State, child: nat, pid: nat, level: nat)
    requires Inv(s) && Settled(s) && !InWait(s) && s.current != IDLE_PID && Waiting(s, pid, level)
    requires CanWait(s, child)
    ensures var t := WaitBegin(s, child);
            t.current == pid
            || (if s.procs[child].status == Zombie then Still(s, t, pid, level, 0)
                else Closer(s, t, pid, level, 1, 1, TickWakes(s)))
  {
    assert child != s.current && (s.procs[child].status == Zombie ==> child != IDLE_PID) by {
      OkOf(s, child);
    }
    hide Inv, Waiting, Still, Picks, Ticks, SetStatus, Await, WaitFinish, Yield, Closer, TickWakes;
    if s.procs[child].status == Zombie {
      FinishStill(s, child, pid, level);
    } else {
      AsleepKeeps(s, child);
      AsleepStill(s, child, pid, level);
      AsleepTickWakes(s, child);
      var t := SetStatus(Await(s, child), s.current, Blocked);
      StillWaits(s, t, pid, level, 0);
      YieldWaits(t, pid, level);
      StillCloser(s, t, pid, level, 0);
      if Yield(t).current != pid {
        Chain(s, t, Yield(t), pid, level, 0, TickWakes(t), 1, 1);
        FewerWakes(s, Yield(t), pid, level, 1, 1, TickWakes(t), TickWakes(s));
      }
    }
  }

  lemma AsleepTickWakes(s: State, child: nat)
    requires Inv(s) && CanWait(s, child) && s.current != IDLE_PID && s.procs[s.current].status != Zombie
    ensures TickWakes(SetStatus(Await(s, child), s.current, Blocked)) <= TickWakes(s)
  {
    hide Inv, TickWakes, SetStatus;
    AsleepFlag(s, child);
    AsleepRecord(s, child);
    SameTickWakes(s, SetStatus(Await(s, child), s.current, Blocked));
  }

  lemma AsleepRecord(s: State, child: nat)
    requires Inv(s) && CanWait(s, child) && s.current != IDLE_PID && s.procs[s.current].status != Zombie
    ensures var t := SetStatus(Await(s, child), s.current, Blocked);
            && t.procs.Keys == s.procs.Keys && t.procs[s.current].parent == s.procs[s.current].parent
            && forall q :: q in s.procs && q != s.current ==> t.procs[q] == s.procs[q]
  {
    hide Inv, ProcsOk, Listed, SetStatus;
    AwaitKeeps(s, child);
    OkOf(s, s.current);
    var t := Await(s, child);
    assert t.procs[t.current].priority < NUM_PRIORITIES;
    SleptRecord(t, t.current);
  }

  lemma SleptRecord(s: State, pid: nat)
    requires Listed(s, {IDLE_PID}) && Table(s) && CanChange(s, pid)
    requires s.procs[pid].status != Zombie && s.procs[pid].priority < NUM_PRIORITIES
    ensures var t := SetStatus(s, pid, Blocked);
            && t.procs.Keys == s.procs.Keys && t.procs[pid].parent == s.procs[pid].parent
            && forall q :: q in s.procs && q != pid ==> t.procs[q] == s.procs[q]
  {
    var p := s.procs[pid];
    if p.status != Blocked {
      SleptHome(p);
      hide Listed, ListAt, Move;
      MoveListed(s, pid, Slept(p), false);
      assert Slept(p).parent == p.parent;
      hide Slept;
      assert SetStatus(s, pid, Blocked).procs == s.procs[pid := Slept(p).(node := s.nextNode)];
    }
  }

  lemma StillWaits(s: State, t: State, pid: nat, level: nat, wakeups: nat)
    requires Still(s, t, pid, level, wakeups)
    ensures Waiting(t, pid, level)
  {
  }

  lemma AwaitStill(s: State, child: nat, pid: nat, level: nat)
    requires Waiting(s, pid, level) && s.current in s.procs
    ensures var t := Await(s, child);
            && Waiting(t, pid, level) && Position(t, pid, level) == Position(s, pid, level)
            && t.current == s.current && t.level == s.level && t.remaining == s.remaining
            && t.current in t.procs && t.procs[t.current].status == s.procs[s.current].status
            && t.procs[t.current].priority == s.procs[s.current].priority
  {
  }

  lemma AsleepStill(s: State, child: nat, pid: nat, level: nat)
    requires Inv(s) && CanWait(s, child) && s.current != IDLE_PID && s.procs[s.current].status != Zombie
    requires Waiting(s, pid, level)
    ensures Still(s, SetStatus(Await(s, child), s.current, Blocked), pid, level, 0)
  {
    AwaitKeeps(s, child);
    AwaitStill(s, child, pid, level);
    OkOf(s, s.current);
    var t := Await(s, child);
    assert s.current != pid && CanChange(t, s.current) && |t.ready| == NUM_PRIORITIES;
    hide Inv, Listed, Table, Await, Waiting, Position;
    if t.procs[t.current].status != Blocked {
      var p := t.procs[t.current];
      SleptHome(p);
      SleptCount(p);
      hide Slept, Move, Moved, ListAt;
      MoveListed(t, t.current, Slept(p), false);
      MovedStill(t, Move(t, t.current, Slept(p), false), t.current, Slept(p), false, pid, level);
    }
  }

  lemma FinishStill(s: State, child: nat, pid: nat, level: nat)
    requires Inv(s) && s.current in s.procs && s.procs[s.current].waiting == 0 && s.procs[s.current].status != Zombie
    requires child in s.procs && child != IDLE_PID && Waiting(s, pid, level)
    requires s.procs[child].status == Zombie && s.procs[child].parent == s.current
    ensures Still(s, WaitFinish(Await(s, child)), pid, level, 0)
  {
    assert child != pid;
    FinishKeeps(s, child);
    FinishSame(s, child);
    hide Inv, Settled, WaitFinish, Await, Still, Waiting, AllAlike;
    AlikeStill(s, WaitFinish(Await(s, child)), child, pid, level);
  }

  lemma FinishSame(s: State, child: nat)
    requires Inv(s) && s.current in s.procs && s.procs[s.current].waiting == 0
    requires child in s.procs && child != IDLE_PID
    requires s.procs[child].status == Zombie && s.procs[child].parent == s.current
    ensures var t := WaitFinish(Await(s, child));
            t.ready == s.ready && t.level == s.level && t.remaining == s.remaining && child != s.current
  {
    OkOf(s, child);
    AwaitCommutes(s, child);
    hide Inv, WaitFinish, Await;
  }

  lemma AlikeStill(s: State, t: State, child: nat, pid: nat, level: nat)
    requires Waiting(s, pid, level) && AllAlike(s.procs - {child}, t.procs) && child != pid && child != s.current
    requires t.ready == s.ready && t.level == s.level && t.remaining == s.remaining && t.current == s.current
    ensures Still(s, t, pid, level, 0)
  {
    assert Alike((s.procs - {child})[pid], t.procs[pid]);
    assert s.current in s.procs ==> Alike((s.procs - {child})[s.current], t.procs[s.current]);
    assert Runner(t) == Runner(s);
  }

  lemma WaitFinishStill(s: State, pid: nat, level: nat)
    requires Inv(s) && Settled(s) && InWait(s) && Waiting(s, pid, level)
    ensures Still(s, WaitFinish(s), pid, level, 0)
  {
    var child := s.procs[s.current].waiting;
    OkOf(s, s.current);
    OkOf(s, child);
    WaitFinishKeeps(s);
    WaitFinishSame(s);
    ClearedStill(s, pid, level);
    assert child != pid && child != s.current;
    hide Inv, Settled, WaitFinish, Waiting, AllAlike, Position;
    AlikeStill(Put(s, s.current, s.procs[s.current].(waiting := 0)), WaitFinish(s), child, pid, level);
  }

  lemma WaitFinishSame(s: State)
    ensures var t := WaitFinish(s);
            t.ready == s.ready && t.level == s.level && t.remaining == s.remaining && t.current == s.current
  {
  }

  lemma ClearedStill(s: State, pid: nat, level: nat)
    requires Waiting(s, pid, level) && s.current in s.procs
    ensures var t := Put(s, s.current, s.procs[s.current].(waiting := 0));
            Waiting(t, pid, level) && Position(t, pid, level) == Position(s, pid, level)
  {
  }

  // ---------------------------------------------------------------- runs

  /** The operation is not aimed at `pid`, and does not make a running process ready in its place. */
  predicate LeavesAlone(s: State, op: Op, pid: nat) {
    match op
    case OpSetPriority(target, _) => target != pid
    case OpSetStatus(target, status) =>
      target != pid && !(status == Ready && target in s.procs && s.procs[target].status == Running)
    case OpKill(target, _) => target != pid
    case _ => true
  }

  /** How often the operation calls `schedule` itself: once at most. */
  function OuterCalls(s: State, op: Op): nat {
    match op
    case OpTick => 1
    case OpYield => 1
    case OpKill(target, _) => if Killable(s, target) && target == s.current then 1 else 0
    case OpWaitBegin(child) => if CanWait(s, child) && s.procs[child].status != Zombie then 1 else 0
    case _ => 0
  }

  /** A Ctrl+C in that call kills the current process, whose `yield` calls `schedule` once more. */
  function NestedCalls(s: State, op: Op): nat {
    if Interrupts(s, op) && CtrlC(s) then 1 else 0
  }

  function Calls(s: State, op: Op): nat {
    OuterCalls(s, op) + NestedCalls(s, op)
  }

  /** How often it calls `get_next_pid`: once on every outer call but a tick within a quantum. */
  function Switches(s: State, op: Op): nat {
    if op.OpTick? && !CtrlC(s) && s.remaining > 1 then 0 else OuterCalls(s, op)
  }

  /** How many processes it wakes. */
  ghost function Wakeups(s: State, op: Op): nat {
    if op.OpSetStatus? then (if Rouses(s, op.pid, op.status) then 1 else 0)
    else if op.OpKill? then DeathWakes(s, op.pid)
    else if Interrupts(s, op) then TickWakes(s)
    else 0
  }

  /** Every operation dispatches a waiting process or pays for its calls out of the bounds. */
  lemma StepWaits(s: State, op: Op, pid: nat, level: nat)
    requires Inv(s) && Settled(s) && Enabled(s, op) && Waiting(s, pid, level) && LeavesAlone(s, op, pid)
    ensures var t := Step(s, op);
            t.current == pid || Closer(s, t, pid, level, Switches(s, op), OuterCalls(s, op), Wakeups(s, op))
    ensures NestedCalls(s, op) <= Switches(s, op)
  {
    hide Inv, Waiting, Still, Picks, Ticks, TickWakes, DeathWakes, Rouses, CtrlC;
    match op
    case OpTick => TickWaits(s, pid, level);
    case OpYield => YieldWaits(s, pid, level);
    case OpCreate(priority, unkillable, stdin, oom) =>
      CreateStill(s, priority, unkillable, stdin, oom, pid, level);
      StillCloser(s, Create(s, priority, unkillable, stdin, oom), pid, level, 0);
    case OpSetPriority(target, priority) =>
      SetPriorityStill(s, target, priority, pid, level);
      StillCloser(s, SetPriority(s, target, priority), pid, level, 0);
    case OpSetStatus(target, status) =>
      SetStatusWaits(s, target, status, pid, level);
      StillCloser(s, SetStatus(s, target, status), pid, level, if Rouses(s, target, status) then 1 else 0);
    case OpKill(target, retval) => KillWaits(s, target, retval, pid, level);
    case OpCtrlC =>
      Stays(s, s.(killFlag := true), pid, level);
      StayBounds(s, s.(killFlag := true), pid, level);
    case OpWaitBegin(child) =>
      if CanWait(s, child) {
        WaitBeginWaits(s, child, pid, level);
        if s.procs[child].status == Zombie && Still(s, WaitBegin(s, child), pid, level, 0) {
          StillCloser(s, WaitBegin(s, child), pid, level, 0);
        }
      }
    case OpWaitFinish =>
      WaitFinishStill(s, pid, level);
      StillCloser(s, WaitFinish(s), pid, level, 0);
  }

  /** Along the run nothing is aimed at `pid`, and it is not dispatched. */
  ghost predicate Passed(s: State, ops: seq<Op>, pid: nat)
    decreases |ops|
  {
    ops == []
    || (LeavesAlone(s, ops[0], pid) && Step(s, ops[0]).current != pid && Passed(Step(s, ops[0]), ops[1..], pid))
  }

  /** All calls of `schedule` in the run, outer and nested. */
  function TotalCalls(s: State, ops: seq<Op>): nat
    decreases |ops|
  {
    if ops == [] then 0 else Calls(s, ops[0]) + TotalCalls(Step(s, ops[0]), ops[1..])
  }

  /** The calls of `schedule` that the operations of the run make themselves. */
  function TotalOuterCalls(s: State, ops: seq<Op>): nat
    decreases |ops|
  {
    if ops == [] then 0 else OuterCalls(s, ops[0]) + TotalOuterCalls(Step(s, ops[0]), ops[1..])
  }

  function TotalSwitches(s: State, ops: seq<Op>): nat
    decreases |ops|
  {
    if ops == [] then 0 else Switches(s, ops[0]) + TotalSwitches(Step(s, ops[0]), ops[1..])
  }

  ghost function TotalWakeups(s: State, ops: seq<Op>): nat
    decreases |ops|
  {
    if ops == [] then 0 else Wakeups(s, ops[0]) + TotalWakeups(Step(s, ops[0]), ops[1..])
  }

  /** The bounds pay for all calls: an outer one out of the ticks, a nested one out of the picks. */
  lemma {:induction false} RunWaits(s: State, ops: seq<Op>, pid: nat, level: nat)
    requires Inv(s) && Settled(s) && Runs(s, ops) && Waiting(s, pid, level) && Passed(s, ops, pid)
    ensures var setback := Setback(level, TotalWakeups(s, ops));
            && TotalSwitches(s, ops) < Picks(s, pid, level) + 5 * setback
            && TotalOuterCalls(s, ops) < Ticks(s, pid, level) + 124 * setback
            && TotalCalls(s, ops) + 1 < Ticks(s, pid, level) + Picks(s, pid, level) + 129 * setback
    decreases |ops|
  {
    if ops == [] {
      hide Inv, Position, QuantaTo;
    } else {
      hide Inv, Settled, Waiting, Step, Enabled, LeavesAlone, Picks, Ticks, OuterCalls, NestedCalls, Switches, Wakeups;
      var t := Step(s, ops[0]);
      StepWaits(s, ops[0], pid, level);
      StepKeeps(s, ops[0]);
      RunWaits(t, ops[1..], pid, level);
    }
  }

  lemma {:induction false} BeforeAtMost(queue: seq<Node>, k: nat, pid: nat, skip: nat)
    requires k < |queue| && queue[k].pid == pid
    ensures Before(queue, pid, skip) <= k
  {
    if k > 0 {
      BeforeAtMost(queue[1..], k - 1, pid, skip);
    }
  }

  lemma QueuedWaits(s: State, pid: nat, level: nat, k: nat)
    requires Inv(s) && level < NUM_PRIORITIES && k < |s.ready[level]| && s.ready[level][k].pid == pid
             && pid != s.current
    ensures Waiting(s, pid, level) && Position(s, pid, level) <= k
  {
    assert s.ready[level][k] in ListAt(s, ReadyQ(level));
    assert OnHome(s, {IDLE_PID}, s.ready[level][k], ReadyQ(level));
    RunningIsCurrent(s);
    hide Inv;
    BeforeAtMost(s.ready[level], k, pid, Runner(s));
  }

  /** In every run: a process that can run and stands at place `k` of its queue is dispatched by the
      `5 (k + 1)`-th call of `get_next_pid`, by the `64 + 124 (k + 1)`-th call of `schedule` that an
      operation makes itself and, counting those nested in a Ctrl+C, by the `64 + 129 (k + 1)`-th,
      whatever else is done meanwhile. In the top queue every wakeup counts as one more place. */
  lemma BoundedWaiting(before: seq<Op>, ops: seq<Op>, pid: nat, level: nat, k: nat)
    requires Runs(Init(), before) && Runs(After(Init(), before), ops)
    requires var s := After(Init(), before);
             && level < NUM_PRIORITIES && level < |s.ready| && k < |s.ready[level]| && s.ready[level][k].pid == pid
             && pid != s.current && Passed(s, ops, pid)
    ensures var s := After(Init(), before);
            var places := k + 1 + if level == NUM_PRIORITIES - 1 then TotalWakeups(s, ops) else 0;
            && TotalSwitches(s, ops) < 5 * places
            && TotalOuterCalls(s, ops) < 64 + 124 * places && TotalCalls(s, ops) < 64 + 129 * places
  {
    hide Inv, Settled, Runs, After, Passed, Waiting, Picks, Ticks, TotalCalls, TotalOuterCalls, TotalSwitches,
      TotalWakeups, Position, Step;
    InitHolds();
    RunKeeps(Init(), before);
    var s := After(Init(), before);
    QueuedWaits(s, pid, level, k);
    Bounds(s, pid, level);
    RunWaits(s, ops, pid, level);
  }

  /** Every call of `get_next_pid` leaves exactly one process running: the current one, and the idle
      process exactly when all five queues are empty. */
  lemma SwitchDispatches(s: State, op: Op)
    requires Inv(s) && Settled(s) && Enabled(s, op) && s.procs != map[] && Switches(s, op) == 1
    ensures OneRuns(Step(s, op))
  {
    hide Inv, Settled, OneRuns, Tick, Yield, Kill, SetStatus, Await;
    match op
    case OpTick => TickKeeps(s);
    case OpYield => YieldKeeps(s);
    case OpKill(pid, retval) => KillKeeps(s, pid, retval);
    case OpWaitBegin(pid) =>
      AliveNow(s);
      AsleepKeeps(s, pid);
      AsleepExists(s, pid);
      YieldKeeps(SetStatus(Await(s, pid), s.current, Blocked));
    case _ =>
  }

  lemma AliveNow(s: State)
    requires Inv(s) && Settled(s) && s.procs != map[] && !InWait(s)
    ensures s.current in s.procs && s.procs[s.current].status != Zombie && s.procs[s.current].waiting == 0
  {
  }

  /** The wakeups in the bound are due: at the top level each puts all who wait one place back. */
  lemma WakeupJumpsQueue(s: State, sleeper: nat, pid: nat)
    requires Inv(s) && sleeper in s.procs && sleeper != IDLE_PID && sleeper != pid && sleeper < MAX_PROCESSES
    requires s.procs[sleeper].status == Blocked && s.procs[sleeper].waiting == 0
    ensures Position(SetStatus(s, sleeper, Ready), pid, NUM_PRIORITIES - 1) == Position(s, pid, NUM_PRIORITIES - 1) + 1
  {
    hide Inv, Move, Moved, ListAt, Woken, Runner, Before;
    WakeKeeps(s, sleeper);
    var t := Move(s, sleeper, Woken(s.procs[sleeper]), true);
    WokenRunner(s, t, sleeper);
    WokenBefore(s, t, sleeper, pid, Runner(s));
    SameQueues(t);
  }

  lemma SameQueues(s: State)
    ensures forall place :: ListAt(s.(remaining := 0), place) == ListAt(s, place)
    ensures Runner(s.(remaining := 0)) == Runner(s)
  {
  }
}
