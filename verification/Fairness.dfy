/** Bounded waiting: a process that can run is dispatched within a number of switches, and of clock
    ticks, set by its place in its queue. */
module Fairness {
  import opened SchedulerSpec
  import opened SchedulerLists
  import opened SchedulerInvariant
  import opened SchedulerSteps

  // ---------------------------------------------------------------- places in a queue

  /** How many nodes stand before `pid`'s, not counting one that carries `skip`. */
  function Before(queue: seq<Node>, pid: nat, skip: nat): nat {
    if queue == [] || queue[0].pid == pid then 0
    else (if queue[0].pid == skip then 0 else 1) + Before(queue[1..], pid, skip)
  }

  ghost predicate Has(queue: seq<Node>, pid: nat) {
    exists n :: n in queue && n.pid == pid
  }

  /** No process twice, and not the idle one. */
  ghost predicate Tidy(queue: seq<Node>) {
    && (forall i, j :: 0 <= i < j < |queue| ==> queue[i].pid != queue[j].pid)
    && !Has(queue, IDLE_PID)
  }

  lemma TidyTail(queue: seq<Node>)
    requires Tidy(queue) && queue != []
    ensures Tidy(queue[1..]) && !Has(queue[1..], queue[0].pid)
    ensures forall pid :: Has(queue, pid) <==> Has(queue[1..], pid) || queue[0].pid == pid
  {
    assert forall n :: n in queue <==> n in queue[1..] || n == queue[0];
    assert queue[0] in queue;
  }

  lemma {:induction false} SkipIrrelevant(queue: seq<Node>, pid: nat, skip: nat, skip': nat)
    requires !Has(queue, skip) && !Has(queue, skip')
    ensures Before(queue, pid, skip) == Before(queue, pid, skip')
  {
    if queue != [] {
      assert queue[0] in queue;
      assert forall n :: n in queue[1..] ==> n in queue;
      SkipIrrelevant(queue[1..], pid, skip, skip');
    }
  }

  /** Nobody's place gets worse when a node leaves, even if it was the one not counted. */
  lemma {:induction false} RemoveBefore(queue: seq<Node>, n: Node, pid: nat, skip: nat, skip': nat)
    requires Tidy(queue) && n.pid != pid && (forall m :: m in queue && m.pid == n.pid ==> m == n)
    requires skip' == skip || (skip == n.pid && skip' == IDLE_PID)
    ensures Before(Remove(queue, n), pid, skip') <= Before(queue, pid, skip)
    ensures Has(queue, pid) ==> Has(Remove(queue, n), pid)
  {
    if queue != [] {
      assert queue[0] in queue;
      assert forall m :: m in queue[1..] ==> m in queue;
      TidyTail(queue);
      if queue[0] == n {
        if skip' != skip {
          SkipIrrelevant(queue[1..], pid, skip, skip');
        }
      } else {
        RemoveBefore(queue[1..], n, pid, skip, skip');
        var rest := Remove(queue[1..], n);
        assert Remove(queue, n) == [queue[0]] + rest;
        assert ([queue[0]] + rest)[1..] == rest;
        assert forall m :: m in rest ==> m in [queue[0]] + rest;
        assert queue[0] in [queue[0]] + rest;
      }
    }
  }

  lemma {:induction false} AppendBefore(queue: seq<Node>, n: Node, pid: nat, skip: nat)
    requires Has(queue, pid)
    ensures Before(queue + [n], pid, skip) == Before(queue, pid, skip) && Has(queue + [n], pid)
  {
    assert forall m :: m in queue ==> m in queue + [n];
    if queue[0].pid != pid {
      assert forall m :: m in queue <==> m in queue[1..] || m == queue[0];
      assert (queue + [n])[1..] == queue[1..] + [n];
      AppendBefore(queue[1..], n, pid, skip);
    }
  }

  /** Once the head is the one not counted, everybody behind it is one place further on. */
  lemma HeadBefore(queue: seq<Node>, pid: nat)
    requires Tidy(queue) && queue != [] && queue[0].pid != pid
    ensures Before(queue, pid, IDLE_PID) == Before(queue, pid, queue[0].pid) + 1
  {
    TidyTail(queue);
    assert queue[0] in queue;
    SkipIrrelevant(queue[1..], pid, queue[0].pid, IDLE_PID);
  }

  lemma TidyQueue(s: State, level: nat)
    requires Listed(s, {IDLE_PID})
    ensures Tidy(ListAt(s, ReadyQ(level)))
    ensures forall n :: n in ListAt(s, ReadyQ(level)) ==> OnHome(s, {IDLE_PID}, n, ReadyQ(level))
  {
    var queue := ListAt(s, ReadyQ(level));
    assert Distinct(queue);
    assert forall n :: n in queue ==> OnHome(s, {IDLE_PID}, n, ReadyQ(level));
    forall i, j | 0 <= i < j < |queue|
      ensures queue[i].pid != queue[j].pid
    {
      assert queue[i] in queue && queue[j] in queue;
    }
  }

  // ---------------------------------------------------------------- the rotation

  /** How many levels lie from `level` down and around to `goal`. */
  function Distance(level: nat, goal: nat): nat
    requires level < NUM_PRIORITIES && goal < NUM_PRIORITIES
  {
    if level >= goal then level - goal else level + NUM_PRIORITIES - goal
  }

  /** The quanta of those levels together. */
  function QuantaTo(level: nat, goal: nat): nat
    requires level < NUM_PRIORITIES && goal < NUM_PRIORITIES
    decreases Distance(level, goal)
  {
    if level == goal then 0 else Quantum(level) + QuantaTo(Below(level), goal)
  }

  lemma QuantaAround(goal: nat)
    requires goal < NUM_PRIORITIES
    ensures QuantaTo(Below(goal), goal) + Quantum(goal) == 124
    ensures forall level :: 0 <= level < NUM_PRIORITIES ==> QuantaTo(level, goal) + Quantum(goal) <= 124
  {
    forall level | 0 <= level < NUM_PRIORITIES
      ensures QuantaTo(level, goal) + Quantum(goal) <= 124
    {
      Unfolded(level, goal);
    }
    Unfolded(Below(goal), goal);
  }

  lemma Unfolded(level: nat, goal: nat)
    requires level < NUM_PRIORITIES && goal < NUM_PRIORITIES
    ensures QuantaTo(level, goal) + Quantum(goal) <= 124
    ensures level == Below(goal) ==> QuantaTo(level, goal) + Quantum(goal) == 124
  {
    var a := Below(level);
    var b := Below(a);
    var c := Below(b);
    assert QuantaTo(c, goal) == if c == goal then 0 else Quantum(c) + QuantaTo(Below(c), goal);
    assert QuantaTo(b, goal) == if b == goal then 0 else Quantum(b) + QuantaTo(c, goal);
    assert QuantaTo(a, goal) == if a == goal then 0 else Quantum(a) + QuantaTo(b, goal);
  }

  /** The search for a level with a process never runs past `goal` if that has one. */
  lemma {:induction false} NextLevelToward(ready: seq<seq<Node>>, level: nat, tries: nat, goal: nat)
    requires |ready| == NUM_PRIORITIES && level < NUM_PRIORITIES && goal < NUM_PRIORITIES
    requires ready[goal] != [] && Distance(level, goal) < tries
    ensures var l := NextLevel(ready, level, tries);
            && l < NUM_PRIORITIES && ready[l] != []
            && Distance(l, goal) <= Distance(level, goal) && QuantaTo(l, goal) <= QuantaTo(level, goal)
    decreases tries
  {
    if ready[level] == [] {
      NextLevelToward(ready, Below(level), tries - 1, goal);
    }
  }

  // ---------------------------------------------------------------- bounds that shrink

  /** The process that is not to be counted: it runs, and goes to a queue's end when it stops. */
  function Runner(s: State): nat {
    if s.current in s.procs && s.procs[s.current].status == Running then s.current else IDLE_PID
  }

  /** `pid` can run, waits in the queue of `level`, and has not been picked. */
  ghost predicate Waiting(s: State, pid: nat, level: nat) {
    && level < NUM_PRIORITIES && s.level < NUM_PRIORITIES && level < |s.ready|
    && pid in s.procs && pid != IDLE_PID && pid != s.current
    && s.procs[pid].status == Ready && s.procs[pid].priority == level
  }

  function Position(s: State, pid: nat, level: nat): nat {
    Before(ListAt(s, ReadyQ(level)), pid, Runner(s))
  }

  /** A bound on the calls of `get_next_pid` until `pid` is picked. */
  function Picks(s: State, pid: nat, level: nat): nat
    requires level < NUM_PRIORITIES && s.level < NUM_PRIORITIES
  {
    5 * Position(s, pid, level) + Distance(s.level, level) + 1
  }

  /** A bound on the calls of `schedule` until `pid` is picked. */
  function Ticks(s: State, pid: nat, level: nat): nat
    requires level < NUM_PRIORITIES && s.level < NUM_PRIORITIES
  {
    (if s.remaining > 1 then s.remaining else 1) + 124 * Position(s, pid, level) + QuantaTo(s.level, level)
  }

  lemma Bounds(s: State, pid: nat, level: nat)
    requires Inv(s) && level < NUM_PRIORITIES
    ensures Picks(s, pid, level) <= 5 * (Position(s, pid, level) + 1)
    ensures Ticks(s, pid, level) <= 64 + 124 * (Position(s, pid, level) + 1)
  {
    QuantaAround(level);
    hide Listed, ProcsOk, Position;
  }

  lemma InQueue(s: State, pid: nat, level: nat)
    requires Listed(s, {IDLE_PID}) && Waiting(s, pid, level)
    ensures Has(ListAt(s, ReadyQ(level)), pid) && ListAt(s, ReadyQ(level)) == s.ready[level] != []
  {
    assert AtHome(s, pid);
  }

  lemma MovedBefore(s: State, t: State, mover: nat, p: Proc, front: bool, pid: nat, level: nat, skip: nat, skip': nat)
    requires Listed(s, {IDLE_PID}) && mover in s.procs && mover != IDLE_PID && Moved(s, t, mover, p, front)
             && mover != pid
    requires Has(ListAt(s, ReadyQ(level)), pid) && (front ==> Home(p) != ReadyQ(level))
    requires skip' == skip || (skip == mover && skip' == IDLE_PID)
    ensures Before(ListAt(t, ReadyQ(level)), pid, skip') <= Before(ListAt(s, ReadyQ(level)), pid, skip)
    ensures Has(ListAt(t, ReadyQ(level)), pid)
  {
    var here, n := ReadyQ(level), Node(s.procs[mover].node, mover);
    var queue := ListAt(s, here);
    TidyQueue(s, level);
    hide Listed, ListAt, Home;
    var old_, new_ := Home(s.procs[mover]), Home(p);
    if old_ == here {
      RemoveBefore(queue, n, pid, skip, skip');
      if new_ == here {
        AppendBefore(Remove(queue, n), Node(s.nextNode, mover), pid, skip');
      }
    } else {
      assert !Has(queue, mover);
      if skip' != skip {
        SkipIrrelevant(queue, pid, skip, skip');
      }
      if new_ == here {
        AppendBefore(queue, Node(s.nextNode, mover), pid, skip');
      }
    }
  }

  /** A sleeper that goes to the head of the top queue puts everybody there one place back. */
  lemma WokenBefore(s: State, t: State, sleeper: nat, pid: nat, skip: nat)
    requires sleeper in s.procs && s.procs[sleeper].status == Blocked && sleeper != pid && sleeper != skip
    requires Moved(s, t, sleeper, Woken(s.procs[sleeper]), true)
    ensures Before(ListAt(t, ReadyQ(NUM_PRIORITIES - 1)), pid, skip)
            == 1 + Before(ListAt(s, ReadyQ(NUM_PRIORITIES - 1)), pid, skip)
  {
    var top := ReadyQ(NUM_PRIORITIES - 1);
    assert ListAt(t, top) == [Node(s.nextNode, sleeper)] + ListAt(s, top);
    hide ListAt;
    assert ListAt(t, top)[1..] == ListAt(s, top);
  }

  /** A change of somebody else's priority. */
  lemma SetPriorityWaits(s: State, mover: nat, priority: nat, pid: nat, level: nat, skip: nat, skip': nat)
    requires Inv(s) && Waiting(s, pid, level) && mover != pid
    requires skip' == skip
             || (skip == mover && skip' == IDLE_PID && mover in s.procs && priority < NUM_PRIORITIES
                 && (s.procs[mover].status == Ready || s.procs[mover].status == Running))
    ensures var t := SetPriority(s, mover, priority);
            && Waiting(t, pid, level) && SameCore(s, t)
            && Before(ListAt(t, ReadyQ(level)), pid, skip') <= Before(ListAt(s, ReadyQ(level)), pid, skip)
  {
    InQueue(s, pid, level);
    SetPriorityKeeps(s, mover, priority);
    SetPriorityFacts(s, mover, priority);
    var t := SetPriority(s, mover, priority);
    assert Waiting(t, pid, level) by {
      FiveQueues(t);
      hide Inv, SetPriority;
    }
    if CanChange(s, mover) && priority < NUM_PRIORITIES {
      var p := s.procs[mover].(priority := priority);
      hide Inv, Move, Waiting, Reprioritised, ListAt;
      if p.status == Ready || p.status == Running {
        RequeueKeeps(s, mover, priority);
        MovedBefore(s, t, mover, p, false, pid, level, skip, skip');
      } else {
        PutLists(s, mover, p);
      }
    }
  }

  lemma PutLists(s: State, pid: nat, p: Proc)
    ensures forall l :: ListAt(Put(s, pid, p), ReadyQ(l)) == ListAt(s, ReadyQ(l))
  {
  }

  lemma PreemptWaits(s: State, pid: nat, level: nat)
    requires Inv(s) && Waiting(s, pid, level)
    ensures var t := Preempt(s);
            && Waiting(t, pid, level) && Runner(t) == IDLE_PID && t.level == s.level
            && Position(t, pid, level) <= Position(s, pid, level)
  {
    PreemptKeeps(s);
    NoRunner(Preempt(s));
    if s.current in s.procs && s.procs[s.current].status == Running {
      StopKeeps(s);
      StoppedWaits(s, pid, level);
      hide Inv, Waiting, SetPriority, Ages, Stopped, ListAt, Put, NoneRuns, Before;
      var p := s.procs[s.current];
      var priority := if Ages(s, p) then p.priority + 1 else p.priority;
      SetPriorityWaits(Put(s, s.current, Stopped(s, p)), s.current, priority, pid, level, s.current, IDLE_PID);
    }
  }

  lemma NoRunner(s: State)
    requires NoneRuns(s.procs)
    ensures Runner(s) == IDLE_PID
  {
  }

  lemma StoppedWaits(s: State, pid: nat, level: nat)
    requires Inv(s) && Waiting(s, pid, level) && s.current in s.procs && s.procs[s.current].status == Running
    ensures var p := Stopped(s, s.procs[s.current]);
            var t := Put(s, s.current, p);
            && Waiting(t, pid, level) && t.level == s.level && ListAt(t, ReadyQ(level)) == ListAt(s, ReadyQ(level))
            && s.current in t.procs && t.procs[s.current].status == Ready
            && (if Ages(s, s.procs[s.current]) then s.procs[s.current].priority + 1
               else s.procs[s.current].priority) < NUM_PRIORITIES
  {
    OkOf(s, s.current);
    hide Inv, Consumed;
  }

  /** Picking somebody else brings `pid` closer. */
  lemma PickCloser(s: State, pid: nat, level: nat)
    requires Inv(s) && NoneRuns(s.procs) && Waiting(s, pid, level)
    ensures var t := Dispatch(Pick(s));
            t.current == pid
            || (&& Waiting(t, pid, level) && Picks(t, pid, level) < Picks(s, pid, level)
                && Ticks(t, pid, level) < 1 + 124 * Position(s, pid, level) + QuantaTo(s.level, level))
  {
    InQueue(s, pid, level);
    FiveQueues(s);
    NextLevelToward(s.ready, s.level, NUM_PRIORITIES, level);
    var l := NextLevel(s.ready, s.level, NUM_PRIORITIES);
    var h, queue := s.ready[l][0].pid, s.ready[level];
    TidyQueue(s, l);
    TidyQueue(s, level);
    assert s.ready[l][0] in ListAt(s, ReadyQ(l));
    NoRunner(s);
    var t := Dispatch(Pick(s));
    if h != pid {
      DispatchedHead(s, l, h, pid, level);
      hide Inv, Waiting, Dispatch, Pick, NextLevel, Quantum;
      if l == level {
        HeadBefore(queue, pid);
        QuantaAround(level);
      } else {
        assert !Has(queue, h);
        SkipIrrelevant(queue, pid, h, IDLE_PID);
      }
    }
  }

  lemma DispatchedHead(s: State, l: nat, h: nat, pid: nat, level: nat)
    requires Inv(s) && Waiting(s, pid, level) && |s.ready| == NUM_PRIORITIES && h != pid
    requires l == NextLevel(s.ready, s.level, NUM_PRIORITIES) && l < NUM_PRIORITIES && s.ready[l] != []
             && h == s.ready[l][0].pid
    requires h in s.procs && s.procs[h].status == Ready && s.procs[h].priority == l
    ensures var t := Dispatch(Pick(s));
            && Waiting(t, pid, level) && Runner(t) == h && t.level == Below(l) && t.remaining == Quantum(l)
            && ListAt(t, ReadyQ(level)) == ListAt(s, ReadyQ(level)) && t.remaining > 1 && t.current == h
  {
    hide Inv;
  }

  lemma SwitchWaits(s: State, pid: nat, level: nat)
    requires Inv(s) && Waiting(s, pid, level) && s.remaining <= 1
    ensures var t := Switch(s);
            t.current == pid
            || (Waiting(t, pid, level) && Picks(t, pid, level) < Picks(s, pid, level)
               && Ticks(t, pid, level) < Ticks(s, pid, level))
  {
    PreemptKeeps(s);
    PreemptWaits(s, pid, level);
    hide Inv, Waiting, Preempt, Pick, Dispatch, Position, Runner, NoneRuns;
    PickCloser(Preempt(s), pid, level);
  }

  /** A call of `schedule` dispatches `pid` or brings it closer to being dispatched. */
  lemma ScheduleWaits(s: State, pid: nat, level: nat)
    requires Inv(s) && Waiting(s, pid, level)
    ensures var t := Schedule(s);
            t.current == pid
            || (&& Waiting(t, pid, level) && Ticks(t, pid, level) < Ticks(s, pid, level)
                && Picks(t, pid, level) <= Picks(s, pid, level) - if s.remaining <= 1 then 1 else 0)
  {
    hide Inv, Waiting, Position, Switch, Ticked;
    TickedWaits(s, pid, level);
    if s.remaining <= 1 {
      SwitchWaits(Ticked(s), pid, level);
    }
  }

  lemma Stays(s: State, t: State, pid: nat, level: nat)
    requires t.procs == s.procs && t.ready == s.ready && t.current == s.current && t.level == s.level
    ensures Waiting(s, pid, level) ==> Waiting(t, pid, level)
    ensures Position(t, pid, level) == Position(s, pid, level)
  {
  }

  lemma TickedWaits(s: State, pid: nat, level: nat)
    requires Inv(s) && Waiting(s, pid, level)
    ensures var t := Ticked(s);
            && Inv(t) && s.count != 0 && Waiting(t, pid, level) && Position(t, pid, level) == Position(s, pid, level)
            && t.level == s.level && t.remaining == s.remaining - 1
  {
    hide Inv, Position, Waiting;
    NotYetPicked(s, pid, level);
    Retimed(s, s.remaining - 1);
    Stays(s, Ticked(s), pid, level);
  }

  lemma NotYetPicked(s: State, pid: nat, level: nat)
    requires Inv(s) && Waiting(s, pid, level)
    ensures pid != s.current && s.count != 0 && s.remaining <= 64
  {
  }
}
