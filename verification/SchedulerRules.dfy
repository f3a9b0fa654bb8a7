/** What priorities, queues and counts do across several operations. */
module SchedulerRules {
  import opened SchedulerSpec
  import opened SchedulerLists
  import opened SchedulerInvariant
  import opened SchedulerSteps

  /** The last of a queue. */
  predicate AtEnd(queue: seq<Node>, pid: nat) {
    queue != [] && queue[|queue| - 1].pid == pid
  }

  // ---------------------------------------------------------------- priorities and states

  /** A change of priority puts a process that can run last in the queue of its new priority, marks
      any other, and is refused for the idle process, an empty slot and an unknown priority. */
  lemma PriorityRule(s: State, pid: nat, priority: nat)
    requires Inv(s)
    ensures var t := Step(s, OpSetPriority(pid, priority));
            if pid !in s.procs || pid == 0 || priority >= 5 then t == s
            else
              var p := s.procs[pid].(priority := priority);
              if p.status == Ready || p.status == Running
              then Moved(s, t, pid, p, false) && AtEnd(ListAt(t, ReadyQ(priority)), pid)
              else t == s.(procs := s.procs[pid := p])
  {
    hide Moved, Move, ListAt;
    if pid in s.procs && pid != 0 && priority < 5 {
      SlotBelow(s, pid);
      hide Inv;
      var p := s.procs[pid].(priority := priority);
      if p.status == Ready || p.status == Running {
        RequeueKeeps(s, pid, priority);
        LastThere(s, Move(s, pid, p, false), pid, p);
      }
    }
  }

  lemma SlotBelow(s: State, pid: nat)
    requires Inv(s) && pid in s.procs
    ensures pid < MAX_PROCESSES
  {
  }

  lemma LastThere(s: State, t: State, pid: nat, p: Proc)
    requires pid in s.procs && Moved(s, t, pid, p, false)
    ensures AtEnd(ListAt(t, Home(p)), pid)
  {
    hide ListAt;
  }

  /** Sleeping costs a level, wipes the count and puts the process last among the blocked. Waking puts
      it first in the top queue and ends the quantum that runs. A running process may be made ready
      in place. Everything else is refused. */
  lemma StatusRule(s: State, pid: nat, status: Status)
    requires Inv(s) && (pid in s.procs ==> s.procs[pid].waiting == 0)
    ensures var t := Step(s, OpSetStatus(pid, status));
            if pid !in s.procs || pid == 0 || status == Running || status == Zombie
               || s.procs[pid].status == Zombie || s.procs[pid].status == status
            then t == s
            else
              var p := s.procs[pid];
              if status == Blocked then
                var p' := p.(status := Blocked, priority := if p.priority == 0 then 0 else p.priority - 1,
                             consumed := 0);
                Moved(s, t, pid, p', false) && AtEnd(ListAt(t, BlockedQ), pid)
              else if p.status == Blocked then
                && Moved(s, t.(remaining := s.remaining), pid, p.(status := Ready, priority := 4), true)
                && t.remaining == 0 && ListAt(t, ReadyQ(4)) != [] && ListAt(t, ReadyQ(4))[0].pid == pid
              else t == s.(procs := s.procs[pid := p.(status := Ready)])
  {
    hide Moved, Move, ListAt;
    if pid in s.procs && pid != 0 {
      SlotBelow(s, pid);
      hide Inv;
      var p := s.procs[pid];
      if status == Blocked && (p.status == Ready || p.status == Running) {
        SleepKeeps(s, pid);
        LastThere(s, Move(s, pid, Slept(p), false), pid, Slept(p));
      } else if status == Ready && p.status == Blocked {
        WakeKeeps(s, pid);
        FirstThere(s, Move(s, pid, Woken(p), true), pid, Woken(p));
      }
    }
  }

  lemma FirstThere(s: State, t: State, pid: nat, p: Proc)
    requires pid in s.procs && Moved(s, t, pid, p, true)
    ensures ListAt(t, Home(p)) != [] && ListAt(t, Home(p))[0].pid == pid
    ensures t.(remaining := s.remaining) == t && ListAt(t.(remaining := 0), Home(p)) == ListAt(t, Home(p))
  {
    RemainingAside(t, 0);
    hide ListAt;
    assert SameCore(s, t);
  }

  lemma RemainingAside(s: State, remaining: int)
    ensures forall place :: ListAt(s.(remaining := remaining), place) == ListAt(s, place)
  {
  }

  // ---------------------------------------------------------------- ageing

  /** The quantum ran out, at least for the tenth time in a row in a 16-bit count, below the top level. */
  predicate Tenth(s: State, p: Proc) {
    && s.remaining == 0 && s.initial > 0
    && (p.consumed + 1) % 0x1_0000 >= 10 && p.priority + 1 < NUM_PRIORITIES
  }

  /** The 16-bit count, one more if the quantum ran out. */
  function Count(s: State, p: Proc): nat {
    if s.remaining == 0 && s.initial > 0 then (p.consumed + 1) % 0x1_0000 else p.consumed
  }

  /** A process stopped by the timer goes behind everybody of its level. It moves up a level, and its
      count starts again, exactly when its quantum ran out for at least the tenth time in a row and
      there is a level above. */
  lemma Aging(s: State)
    requires Inv(s) && s.current in s.procs && s.current != IDLE_PID && s.procs[s.current].status == Running
    ensures var t, p := Preempt(s), s.procs[s.current];
            && s.current in t.procs
            && var p' := t.procs[s.current];
            && (p'.priority == p.priority + 1 && p'.consumed == 0 <==> Tenth(s, p))
            && (p'.priority == p.priority || p'.priority == p.priority + 1)
            && (!Tenth(s, p) ==> p'.priority == p.priority && p'.consumed == Count(s, p))
            && AtEnd(ListAt(t, ReadyQ(p'.priority)), s.current)
  {
    hide Inv, Move, Put, Stopped, Ages, ListAt, Moved;
    StopKeeps(s);
    StoppedFacts(s);
    var p := s.procs[s.current];
    var t := Put(s, s.current, Stopped(s, p));
    var priority := if Ages(s, p) then p.priority + 1 else p.priority;
    RequeueKeeps(t, s.current, priority);
    var p' := t.procs[s.current].(priority := priority);
    MovedToEnd(t, Move(t, s.current, p', false), s.current, p');
  }

  lemma StoppedFacts(s: State)
    requires Inv(s) && s.current in s.procs
    ensures var p := s.procs[s.current];
            var q, t := Stopped(s, p), Put(s, s.current, Stopped(s, p));
            && s.current in t.procs && t.procs[s.current] == q && q.status == Ready && q.priority == p.priority
            && s.current < MAX_PROCESSES && p.priority < NUM_PRIORITIES
            && (Ages(s, p) <==> Tenth(s, p))
            && q.consumed == if Ages(s, p) then 0 else Count(s, p)
  {
    OkOf(s, s.current);
    hide Inv;
  }

  lemma MovedToEnd(s: State, t: State, pid: nat, p: Proc)
    requires pid in s.procs && Moved(s, t, pid, p, false) && p.status == Ready
    ensures pid in t.procs && t.procs[pid].priority == p.priority && t.procs[pid].consumed == p.consumed
    ensures AtEnd(ListAt(t, ReadyQ(p.priority)), pid)
  {
    hide ListAt;
    assert Home(p) == ReadyQ(p.priority);
  }

  lemma {:induction false} RemoveAppended(list: seq<Node>, n: Node)
    requires n !in list
    ensures Remove(list + [n], n) == list
  {
    if list == [] {
      assert Remove([n], n) == [];
    } else {
      assert (list + [n])[1..] == list[1..] + [n];
      RemoveAppended(list[1..], n);
    }
  }

  /** `t` is `s` with `pid`, of the queue `old_`, at the head of the top queue instead, its count at zero. */
  ghost predicate Boosted(s: State, t: State, pid: nat, old_: Place)
    requires pid in s.procs
  {
    var top, n := ReadyQ(NUM_PRIORITIES - 1), Node(s.procs[pid].node, pid);
    && pid in t.procs && t.procs.Keys == s.procs.Keys
    && (forall q :: q in s.procs && q != pid ==> t.procs[q] == s.procs[q])
    && t.procs[pid] == s.procs[pid].(priority := NUM_PRIORITIES - 1, consumed := 0, node := t.procs[pid].node)
    && ListAt(t, BlockedQ) == ListAt(s, BlockedQ) && t.remaining == 0
    && ListAt(t, top) == [Node(t.procs[pid].node, pid)]
       + (if old_ == top then Remove(ListAt(s, top), n) else ListAt(s, top))
    && (old_ != top ==> ListAt(t, old_) == Remove(ListAt(s, old_), n))
    && forall place :: place != top && place != old_ ==> ListAt(t, place) == ListAt(s, place)
  }

  /** Blocking a process and waking it again leaves everybody else, and the blocked queue, as they
      were, and puts the process at the head of the top queue. */
  lemma BlockThenWake(s: State, pid: nat)
    requires Inv(s) && CanChange(s, pid) && s.procs[pid].status == Ready && s.procs[pid].waiting == 0
    ensures Boosted(s, SetStatus(SetStatus(s, pid, Blocked), pid, Ready), pid, ReadyQ(s.procs[pid].priority))
  {
    hide Inv, Move, Boosted, Moved, ListAt, Slept, Woken;
    var p := s.procs[pid];
    SleptHome(p);
    SleptCount(p);
    NotYetBlocked(s, pid);
    SleepKeeps(s, pid);
    var u := Move(s, pid, Slept(p), false);
    SleptThere(s, u, pid);
    WakeKeeps(u, pid);
    var v := Move(u, pid, Woken(u.procs[pid]), true);
    Stages(s, u, v, pid);
  }

  lemma NotYetBlocked(s: State, pid: nat)
    requires Inv(s) && pid in s.procs && s.procs[pid].status == Ready
    ensures forall id :: Node(id, pid) !in ListAt(s, BlockedQ)
  {
    forall id
      ensures Node(id, pid) !in ListAt(s, BlockedQ)
    {
      assert Node(id, pid) in ListAt(s, BlockedQ) ==> OnHome(s, {IDLE_PID}, Node(id, pid), BlockedQ);
    }
  }

  lemma SleptThere(s: State, u: State, pid: nat)
    requires pid in s.procs && Moved(s, u, pid, Slept(s.procs[pid]), false)
    ensures pid in u.procs && u.procs[pid] == Slept(s.procs[pid]).(node := s.nextNode)
    ensures u.procs == s.procs[pid := u.procs[pid]]
  {
    hide ListAt, Slept;
  }

  lemma Stages(s: State, u: State, v: State, pid: nat)
    requires pid in s.procs && s.procs[pid].status == Ready
    requires Moved(s, u, pid, Slept(s.procs[pid]), false) && pid in u.procs
    requires u.procs[pid] == Slept(s.procs[pid]).(node := s.nextNode) && u.procs == s.procs[pid := u.procs[pid]]
    requires Moved(u, v, pid, Woken(u.procs[pid]), true)
    requires forall id :: Node(id, pid) !in ListAt(s, BlockedQ)
    ensures Boosted(s, v.(remaining := 0), pid, ReadyQ(s.procs[pid].priority))
  {
    var t := v.(remaining := 0);
    assert forall place :: ListAt(t, place) == ListAt(v, place);
    var n := Node(s.nextNode, pid);
    RemoveAppended(ListAt(s, BlockedQ), n);
    hide ListAt, Remove;
    assert Home(s.procs[pid]) == ReadyQ(s.procs[pid].priority);
    assert Home(Slept(s.procs[pid])) == Home(u.procs[pid]) == BlockedQ;
    assert Home(Woken(u.procs[pid])) == ReadyQ(NUM_PRIORITIES - 1);
    Overwritten(s.procs, pid, u.procs[pid], v.procs[pid]);
    hide Home, SameCore;
  }
}
