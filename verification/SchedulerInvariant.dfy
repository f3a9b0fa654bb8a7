/** What every scheduler operation keeps: the lists, the table, and who waits for whom. */
module SchedulerInvariant {
  import opened SchedulerSpec
  import opened SchedulerLists

  /** A process that waits has its child: blocked until the child is a zombie, awake from then on. */
  ghost predicate WaitOk(procs: map<nat, Proc>, pid: nat, child: nat) {
    && pid in procs && pid != IDLE_PID && child in procs && procs[child].parent == pid
    && (procs[pid].status == Blocked <==> procs[child].status != Zombie)
  }

  ghost predicate ProcOk(procs: map<nat, Proc>, current: nat, pid: nat) {
    && pid in procs
    && var p := procs[pid];
    && p.priority < NUM_PRIORITIES
    && (pid != IDLE_PID ==> p.parent != pid)
    && (pid == IDLE_PID ==> p.unkillable && (p.status == Ready || p.status == Running))
    && (p.status == Running ==> pid == current)
    && (p.status == Zombie ==> p.parent in procs && procs[p.parent].status != Zombie)
    && (p.waiting != 0 && p.status != Zombie ==> WaitOk(procs, pid, p.waiting))
  }

  ghost predicate ProcsOk(procs: map<nat, Proc>, current: nat) {
    forall pid :: pid in procs ==> ProcOk(procs, current, pid)
  }

  ghost predicate Table(s: State) {
    && |s.ready| == NUM_PRIORITIES && s.level < NUM_PRIORITIES && s.current < MAX_PROCESSES
    && (forall pid :: pid in s.procs ==> pid < MAX_PROCESSES)
    && s.nextUnused < MAX_PROCESSES && s.nextUnused !in s.procs
    && s.count == |s.procs|
    && s.remaining <= 64 && s.initial <= 64
    && if s.procs == map[] then s.nextUnused == IDLE_PID else IDLE_PID in s.procs
  }

  ghost predicate Inv(s: State) {
    Listed(s, {IDLE_PID}) && Table(s) && ProcsOk(s.procs, s.current)
  }

  // ---------------------------------------------------------------- moving between queues

  /** What moving `pid`, now `p`, into its queue changes. */
  ghost predicate Moved(s: State, t: State, pid: nat, p: Proc, front: bool)
    requires pid in s.procs
  {
    var n, old_, new_ := Node(s.nextNode, pid), Home(s.procs[pid]), Home(p);
    && SameCore(s, t) && t.procs == s.procs[pid := p.(node := s.nextNode)]
    && |t.ready| == |s.ready|
    && (forall place :: place != old_ && place != new_ ==> ListAt(t, place) == ListAt(s, place))
    && (old_ != new_ ==> ListAt(t, old_) == Remove(ListAt(s, old_), Node(s.procs[pid].node, pid)))
    && var base := if old_ == new_ then Remove(ListAt(s, old_), Node(s.procs[pid].node, pid)) else ListAt(s, new_);
    ListAt(t, new_) == if front then [n] + base else base + [n]
  }

  ghost predicate Movable(s: State, pid: nat, p: Proc) {
    && pid in s.procs && pid != IDLE_PID && p.zombies == s.procs[pid].zombies
    && !Home(s.procs[pid]).ZombiesOf? && !Home(p).ZombiesOf? && Exists(s, Home(p))
  }

  lemma MoveListed(s: State, pid: nat, p: Proc, front: bool)
    requires Listed(s, {IDLE_PID}) && Movable(s, pid, p)
    ensures Listed(Move(s, pid, p, front), {IDLE_PID})
    ensures Moved(s, Move(s, pid, p, front), pid, p, front)
  {
    assert AtHome(s, pid) && Exists(s, Home(s.procs[pid]));
    hide Listed, Link, Unlink, ListAt, AtHome;
    var u := Unlink(s, pid);
    UnlinkListed(s, {IDLE_PID}, pid);
    UnlinkedList(s, pid);
    var v := Put(u, pid, p);
    PutListed(u, {IDLE_PID} + {pid}, pid, p);
    LinkListed(v, {IDLE_PID} + {pid}, pid, front);
    assert {IDLE_PID} + {pid} - {pid} == {IDLE_PID};
    assert u.procs == s.procs;
    Overwritten(s.procs, pid, p, p.(node := s.nextNode));
    hide Home, SameButLists;
  }

  lemma Overwritten(procs: map<nat, Proc>, pid: nat, p: Proc, q: Proc)
    ensures procs[pid := p][pid := q] == procs[pid := q]
  {
  }

  lemma UnlinkedList(s: State, pid: nat)
    requires pid in s.procs && Exists(s, Home(s.procs[pid]))
    ensures var home := Home(s.procs[pid]);
            ListAt(Unlink(s, pid), home) == Remove(ListAt(s, home), Node(s.procs[pid].node, pid))
  {
  }

  /** A process may change while what others hold about it stays true. */
  ghost predicate Compatible(p: Proc, p': Proc, current: nat, pid: nat) {
    && p'.parent == p.parent && p'.unkillable == p.unkillable && p'.waiting == p.waiting
    && (p'.status == Zombie <==> p.status == Zombie)
    && ((p'.status == Blocked <==> p.status == Blocked) || p.waiting == 0)
    && (p'.status == Running ==> pid == current)
    && (pid == IDLE_PID ==> p'.status != Blocked)
    && p'.priority < NUM_PRIORITIES
  }

  lemma Replaced(procs: map<nat, Proc>, current: nat, pid: nat, p: Proc)
    requires ProcsOk(procs, current) && pid in procs && Compatible(procs[pid], p, current, pid)
    ensures ProcsOk(procs[pid := p], current)
  {
    forall q | q in procs
      ensures ProcOk(procs[pid := p], current, q)
    {
      assert ProcOk(procs, current, q) && ProcOk(procs, current, pid);
    }
  }

  lemma PutKeeps(s: State, pid: nat, p: Proc)
    requires Inv(s) && pid in s.procs && Compatible(s.procs[pid], p, s.current, pid)
    requires p.zombies == s.procs[pid].zombies
    requires pid != IDLE_PID ==> Home(p) == Home(s.procs[pid]) && p.node == s.procs[pid].node
    ensures Inv(Put(s, pid, p)) && forall place :: ListAt(Put(s, pid, p), place) == ListAt(s, place)
  {
    hide Listed, ProcsOk, Compatible, ListAt;
    PutListed(s, {IDLE_PID}, pid, p);
    Replaced(s.procs, s.current, pid, p);
    assert s.procs[pid := p].Keys == s.procs.Keys;
  }

  lemma MoveKeeps(s: State, pid: nat, p: Proc, front: bool)
    requires Inv(s) && Movable(s, pid, p) && Compatible(s.procs[pid], p, s.current, pid)
    ensures Inv(Move(s, pid, p, front)) && Moved(s, Move(s, pid, p, front), pid, p, front)
  {
    assert pid in s.procs;
    hide Listed, ProcsOk, ListAt, Move, Movable;
    MoveListed(s, pid, p, front);
    Replaced(s.procs, s.current, pid, p.(node := s.nextNode));
    assert s.procs[pid := p.(node := s.nextNode)].Keys == s.procs.Keys;
  }

  lemma SetPriorityKeeps(s: State, pid: nat, priority: nat)
    requires Inv(s)
    ensures Inv(SetPriority(s, pid, priority))
  {
    if CanChange(s, pid) && priority < NUM_PRIORITIES {
      var p := s.procs[pid].(priority := priority);
      if p.status == Ready || p.status == Running {
        RequeueKeeps(s, pid, priority);
      } else {
        OkOf(s, pid);
        assert Compatible(s.procs[pid], p, s.current, pid);
        PutKeeps(s, pid, p);
      }
    }
  }

  lemma SetStatusKeeps(s: State, pid: nat, status: Status)
    requires Inv(s) && (pid in s.procs ==> s.procs[pid].waiting == 0)
    ensures Inv(SetStatus(s, pid, status))
  {
    if CanChange(s, pid) {
      assert ProcOk(s.procs, s.current, pid);
      hide Inv, ProcOk, Move, Slept, Woken;
      var p := s.procs[pid];
      if status == Running || status == Zombie || p.status == Zombie || status == p.status {
      } else if status == Blocked {
        SleepKeeps(s, pid);
      } else if p.status == Blocked {
        WakeKeeps(s, pid);
      } else {
        assert Compatible(p, p.(status := Ready), s.current, pid) by {
          assert ProcOk(s.procs, s.current, pid) by { OkOf(s, pid); }
        }
        PutKeeps(s, pid, p.(status := Ready));
      }
    }
  }

  lemma OkOf(s: State, pid: nat)
    requires Inv(s) && pid in s.procs
    ensures ProcOk(s.procs, s.current, pid)
  {
  }

  lemma SleepKeeps(s: State, pid: nat)
    requires Inv(s) && pid in s.procs && pid != IDLE_PID && s.procs[pid].waiting == 0
    requires s.procs[pid].status == Ready || s.procs[pid].status == Running
    ensures Inv(Move(s, pid, Slept(s.procs[pid]), false))
    ensures Moved(s, Move(s, pid, Slept(s.procs[pid]), false), pid, Slept(s.procs[pid]), false)
  {
    OkOf(s, pid);
    assert Compatible(s.procs[pid], Slept(s.procs[pid]), s.current, pid);
    hide Inv, Move, Moved;
    MoveKeeps(s, pid, Slept(s.procs[pid]), false);
  }

  lemma WakeKeeps(s: State, pid: nat)
    requires Inv(s) && pid in s.procs && pid != IDLE_PID && s.procs[pid].status == Blocked && s.procs[pid].waiting == 0
    ensures Inv(Move(s, pid, Woken(s.procs[pid]), true).(remaining := 0))
    ensures Moved(s, Move(s, pid, Woken(s.procs[pid]), true), pid, Woken(s.procs[pid]), true)
  {
    OkOf(s, pid);
    assert Compatible(s.procs[pid], Woken(s.procs[pid]), s.current, pid);
    assert Movable(s, pid, Woken(s.procs[pid]));
    hide Inv, Move, Moved, Movable, Compatible;
    MoveKeeps(s, pid, Woken(s.procs[pid]), true);
    Retimed(Move(s, pid, Woken(s.procs[pid]), true), 0);
  }

  lemma Retimed(s: State, remaining: int)
    requires Inv(s) && remaining <= 64
    ensures Inv(s.(remaining := remaining))
  {
    var t := s.(remaining := remaining);
    SameLists(s, t, {IDLE_PID});
  }

  // ---------------------------------------------------------------- the timer

  ghost predicate NoneRuns(procs: map<nat, Proc>) {
    forall pid :: pid in procs ==> procs[pid].status != Running
  }

  lemma PreemptKeeps(s: State)
    requires Inv(s)
    ensures Inv(Preempt(s)) && NoneRuns(Preempt(s).procs)
    ensures Preempt(s).procs.Keys == s.procs.Keys && Preempt(s).level == s.level
  {
    RunningIsCurrent(s);
    if s.current in s.procs && s.procs[s.current].status == Running {
      StopKeeps(s);
      hide Inv, NoneRuns, Stopped, Ages, SetPriority, Put, Reprioritised;
      var p := s.procs[s.current];
      var t := Put(s, s.current, Stopped(s, p));
      var priority := if Ages(s, p) then p.priority + 1 else p.priority;
      SetPriorityKeeps(t, s.current, priority);
      SetPriorityFacts(t, s.current, priority);
      NoneRunsStill(t, s.current, priority);
    }
  }

  lemma NoneRunsStill(s: State, pid: nat, priority: nat)
    requires NoneRuns(s.procs) && Reprioritised(s, SetPriority(s, pid, priority), pid)
    ensures NoneRuns(SetPriority(s, pid, priority).procs)
    ensures SetPriority(s, pid, priority).procs.Keys == s.procs.Keys && SetPriority(s, pid, priority).level == s.level
  {
    hide SetPriority;
  }

  lemma RunningIsCurrent(s: State)
    requires Inv(s)
    ensures forall q :: q in s.procs && s.procs[q].status == Running ==> q == s.current
  {
    assert forall q :: q in s.procs ==> ProcOk(s.procs, s.current, q);
  }

  lemma StopKeeps(s: State)
    requires Inv(s) && s.current in s.procs && s.procs[s.current].status == Running
    ensures var t := Put(s, s.current, Stopped(s, s.procs[s.current]));
            Inv(t) && NoneRuns(t.procs) && t.procs.Keys == s.procs.Keys && t.level == s.level
  {
    OkOf(s, s.current);
    RunningIsCurrent(s);
    var p := Stopped(s, s.procs[s.current]);
    assert Compatible(s.procs[s.current], p, s.current, s.current);
    hide Inv, Ages, Consumed;
    PutKeeps(s, s.current, p);
  }

  /** Only the lists and the record of `pid` differ, and that only in its priority and node. */
  ghost predicate Reprioritised(s: State, t: State, pid: nat) {
    && SameCore(s, t)
    && t.procs.Keys == s.procs.Keys
    && (forall q :: q in s.procs && q != pid ==> t.procs[q] == s.procs[q])
    && (pid in s.procs ==> t.procs[pid] == s.procs[pid].(priority := t.procs[pid].priority, node := t.procs[pid].node))
  }

  lemma SetPriorityFacts(s: State, pid: nat, priority: nat)
    requires Inv(s)
    ensures Reprioritised(s, SetPriority(s, pid, priority), pid)
  {
    hide Inv, Move;
    if CanChange(s, pid) && priority < NUM_PRIORITIES {
      var p := s.procs[pid].(priority := priority);
      if p.status == Ready || p.status == Running {
        RequeueKeeps(s, pid, priority);
        assert SetPriority(s, pid, priority) == Move(s, pid, p, false);
        var t := Move(s, pid, p, false);
        assert SameCore(s, t) && t.procs == s.procs[pid := p.(node := s.nextNode)];
        assert t.procs[pid] == p.(node := s.nextNode);
      }
    }
  }

  /** A process that can run moves to the end of the queue of its new priority. */
  lemma RequeueKeeps(s: State, pid: nat, priority: nat)
    requires Inv(s) && pid in s.procs && pid != IDLE_PID && priority < NUM_PRIORITIES
    requires s.procs[pid].status == Ready || s.procs[pid].status == Running
    ensures var p := s.procs[pid].(priority := priority);
            Inv(Move(s, pid, p, false)) && Moved(s, Move(s, pid, p, false), pid, p, false)
  {
    var p := s.procs[pid].(priority := priority);
    OkOf(s, pid);
    assert Compatible(s.procs[pid], p, s.current, pid);
    assert Movable(s, pid, p);
    hide Inv, Move, Movable, ListAt, Moved, Compatible;
    MoveKeeps(s, pid, p, false);
  }

  lemma {:induction false} NextLevelFound(ready: seq<seq<Node>>, level: nat, tries: nat)
    requires |ready| == NUM_PRIORITIES && level < NUM_PRIORITIES
    ensures NextLevel(ready, level, tries) < NUM_PRIORITIES
    decreases tries
  {
    if tries > 0 && ready[level] == [] {
      NextLevelFound(ready, Below(level), tries - 1);
    }
  }

  /** The search of all five levels finds nothing exactly when all are empty, and then it is back
      where it began. */
  lemma NextLevelComplete(ready: seq<seq<Node>>, level: nat)
    requires |ready| == NUM_PRIORITIES && level < NUM_PRIORITIES
    ensures var l := NextLevel(ready, level, NUM_PRIORITIES);
            l < NUM_PRIORITIES && (ready[l] == [] <==> forall k :: 0 <= k < NUM_PRIORITIES ==> ready[k] == [])
  {
    NextLevelFound(ready, level, NUM_PRIORITIES);
    var a, b, c, d := Below(level), Below(Below(level)), Below(Below(Below(level))), Below(Below(Below(Below(level))));
    assert NextLevel(ready, level, 5) == if ready[level] != [] then level else NextLevel(ready, a, 4);
    assert NextLevel(ready, a, 4) == if ready[a] != [] then a else NextLevel(ready, b, 3);
    assert NextLevel(ready, b, 3) == if ready[b] != [] then b else NextLevel(ready, c, 2);
    assert NextLevel(ready, c, 2) == if ready[c] != [] then c else NextLevel(ready, d, 1);
    assert NextLevel(ready, d, 1) == if ready[d] != [] then d else NextLevel(ready, level, 0);
    forall k | 0 <= k < NUM_PRIORITIES
      ensures ready[k] == [] || ready[NextLevel(ready, level, NUM_PRIORITIES)] != []
    {
      assert k == level || k == a || k == b || k == c || k == d;
    }
  }

  /** Whoever is picked exists and can run, and the idle process is picked exactly when every
      ready queue is empty. */
  lemma PickKeeps(s: State)
    requires Inv(s) && NoneRuns(s.procs) && s.procs != map[]
    ensures Inv(Pick(s)) && Pick(s).current in s.procs
    ensures s.procs[Pick(s).current].status == Ready
    ensures Pick(s).current == IDLE_PID <==> forall k :: 0 <= k < NUM_PRIORITIES ==> s.ready[k] == []
  {
    NextLevelComplete(s.ready, s.level);
    var t, l := Pick(s), NextLevel(s.ready, s.level, NUM_PRIORITIES);
    if s.ready[l] != [] {
      assert s.ready[l][0] in ListAt(s, ReadyQ(l));
      assert OnHome(s, {IDLE_PID}, s.ready[l][0], ReadyQ(l));
    } else {
      OkOf(s, IDLE_PID);
    }
    assert ProcsOk(s.procs, t.current) by {
      assert forall q :: ProcOk(s.procs, s.current, q) ==> ProcOk(s.procs, t.current, q);
    }
    SameLists(s, t, {IDLE_PID});
  }

  lemma DispatchKeeps(s: State)
    requires Inv(s) && s.current in s.procs && s.procs[s.current].status == Ready
    ensures Inv(Dispatch(s))
  {
    var p := s.procs[s.current];
    OkOf(s, s.current);
    assert Compatible(p, p.(status := Running), s.current, s.current);
    hide Inv, Compatible, Quantum;
    QuantumSmall(p.priority);
    PutKeeps(s, s.current, p.(status := Running));
    Requantified(Put(s, s.current, p.(status := Running)), Quantum(p.priority));
  }

  lemma Requantified(s: State, quantum: nat)
    requires Inv(s) && quantum <= 64
    ensures Inv(s.(initial := quantum, remaining := quantum))
  {
    var t := s.(initial := quantum, remaining := quantum);
    SameLists(s, t, {IDLE_PID});
  }

  lemma QuantumSmall(priority: nat)
    ensures 4 <= Quantum(priority) <= 64
  {
  }
}
