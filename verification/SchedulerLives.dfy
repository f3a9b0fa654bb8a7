/** What being born, dying, Ctrl+C and waiting do to the table, the lists and the clock. */
module SchedulerLives {
  import opened SchedulerSpec
  import opened SchedulerLists
  import opened SchedulerInvariant
  import opened SchedulerSteps
  import opened SchedulerCalm
  import opened SchedulerRules
  import opened SchedulerRuns
  import opened FairnessRuns
  import opened SchedulerQuantum

  // ---------------------------------------------------------------- being born

  /** The slot `d` places after `pid` around the table. */
  function Slot(pid: nat, d: nat): nat {
    (pid + d) % 20
  }

  lemma {:induction false} SearchFinds(procs: map<nat, Proc>, pid: nat, start: nat, d: nat) returns (e: nat)
    requires d <= 20 && pid == Slot(start, d) && forall k: nat :: k < d ==> Slot(start, k) in procs
    ensures e <= 20 && FreeSlot(procs, pid, 20 - d) == Slot(start, e)
    ensures forall k: nat :: k < e ==> Slot(start, k) in procs
    ensures e < 20 ==> Slot(start, e) !in procs
    decreases 20 - d
  {
    if d == 20 || pid !in procs {
      e := d;
    } else {
      assert (pid + 1) % MAX_PROCESSES == Slot(start, d + 1);
      e := SearchFinds(procs, (pid + 1) % MAX_PROCESSES, start, d + 1);
    }
  }

  /** The next free slot is the first after `pid` around the table. */
  ghost predicate FirstFree(procs: map<nat, Proc>, pid: nat, free: nat) {
    && free !in procs
    && exists d: nat :: d < 20 && free == Slot(pid, d) && forall e: nat :: e < d ==> Slot(pid, e) in procs
  }

  lemma FreeSlotFirst(procs: map<nat, Proc>, pid: nat)
    requires pid < MAX_PROCESSES && |procs| < MAX_PROCESSES && forall q :: q in procs ==> q < MAX_PROCESSES
    ensures FirstFree(procs, pid, FreeSlot(procs, pid, MAX_PROCESSES))
  {
    hide Slot, FreeSlot;
    FreeSlotFound(procs, pid);
    SlotAround(pid);
    var e := SearchFinds(procs, pid, pid, 0);
  }

  lemma SlotAround(pid: nat)
    requires pid < MAX_PROCESSES
    ensures Slot(pid, 20) == Slot(pid, 0) == pid
  {
  }

  /** A new process is a child of the current one, ready in the first free slot, its priority cut down
      to the highest there is, and stands last in the queue of that priority; the idle process stands
      in none. The next slot is the first free one behind it. Without a slot or memory nothing happens. */
  lemma CreateRule(s: State, priority: nat, unkillable: bool, stdin: bool, oom: bool)
    requires Inv(s)
    ensures var t := Step(s, OpCreate(priority, unkillable, stdin, oom));
            if s.count >= 20 || oom then t == s
            else
              var pid, level := s.nextUnused, if priority < 5 then priority else 4;
              && pid !in s.procs && pid in t.procs
              && var node := t.procs[pid].node;
              && t.procs == s.procs[pid := Proc(s.current, level, Ready, 0, unkillable, stdin, 0, 0, node, [])]
              && (forall place :: pid != 0 && place == ReadyQ(level) ==>
                    ListAt(t, place) == ListAt(s, place) + [Node(node, pid)])
              && (forall place :: pid == 0 || place != ReadyQ(level) ==> ListAt(t, place) == ListAt(s, place))
              && SameClock(s, t.(nextUnused := pid)) && t.foreground == s.foreground && t.count == s.count + 1
              && (s.count + 1 < 20 ==> FirstFree(t.procs, pid, t.nextUnused))
  {
    hide FirstFree, Listed, ProcsOk, ListAt, Enter;
    if s.count < 20 && !oom {
      var u := Born(s, priority, unkillable, stdin);
      var t := Step(s, OpCreate(priority, unkillable, stdin, oom));
      BornLists(s, priority, unkillable, stdin);
      ListsAside(Enter(s, priority, unkillable, stdin), t);
      assert t.procs.Keys == s.procs.Keys + {s.nextUnused};
      if s.count + 1 < 20 {
        FreeSlotFirst(t.procs, s.nextUnused);
      }
    }
  }

  lemma BornLists(s: State, priority: nat, unkillable: bool, stdin: bool)
    requires Inv(s)
    ensures var t, pid := Enter(s, priority, unkillable, stdin), s.nextUnused;
            var level := if priority < 5 then priority else 4;
            forall place ::
              ListAt(t, place) == ListAt(s, place)
                + if pid != 0 && place == ReadyQ(level) then [Node(s.nextNode, pid)] else []
  {
    var pid, p := s.nextUnused, NewProc(s.current, priority, unkillable, stdin);
    var t := Put(s, pid, p);
    NewLists(s, pid, p);
    BornListed(s, pid, p);
    if pid != IDLE_PID {
      assert Exists(t, Home(p)) by { FiveQueues(s); }
      hide Inv, ListAt, Link;
      LinkListed(t, {IDLE_PID, pid}, pid, false);
    } else {
      var q := p.(node := t.nextNode);
      NewLists(s, pid, q);
      Overwritten(s.procs, pid, p, q);
      ListsOf(Put(s, pid, q), Put(t, pid, q).(nextNode := t.nextNode + 1));
    }
  }

  lemma NewLists(s: State, pid: nat, p: Proc)
    requires pid !in s.procs && p.zombies == []
    ensures forall place :: ListAt(Put(s, pid, p), place) == ListAt(s, place)
  {
  }

  lemma ListsOf(s: State, t: State)
    requires t.procs == s.procs && t.ready == s.ready && t.blocked == s.blocked
    ensures forall place :: ListAt(t, place) == ListAt(s, place)
  {
  }

  lemma ListsAside(s: State, t: State)
    requires t == s.(nextUnused := t.nextUnused, count := t.count)
    ensures forall place :: ListAt(t, place) == ListAt(s, place)
  {
  }

  // ---------------------------------------------------------------- dying

  ghost predicate Alive(procs: map<nat, Proc>, pid: nat) {
    pid in procs && procs[pid].status != Zombie
  }

  /** The living parent sleeps in `waitpid` for just this child. */
  ghost predicate Awaited(procs: map<nat, Proc>, pid: nat) {
    && pid in procs
    && var parent := procs[pid].parent;
    parent in procs && procs[parent].waiting == pid && procs[parent].status == Blocked
  }

  /** Who is left after a death: all but the zombie children of the dead process, and it itself
      exactly if its parent is alive. */
  ghost predicate Survivors(procs: map<nat, Proc>, procs': map<nat, Proc>, pid: nat)
    requires pid in procs
  {
    forall q :: q in procs' <==>
                  && q in procs && !(procs[q].status == Zombie && procs[q].parent == pid)
                  && (q == pid ==> Alive(procs, procs[pid].parent))
  }

  /** The dead process is a zombie with its result, the last in the list of its parent. */
  ghost predicate Bequeathed(s: State, t: State, pid: nat, retval: int)
    requires pid in s.procs
  {
    var parent := s.procs[pid].parent;
    && pid in t.procs && t.procs[pid].status == Zombie && t.procs[pid].retval == retval
    && t.procs[pid].parent == parent
    && ListAt(t, ZombiesOf(parent)) == ListAt(s, ZombiesOf(parent)) + [Node(t.procs[pid].node, pid)]
  }

  /** The parent is the first of the top queue. */
  ghost predicate Roused(s: State, t: State, pid: nat)
    requires pid in s.procs
  {
    var parent, top := s.procs[pid].parent, ListAt(t, ReadyQ(4));
    parent in t.procs && t.procs[parent].priority == 4 && top != [] && top[0].pid == parent
  }

  /** Nobody else is changed, but for a parent that wakes and one that starts to run. */
  ghost predicate OthersKept(s: State, t: State, pid: nat)
    requires pid in s.procs
  {
    forall q :: q in t.procs && q in s.procs && q != pid && !(Awaited(s.procs, pid) && q == s.procs[pid].parent) ==>
      && t.procs[q] == s.procs[q].(status := t.procs[q].status, zombies := t.procs[q].zombies, node := t.procs[q].node)
      && (t.procs[q].status == s.procs[q].status || q == t.current)
  }

  ghost predicate Slain(s: State, t: State, pid: nat, retval: int)
    requires pid in s.procs
  {
    && Survivors(s.procs, t.procs, pid) && OthersKept(s, t, pid)
    && (Alive(s.procs, s.procs[pid].parent) ==> Bequeathed(s, t, pid, retval))
    && (Awaited(s.procs, pid) ==> Roused(s, t, pid))
    && t.foreground == if s.foreground == pid then 0 else s.foreground
  }

  lemma DieZombies(s: State, pid: nat, retval: int)
    requires Inv(s) && Killable(s, pid)
    ensures var d, parent := Die(s, pid, retval), s.procs[pid].parent;
            && d.foreground == (if s.foreground == pid then 0 else s.foreground)
            && (Alive(s.procs, parent) ==> ListAt(d, ZombiesOf(parent)) == ListAt(s, ZombiesOf(parent)))
  {
    DieFacts(s, pid, retval);
    ParentKept(s, Die(s, pid, retval), pid, retval);
    ReapForeground(Unlink(s, pid), pid);
    hide Inv, Reap, Listed;
  }

  lemma {:induction false} ReapForeground(s: State, pid: nat)
    ensures Reap(s, pid).foreground == s.foreground
    decreases |Zombies(s, pid)|
  {
    var zombies := Zombies(s, pid);
    if zombies != [] {
      ReapForeground(Drop(SetList(s, ZombiesOf(pid), zombies[1..]), zombies[0].pid), pid);
    }
  }

  lemma HeirLinked(s: State, d: State, pid: nat, retval: int)
    requires Inv(s) && Killable(s, pid) && Dead(s, d, pid, retval) && Listed(d, {IDLE_PID, pid})
    requires HasParent(d, d.procs[pid].parent)
    ensures var u, parent := Link(d, pid, false), s.procs[pid].parent;
            && parent == d.procs[pid].parent && parent != pid && Listed(u, {IDLE_PID})
            && u.foreground == d.foreground && pid in u.procs && u.procs[pid].node == d.nextNode
            && ListAt(u, ZombiesOf(parent)) == ListAt(d, ZombiesOf(parent)) + [Node(d.nextNode, pid)]
            && (parent in u.procs && u.procs[parent].status == Blocked ==> parent != IDLE_PID)
            && parent < MAX_PROCESSES && |u.ready| == NUM_PRIORITIES
  {
    ParentKept(s, d, pid, retval);
    FiveQueues(s);
    var parent := s.procs[pid].parent;
    OkOf(s, parent);
    hide Listed, Inv, ListAt, OnlyChildrenGone, Child, Link;
    LinkListed(d, {IDLE_PID, pid}, pid, false);
    assert {IDLE_PID, pid} - {pid} == {IDLE_PID};
    assert Home(d.procs[pid]) == ZombiesOf(parent);
  }

  /** The dead process enters its living parent's list, last. */
  lemma HeirLists(s: State, d: State, pid: nat, retval: int)
    requires Inv(s) && Killable(s, pid) && Dead(s, d, pid, retval) && Listed(d, {IDLE_PID, pid})
    requires HasParent(d, d.procs[pid].parent)
    ensures var t, parent := Bequeath(d, pid), s.procs[pid].parent;
            && t.foreground == d.foreground && pid in t.procs && t.procs[pid].node == d.nextNode
            && ListAt(t, ZombiesOf(parent)) == ListAt(d, ZombiesOf(parent)) + [Node(d.nextNode, pid)]
  {
    hide Listed, Inv, ListAt, Link, SetStatus;
    HeirLinked(s, d, pid, retval);
    var parent, u := d.procs[pid].parent, Link(d, pid, false);
    if parent in u.procs && u.procs[parent].waiting == pid && u.procs[parent].status == Blocked {
      HeirWokenLists(u, parent);
    }
  }

  lemma HeirWokenLists(u: State, parent: nat)
    requires Listed(u, {IDLE_PID}) && parent in u.procs && parent != IDLE_PID && parent < MAX_PROCESSES
    requires u.procs[parent].status == Blocked && |u.ready| == NUM_PRIORITIES
    ensures var v := SetStatus(u, parent, Ready);
            && v.foreground == u.foreground && v.procs.Keys == u.procs.Keys
            && (forall q :: q in u.procs && q != parent ==> v.procs[q] == u.procs[q])
            && forall p :: ListAt(v, ZombiesOf(p)) == ListAt(u, ZombiesOf(p))
  {
    var p := Woken(u.procs[parent]);
    assert Movable(u, parent, p);
    hide Listed, Move, ListAt, Movable, Woken;
    MoveListed(u, parent, p, true);
    var v := Move(u, parent, p, true);
    RemainingAside(v, 0);
    assert SetStatus(u, parent, Ready) == v.(remaining := 0);
  }

  lemma OtherZombies(s: State, pid: nat)
    requires Inv(s) && pid in s.procs && s.procs[pid].status != Zombie
    ensures forall q :: q in s.procs && s.procs[q].status == Zombie ==> q != IDLE_PID && q != pid
  {
    if IDLE_PID in s.procs {
      OkOf(s, IDLE_PID);
    }
  }

  lemma BuriedSurvivors(s: State, procs': map<nat, Proc>, pid: nat, retval: int)
    requires Inv(s) && Killable(s, pid) && Buried(s.procs, procs', pid, retval)
    ensures Survivors(s.procs, procs', pid)
    ensures forall q :: q in procs' && q != pid && !(Awaited(s.procs, pid) && q == s.procs[pid].parent) ==>
              Alike(s.procs[q], procs'[q])
    ensures Alive(s.procs, s.procs[pid].parent) ==>
              && pid in procs' && procs'[pid].status == Zombie && procs'[pid].retval == retval
              && procs'[pid].parent == s.procs[pid].parent
    ensures Awaited(s.procs, pid) ==>
              s.procs[pid].parent in procs' && procs'[s.procs[pid].parent].priority == 4 && Wakes(s.procs, pid)
  {
    hide Inv;
    OtherZombies(s, pid);
    OkOf(s, pid);
  }

  /** A death, up to the final `yield` of one who kills itself. */
  lemma TerminateRule(s: State, pid: nat, retval: int)
    requires Inv(s) && Killable(s, pid)
    ensures Slain(s, Terminate(s, pid, retval), pid, retval)
  {
    hide Inv, Die, Bequeath, ListAt, Dead, Bereft, Survivors, Buried, Awaited, Alive, Wakes;
    var d, t := Die(s, pid, retval), Terminate(s, pid, retval);
    TerminateKeeps(s, pid, retval);
    DieFacts(s, pid, retval);
    DieZombies(s, pid, retval);
    BuriedSurvivors(s, t.procs, pid, retval);
    HeirKept(s, d, pid, retval);
    if HasParent(d, d.procs[pid].parent) {
      HeirLists(s, d, pid, retval);
    } else {
      DroppedForeground(d, pid);
    }
    if Awaited(s.procs, pid) {
      TerminateQueue(s, pid, retval, 4);
      QueueRoused(s, ListAt(t, ReadyQ(4)), pid);
    }
  }

  lemma HeirKept(s: State, d: State, pid: nat, retval: int)
    requires Inv(s) && Killable(s, pid) && Dead(s, d, pid, retval)
    ensures pid in d.procs && (HasParent(d, d.procs[pid].parent) <==> Alive(s.procs, s.procs[pid].parent))
  {
    ParentKept(s, d, pid, retval);
  }

  lemma DroppedForeground(d: State, pid: nat)
    requires pid in d.procs && !HasParent(d, d.procs[pid].parent)
    ensures Bequeath(d, pid).foreground == d.foreground
  {
  }

  lemma QueueRoused(s: State, queue': seq<Node>, pid: nat)
    requires pid in s.procs && Bereft(s, pid, queue', 4) && Wakes(s.procs, pid)
    ensures queue' != [] && queue'[0].pid == s.procs[pid].parent
  {
  }

  lemma WakeEndsQuantum(s: State, d: State, pid: nat, retval: int)
    requires Inv(s) && Killable(s, pid) && Dead(s, d, pid, retval) && Listed(d, {IDLE_PID, pid})
    ensures Bequeath(d, pid).remaining == if Awaited(s.procs, pid) then 0 else s.remaining
  {
    ParentKept(s, d, pid, retval);
    hide Inv, OnlyChildrenGone, Listed, Link, SetStatus;
    if HasParent(d, d.procs[pid].parent) {
      ZombieLinked(s, d, pid, retval);
      var parent, u := d.procs[pid].parent, Link(d, pid, false);
      assert Alike(d.procs[parent], u.procs[parent]);
      if Awaited(s.procs, pid) {
        HeirWakes(u, parent) by { FiveQueues(s); }
      }
    }
  }

  // ---------------------------------------------------------------- leaving the processor

  /** The lists are as they were, a process that can run is now the current one, and of the records
      only the status of that one and the priority and count of the one that left differ. */
  ghost predicate Left(s: State, t: State) {
    && t.foreground == s.foreground && t.procs.Keys == s.procs.Keys
    && (forall place :: ListAt(t, place) == ListAt(s, place))
    && t.current in s.procs && s.procs[t.current].status == Ready
    && t.procs[t.current] == s.procs[t.current].(status := Running)
    && (forall q :: q in s.procs && q != s.current && q != t.current ==> t.procs[q] == s.procs[q])
    && (s.current in s.procs ==>
          var p := s.procs[s.current];
          t.procs[s.current] == if s.initial <= 0 then p
                                else p.(priority := if p.priority > 0 then p.priority - 1 else 0, consumed := 0))
  }

  /** The current process does not run. */
  ghost predicate Halted(s: State) {
    s.current in s.procs ==> s.procs[s.current].status == Blocked || s.procs[s.current].status == Zombie
  }

  /** The current process is marked as one that yields, and nothing else but the clock changes. */
  ghost predicate Marks(s: State, d: State) {
    && d.foreground == s.foreground && d.current == s.current && d.procs.Keys == s.procs.Keys
    && (forall place :: ListAt(d, place) == ListAt(s, place))
    && (forall q :: q in s.procs && q != s.current ==> d.procs[q] == s.procs[q])
    && (s.current in s.procs ==>
          var p := s.procs[s.current];
          d.procs[s.current] == if s.initial <= 0 then p
                                else p.(priority := if p.priority > 0 then p.priority - 1 else 0, consumed := 0))
  }

  lemma DemoteStopped(s: State)
    requires Inv(s) && Halted(s)
    ensures Marks(s, Demote(s))
  {
    hide Inv, ListAt, SetPriority;
    if s.current in s.procs && s.initial > 0 {
      HaltedFacts(s);
      Marked(s);
      hide Demote;
      var p := s.procs[s.current];
      PutAside(s, s.current, p.(priority := if p.priority > 0 then p.priority - 1 else 0, consumed := 0));
    }
  }

  lemma HaltedFacts(s: State)
    requires Inv(s) && Halted(s) && s.current in s.procs
    ensures CanChange(s, s.current) && s.procs[s.current].priority < NUM_PRIORITIES
  {
    OkOf(s, s.current);
  }

  lemma Marked(s: State)
    requires CanChange(s, s.current) && s.initial > 0 && s.procs[s.current].priority < NUM_PRIORITIES
    requires s.procs[s.current].status == Blocked || s.procs[s.current].status == Zombie
    ensures var p := s.procs[s.current];
            Demote(s) == Put(s, s.current, p.(priority := if p.priority > 0 then p.priority - 1 else 0, consumed := 0))
  {
    var p := s.procs[s.current];
    var q := p.(priority := if p.priority > 0 then p.priority - 1 else 0);
    if p.priority > 0 {
      assert SetPriority(s, s.current, p.priority - 1) == Put(s, s.current, q);
      Overwritten(s.procs, s.current, q, q.(consumed := 0));
    }
  }

  lemma PutAside(s: State, pid: nat, p: Proc)
    requires pid in s.procs && p.zombies == s.procs[pid].zombies
    ensures forall place :: ListAt(Put(s, pid, p), place) == ListAt(s, place)
  {
  }

  lemma ScheduleStopped(s: State)
    requires Inv(s) && Halted(s) && s.procs != map[] && !s.killFlag && s.remaining <= 1
    ensures var t := Schedule(s);
            && (forall place :: ListAt(t, place) == ListAt(s, place)) && t.foreground == s.foreground
            && t.current in s.procs && s.procs[t.current].status == Ready
            && t.procs == s.procs[t.current := s.procs[t.current].(status := Running)]
  {
    hide Inv, Halted, Switch, Fresh;
    ScheduleFresh(s);
    Peopled(s);
    Retimed(s, s.remaining - 1);
    RemainingAside(s, s.remaining - 1);
    HaltedStill(s);
    SwitchHalted(Ticked(s));
  }

  lemma HaltedStill(s: State)
    requires Halted(s)
    ensures Halted(Ticked(s))
  {
  }

  lemma SwitchHalted(s: State)
    requires Inv(s) && Halted(s) && s.procs != map[] && !s.killFlag
    ensures var t := Switch(s);
            && (forall place :: ListAt(t, place) == ListAt(s, place)) && t.foreground == s.foreground
            && t.current in s.procs && s.procs[t.current].status == Ready
            && t.procs == s.procs[t.current := s.procs[t.current].(status := Running)]
  {
    hide Inv, NoneRuns, Fresh, ListAt;
    SwitchFresh(s);
    assert Preempt(s) == s;
  }

  lemma HaltedLowers(s: State, d: State)
    requires Inv(s) && Halted(s) && s.procs != map[]
    requires d == Demote(s).(remaining := 0, killFlag := false)
    ensures Inv(d) && Halted(d) && Marks(s, d) && d.procs != map[] && !d.killFlag && d.remaining == 0
  {
    hide Inv, Demote, ListAt;
    DemoteKeeps(s);
    DemoteStopped(s);
    Retimed(Demote(s), 0);
    Unflagged(Demote(s).(remaining := 0));
    ListsOf(Demote(s), d);
    assert d.procs.Keys == s.procs.Keys;
  }

  lemma HaltedLeaves(s: State, d: State)
    requires Inv(s) && Halted(s) && s.procs != map[]
    requires d == Demote(s).(remaining := 0, killFlag := false)
    ensures Left(s, Schedule(d))
  {
    HaltedLowers(s, d);
    hide Inv, Demote, Schedule, ListAt, Halted, Marks, Left;
    ScheduleStopped(d);
    MarkedLeaves(s, d, Schedule(d));
  }

  lemma MarkedLeaves(s: State, d: State, t: State)
    requires Marks(s, d) && Halted(d)
    requires (forall place :: ListAt(t, place) == ListAt(d, place)) && t.foreground == d.foreground
    requires t.current in d.procs && d.procs[t.current].status == Ready
    requires t.procs == d.procs[t.current := d.procs[t.current].(status := Running)]
    ensures Left(s, t)
  {
    hide ListAt;
    assert t.current != s.current;
    assert t.procs.Keys == d.procs.Keys == s.procs.Keys;
  }

  lemma HaltedYields(s: State)
    requires Inv(s) && Halted(s) && s.procs != map[] && !CtrlC(s)
    ensures Left(s, Yield(s))
  {
    hide Inv, Halted, Left, Demote, Schedule, CtrlC;
    DemoteFlag(s);
    HaltedLeaves(s, Demote(s).(remaining := 0, killFlag := false));
  }

  lemma HaltedGivesUp(s: State)
    requires Inv(s) && Halted(s) && s.procs != map[] && !s.killFlag
    ensures Left(s, GiveUp(s))
  {
    hide Inv, Halted, Left, Demote, Schedule;
    DemoteClock(s);
    HaltedLeaves(s, Demote(s).(remaining := 0, killFlag := false));
  }

  /** What a death left is as it was when the dead process has left the processor. */
  lemma SlainLeft(s: State, u: State, t: State, pid: nat, retval: int)
    requires pid in s.procs && Slain(s, u, pid, retval) && Left(u, t) && u.current == pid
    requires pid in u.procs ==> u.procs[pid].status == Zombie
    requires Awaited(s.procs, pid) ==> s.procs[pid].parent != pid
    ensures Slain(s, t, pid, retval)
  {
    hide ListAt, Awaited, Alive;
  }

  lemma DeadHalted(s: State, u: State, pid: nat, retval: int)
    requires Inv(s) && Killable(s, pid) && Buried(s.procs, u.procs, pid, retval) && u.current == pid
    ensures Halted(u) && (pid in u.procs ==> u.procs[pid].status == Zombie)
    ensures pid != IDLE_PID && s.procs[pid].parent != pid
  {
    OkOf(s, pid);
    hide Inv;
  }

  /** A kill is refused for an empty slot, a zombie and an unkillable process. Otherwise the process is
      a zombie, last in the list of its living parent, or gone if it has none; its zombie children are
      gone; a parent that waits for it heads the top queue and ends the quantum that runs. One that
      kills itself leaves the processor at once. */
  lemma KillRule(s: State, pid: nat, retval: int)
    requires Inv(s) && Settled(s)
    ensures var t := Step(s, OpKill(pid, retval));
            if pid !in s.procs || s.procs[pid].status == Zombie || s.procs[pid].unkillable then t == s
            else
              && Slain(s, t, pid, retval)
              && if pid == s.current then Fresh(t, s.level)
                 else && SameClock(s, t.(remaining := s.remaining))
                      && t.remaining == if Awaited(s.procs, pid) then 0 else s.remaining
  {
    hide Inv, Terminate, Yield, Slain, Fresh, Halted, Buried, Awaited;
    if pid in s.procs && s.procs[pid].status != Zombie && !s.procs[pid].unkillable {
      SlotBelow(s, pid);
      assert Killable(s, pid);
      TerminateKeeps(s, pid, retval);
      TerminateRule(s, pid, retval);
      TerminatedClock(s, pid, retval);
      if pid == s.current {
        var u := Terminate(s, pid, retval);
        DeadFlag(s, u, pid, retval);
        DeadHalted(s, u, pid, retval);
        HaltedYields(u);
        SlainLeft(s, u, Yield(u), pid, retval);
        YieldFresh(u);
      }
    } else {
      Spared(s, pid, retval);
    }
  }

  lemma Spared(s: State, pid: nat, retval: int)
    requires !Killable(s, pid)
    ensures Kill(s, pid, retval) == s
  {
  }

  lemma TerminatedClock(s: State, pid: nat, retval: int)
    requires Inv(s) && Killable(s, pid)
    ensures Terminate(s, pid, retval).remaining == if Awaited(s.procs, pid) then 0 else s.remaining
  {
    DieFacts(s, pid, retval);
    WakeEndsQuantum(s, Die(s, pid, retval), pid, retval);
    hide Inv, Die, Bequeath;
  }

  // ---------------------------------------------------------------- Ctrl+C

  /** The next interrupt clears the flag that Ctrl+C raised. It kills the current process with result
      -1 if that is not the idle process, reads the keyboard, is alive and may be killed, and switches
      to another; to all others it is like an interrupt without the flag. */
  lemma CtrlCRule(s: State)
    requires Inv(s)
    ensures Step(s, OpCtrlC) == s.(killFlag := true)
    ensures var t := Step(s, OpTick);
            && !t.killFlag
            && if s.killFlag && s.current in s.procs && s.current != 0 && s.procs[s.current].stdin
                  && !s.procs[s.current].unkillable && s.procs[s.current].status != Zombie
               then Slain(s, t, s.current, -1) && PickedFrom(t, s.level)
               else t == Step(s.(killFlag := false), OpTick)
  {
    var u := s.(killFlag := false);
    Unflagged(s);
    hide Inv, Terminate, Yield, Slain, Halted, Buried, Awaited, Schedule, GiveUp, PickedFrom;
    if s.current in s.procs {
      SlotBelow(s, s.current);
    }
    if CtrlC(s) {
      var v := Terminate(u, s.current, -1);
      TerminateKeeps(u, s.current, -1);
      TerminateRule(u, s.current, -1);
      DeadHalted(u, v, s.current, -1);
      HaltedGivesUp(v);
      SlainLeft(u, v, GiveUp(v), s.current, -1);
      SlainUnflagged(s, GiveUp(v), s.current);
      GiveUpFresh(v);
    } else {
      TickedFlag(u);
    }
  }

  lemma SlainUnflagged(s: State, t: State, pid: nat)
    requires pid in s.procs && Slain(s.(killFlag := false), t, pid, -1)
    ensures Slain(s, t, pid, -1)
  {
    ListsOf(s, s.(killFlag := false));
    hide ListAt;
  }

  lemma TickedFlag(s: State)
    requires Inv(s) && !s.killFlag
    ensures !Schedule(s).killFlag
  {
    Peopled(s);
    hide Inv, Switch, Fresh;
    if s.procs != map[] && s.remaining <= 1 {
      ScheduleFresh(s);
      hide Schedule;
      assert !Schedule(s).killFlag by { FreshFlag(Schedule(s), s.level); }
    }
  }

  lemma FreshFlag(t: State, level: nat)
    requires Fresh(t, level)
    ensures !t.killFlag
  {
  }

  // ---------------------------------------------------------------- waiting

  /** One entry, which carries `pid`, has left the list; the others kept their order. */
  ghost predicate EntryLeft(l: seq<Node>, l': seq<Node>, pid: nat) {
    exists i: nat :: i < |l| && l[i].pid == pid && l' == l[..i] + l[i + 1..]
  }

  lemma {:induction false} WithoutPidLeaves(l: seq<Node>, n: Node)
    requires n in l
    ensures EntryLeft(l, WithoutPid(l, n.pid), n.pid)
  {
    if l[0].pid == n.pid {
      assert l[..0] + l[1..] == l[1..];
    } else {
      var tail, rest := l[1..], WithoutPid(l[1..], n.pid);
      WithoutPidLeaves(tail, n);
      var i: nat :| i < |tail| && tail[i].pid == n.pid && rest == tail[..i] + tail[i + 1..];
      LeavesTail(l, tail, rest, i);
    }
  }

  lemma LeavesTail(l: seq<Node>, tail: seq<Node>, rest: seq<Node>, i: nat)
    requires l != [] && tail == l[1..] && i < |tail| && rest == tail[..i] + tail[i + 1..]
    ensures [l[0]] + rest == l[..i + 1] + l[i + 2..] && l[i + 1] == tail[i]
  {
  }

  /** The current process has taken its dead child: slot and entry of the child are gone, and it waits
      for nobody. */
  ghost predicate Took(s: State, t: State, child: nat)
    requires s.current in s.procs
  {
    var p := s.procs[s.current];
    && child != s.current && SameClock(s, t) && t.foreground == 0 && t.count == s.count - 1
    && t.ready == s.ready && t.blocked == s.blocked
    && t.procs.Keys == s.procs.Keys - {child} && s.current in t.procs
    && EntryLeft(p.zombies, t.procs[s.current].zombies, child)
    && t.procs[s.current] == p.(waiting := 0, zombies := t.procs[s.current].zombies)
    && forall q :: q in t.procs && q != s.current ==> t.procs[q] == s.procs[q]
  }

  /** A zombie child is no other than its parent's and stands in the list of it. */
  lemma ChildListed(s: State, child: nat)
    requires Inv(s) && s.current in s.procs && child in s.procs
    requires s.procs[child].status == Zombie && s.procs[child].parent == s.current
    ensures child != s.current && Node(s.procs[child].node, child) in s.procs[s.current].zombies
  {
    OkOf(s, child);
    assert AtHome(s, child);
  }

  lemma Takes(s: State, child: nat, n: Node)
    requires s.current in s.procs && s.procs[s.current].waiting == child && child in s.procs && child != s.current
    requires n in s.procs[s.current].zombies && n.pid == child
    ensures Took(s, WaitFinish(s), child)
  {
    hide EntryLeft, WithoutPid;
    WithoutPidLeaves(s.procs[s.current].zombies, n);
    var p := s.procs[s.current];
    var q := p.(zombies := WithoutPid(p.zombies, child));
    var t := WaitFinish(s);
    assert t.procs == (s.procs[s.current := q] - {child})[s.current := q.(waiting := 0)];
  }

  /** Behind its `yield` the caller takes the child it waited for, a zombie by now, whose result it
      returns. */
  lemma WaitFinishRule(s: State)
    requires Inv(s) && Settled(s) && InWait(s)
    ensures var child := s.procs[s.current].waiting;
            && child in s.procs && s.procs[child].status == Zombie && s.procs[child].parent == s.current
            && WaitResult(s) == s.procs[child].retval
            && Took(s, Step(s, OpWaitFinish), child)
  {
    hide Inv, WaitFinish, Took;
    OkOf(s, s.current);
    var child := s.procs[s.current].waiting;
    ChildListed(s, child);
    Takes(s, child, Node(s.procs[child].node, child));
  }

  /** The caller sleeps, last among the blocked, waiting for its child, which holds the keyboard; the
      sleep costs it a level and the yield another, and its count starts again. */
  ghost predicate FellAsleep(s: State, t: State, child: nat)
    requires s.current in s.procs
  {
    var p := s.procs[s.current];
    var slept := if p.priority > 0 then p.priority - 1 else 0;
    && s.current in t.procs && s.current != t.current
    && var p' := t.procs[s.current];
    && p' == p.(status := Blocked, waiting := child, consumed := 0, node := p'.node,
                priority := if s.initial <= 0 || slept == 0 then slept else slept - 1)
    && AtEnd(ListAt(t, BlockedQ), s.current)
    && t.foreground == child && t.procs.Keys == s.procs.Keys
    && (forall q :: q in s.procs && q != s.current ==>
          t.procs[q] == s.procs[q].(status := if q == t.current then Running else s.procs[q].status))
    && forall place :: place != BlockedQ && place != ReadyQ(p.priority) ==> ListAt(t, place) == ListAt(s, place)
  }

  /** `waitpid` is refused for a pid that is no child of the caller. A dead child is taken at once;
      for a living one the caller goes to sleep and another process is picked. */
  lemma WaitBeginRule(s: State, pid: nat)
    requires Inv(s) && Settled(s) && !InWait(s) && s.current != IDLE_PID && !CtrlC(s)
    ensures var t := Step(s, OpWaitBegin(pid));
            if pid !in s.procs || s.current !in s.procs || s.procs[pid].parent != s.current then t == s
            else if s.procs[pid].status == Zombie then Took(s, t, pid)
            else s.procs[s.current].status == Running ==> FellAsleep(s, t, pid) && Fresh(t, s.level)
  {
    hide Inv, WaitFinish, Took, FellAsleep, Fresh, SetStatus, Yield, Await;
    if pid in s.procs && s.current in s.procs && s.procs[pid].parent == s.current {
      SlotBelow(s, pid);
      assert CanWait(s, pid);
      AliveNow(s);
      if s.procs[pid].status == Zombie {
        TakesAtOnce(s, pid);
      } else if s.procs[s.current].status == Running {
        GoesToSleep(s, pid);
      }
    }
  }

  lemma TakesAtOnce(s: State, child: nat)
    requires Inv(s) && s.current in s.procs && s.procs[s.current].waiting == 0 && child in s.procs
    requires s.procs[child].status == Zombie && s.procs[child].parent == s.current && s.current != IDLE_PID
    ensures Took(s, WaitFinish(Await(s, child)), child)
  {
    hide Inv, WaitFinish;
    ChildListed(s, child);
    var u := Await(s, child);
    assert u.procs[s.current].zombies == s.procs[s.current].zombies;
    Takes(u, child, Node(s.procs[child].node, child));
    assert u.procs.Keys == s.procs.Keys;
  }

  lemma GoesToSleep(s: State, child: nat)
    requires Inv(s) && CanWait(s, child) && s.current != IDLE_PID && !CtrlC(s) && s.procs[s.current].waiting == 0
    requires s.procs[child].status != Zombie && s.procs[s.current].status == Running
    ensures FellAsleep(s, WaitBegin(s, child), child) && Fresh(WaitBegin(s, child), s.level)
  {
    hide Inv, SetStatus, Await, Yield, FellAsleep, Fresh, CtrlC, Left, Halted;
    AsleepKeeps(s, child);
    AsleepExists(s, child);
    AsleepLevel(s, child);
    AsleepFlag(s, child);
    AsleepMoves(s, child);
    var u := SetStatus(Await(s, child), s.current, Blocked);
    HaltedYields(u);
    YieldFresh(u);
    AsleepLeft(s, u, Yield(u), child);
  }

  /** The state in which the caller has gone to sleep and has yet to yield. */
  ghost predicate Dozed(s: State, u: State, child: nat)
    requires s.current in s.procs
  {
    var p := s.procs[s.current].(waiting := child);
    var p' := p.(status := Blocked, priority := if p.priority > 0 then p.priority - 1 else 0, consumed := 0);
    && u.current == s.current && u.initial == s.initial && u.foreground == child
    && u.procs == s.procs[s.current := p'.(node := s.nextNode)]
    && AtEnd(ListAt(u, BlockedQ), s.current)
    && forall place :: place != BlockedQ && place != ReadyQ(p.priority) ==> ListAt(u, place) == ListAt(s, place)
  }

  lemma AsleepMoves(s: State, child: nat)
    requires Inv(s) && CanWait(s, child) && s.current != IDLE_PID && s.procs[s.current].status == Running
    ensures var u := SetStatus(Await(s, child), s.current, Blocked); Dozed(s, u, child) && Halted(u)
  {
    AwaitKeeps(s, child);
    OkOf(s, s.current);
    var t, p := Await(s, child), s.procs[s.current].(waiting := child);
    PutAside(s, s.current, p);
    ListsOf(Put(s, s.current, p), t);
    SleptHome(p);
    hide Inv, Listed, ListAt, Move;
    MoveListed(t, s.current, Slept(p), false);
    LastThere(t, Move(t, s.current, Slept(p), false), s.current, Slept(p));
    Overwritten(s.procs, s.current, p, Slept(p).(node := s.nextNode));
  }

  lemma AsleepLeft(s: State, u: State, t: State, child: nat)
    requires s.current in s.procs && Dozed(s, u, child) && Left(u, t)
    ensures FellAsleep(s, t, child)
  {
    hide ListAt;
    assert u.procs[s.current].status == Blocked;
  }
}
