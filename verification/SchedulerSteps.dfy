/** Switching, yielding, dying, being born and waiting keep the scheduler's invariant. */
module SchedulerSteps {
  import opened SchedulerSpec
  import opened SchedulerLists
  import opened SchedulerInvariant

  /** After a switch exactly the current process runs, and it is the idle process exactly when no
      other can run. */
  ghost predicate OneRuns(s: State) {
    && s.current in s.procs && s.procs[s.current].status == Running
    && (forall pid :: pid in s.procs && s.procs[pid].status == Running ==> pid == s.current)
    && |s.ready| == NUM_PRIORITIES
    && (s.current == IDLE_PID <==> forall k :: 0 <= k < NUM_PRIORITIES ==> s.ready[k] == [])
  }

  /** Between kernel calls the current process is alive, and running if it has a child to take. */
  ghost predicate Settled(s: State) {
    (s.procs == map[] && s.current == IDLE_PID)
    || (&& s.current in s.procs && s.procs[s.current].status != Zombie
        && (s.procs[s.current].waiting != 0 ==> s.procs[s.current].status == Running))
  }

  lemma SwitchKeeps(s: State)
    requires Inv(s) && s.procs != map[]
    ensures Inv(Switch(s)) && OneRuns(Switch(s)) && Switch(s).procs.Keys == s.procs.Keys
  {
    hide Preempt, Pick, Dispatch, Inv, NoneRuns;
    PreemptKeeps(s);
    var t := Preempt(s);
    PickKeeps(t);
    var u := Pick(t);
    PickSame(t);
    DispatchKeeps(u);
    DispatchSame(u);
    RunningIsCurrent(Dispatch(u));
    FiveQueues(t);
  }

  lemma FiveQueues(s: State)
    requires Inv(s)
    ensures |s.ready| == NUM_PRIORITIES && s.level < NUM_PRIORITIES
  {
  }

  lemma PickSame(s: State)
    ensures Pick(s) == s.(current := Pick(s).current, level := Pick(s).level)
  {
  }

  lemma DispatchSame(s: State)
    requires s.current in s.procs
    ensures var t := Dispatch(s);
            && t.ready == s.ready && t.current == s.current && t.procs.Keys == s.procs.Keys
            && t.procs[t.current] == s.procs[s.current].(status := Running)
  {
  }

  lemma ScheduleKeeps(s: State)
    requires Inv(s)
    ensures Inv(Schedule(s)) && (s.remaining <= 1 && s.procs != map[] ==> OneRuns(Schedule(s)))
    ensures s.remaining <= 1 && s.procs != map[] ==> Settled(Schedule(s))
    ensures Settled(s) ==> Settled(Schedule(s))
  {
    hide Switch, Listed, ProcsOk;
    Retimed(s, s.remaining - 1);
    if s.count != 0 && s.remaining <= 1 {
      SwitchKeeps(Ticked(s));
    }
  }

  lemma DemoteKeeps(s: State)
    requires Inv(s)
    ensures Inv(Demote(s)) && Demote(s).procs.Keys == s.procs.Keys && Demote(s).current == s.current
  {
    hide Inv, SetPriority, Reprioritised;
    if s.current in s.procs && s.initial > 0 {
      var p := s.procs[s.current];
      var t := if p.priority > 0 then SetPriority(s, s.current, p.priority - 1) else s;
      if p.priority > 0 {
        SetPriorityKeeps(s, s.current, p.priority - 1);
        SetPriorityFacts(s, s.current, p.priority - 1);
        assert Reprioritised(s, t, s.current);
        SameKeys(s, t, s.current);
      }
      CountKeeps(t, s.current, 0);
    }
  }

  lemma SameKeys(s: State, t: State, pid: nat)
    requires Reprioritised(s, t, pid)
    ensures t.procs.Keys == s.procs.Keys && t.current == s.current
  {
  }

  lemma CountKeeps(s: State, pid: nat, consumed: nat)
    requires Inv(s) && pid in s.procs
    ensures Inv(Put(s, pid, s.procs[pid].(consumed := consumed)))
  {
    OkOf(s, pid);
    var p := s.procs[pid];
    assert Compatible(p, p.(consumed := consumed), s.current, pid);
    hide Inv, Compatible;
    PutKeeps(s, pid, p.(consumed := consumed));
  }

  lemma GiveUpKeeps(s: State)
    requires Inv(s) && s.procs != map[]
    ensures Inv(GiveUp(s)) && OneRuns(GiveUp(s)) && Settled(GiveUp(s))
  {
    hide Inv, Demote, Schedule;
    DemoteKeeps(s);
    Retimed(Demote(s), 0);
    ScheduleKeeps(Demote(s).(remaining := 0));
    assert Demote(s).procs.Keys == s.procs.Keys;
  }

  // ---------------------------------------------------------------- dying

  /** `q` is a zombie child of `pid`. */
  ghost predicate Child(procs: map<nat, Proc>, pid: nat, q: nat) {
    q in procs && q != IDLE_PID && q != pid && Home(procs[q]) == ZombiesOf(pid)
  }

  /** Only the zombie children of `pid` are gone, and nobody but `pid` has changed. */
  ghost predicate OnlyChildrenGone(procs: map<nat, Proc>, procs': map<nat, Proc>, pid: nat) {
    && (forall q :: q in procs' <==> q in procs && !Child(procs, pid, q))
    && (forall q :: q in procs' && q != pid ==> procs'[q] == procs[q])
  }

  /** No zombie child of `pid` has zombie children of its own. */
  ghost predicate Childless(procs: map<nat, Proc>, pid: nat) {
    forall q :: Child(procs, pid, q) ==> procs[q].zombies == []
  }

  /** Reaping takes away exactly the zombie children. */
  lemma {:induction false} Reaped(s: State, pid: nat)
    requires Listed(s, {IDLE_PID, pid}) && pid in s.procs
    requires Childless(s.procs, pid)
    ensures var t := Reap(s, pid);
            && Listed(t, {IDLE_PID, pid}) && t.ready == s.ready && t.blocked == s.blocked
            && SameClock(s, t) && t.count - |t.procs| == s.count - |s.procs|
            && OnlyChildrenGone(s.procs, t.procs, pid)
            && pid in t.procs && t.procs[pid] == s.procs[pid].(zombies := [])
    decreases |Zombies(s, pid)|
  {
    var zombies := Zombies(s, pid);
    if zombies == [] {
      forall q | q in s.procs
        ensures !Child(s.procs, pid, q)
      {
        assert q != IDLE_PID && q != pid ==> AtHome(s, q);
      }
      assert s.procs[pid] == s.procs[pid].(zombies := []);
    } else {
      var z := zombies[0].pid;
      var t := ReapStep(s, pid, z);
      StillChildless(s.procs, t.procs, pid, z);
      hide Listed, OnlyChildrenGone, OneGone, Child, Childless;
      Reaped(t, pid);
      OneMoreGone(s.procs, t.procs, Reap(t, pid).procs, pid, z);
    }
  }

  /** The child `z` of `pid` is gone, and nobody but `pid` has changed. */
  ghost predicate OneGone(procs: map<nat, Proc>, procs': map<nat, Proc>, pid: nat, z: nat) {
    && Child(procs, pid, z)
    && (forall q :: q in procs' <==> q in procs && q != z)
    && (forall q :: q in procs' && q != pid ==> procs'[q] == procs[q])
  }

  lemma StillChildless(procs: map<nat, Proc>, procs': map<nat, Proc>, pid: nat, z: nat)
    requires OneGone(procs, procs', pid, z) && Childless(procs, pid)
    ensures Childless(procs', pid)
  {
    assert forall q :: Child(procs', pid, q) ==> Child(procs, pid, q);
  }

  lemma OneMoreGone(procs: map<nat, Proc>, mid: map<nat, Proc>, procs': map<nat, Proc>, pid: nat, z: nat)
    requires OneGone(procs, mid, pid, z) && OnlyChildrenGone(mid, procs', pid)
    ensures OnlyChildrenGone(procs, procs', pid)
  {
    assert forall q :: Child(procs, pid, q) <==> Child(mid, pid, q) || q == z;
  }

  lemma ReapStep(s: State, pid: nat, z: nat) returns (t: State)
    requires Listed(s, {IDLE_PID, pid}) && pid in s.procs
    requires Childless(s.procs, pid)
    requires Zombies(s, pid) != [] && z == Zombies(s, pid)[0].pid
    ensures t == Drop(SetList(s, ZombiesOf(pid), Zombies(s, pid)[1..]), z)
    ensures Listed(t, {IDLE_PID, pid}) && pid in t.procs && OneGone(s.procs, t.procs, pid, z)
    ensures Zombies(t, pid) == Zombies(s, pid)[1..] && t.ready == s.ready && t.blocked == s.blocked
    ensures SameClock(s, t) && t.count - |t.procs| == s.count - |s.procs|
    ensures t.procs[pid] == s.procs[pid].(zombies := t.procs[pid].zombies)
  {
    var out := {IDLE_PID, pid};
    var zombies := Zombies(s, pid);
    assert zombies[0] in ListAt(s, ZombiesOf(pid));
    assert OnHome(s, out, zombies[0], ZombiesOf(pid));
    assert Child(s.procs, pid, z);
    UnlinkListed(s, out, z);
    var u := SetList(s, ZombiesOf(pid), zombies[1..]);
    assert u == Unlink(s, z);
    DropListed(u, out + {z}, z);
    t := Drop(u, z);
    ForgetListed(t, out + {z}, z);
    assert out + {z} - {z} == out;
  }

  /** A zombie has no zombie children: its parent would be a zombie. */
  lemma ZombiesReaped(s: State, z: nat)
    requires Inv(s) && z in s.procs && s.procs[z].status == Zombie
    ensures s.procs[z].zombies == []
  {
    if s.procs[z].zombies != [] {
      var n := s.procs[z].zombies[0];
      assert n in ListAt(s, ZombiesOf(z));
      assert OnHome(s, {IDLE_PID}, n, ZombiesOf(z));
      OkOf(s, n.pid);
    }
  }

  /** `t` is `s` with `pid` a zombie of its own and without its zombie children. */
  ghost predicate Dead(s: State, t: State, pid: nat, retval: int) {
    && pid in s.procs && pid in t.procs && SameClock(s, t)
    && |t.ready| == |s.ready| && t.count == |t.procs|
    && OnlyChildrenGone(s.procs, t.procs, pid)
    && t.procs[pid] == s.procs[pid].(zombies := [], status := Zombie, retval := retval)
  }

  lemma DieFacts(s: State, pid: nat, retval: int)
    requires Inv(s) && Killable(s, pid)
    ensures pid != IDLE_PID && Listed(Die(s, pid, retval), {IDLE_PID, pid})
    ensures Dead(s, Die(s, pid, retval), pid, retval)
  {
    var v := GoneFromLists(s, pid);
    var p := v.procs[pid].(status := Zombie, retval := retval);
    OnePut(s.procs, v.procs, pid, p);
    hide Inv, Listed, Unlink, Reap, ListAt, OnlyChildrenGone;
    PutListed(v, {IDLE_PID, pid}, pid, p);
    var t := Die(s, pid, retval);
    SameLists(Put(v, pid, p), t, {IDLE_PID, pid});
  }

  lemma OnePut(procs: map<nat, Proc>, procs': map<nat, Proc>, pid: nat, p: Proc)
    requires OnlyChildrenGone(procs, procs', pid) && pid in procs'
    ensures OnlyChildrenGone(procs, procs'[pid := p], pid) && |procs'[pid := p]| == |procs'|
  {
    assert procs'[pid := p].Keys == procs'.Keys;
  }

  lemma GoneFromLists(s: State, pid: nat) returns (v: State)
    requires Inv(s) && Killable(s, pid)
    ensures v == Reap(Unlink(s, pid), pid) && pid != IDLE_PID && Listed(v, {IDLE_PID, pid})
    ensures SameClock(s, v)
    ensures |v.ready| == |s.ready| && v.count == |v.procs|
    ensures OnlyChildrenGone(s.procs, v.procs, pid)
    ensures pid in v.procs && v.procs[pid] == s.procs[pid].(zombies := [])
  {
    OkOf(s, pid);
    UnlinkListed(s, {IDLE_PID}, pid);
    assert {IDLE_PID} + {pid} == {IDLE_PID, pid};
    forall q | Child(s.procs, pid, q)
      ensures s.procs[q].zombies == []
    {
      ZombiesReaped(s, q);
    }
    assert AtHome(s, pid);
    hide Inv, Listed, ListAt, Child, OnlyChildrenGone, Unlink;
    Reaped(Unlink(s, pid), pid);
    v := Reap(Unlink(s, pid), pid);
  }

  ghost predicate Wakes(procs: map<nat, Proc>, pid: nat) {
    && pid in procs && procs[pid].parent in procs
    && procs[procs[pid].parent].waiting == pid && procs[procs[pid].parent].status == Blocked
  }

  /** Nothing that bears on others' well-being differs. */
  ghost predicate Alike(p: Proc, q: Proc) {
    q == p.(zombies := q.zombies, node := q.node)
  }

  /** What a death does to the table. */
  ghost predicate Buried(procs: map<nat, Proc>, procs': map<nat, Proc>, pid: nat, retval: int) {
    && pid in procs
    && var parent := procs[pid].parent;
    && var kept := parent in procs && procs[parent].status != Zombie;
    && (forall q :: q in procs' <==> q in procs && !Child(procs, pid, q) && (q == pid ==> kept))
    && (forall q :: q in procs' && q != pid && !(q == parent && Wakes(procs, pid)) ==> Alike(procs[q], procs'[q]))
    && (pid in procs' ==> Alike(procs[pid].(status := Zombie, retval := retval), procs'[pid]))
    && (kept && Wakes(procs, pid) ==> parent in procs' && Alike(Woken(procs[parent]), procs'[parent]))
  }

  lemma BuriedOk(procs: map<nat, Proc>, procs': map<nat, Proc>, current: nat, pid: nat, retval: int)
    requires ProcsOk(procs, current) && pid in procs && procs[pid].status != Zombie && !procs[pid].unkillable
    requires Buried(procs, procs', pid, retval)
    ensures ProcsOk(procs', current)
  {
    assert ProcOk(procs, current, pid);
    forall q | q in procs'
      ensures ProcOk(procs', current, q)
    {
      assert ProcOk(procs, current, q);
      if q != pid {
        SurvivorOk(procs, procs', current, pid, retval, q);
      }
    }
  }

  lemma SurvivorOk(procs: map<nat, Proc>, procs': map<nat, Proc>, current: nat, pid: nat, retval: int, q: nat)
    requires ProcOk(procs, current, q) && ProcOk(procs, current, pid) && ProcsOk(procs, current)
    requires procs[pid].status != Zombie && !procs[pid].unkillable
    requires Buried(procs, procs', pid, retval) && q in procs' && q != pid
    ensures ProcOk(procs', current, q)
  {
    hide ProcsOk;
    var p := procs[q];
    if p.waiting != 0 && p.status != Zombie {
      assert WaitOk(procs, q, p.waiting);
    }
  }

  lemma ParentKept(s: State, t: State, pid: nat, retval: int)
    requires Inv(s) && Killable(s, pid) && Dead(s, t, pid, retval)
    ensures var parent := s.procs[pid].parent;
            && parent == t.procs[pid].parent && parent != pid && pid != IDLE_PID
            && (HasParent(t, parent) <==> parent in s.procs && s.procs[parent].status != Zombie)
            && (HasParent(t, parent) ==> t.procs[parent] == s.procs[parent])
            && (Wakes(s.procs, pid) ==> parent != IDLE_PID)
  {
    OkOf(s, pid);
    var parent := s.procs[pid].parent;
    if parent in s.procs {
      OkOf(s, parent);
    }
  }

  lemma OrphanBuried(s: State, t: State, pid: nat, retval: int)
    requires Inv(s) && Killable(s, pid) && Dead(s, t, pid, retval) && !HasParent(t, t.procs[pid].parent)
    requires Listed(t, {IDLE_PID, pid})
    ensures var u := Bequeath(t, pid);
            && Listed(u, {IDLE_PID}) && Buried(s.procs, u.procs, pid, retval) && SameClock(s, u)
            && |u.ready| == |s.ready| && u.count == |u.procs|
  {
    ParentKept(s, t, pid, retval);
    OrphanProcs(s.procs, t.procs, pid, retval);
    hide Inv, Listed, Child, Buried, OnlyChildrenGone;
    assert Zombies(t, pid) == [];
    DropListed(t, {IDLE_PID, pid}, pid);
    hide ListAt;
    ForgetListed(Drop(t, pid), {IDLE_PID, pid}, pid);
    assert {IDLE_PID, pid} - {pid} == {IDLE_PID};
    assert |t.procs - {pid}| == |t.procs| - 1 by {
      assert (t.procs - {pid}).Keys == t.procs.Keys - {pid};
    }
  }

  lemma OrphanProcs(procs: map<nat, Proc>, mid: map<nat, Proc>, pid: nat, retval: int)
    requires pid in procs && pid in mid && OnlyChildrenGone(procs, mid, pid)
    requires var parent := procs[pid].parent; !(parent in procs && procs[parent].status != Zombie)
    ensures Buried(procs, mid - {pid}, pid, retval)
  {
  }

  /** The zombie enters its parent's list. */
  lemma ZombieLinked(s: State, t: State, pid: nat, retval: int)
    requires Inv(s) && Killable(s, pid) && Dead(s, t, pid, retval) && HasParent(t, t.procs[pid].parent)
    requires Listed(t, {IDLE_PID, pid})
    ensures var u := Link(t, pid, false);
            && Listed(u, {IDLE_PID}) && SameClock(s, u) && |u.ready| == |s.ready| && u.count == |u.procs|
            && AllAlike(t.procs, u.procs)
  {
    ParentKept(s, t, pid, retval);
    hide Listed, Inv, ListAt, OnlyChildrenGone, Link, Child, LinkFacts, AllAlike;
    LinkListed(t, {IDLE_PID, pid}, pid, false);
    assert {IDLE_PID, pid} - {pid} == {IDLE_PID};
    LinkAlike(t, pid, false);
  }

  lemma LinkAlike(s: State, pid: nat, front: bool)
    requires pid in s.procs && LinkFacts(s, pid, front)
    ensures var t := Link(s, pid, front);
            SameCore(s, t) && |t.ready| == |s.ready| && AllAlike(s.procs, t.procs) && |t.procs| == |s.procs|
  {
    var t := Link(s, pid, front);
    var procs := s.procs[pid := s.procs[pid].(node := s.nextNode)];
    hide Link, ListAt, Home;
    assert t.procs.Keys == procs.Keys == s.procs.Keys;
    forall q | q in s.procs
      ensures Alike(s.procs[q], t.procs[q])
    {
      assert t.procs[q] == procs[q].(zombies := t.procs[q].zombies);
    }
  }

  ghost predicate AllAlike(procs: map<nat, Proc>, procs': map<nat, Proc>) {
    procs'.Keys == procs.Keys && forall q :: q in procs ==> Alike(procs[q], procs'[q])
  }

  lemma HeirBuried(s: State, t: State, pid: nat, retval: int)
    requires Inv(s) && Killable(s, pid) && Dead(s, t, pid, retval) && HasParent(t, t.procs[pid].parent)
    requires Listed(t, {IDLE_PID, pid})
    ensures var u := Bequeath(t, pid);
            && Listed(u, {IDLE_PID}) && Buried(s.procs, u.procs, pid, retval)
               && SameClock(s, u.(remaining := s.remaining))
            && |u.ready| == |s.ready| && u.count == |u.procs| && (u.remaining == s.remaining || u.remaining == 0)
  {
    ZombieLinked(s, t, pid, retval);
    ParentKept(s, t, pid, retval);
    var parent, u := t.procs[pid].parent, Link(t, pid, false);
    HeirProcs(s.procs, t.procs, u.procs, pid, retval);
    assert parent in u.procs && parent < MAX_PROCESSES && pid in u.procs && Alike(t.procs[parent], u.procs[parent]);
    hide Inv, Listed, ListAt, OnlyChildrenGone, AllAlike, Buried, Link, Child;
    if Wakes(s.procs, pid) {
      HeirWakes(u, parent);
    }
  }

  lemma HeirWakes(u: State, parent: nat)
    requires Listed(u, {IDLE_PID}) && parent in u.procs && parent != IDLE_PID && parent < MAX_PROCESSES
    requires u.procs[parent].status == Blocked && |u.ready| == NUM_PRIORITIES
    ensures var v := SetStatus(u, parent, Ready);
            && Listed(v, {IDLE_PID}) && v.procs == u.procs[parent := Woken(u.procs[parent]).(node := u.nextNode)]
            && v.count == u.count && v.foreground == u.foreground && |v.ready| == |u.ready| && v.remaining == 0
            && SameClock(u, v.(remaining := u.remaining)) && |v.procs| == |u.procs|
  {
    var p := Woken(u.procs[parent]);
    assert Movable(u, parent, p);
    hide Listed, Move, ListAt, Movable, Woken;
    MoveListed(u, parent, p, true);
    var v := Move(u, parent, p, true);
    SameLists(v, v.(remaining := 0), {IDLE_PID});
    assert SetStatus(u, parent, Ready) == v.(remaining := 0);
    assert v.procs.Keys == u.procs.Keys;
  }

  lemma HeirProcs(procs: map<nat, Proc>, mid: map<nat, Proc>, procs': map<nat, Proc>, pid: nat, retval: int)
    requires pid in procs && pid in mid && OnlyChildrenGone(procs, mid, pid) && AllAlike(mid, procs')
    requires mid[pid] == procs[pid].(zombies := [], status := Zombie, retval := retval)
    requires var parent := procs[pid].parent; parent != pid && parent in procs && procs[parent].status != Zombie
    ensures !Wakes(procs, pid) ==> Buried(procs, procs', pid, retval)
    ensures Wakes(procs, pid) ==>
              var parent := procs[pid].parent;
              parent in procs' && forall n :: Buried(procs, procs'[parent := Woken(procs'[parent]).(node := n)],
                pid, retval)
  {
  }

  lemma BuriedTable(s: State, t: State, pid: nat, retval: int)
    requires Table(s) && ProcsOk(s.procs, s.current) && Killable(s, pid) && Buried(s.procs, t.procs, pid, retval)
    requires SameClock(s, t.(remaining := s.remaining)) && t.remaining <= 64
    requires |t.ready| == |s.ready| && t.count == |t.procs|
    ensures Table(t) && IDLE_PID in t.procs && SameClock(s, t.(remaining := s.remaining))
    ensures s.current in s.procs && s.current != pid && s.procs[s.current].status != Zombie ==>
              s.current in t.procs
  {
    assert ProcOk(s.procs, s.current, IDLE_PID) && ProcOk(s.procs, s.current, pid);
  }

  /** Nothing is left of a dying process but a zombie in its living parent's list, and a parent
      that waits for it is awake. */
  lemma TerminateKeeps(s: State, pid: nat, retval: int)
    requires Inv(s)
    ensures var t := Terminate(s, pid, retval);
            && Inv(t) && (s.procs != map[] ==> t.procs != map[]) && t.current == s.current
            && SameClock(s, t.(remaining := s.remaining)) && (t.remaining == s.remaining || t.remaining == 0)
            && (Killable(s, pid) ==> Buried(s.procs, t.procs, pid, retval))
  {
    if Killable(s, pid) {
      var d, t := Die(s, pid, retval), Terminate(s, pid, retval);
      DieFacts(s, pid, retval);
      assert pid in d.procs && s.remaining <= 64;
      hide Die, Listed, Dead, Buried, Bequeath, ProcsOk, Table;
      if HasParent(d, d.procs[pid].parent) {
        HeirBuried(s, d, pid, retval);
      } else {
        OrphanBuried(s, d, pid, retval);
      }
      BuriedTable(s, t, pid, retval);
      BuriedOk(s.procs, t.procs, s.current, pid, retval);
    }
  }

  lemma StillSettled(s: State, t: State, pid: nat, retval: int)
    requires Inv(s) && Settled(s) && pid != s.current && s.procs != map[] && pid in s.procs
    requires Buried(s.procs, t.procs, pid, retval) && t.current == s.current && Killable(s, pid)
    ensures Settled(t)
  {
    OkOf(s, pid);
    CurrentKept(s.procs, t.procs, s.current, pid, retval);
    hide Inv, Buried;
  }

  lemma CurrentKept(procs: map<nat, Proc>, procs': map<nat, Proc>, current: nat, pid: nat, retval: int)
    requires Buried(procs, procs', pid, retval) && current != pid && current in procs
    requires procs[current].status != Zombie && (procs[current].waiting != 0 ==> procs[current].status == Running)
    requires ProcOk(procs, current, pid) && (Wakes(procs, pid) ==> pid != IDLE_PID)
    ensures current in procs' && Alike(procs[current], procs'[current])
  {
    assert !(Wakes(procs, pid) && procs[pid].parent == current);
  }

  lemma TickKeeps(s: State)
    requires Inv(s)
    ensures Inv(Tick(s)) && (Settled(s) ==> Settled(Tick(s)))
    ensures s.procs != map[] && (s.remaining <= 1 || CtrlC(s)) ==> OneRuns(Tick(s)) && Settled(Tick(s))
  {
    var t := s.(killFlag := false);
    SameLists(s, t, {IDLE_PID});
    assert Inv(t) && (Settled(s) ==> Settled(t));
    hide Inv, Schedule, GiveUp, Terminate, Settled, OneRuns;
    if CtrlC(s) {
      TerminateKeeps(t, s.current, -1);
      GiveUpKeeps(Terminate(t, s.current, -1));
    } else {
      ScheduleKeeps(t);
    }
  }

  lemma YieldKeeps(s: State)
    requires Inv(s) && s.procs != map[]
    ensures Inv(Yield(s)) && OneRuns(Yield(s)) && Settled(Yield(s))
  {
    hide Inv, Demote, Tick, OneRuns, Settled;
    DemoteKeeps(s);
    Retimed(Demote(s), 0);
    TickKeeps(Demote(s).(remaining := 0));
    assert Demote(s).procs.Keys == s.procs.Keys;
  }

  lemma KillKeeps(s: State, pid: nat, retval: int)
    requires Inv(s) && Settled(s)
    ensures Inv(Kill(s, pid, retval)) && Settled(Kill(s, pid, retval))
    ensures Killable(s, pid) && pid == s.current ==> OneRuns(Kill(s, pid, retval))
  {
    TerminateKeeps(s, pid, retval);
    var t := Terminate(s, pid, retval);
    if Killable(s, pid) {
      assert s.procs != map[];
      if pid == s.current {
        hide Inv, Terminate, Yield, Buried;
        YieldKeeps(t);
      } else {
        StillSettled(s, t, pid, retval);
      }
    }
  }

  // ---------------------------------------------------------------- being born

  lemma BornListed(s: State, pid: nat, p: Proc)
    requires Listed(s, {IDLE_PID}) && pid !in s.procs && p.zombies == []
    ensures Listed(Put(s, pid, p), {IDLE_PID, pid})
  {
    var t := Put(s, pid, p);
    assert forall place :: ListAt(t, place) == ListAt(s, place);
    hide ListAt, Distinct;
    forall place, n | n in ListAt(t, place)
      ensures OnHome(t, {IDLE_PID, pid}, n, place)
    {
      assert n in ListAt(s, place) && OnHome(s, {IDLE_PID}, n, place);
    }
    forall q | q in t.procs && q !in {IDLE_PID, pid}
      ensures AtHome(t, q)
    {
      assert AtHome(s, q);
    }
    assert forall place :: Distinct(ListAt(s, place));
  }

  lemma BornOk(procs: map<nat, Proc>, current: nat, pid: nat, p: Proc)
    requires ProcsOk(procs, current) && pid !in procs && p.parent == current && (pid == IDLE_PID || current in procs)
    requires p.status == Ready && p.waiting == 0 && p.priority < NUM_PRIORITIES && (pid == IDLE_PID ==> p.unkillable)
    ensures ProcsOk(procs[pid := p], current)
  {
    forall q | q == pid || q in procs
      ensures ProcOk(procs[pid := p], current, q)
    {
      assert q != pid ==> ProcOk(procs, current, q);
    }
  }

  lemma {:induction false} SlotsSearched(procs: map<nat, Proc>, pid: nat, tries: nat, d: nat)
    requires pid < MAX_PROCESSES && FreeSlot(procs, pid, tries) in procs && d <= tries
    ensures (pid + d) % MAX_PROCESSES in procs
    decreases tries
  {
    if tries > 0 && d > 0 {
      SlotsSearched(procs, (pid + 1) % MAX_PROCESSES, tries - 1, d - 1);
      assert ((pid + 1) % MAX_PROCESSES + (d - 1)) % MAX_PROCESSES == (pid + d) % MAX_PROCESSES;
    }
  }

  lemma {:induction false} AllBelow(n: nat, keys: set<nat>)
    requires forall q :: 0 <= q < n ==> q in keys
    ensures |keys| >= n
    decreases n
  {
    if n > 0 {
      AllBelow(n - 1, keys - {n - 1});
    }
  }

  lemma {:induction false} FreeSlotBelow(procs: map<nat, Proc>, pid: nat, tries: nat)
    requires pid < MAX_PROCESSES
    ensures FreeSlot(procs, pid, tries) < MAX_PROCESSES
    decreases tries
  {
    if tries > 0 {
      FreeSlotBelow(procs, (pid + 1) % MAX_PROCESSES, tries - 1);
    }
  }

  /** How far the slot `q` is from `pid` around the table. */
  function Ahead(pid: nat, q: nat): (d: nat)
    requires pid < MAX_PROCESSES && q < MAX_PROCESSES
    ensures d < MAX_PROCESSES && (pid + d) % MAX_PROCESSES == q
  {
    if q >= pid then q - pid else q + MAX_PROCESSES - pid
  }

  /** The pid search ends on a free slot exactly when there is one. */
  lemma FreeSlotFound(procs: map<nat, Proc>, pid: nat)
    requires pid < MAX_PROCESSES && forall q :: q in procs ==> q < MAX_PROCESSES
    ensures var found := FreeSlot(procs, pid, MAX_PROCESSES);
            found < MAX_PROCESSES && (found !in procs <==> |procs| < MAX_PROCESSES)
  {
    var found := FreeSlot(procs, pid, MAX_PROCESSES);
    FreeSlotBelow(procs, pid, MAX_PROCESSES);
    if found in procs {
      forall q | 0 <= q < MAX_PROCESSES
        ensures q in procs.Keys
      {
        SlotsSearched(procs, pid, MAX_PROCESSES, Ahead(pid, q));
      }
      AllBelow(MAX_PROCESSES, procs.Keys);
    } else {
      Bounded(MAX_PROCESSES, procs.Keys, found);
    }
  }

  lemma {:induction false} Bounded(n: nat, keys: set<nat>, gap: nat)
    requires (forall q :: q in keys ==> q < n) && gap < n && gap !in keys
    ensures |keys| < n
    decreases n
  {
    if n - 1 == gap {
      AtMost(n - 1, keys);
    } else {
      Bounded(n - 1, keys - {n - 1}, gap);
    }
  }

  lemma {:induction false} AtMost(n: nat, keys: set<nat>)
    requires forall q :: q in keys ==> q < n
    ensures |keys| <= n
    decreases n
  {
    if n == 0 {
      assert keys == {};
    } else {
      AtMost(n - 1, keys - {n - 1});
    }
  }

  lemma CreateKeeps(s: State, priority: nat, unkillable: bool, stdin: bool, oom: bool)
    requires Inv(s) && Settled(s) && s.count + 1 < MAX_PROCESSES && (s.procs == map[] ==> unkillable)
    ensures var t := Create(s, priority, unkillable, stdin, oom);
            Inv(t) && Settled(t)
  {
    if !oom {
      var u := Born(s, priority, unkillable, stdin);
      var t := Create(s, priority, unkillable, stdin, oom);
      BornTable(s, u, t, s.nextUnused);
      hide Listed, Table, ProcsOk, Link;
      SameLists(u, t, {IDLE_PID});
    }
  }

  lemma BornTable(s: State, u: State, t: State, pid: nat)
    requires Inv(s) && Settled(s) && s.count + 1 < MAX_PROCESSES && pid == s.nextUnused
    requires pid in u.procs && u.procs == s.procs[pid := u.procs[pid]] && SameCore(s, u) && |u.ready| == |s.ready|
    requires var p := u.procs[pid];
             p.parent == s.current && p.status == Ready && p.waiting == 0 && p.priority < NUM_PRIORITIES
    requires s.procs == map[] ==> u.procs[pid].unkillable
    requires t == u.(nextUnused := t.nextUnused, count := t.count)
             && t.nextUnused == FreeSlot(u.procs, pid, MAX_PROCESSES)
    requires t.count == u.count + 1
    ensures Table(t) && ProcsOk(t.procs, t.current) && Settled(t)
  {
    BornOk(s.procs, s.current, pid, u.procs[pid]);
    hide Listed, ProcsOk;
    assert u.procs.Keys == s.procs.Keys + {pid};
    FreeSlotFound(u.procs, pid);
  }

  /** The new process in its slot and in its queue; the idle process is in none. */
  lemma Born(s: State, priority: nat, unkillable: bool, stdin: bool) returns (u: State)
    requires Inv(s) && s.count < MAX_PROCESSES
    ensures var t := Create(s, priority, unkillable, stdin, false);
            && t == u.(nextUnused := t.nextUnused, count := t.count)
            && t.nextUnused == FreeSlot(u.procs, s.nextUnused, MAX_PROCESSES) && t.count == u.count + 1
    ensures Listed(u, {IDLE_PID}) && SameCore(s, u) && |u.ready| == |s.ready|
    ensures var p := NewProc(s.current, priority, unkillable, stdin);
            u.procs == s.procs[s.nextUnused := p.(node := s.nextNode)]
              && u.procs[s.nextUnused] == p.(node := s.nextNode)
  {
    var pid, p := s.nextUnused, NewProc(s.current, priority, unkillable, stdin);
    var t := Put(s, pid, p);
    BornListed(s, pid, p);
    Overwritten(s.procs, pid, p, p.(node := s.nextNode));
    hide Listed;
    if pid == IDLE_PID {
      u := Put(t, pid, p.(node := t.nextNode)).(nextNode := t.nextNode + 1);
      assert {IDLE_PID, IDLE_PID} == {IDLE_PID};
      PutListed(t, {IDLE_PID}, pid, p.(node := t.nextNode));
      SameLists(Put(t, pid, p.(node := t.nextNode)), u, {IDLE_PID});
    } else {
      u := Link(t, pid, false);
      hide ListAt, Link;
      assert Home(p) == ReadyQ(p.priority);
      LinkListed(t, {IDLE_PID, pid}, pid, false);
      assert {IDLE_PID, pid} - {pid} == {IDLE_PID};
    }
  }

  // ---------------------------------------------------------------- waiting

  lemma {:induction false} FirstWithPid(list: seq<Node>, n: Node)
    requires n in list && forall m :: m in list && m.pid == n.pid ==> m == n
    ensures WithoutPid(list, n.pid) == Remove(list, n)
  {
    if list[0] != n {
      assert list[0].pid != n.pid by {
        assert list[0] in list;
      }
      assert forall m :: m in list[1..] ==> m in list;
      FirstWithPid(list[1..], n);
    }
  }

  /** Taking a zombie child out of the list finds it there and empties its slot. */
  lemma TakeListed(s: State, child: nat)
    requires Listed(s, {IDLE_PID}) && child in s.procs && child != IDLE_PID && child != s.current
    requires s.procs[child].status == Zombie && s.procs[child].parent == s.current && s.procs[child].zombies == []
    ensures var t := Drop(SetList(s, ZombiesOf(s.current), WithoutPid(Zombies(s, s.current), child)), child);
            && Listed(t, {IDLE_PID}) && SameClock(s, t) && |t.ready| == |s.ready| && t.count == s.count - 1
            && AllAlike(s.procs - {child}, t.procs)
  {
    hide Listed, ListAt, SetList, WithoutPid;
    UnlinkTakes(s, child);
    UnlinkListed(s, {IDLE_PID}, child);
    var u := Unlink(s, child);
    OthersListed(s, s.current, WithoutPid(Zombies(s, s.current), child), child);
    hide Unlink;
    TakenListed(u, child);
    assert forall q :: q in s.procs ==> Alike(s.procs[q], u.procs[q]);
  }

  lemma OthersListed(s: State, pid: nat, list: seq<Node>, q: nat)
    requires q in s.procs && q != pid
    ensures q in SetList(s, ZombiesOf(pid), list).procs && SetList(s, ZombiesOf(pid), list).procs[q] == s.procs[q]
  {
  }

  lemma UnlinkTakes(s: State, child: nat)
    requires Listed(s, {IDLE_PID}) && child in s.procs && child != IDLE_PID
    requires s.procs[child].status == Zombie && s.procs[child].parent == s.current
    ensures Unlink(s, child) == SetList(s, ZombiesOf(s.current), WithoutPid(Zombies(s, s.current), child))
  {
    hide Listed, ListAt, SetList, WithoutPid;
    FirstIsChild(s, child);
  }

  lemma FirstIsChild(s: State, child: nat)
    requires Listed(s, {IDLE_PID}) && child in s.procs && child != IDLE_PID
    requires s.procs[child].status == Zombie && s.procs[child].parent == s.current
    ensures WithoutPid(Zombies(s, s.current), child) == Remove(Zombies(s, s.current), Node(s.procs[child].node, child))
  {
    var n := Node(s.procs[child].node, child);
    assert AtHome(s, child);
    forall m | m in Zombies(s, s.current) && m.pid == child
      ensures m == n
    {
      assert m in ListAt(s, ZombiesOf(s.current)) && OnHome(s, {IDLE_PID}, m, ZombiesOf(s.current));
    }
    FirstWithPid(Zombies(s, s.current), n);
  }

  lemma TakenListed(u: State, child: nat)
    requires Listed(u, {IDLE_PID} + {child}) && child in u.procs && child != IDLE_PID && u.procs[child].zombies == []
    ensures Listed(Drop(u, child), {IDLE_PID})
  {
    hide Listed;
    DropListed(u, {IDLE_PID} + {child}, child);
    ForgetListed(Drop(u, child), {IDLE_PID} + {child}, child);
    assert {IDLE_PID} + {child} - {child} == {IDLE_PID};
  }

  lemma ClearWaitKeeps(s: State)
    requires Inv(s) && s.current in s.procs
    ensures Inv(Put(s, s.current, s.procs[s.current].(waiting := 0)))
  {
    var p := s.procs[s.current].(waiting := 0);
    OkOf(s, s.current);
    assert ProcsOk(s.procs[s.current := p], s.current) by {
      forall q | q in s.procs
        ensures ProcOk(s.procs[s.current := p], s.current, q)
      {
        assert ProcOk(s.procs, s.current, q);
      }
    }
    hide ProcsOk, ProcOk;
    PutListed(s, {IDLE_PID}, s.current, p);
    assert s.procs[s.current := p].Keys == s.procs.Keys;
    hide Listed;
  }

  lemma TakenOk(procs: map<nat, Proc>, mid: map<nat, Proc>, current: nat, child: nat)
    requires ProcsOk(procs, current) && current in procs && procs[current].waiting == 0
    requires child in procs && child != current && procs[child].status == Zombie && procs[child].parent == current
    requires AllAlike(procs - {child}, mid) && current in mid
    ensures ProcsOk(mid, current)
  {
    assert ProcOk(procs, current, child);
    forall q | q in mid
      ensures ProcOk(mid, current, q)
    {
      assert q in procs - {child} && Alike(procs[q], mid[q]);
      assert ProcOk(procs, current, q);
    }
  }

  /** The state in which the child has left the list and the table, and the caller still waits. */
  function Taken(s: State, child: nat): State {
    Drop(SetList(s, ZombiesOf(s.current), WithoutPid(Zombies(s, s.current), child)), child)
  }

  lemma TakenKeeps(s: State, child: nat)
    requires Inv(s) && s.current in s.procs && s.procs[s.current].waiting == 0
    requires child in s.procs && child != IDLE_PID
    requires s.procs[child].status == Zombie && s.procs[child].parent == s.current
    ensures Inv(Taken(s, child)) && AllAlike(s.procs - {child}, Taken(s, child).procs) && child != s.current
    ensures SameClock(s, Taken(s, child))
  {
    OkOf(s, child);
    ZombiesReaped(s, child);
    TakeListed(s, child);
    var t := Taken(s, child);
    assert IDLE_PID in s.procs && s.nextUnused !in s.procs && s.remaining <= 64;
    assert forall q :: q in s.procs ==> q < MAX_PROCESSES;
    hide Listed, ListAt, SetList, WithoutPid;
    TakenOk(s.procs, t.procs, s.current, child);
    hide ProcsOk;
    assert t.procs.Keys == s.procs.Keys - {child};
  }

  /** Whether and for whom the caller waits does not bear on taking the child out. */
  lemma AwaitCommutes(s: State, child: nat)
    requires s.current in s.procs && s.procs[s.current].waiting == 0 && child in s.procs && child != s.current
    ensures var t := Taken(s, child); s.current in t.procs && t.procs[s.current].waiting == 0
    ensures WaitFinish(Await(s, child)) == Taken(s, child).(foreground := 0)
  {
    var p := s.procs[s.current];
    var list := WithoutPid(p.zombies, child);
    var u := WaitFinish(Await(s, child));
    assert u.procs == s.procs[s.current := p.(zombies := list)] - {child};
  }

  /** The parent takes its dead child: the slot is empty and nobody waits for it any more. */
  lemma FinishKeeps(s: State, child: nat)
    requires Inv(s) && s.current in s.procs && s.procs[s.current].waiting == 0 && s.procs[s.current].status != Zombie
    requires child in s.procs && child != IDLE_PID
    requires s.procs[child].status == Zombie && s.procs[child].parent == s.current
    ensures var t := WaitFinish(Await(s, child));
            && Inv(t) && Settled(t) && t.current == s.current && AllAlike(s.procs - {child}, t.procs)
  {
    TakenKeeps(s, child);
    AwaitCommutes(s, child);
    var t := Taken(s, child);
    hide Listed, ProcsOk, WaitFinish, Await, Taken;
    assert Alike((s.procs - {child})[s.current], t.procs[s.current]);
    SameLists(t, t.(foreground := 0), {IDLE_PID});
  }

  lemma WaitFinishKeeps(s: State)
    requires Inv(s) && Settled(s) && InWait(s)
    ensures Inv(WaitFinish(s)) && Settled(WaitFinish(s))
    ensures var b := Put(s, s.current, s.procs[s.current].(waiting := 0));
            AllAlike(b.procs - {s.procs[s.current].waiting}, WaitFinish(s).procs)
  {
    OkOf(s, s.current);
    var child := s.procs[s.current].waiting;
    OkOf(s, child);
    ClearWaitKeeps(s);
    var b := Put(s, s.current, s.procs[s.current].(waiting := 0));
    hide Inv, AllAlike, WaitFinish, Await;
    FinishKeeps(b, child);
    AwaitRestores(s);
    ForegroundAside(s, child);
  }

  lemma AwaitRestores(s: State)
    requires InWait(s)
    ensures var child := s.procs[s.current].waiting;
            Await(Put(s, s.current, s.procs[s.current].(waiting := 0)), child) == s.(foreground := child)
  {
    Overwritten(s.procs, s.current, s.procs[s.current].(waiting := 0), s.procs[s.current]);
    assert s.procs[s.current := s.procs[s.current]] == s.procs;
  }

  lemma ForegroundAside(s: State, foreground: nat)
    requires s.current in s.procs && s.procs[s.current].waiting in s.procs && s.procs[s.current].waiting != s.current
    ensures WaitFinish(s.(foreground := foreground)) == WaitFinish(s)
  {
  }

  /** A process that begins to wait sleeps until its child is dead. */
  lemma AsleepKeeps(s: State, child: nat)
    requires Inv(s) && CanWait(s, child) && s.current != IDLE_PID
    requires s.procs[s.current].waiting == 0 && s.procs[s.current].status != Zombie && s.procs[child].status != Zombie
    ensures Inv(SetStatus(Await(s, child), s.current, Blocked))
  {
    OkOf(s, s.current);
    OkOf(s, child);
    AwaitKeeps(s, child);
    AsleepOk(s.procs, s.current, child);
    hide Inv, Listed, ProcsOk, ProcOk, Slept, Table, ListAt, Move, AtHome;
    var t, p := Await(s, child), s.procs[s.current].(waiting := child);
    assert t.procs == s.procs[s.current := p];
    if p.status != Blocked {
      Overwritten(s.procs, s.current, p, Slept(p).(node := t.nextNode));
      SleptHome(p);
      assert Movable(t, s.current, Slept(p));
      hide Await, Movable;
      FallsAsleep(t, s.current);
    }
  }

  lemma AwaitKeeps(s: State, child: nat)
    requires Inv(s) && s.current in s.procs
    ensures Listed(Await(s, child), {IDLE_PID}) && Table(Await(s, child))
  {
    var p := s.procs[s.current].(waiting := child);
    PutListed(s, {IDLE_PID}, s.current, p);
    SameLists(Put(s, s.current, p), Await(s, child), {IDLE_PID});
    hide Listed, ProcsOk, ListAt;
    assert s.procs[s.current := p].Keys == s.procs.Keys;
  }

  lemma SleptHome(p: Proc)
    ensures Home(Slept(p)) == BlockedQ && Slept(p).zombies == p.zombies
  {
  }

  lemma SleptCount(p: Proc)
    ensures Slept(p).status == Blocked && Slept(p).consumed == 0 && Slept(p).waiting == p.waiting
  {
  }

  lemma FallsAsleep(s: State, pid: nat)
    requires Listed(s, {IDLE_PID}) && Table(s) && CanChange(s, pid) && Movable(s, pid, Slept(s.procs[pid]))
    requires s.procs[pid].status != Blocked && s.procs[pid].status != Zombie
    requires ProcsOk(s.procs[pid := Slept(s.procs[pid]).(node := s.nextNode)], s.current)
    ensures Inv(SetStatus(s, pid, Blocked))
  {
    hide Listed, ProcsOk, ListAt, Table, Move, Slept, Movable;
    MoveListed(s, pid, Slept(s.procs[pid]), false);
    MovedTable(s, Move(s, pid, Slept(s.procs[pid]), false), pid, Slept(s.procs[pid]));
  }

  lemma MovedTable(s: State, t: State, pid: nat, p: Proc)
    requires Table(s) && pid in s.procs && Moved(s, t, pid, p, false)
    ensures Table(t) && t.current == s.current
  {
    assert t.procs.Keys == s.procs.Keys;
    hide ListAt;
  }

  lemma AsleepOk(procs: map<nat, Proc>, current: nat, child: nat)
    requires ProcsOk(procs, current) && current in procs && current != IDLE_PID && procs[current].status != Zombie
    requires child in procs && child != current && procs[child].parent == current && procs[child].status != Zombie
    ensures procs[current].status == Blocked ==> ProcsOk(procs[current := procs[current].(waiting := child)], current)
    ensures forall n :: ProcsOk(procs[current := Slept(procs[current].(waiting := child)).(node := n)], current)
  {
    forall p | (p == procs[current].(waiting := child) && p.status == Blocked)
               || p == Slept(procs[current].(waiting := child)).(node := p.node)
      ensures ProcsOk(procs[current := p], current)
    {
      forall q | q in procs
        ensures ProcOk(procs[current := p], current, q)
      {
        assert ProcOk(procs, current, q);
      }
    }
  }
}
