/** Every process in exactly one list, and what leaving and entering a list does to that. */
module SchedulerLists {
  import opened SchedulerSpec

  ghost predicate Distinct(list: seq<Node>) {
    forall i, j :: 0 <= i < j < |list| ==> list[i] != list[j]
  }

  /** A node of a list is the one its process's slot points at, and the list is that process's own. */
  ghost predicate OnHome(s: State, out: set<nat>, n: Node, place: Place) {
    n.pid in s.procs && n.pid !in out && s.procs[n.pid].node == n.id && Home(s.procs[n.pid]) == place
  }

  ghost predicate AtHome(s: State, pid: nat) {
    pid in s.procs && Node(s.procs[pid].node, pid) in ListAt(s, Home(s.procs[pid]))
  }

  /** Every process but those of `out` is in its own list, on the node of its slot, once, and in no other. */
  ghost predicate Listed(s: State, out: set<nat>) {
    && (forall place, n :: n in ListAt(s, place) ==> OnHome(s, out, n, place))
    && (forall pid :: pid in s.procs && pid !in out ==> AtHome(s, pid))
    && (forall place :: Distinct(ListAt(s, place)))
  }

  ghost predicate Exists(s: State, place: Place) {
    match place
    case ReadyQ(l) => l < |s.ready|
    case BlockedQ => true
    case ZombiesOf(p) => p in s.procs
  }

  /** Neither the clock nor the choice of process differs. */
  ghost predicate SameClock(s: State, t: State) {
    && t.current == s.current && t.nextUnused == s.nextUnused && t.level == s.level
    && t.remaining == s.remaining && t.initial == s.initial && t.killFlag == s.killFlag
  }

  ghost predicate SameCore(s: State, t: State) {
    SameClock(s, t) && t.count == s.count && t.foreground == s.foreground
  }

  /** Nothing but lists and node numbers differ. */
  ghost predicate SameButLists(s: State, t: State) {
    && SameCore(s, t)
    && |t.ready| == |s.ready| && t.procs.Keys == s.procs.Keys
    && forall q :: q in s.procs ==> t.procs[q] == s.procs[q].(zombies := t.procs[q].zombies)
  }

  lemma SetListFacts(s: State, place: Place, list: seq<Node>)
    requires Exists(s, place)
    ensures var t := SetList(s, place, list);
            && SameButLists(s, t) && t.nextNode == s.nextNode
            && ListAt(t, place) == list && forall q :: q != place ==> ListAt(t, q) == ListAt(s, q)
    ensures !place.ZombiesOf? ==> SetList(s, place, list).procs == s.procs
  {
  }

  lemma {:induction false} Removed(list: seq<Node>, n: Node)
    requires Distinct(list)
    ensures Distinct(Remove(list, n)) && forall x :: x in Remove(list, n) <==> x in list && x != n
  {
    if list != [] && list[0] != n {
      Removed(list[1..], n);
      assert list == [list[0]] + list[1..];
      var rest := Remove(list[1..], n);
      forall k | 0 <= k < |rest|
        ensures rest[k] != list[0]
      {
        assert rest[k] in list[1..];
      }
    }
  }

  lemma UnlinkListed(s: State, out: set<nat>, pid: nat)
    requires Listed(s, out) && pid in s.procs && pid !in out
    ensures var t := Unlink(s, pid);
            && Listed(t, out + {pid}) && SameButLists(s, t) && t.nextNode == s.nextNode
            && forall place :: place != Home(s.procs[pid]) ==> ListAt(t, place) == ListAt(s, place)
    ensures !Home(s.procs[pid]).ZombiesOf? ==> Unlink(s, pid).procs == s.procs
  {
    var home, n := Home(s.procs[pid]), Node(s.procs[pid].node, pid);
    var t := Unlink(s, pid);
    assert AtHome(s, pid) && Exists(s, home);
    Removed(ListAt(s, home), n);
    SetListFacts(s, home, Remove(ListAt(s, home), n));
    hide ListAt, SetList, Remove, Unlink, Distinct;
    assert forall q :: q in s.procs ==> Home(t.procs[q]) == Home(s.procs[q]);
    forall place, m | m in ListAt(t, place)
      ensures OnHome(t, out + {pid}, m, place)
    {
      assert m in ListAt(s, place) && OnHome(s, out, m, place);
    }
    forall q | q in t.procs && q !in out + {pid}
      ensures AtHome(t, q)
    {
      assert AtHome(s, q);
    }
    assert forall place :: Distinct(ListAt(t, place));
  }

  lemma PutListed(s: State, out: set<nat>, pid: nat, p: Proc)
    requires Listed(s, out) && pid in s.procs && p.zombies == s.procs[pid].zombies
    requires pid in out || (Home(p) == Home(s.procs[pid]) && p.node == s.procs[pid].node)
    ensures Listed(Put(s, pid, p), out)
    ensures forall place :: ListAt(Put(s, pid, p), place) == ListAt(s, place)
  {
    var t := Put(s, pid, p);
    assert forall place :: ListAt(t, place) == ListAt(s, place);
    hide ListAt, Distinct;
    forall place, m | m in ListAt(t, place)
      ensures OnHome(t, out, m, place)
    {
      assert m in ListAt(s, place) && OnHome(s, out, m, place);
    }
    forall q | q in t.procs && q !in out
      ensures AtHome(t, q)
    {
      assert AtHome(s, q);
    }
    assert forall place :: Distinct(ListAt(s, place));
  }

  lemma Entered(list: seq<Node>, n: Node, front: bool)
    requires Distinct(list) && n !in list
    ensures var more := if front then [n] + list else list + [n];
            Distinct(more) && forall x :: x in more <==> x in list || x == n
  {
  }

  /** The node of `pid`'s slot enters the list that is `pid`'s own. */
  lemma EnterListed(s: State, out: set<nat>, pid: nat, n: Node, home: Place, front: bool)
    requires Listed(s, out) && pid in s.procs && pid in out
    requires n == Node(s.procs[pid].node, pid) && home == Home(s.procs[pid]) && Exists(s, home)
    ensures var list := if front then [n] + ListAt(s, home) else ListAt(s, home) + [n];
            Listed(SetList(s, home, list), out - {pid})
  {
    var list := if front then [n] + ListAt(s, home) else ListAt(s, home) + [n];
    var t := SetList(s, home, list);
    SetListFacts(s, home, list);
    assert n in ListAt(s, home) ==> OnHome(s, out, n, home);
    assert Distinct(ListAt(s, home));
    Entered(ListAt(s, home), n, front);
    hide ListAt, SetList, Distinct;
    assert forall q :: q in s.procs ==> Home(t.procs[q]) == Home(s.procs[q]);
    forall place, m | m in ListAt(t, place)
      ensures OnHome(t, out - {pid}, m, place)
    {
      if !(m == n && place == home) {
        assert m in ListAt(s, place) && OnHome(s, out, m, place);
      }
    }
    forall q | q in t.procs && q !in out - {pid}
      ensures AtHome(t, q)
    {
      if q != pid {
        assert AtHome(s, q);
      }
    }
    forall place
      ensures Distinct(ListAt(t, place))
    {
      assert Distinct(ListAt(s, place));
    }
  }

  lemma LinkListed(s: State, out: set<nat>, pid: nat, front: bool)
    requires Listed(s, out) && pid in s.procs && pid in out && Exists(s, Home(s.procs[pid]))
    ensures Listed(Link(s, pid, front), out - {pid})
    ensures LinkFacts(s, pid, front)
  {
    var home, n := Home(s.procs[pid]), Node(s.nextNode, pid);
    var p := s.procs[pid].(node := n.id);
    var u := Put(s, pid, p).(nextNode := s.nextNode + 1);
    PutListed(s, out, pid, p);
    SameLists(Put(s, pid, p), u, out);
    EnterListed(u, out, pid, n, home, front);
    var list := if front then [n] + ListAt(s, home) else ListAt(s, home) + [n];
    SetListFacts(u, home, list);
    assert Link(s, pid, front) == SetList(u, home, list);
    hide Listed, ListAt, SetList;
  }

  lemma SameLists(s: State, t: State, out: set<nat>)
    requires Listed(s, out) && t.procs == s.procs && t.ready == s.ready && t.blocked == s.blocked
    ensures Listed(t, out) && forall place :: ListAt(t, place) == ListAt(s, place)
  {
    assert forall place :: ListAt(t, place) == ListAt(s, place);
    hide ListAt, Distinct;
    forall place, m | m in ListAt(t, place)
      ensures OnHome(t, out, m, place)
    {
      assert m in ListAt(s, place) && OnHome(s, out, m, place);
    }
    forall q | q in t.procs && q !in out
      ensures AtHome(t, q)
    {
      assert AtHome(s, q);
    }
    assert forall place :: Distinct(ListAt(s, place));
  }

  /** What entering a list changes: the slot's node, the list, and nothing else. */
  ghost predicate LinkFacts(s: State, pid: nat, front: bool)
    requires pid in s.procs
  {
    var home, n, t := Home(s.procs[pid]), Node(s.nextNode, pid), Link(s, pid, front);
    var procs := s.procs[pid := s.procs[pid].(node := s.nextNode)];
    && SameButLists(s.(procs := procs), t)
    && (!home.ZombiesOf? ==> t.procs == procs)
    && ListAt(t, home) == (if front then [n] + ListAt(s, home) else ListAt(s, home) + [n])
    && forall place :: place != home ==> ListAt(t, place) == ListAt(s, place)
  }

  lemma DropListed(s: State, out: set<nat>, pid: nat)
    requires Listed(s, out) && pid in out && Zombies(s, pid) == []
    ensures Listed(Drop(s, pid), out)
    ensures forall place :: ListAt(Drop(s, pid), place) == ListAt(s, place)
  {
    var t := Drop(s, pid);
    assert forall place :: ListAt(t, place) == ListAt(s, place);
    hide ListAt, Distinct;
    forall place, m | m in ListAt(t, place)
      ensures OnHome(t, out, m, place)
    {
      assert m in ListAt(s, place) && OnHome(s, out, m, place);
    }
    forall q | q in t.procs && q !in out
      ensures AtHome(t, q)
    {
      assert AtHome(s, q);
    }
    assert forall place :: Distinct(ListAt(s, place));
  }

  /** A process outside `procs` need not be kept out of the lists. */
  lemma ForgetListed(s: State, out: set<nat>, pid: nat)
    requires Listed(s, out) && pid !in s.procs
    ensures Listed(s, out - {pid})
  {
    hide ListAt, Distinct;
    forall place, m | m in ListAt(s, place)
      ensures OnHome(s, out - {pid}, m, place)
    {
      assert OnHome(s, out, m, place);
    }
  }
}
