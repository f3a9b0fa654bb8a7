/** How `buddy_add_memory` carves a zone, and what the free counters add up to. */
module BuddyInit {
  import opened Dyadic
  import opened BuddySpec
  import opened BuddySteps
  import opened Intervals

  /** The largest order up to `o` whose blocks are aligned at `frame` and fit in `nr` frames. */
  function GreedyOrder(frame: nat, nr: nat, o: nat): (r: nat)
    ensures r <= o
  {
    if o == 0 then 0
    else if Aligned(frame, o) && nr >= Pow2(o) then o
    else GreedyOrder(frame, nr, o - 1)
  }

  lemma {:induction false} GreedyOrderIsLargest(frame: nat, nr: nat, o: nat)
    requires nr > 0
    ensures var r := GreedyOrder(frame, nr, o);
            && Aligned(frame, r) && Pow2(r) <= nr
            && forall p :: r < p <= o ==> !(Aligned(frame, p) && nr >= Pow2(p))
  {
    if o > 0 && !(Aligned(frame, o) && nr >= Pow2(o)) {
      GreedyOrderIsLargest(frame, nr, o - 1);
    }
  }

  /** The zone before any memory is added: no frame is on a list. */
  ghost function EmptyZone(base: nat, n: nat): Zone {
    Zone(map x: nat | base <= x < base + n :: Own(false, x, 0), seq(MAX_ORDER + 1, _ => []))
  }

  /** Greedy decomposition of the `nr` frames from `frame` on into free blocks. */
  ghost function GreedyZone(z: Zone, frame: nat, nr: nat): Zone
    requires |z.lists| == MAX_ORDER + 1
    decreases nr
  {
    if nr == 0 then z
    else
      var o := GreedyOrder(frame, nr, MAX_ORDER);
      GreedyOrderIsLargest(frame, nr, MAX_ORDER);
      GreedyZone(Push(z, frame, o), frame + Pow2(o), nr - Pow2(o))
  }

  /** The state of the decomposition when the frames below `frame` have been added. */
  ghost predicate Adding(z: Zone, frame: nat, nr: nat) {
    && Inv(z)
    && (forall x :: x in z.own ==> x < frame + nr)
    && (forall x :: frame <= x < frame + nr ==> x in z.own && z.own[x] == Own(false, x, 0))
    && (forall x :: x in z.own && x < frame ==> z.own[x].free)
    && (forall h: nat, p: nat ::
          FreeHead(z.own, h, p) && p < MAX_ORDER && Aligned(h, p + 1) ==> h + Pow2(p + 1) > frame + nr)
  }

  lemma EmptyIsAdding(base: nat, n: nat)
    ensures Adding(EmptyZone(base, n), base, n)
  {
    var z := EmptyZone(base, n);
    forall x | x in z.own
      ensures InBlock(z.own, x)
    {
      assert forall y :: InRun(y, x, 0) ==> y == x;
    }
    forall o | 0 <= o <= MAX_ORDER
      ensures ListExact(z.own, z.lists[o], o)
    {
    }
  }

  /** The next greedy block, taken in hand: as one live block that has no free buddy to join. */
  lemma GreedyNeverCoalesces(z: Zone, frame: nat, nr: nat, o: nat)
    requires Adding(z, frame, nr) && nr > 0 && o == GreedyOrder(frame, nr, MAX_ORDER)
    ensures var z' := z.(own := Paint(z.own, frame, o, false));
            && InHand(z', frame, o) && (o < MAX_ORDER ==> !FreeHead(z'.own, Buddy(frame, o), o))
            && Push(z', frame, o) == Push(z, frame, o)
  {
    hide Buddy, Canonical, ListsExact, Pow2, Aligned, Tiled;
    GreedyOrderIsLargest(frame, nr, MAX_ORDER);
    var own' := Paint(z.own, frame, o, false);
    GreedyPainted(z.own, own', frame, o);
    SameHeads(z, z.(own := own'));
    if o < MAX_ORDER { NoFreeBuddy(z, frame, nr, o); }
  }

  /** Live frames painted as one live block: no free block comes or goes. */
  lemma GreedyPainted(own: Labels, own': Labels, f: nat, o: nat)
    requires Tiled(own) && o <= MAX_ORDER && Aligned(f, o) && own' == Paint(own, f, o, false)
    requires forall y :: InRun(y, f, o) ==> y in own && !own[y].free && own[y].order == 0
    ensures Tiled(own') && LiveHead(own', f, o) && Paint(own', f, o, true) == Paint(own, f, o, true)
    ensures forall g: nat, p: nat :: FreeHead(own', g, p) <==> FreeHead(own, g, p)
  {
    assert Whole(own, f, o);
    PaintTiled(own, f, o, false);
    assert InRun(f, f, o);
  }

  lemma NoFreeBuddy(z: Zone, frame: nat, nr: nat, o: nat)
    requires Adding(z, frame, nr) && o < MAX_ORDER && Pow2(o) <= nr && Aligned(frame, o)
    requires !(Aligned(frame, o + 1) && nr >= Pow2(o + 1))
    ensures !FreeHead(z.own, Buddy(frame, o), o)
  {
    BuddyHalves(frame, o);
  }

  lemma AddingStep(z: Zone, frame: nat, nr: nat, o: nat)
    requires Adding(z, frame, nr) && nr > 0 && o == GreedyOrder(frame, nr, MAX_ORDER)
    ensures Pow2(o) <= nr && Adding(Push(z, frame, o), frame + Pow2(o), nr - Pow2(o))
    ensures Push(z, frame, o).own.Keys == z.own.Keys
  {
    hide Inv, Pow2, Aligned, Buddy;
    GreedyOrderIsLargest(frame, nr, MAX_ORDER);
    GreedyNeverCoalesces(z, frame, nr, o);
    PushKeeps(z.(own := Paint(z.own, frame, o, false)), frame, o);
    AddingHeads(z, frame, nr, o);
    assert forall x :: frame + Pow2(o) <= x < frame + nr ==> x in z.own && !InRun(x, frame, o);
    assert forall x :: x in z.own && x < frame + Pow2(o) && !InRun(x, frame, o) ==> x < frame;
  }

  lemma AddingHeads(z: Zone, frame: nat, nr: nat, o: nat)
    requires Adding(z, frame, nr) && nr > 0 && o == GreedyOrder(frame, nr, MAX_ORDER)
    ensures forall h: nat, p: nat ::
              FreeHead(Paint(z.own, frame, o, true), h, p) && p < MAX_ORDER && Aligned(h, p + 1) ==>
                h + Pow2(p + 1) > frame + nr
  {
    hide Inv, Pow2, Aligned, Buddy;
    GreedyOrderIsLargest(frame, nr, MAX_ORDER);
    forall h: nat, p: nat | FreeHead(Paint(z.own, frame, o, true), h, p) && p < MAX_ORDER && Aligned(h, p + 1)
      ensures h + Pow2(p + 1) > frame + nr
    {
      if InRun(h, frame, o) {
        assert h == frame && p == o;
      } else {
        assert FreeHead(z.own, h, p);
      }
    }
  }

  lemma GreedyZoneAdds(z: Zone, frame: nat, nr: nat)
    requires |z.lists| == MAX_ORDER + 1 && nr > 0
    ensures var o := GreedyOrder(frame, nr, MAX_ORDER);
            Pow2(o) <= nr && GreedyZone(z, frame, nr) == GreedyZone(Push(z, frame, o), frame + Pow2(o), nr - Pow2(o))
  {
    GreedyOrderIsLargest(frame, nr, MAX_ORDER);
  }

  lemma GreedyZoneDone(z: Zone, frame: nat, nr: nat)
    requires Adding(z, frame, nr)
    ensures |z.lists| == MAX_ORDER + 1
    ensures nr == 0 ==> Inv(z) && GreedyZone(z, frame, nr) == z && FreeFrames(z.own) == z.own.Keys
  {
  }

  /** `mm_init` leaves a canonical zone with every frame free: the one every later run returns to. */
  lemma {:induction false} GreedyIsCanonical(z: Zone, frame: nat, nr: nat)
    requires Adding(z, frame, nr)
    ensures Inv(GreedyZone(z, frame, nr)) && FreeFrames(GreedyZone(z, frame, nr).own) == z.own.Keys
    ensures GreedyZone(z, frame, nr).own.Keys == z.own.Keys
    decreases nr
  {
    hide Adding, FreeFrames, Push, Pow2, GreedyZone, Inv;
    GreedyZoneDone(z, frame, nr);
    if nr > 0 {
      GreedyZoneAdds(z, frame, nr);
      var o := GreedyOrder(frame, nr, MAX_ORDER);
      AddingStep(z, frame, nr, o);
      GreedyIsCanonical(Push(z, frame, o), frame + Pow2(o), nr - Pow2(o));
    }
  }

  /** Whatever was allocated and freed since `mm_init`, once nothing is live the free blocks are
      those of the greedy decomposition. */
  lemma AllFreedIsGreedy(base: nat, n: nat, ops: seq<Op>)
    requires Inv(GreedyZone(EmptyZone(base, n), base, n)) && LegalRun(GreedyZone(EmptyZone(base, n), base, n), ops)
    requires var z := Run(GreedyZone(EmptyZone(base, n), base, n), ops); FreeFrames(z.own) == z.own.Keys
    ensures Run(GreedyZone(EmptyZone(base, n), base, n), ops).own == GreedyZone(EmptyZone(base, n), base, n).own
  {
    EmptyIsAdding(base, n);
    GreedyIsCanonical(EmptyZone(base, n), base, n);
    AllFreedRestores(GreedyZone(EmptyZone(base, n), base, n), ops);
  }

  // ---------------------------------------------------------------- counting

  /** Frames on the lists of order below `k`, counted as `mm_get_stats` does. */
  function ListedFrames(lists: seq<seq<nat>>, k: nat): nat
    requires k <= |lists|
  {
    if k == 0 then 0 else ListedFrames(lists, k - 1) + |lists[k - 1]| * Pow2(k - 1)
  }

  ghost function Cover(l: seq<nat>, o: nat): set<nat> {
    if l == [] then {} else Interval(l[0], Pow2(o)) + Cover(l[1..], o)
  }

  lemma {:induction false} CoverHolds(l: seq<nat>, o: nat)
    ensures forall x :: x in Cover(l, o) <==> exists i :: 0 <= i < |l| && InRun(x, l[i], o)
  {
    if l != [] {
      CoverHolds(l[1..], o);
      IntervalSize(l[0], Pow2(o));
      forall x
        ensures x in Cover(l, o) <==> exists i :: 0 <= i < |l| && InRun(x, l[i], o)
      {
        if x in Cover(l[1..], o) {
          var i :| 0 <= i < |l[1..]| && InRun(x, l[1..][i], o);
          assert InRun(x, l[i + 1], o);
        }
        if i :| 0 <= i < |l| && InRun(x, l[i], o) {
          if i > 0 {
            assert InRun(x, l[1..][i - 1], o);
          }
        }
      }
    }
  }

  lemma {:induction false} CoverSize(l: seq<nat>, o: nat)
    requires forall i :: 0 <= i < |l| ==> Aligned(l[i], o)
    requires forall i, j :: 0 <= i < j < |l| ==> l[i] != l[j]
    ensures |Cover(l, o)| == |l| * Pow2(o)
  {
    if l != [] {
      CoverSize(l[1..], o);
      IntervalSize(l[0], Pow2(o));
      CoverDisjoint(l, o);
      OneMore(|l[1..]|, Pow2(o));
    }
  }

  lemma OneMore(n: nat, p: nat)
    ensures (n + 1) * p == n * p + p
  {
  }

  lemma CoverDisjoint(l: seq<nat>, o: nat)
    requires l != [] && forall i :: 0 <= i < |l| ==> Aligned(l[i], o)
    requires forall i, j :: 0 <= i < j < |l| ==> l[i] != l[j]
    ensures Interval(l[0], Pow2(o)) !! Cover(l[1..], o)
  {
    IntervalSize(l[0], Pow2(o));
    CoverHolds(l[1..], o);
    forall x | x in Cover(l[1..], o)
      ensures x !in Interval(l[0], Pow2(o))
    {
      var i :| 0 <= i < |l[1..]| && InRun(x, l[1..][i], o);
      var g := l[i + 1];
      assert l[0] != g;
      if InRun(x, l[0], o) {
        SameRun(l[0], g, o, x);
      }
    }
  }

  lemma SameRun(f: nat, g: nat, o: nat, x: nat)
    requires Aligned(f, o) && Aligned(g, o) && InRun(x, f, o) && InRun(x, g, o)
    ensures f == g
  {
    Swallows(f, o, g, o, x);
    Swallows(g, o, f, o, x);
  }

  ghost function FramesBelow(own: Labels, k: nat): set<nat> {
    set x | x in own && own[x].free && own[x].order < k
  }

  lemma {:induction false} ListedAreFree(z: Zone, k: nat)
    requires Inv(z) && k <= MAX_ORDER + 1
    ensures |FramesBelow(z.own, k)| == ListedFrames(z.lists, k)
  {
    if k == 0 {
      assert FramesBelow(z.own, 0) == {};
    } else {
      var o, l := k - 1, z.lists[k - 1];
      ListedAreFree(z, o);
      assert ListExact(z.own, l, o);
      forall i | 0 <= i < |l|
        ensures Aligned(l[i], o)
      {
        assert l[i] in l;
        assert InBlock(z.own, l[i]);
      }
      CoverSize(l, o);
      CoverIsOrder(z.own, l, o);
      assert FramesBelow(z.own, k) == FramesBelow(z.own, o) + Cover(l, o);
      assert FramesBelow(z.own, o) !! Cover(l, o);
    }
  }

  lemma CoverIsOrder(own: Labels, l: seq<nat>, o: nat)
    requires Tiled(own) && ListExact(own, l, o)
    ensures forall x :: x in Cover(l, o) <==> x in own && own[x].free && own[x].order == o
  {
    CoverHolds(l, o);
    forall x: nat
      ensures x in Cover(l, o) <==> x in own && own[x].free && own[x].order == o
    {
      if x in Cover(l, o) {
        var i :| 0 <= i < |l| && InRun(x, l[i], o);
        assert l[i] in l;
        assert InBlock(own, l[i]);
      }
      if x in own && own[x].free && own[x].order == o {
        assert InBlock(own, x);
        assert InRun(own[x].start, own[x].start, o);
        assert FreeHead(own, own[x].start, o);
        var i :| 0 <= i < |l| && l[i] == own[x].start;
      }
    }
  }

  /** The free figure of `mm_get_stats` counts exactly the free frames. */
  lemma StatsCountFreeFrames(z: Zone)
    requires Inv(z)
    ensures ListedFrames(z.lists, MAX_ORDER + 1) == |FreeFrames(z.own)|
  {
    ListedAreFree(z, MAX_ORDER + 1);
    assert FramesBelow(z.own, MAX_ORDER + 1) == FreeFrames(z.own) by {
      forall x | x in FreeFrames(z.own)
        ensures x in FramesBelow(z.own, MAX_ORDER + 1)
      {
        assert InBlock(z.own, x);
      }
    }
  }
}
