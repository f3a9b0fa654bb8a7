/** Which block is granted, and in which order blocks stand in the free lists. */
module BuddyOrder {
  import opened Dyadic
  import opened BuddySpec
  import opened BuddySteps

  // ---------------------------------------------------------------- granting

  /** The head of list `c` is taken; of its upper halves each becomes the head of its own list. */
  ghost predicate HalvesListed(lists: seq<seq<nat>>, lists': seq<seq<nat>>, f: nat, c: nat, o: nat) {
    && |lists'| == |lists|
    && forall p :: 0 <= p < |lists| ==> lists'[p] == if o <= p < c then [f + Pow2(p)] + lists[p] else lists[p]
  }

  lemma {:induction false} SplitOrder(z: Zone, f: nat, c: nat, o: nat)
    requires c <= MAX_ORDER && |z.lists| == MAX_ORDER + 1 && o <= c
    ensures HalvesListed(z.lists, SplitZone(z, f, c, o).lists, f, c, o)
    decreases c
  {
    hide Pow2, Halved;
    if o < c {
      SplitOrder(Halve(z, f, c - 1), f, c - 1, o);
    }
  }

  lemma HeadPulled(z: Zone, c: nat)
    requires c < |z.lists| && z.lists[c] != []
    ensures Pull(z, z.lists[c][0], c).lists == z.lists[c := z.lists[c][1..]]
  {
  }

  /** The granted block is the start of the head `f` of the first list from order `o` up that is not
      empty; the rest of that block comes back in halves, one to each list passed. */
  lemma AllocOrder(z: Zone, o: nat) returns (f: nat, c: nat)
    requires Inv(z) && o <= MAX_ORDER && exists g: nat :: Aligned(g, o) && FreeRun(z.own, g, o)
    ensures o <= c <= MAX_ORDER && z.lists[c] != [] && f == z.lists[c][0]
    ensures forall p :: o <= p < c ==> z.lists[p] == []
    ensures LiveHead(AllocZone(z, o).own, f, o)
    ensures var lists := AllocZone(z, o).lists;
            && |lists| == MAX_ORDER + 1
            && forall p :: 0 <= p <= MAX_ORDER ==>
                 lists[p] == if p == c then z.lists[c][1..] else if o <= p < c then [f + Pow2(p)] else z.lists[p]
  {
    hide Pow2, Aligned, FreeRun, Tiled, Canonical, Granted, Pull, SplitZone, FirstNonEmpty;
    AllocComplete(z, o);
    FirstNonEmptyIsFirst(z.lists, o);
    c := FirstNonEmpty(z.lists, o);
    f := z.lists[c][0];
    AllocKeeps(z, o);
    HeadPulled(z, c);
    SplitOrder(Pull(z, f, c), f, c, o);
  }

  // ---------------------------------------------------------------- freeing

  /** One entry, which lies in the run of order `q` at `m`, has left the list; the others kept order. */
  ghost predicate OneLeft(l: seq<nat>, l': seq<nat>, m: nat, q: nat) {
    exists i: nat :: i < |l| && InRun(l[i], m, q) && l' == l[..i] + l[i + 1..]
  }

  lemma {:induction false} WithoutLeaves(l: seq<nat>, f: nat, m: nat, q: nat)
    requires f in l && InRun(f, m, q)
    ensures OneLeft(l, Without(l, f), m, q)
  {
    hide InRun;
    if l[0] == f {
      assert l[..0] + l[1..] == l[1..];
    } else {
      WithoutLeaves(l[1..], f, m, q);
      var i: nat :| i < |l[1..]| && InRun(l[1..][i], m, q) && Without(l[1..], f) == l[1..][..i] + l[1..][i + 1..];
      LeavesTail(l, l[1..], Without(l[1..], f), i);
      assert InRun(l[i + 1], m, q);
    }
  }

  lemma LeavesTail(l: seq<nat>, tail: seq<nat>, left: seq<nat>, i: nat)
    requires l != [] && tail == l[1..] && i < |tail| && left == tail[..i] + tail[i + 1..]
    ensures [l[0]] + left == l[..i + 1] + l[i + 2..] && l[i + 1] == tail[i]
  {
  }

  /** What freeing did to the lists: from order `o` up to `q` one buddy left each list, and the block
      they made, `m` of order `q`, became the head of its list. */
  ghost predicate Climbed(lists: seq<seq<nat>>, lists': seq<seq<nat>>, o: nat, m: nat, q: nat) {
    && |lists'| == |lists|
    && forall p :: 0 <= p < |lists| ==>
         if p == q then lists'[p] == [m] + lists[p]
         else if o <= p < q then OneLeft(lists[p], lists'[p], m, q)
         else lists'[p] == lists[p]
  }

  lemma {:induction false} FreeOrder(z: Zone, f: nat, o: nat) returns (m: nat, q: nat)
    requires InHand(z, f, o) && o <= MAX_ORDER
    ensures o <= q <= MAX_ORDER && FreeHead(FreeZone(z, f, o).own, m, q)
    ensures forall y :: InRun(y, f, o) ==> InRun(y, m, q)
    ensures Climbed(z.lists, FreeZone(z, f, o).lists, o, m, q)
    decreases MAX_ORDER - o
  {
    hide Pow2, Aligned, Tiled, Canonical, Without, OneLeft, Buddy, Min, InRun, Paint;
    var b := Buddy(f, o);
    if o < MAX_ORDER && FreeHead(z.own, b, o) {
      MergeKeeps(z, f, o);
      m, q := FreeOrder(Merge(z, f, o), Min(f, b), o + 1);
      BlockAt(z.own, f);
      BuddyRuns(f, b, Min(f, b), o, o + 1);
      assert ListExact(z.own, z.lists[o], o);
      InOwnRun(b, o);
      WithoutLeaves(z.lists[o], b, m, q);
    } else {
      PushKeeps(z, f, o);
      m, q := f, o;
    }
  }
}
