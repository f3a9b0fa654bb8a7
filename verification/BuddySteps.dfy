/** What the buddy system's operations do to the tiling and the free lists, and that every run of
    them keeps the tiling exact, coalesced and complete. */
module BuddySteps {
  import opened Dyadic
  import opened BuddySpec

  ghost predicate InZone(own: Labels, f: nat, o: nat) {
    forall y :: InRun(y, f, o) ==> y in own
  }

  /** Relabel the run of order `o` at `f` as one block. */
  ghost function Paint(own: Labels, f: nat, o: nat, free: bool): Labels {
    map x | x in own :: if InRun(x, f, o) then Own(free, f, o) else own[x]
  }

  function Without(l: seq<nat>, f: nat): seq<nat> {
    if l == [] then [] else if l[0] == f then l[1..] else [l[0]] + Without(l[1..], f)
  }

  ghost function Push(z: Zone, f: nat, o: nat): Zone
    requires o < |z.lists|
  {
    Zone(Paint(z.own, f, o, true), z.lists[o := [f] + z.lists[o]])
  }

  ghost function Pull(z: Zone, f: nat, o: nat): Zone
    requires o < |z.lists|
  {
    Zone(Paint(z.own, f, o, false), z.lists[o := Without(z.lists[o], f)])
  }

  function Min(a: nat, b: nat): nat { if a < b then a else b }

  /** A free buddy of equal order leaves its list and joins the block in hand. */
  ghost function Merge(z: Zone, f: nat, o: nat): Zone
    requires o < |z.lists|
  {
    var z' := Pull(z, Buddy(f, o), o);
    z'.(own := Paint(z'.own, Min(f, Buddy(f, o)), o + 1, false))
  }

  /** The block in hand coalesces upwards as long as its buddy is free, then joins a free list. */
  ghost function FreeZone(z: Zone, f: nat, o: nat): Zone
    requires o <= MAX_ORDER && |z.lists| == MAX_ORDER + 1
    decreases MAX_ORDER - o
  {
    if o < MAX_ORDER && FreeHead(z.own, Buddy(f, o), o) then
      FreeZone(Merge(z, f, o), Min(f, Buddy(f, o)), o + 1)
    else
      Push(z, f, o)
  }

  /** The upper half of the block in hand becomes a free block; the lower half stays in hand. */
  ghost function Halve(z: Zone, f: nat, o: nat): Zone
    requires o < |z.lists|
  {
    Zone(Halved(z.own, f, o), z.lists[o := [f + Pow2(o)] + z.lists[o]])
  }

  ghost function Halved(own: Labels, f: nat, o: nat): Labels {
    Paint(Paint(own, f, o, false), f + Pow2(o), o, true)
  }

  ghost function SplitZone(z: Zone, f: nat, c: nat, o: nat): Zone
    requires c <= MAX_ORDER && |z.lists| == MAX_ORDER + 1
    decreases c
  {
    if c <= o then z else SplitZone(Halve(z, f, c - 1), f, c - 1, o)
  }

  /** The least order from `o` up whose list is not empty, or `MAX_ORDER + 1`. */
  function FirstNonEmpty(lists: seq<seq<nat>>, o: nat): (c: nat)
    requires |lists| == MAX_ORDER + 1
    decreases MAX_ORDER + 1 - o
  {
    if o > MAX_ORDER then MAX_ORDER + 1
    else if lists[o] != [] then o
    else FirstNonEmpty(lists, o + 1)
  }

  lemma {:induction false} FirstNonEmptyIsFirst(lists: seq<seq<nat>>, o: nat)
    requires |lists| == MAX_ORDER + 1 && o <= MAX_ORDER + 1
    ensures o <= FirstNonEmpty(lists, o) <= MAX_ORDER + 1
    ensures forall p :: o <= p < FirstNonEmpty(lists, o) ==> lists[p] == []
    ensures FirstNonEmpty(lists, o) <= MAX_ORDER ==> lists[FirstNonEmpty(lists, o)] != []
    decreases MAX_ORDER + 1 - o
  {
    if o <= MAX_ORDER && lists[o] == [] {
      FirstNonEmptyIsFirst(lists, o + 1);
    }
  }

  ghost function AllocZone(z: Zone, o: nat): Zone
    requires o <= MAX_ORDER && |z.lists| == MAX_ORDER + 1
  {
    FirstNonEmptyIsFirst(z.lists, o);
    var c := FirstNonEmpty(z.lists, o);
    if c > MAX_ORDER then z
    else SplitZone(Pull(z, z.lists[c][0], c), z.lists[c][0], c, o)
  }

  // ---------------------------------------------------------------- painting

  /** The run holds no more than whole blocks of order at most `o`. */
  ghost predicate Whole(own: Labels, f: nat, o: nat) {
    && o <= MAX_ORDER && Aligned(f, o) && InZone(own, f, o)
    && forall y :: InRun(y, f, o) ==> own[y].order <= o
  }

  lemma PaintTiled(own: Labels, f: nat, o: nat, free: bool)
    requires Tiled(own) && Whole(own, f, o)
    ensures Tiled(Paint(own, f, o, free))
  {
    var own' := Paint(own, f, o, free);
    forall x | x in own'
      ensures InBlock(own', x)
    {
      if !InRun(x, f, o) {
        assert InBlock(own, x);
        forall y | InRun(y, own[x].start, own[x].order)
          ensures y in own' && own'[y] == own'[x]
        {
          if InRun(y, f, o) {
            assert own[y] == own[x];
            Swallows(f, o, own[x].start, own[x].order, y);
          }
        }
      }
    }
  }

  lemma SplitTiled(own: Labels, f: nat, o: nat)
    requires Tiled(own) && LiveHead(own, f, o + 1)
    ensures Tiled(Halved(own, f, o))
  {
    forall x | x in own
      ensures InBlock(Halved(own, f, o), x)
    {
      SplitAt(own, f, o, x);
    }
  }

  lemma SplitAt(own: Labels, f: nat, o: nat, x: nat)
    requires Tiled(own) && LiveHead(own, f, o + 1) && x in own
    ensures InBlock(Halved(own, f, o), x)
  {
    assert InBlock(own, f);
    if InRun(x, f, o + 1) {
      SplitHalf(own, f, o, x);
    } else {
      Outside(own, f, o + 1, x);
      SplitOutside(own, f, o, x);
    }
  }

  lemma Outside(own: Labels, f: nat, o: nat, x: nat)
    requires Tiled(own) && LiveHead(own, f, o) && x in own && !InRun(x, f, o)
    ensures InBlock(own, x)
    ensures forall y :: InRun(y, own[x].start, own[x].order) ==> !InRun(y, f, o)
  {
    assert InBlock(own, x) && InBlock(own, f);
    forall y | InRun(y, own[x].start, own[x].order)
      ensures !InRun(y, f, o)
    {
      assert own[y] == own[x];
    }
  }

  lemma SplitOutside(own: Labels, f: nat, o: nat, x: nat)
    requires Aligned(f, o + 1) && x in own && InBlock(own, x) && !InRun(x, f, o + 1)
    requires forall y :: InRun(y, own[x].start, own[x].order) ==> !InRun(y, f, o + 1)
    ensures x in Halved(own, f, o)
    ensures InBlock(Halved(own, f, o), x)
  {
    HalfRuns(f, f + Pow2(o), o, o + 1);
  }

  lemma SplitHalf(own: Labels, f: nat, o: nat, x: nat)
    requires LiveHead(own, f, o + 1) && InBlock(own, f) && InRun(x, f, o + 1) && Aligned(f, o + 1)
    ensures x in Halved(own, f, o)
    ensures InBlock(Halved(own, f, o), x)
  {
    var own' := Halved(own, f, o);
    HalfRuns(f, f + Pow2(o), o, o + 1);
    var h := if InRun(x, f, o) then f else f + Pow2(o);
    assert own'[x] == Own(h != f, h, o);
    forall y | InRun(y, h, o)
      ensures y in own' && own'[y] == own'[x]
    {
      assert InRun(y, f, o + 1);
    }
  }

  lemma {:induction false} WithoutExact(l: seq<nat>, f: nat)
    requires forall i, j :: 0 <= i < j < |l| ==> l[i] != l[j]
    ensures forall g :: g in Without(l, f) <==> g in l && g != f
    ensures forall i, j :: 0 <= i < j < |Without(l, f)| ==> Without(l, f)[i] != Without(l, f)[j]
    ensures f in l ==> |Without(l, f)| == |l| - 1
  {
    if l != [] {
      assert l == [l[0]] + l[1..];
      if l[0] != f {
        WithoutExact(l[1..], f);
        assert l[0] !in l[1..];
      }
    }
  }

  // ---------------------------------------------------------------- free heads and free lists

  ghost predicate HeadAdded(own: Labels, own': Labels, f: nat, o: nat) {
    forall g: nat, p: nat :: FreeHead(own', g, p) <==> FreeHead(own, g, p) || (g == f && p == o)
  }

  ghost predicate HeadRemoved(own: Labels, own': Labels, f: nat, o: nat) {
    forall g: nat, p: nat :: FreeHead(own', g, p) <==> FreeHead(own, g, p) && !(g == f && p == o)
  }

  lemma CanonicalAdd(own: Labels, own': Labels, f: nat, o: nat)
    requires Tiled(own) && Canonical(own) && HeadAdded(own, own', f, o) && Aligned(f, o)
    requires o < MAX_ORDER ==> !FreeHead(own, Buddy(f, o), o)
    ensures Canonical(own')
  {
    BuddyHalves(f, o);
    forall g: nat, p: nat | FreeHead(own', g, p) && p < MAX_ORDER
      ensures !FreeHead(own', Buddy(g, p), p)
    {
      if FreeHead(own, g, p) {
        assert InBlock(own, g);
        BuddyHalves(g, p);
      }
    }
  }

  lemma ListsPushed(z: Zone, z': Zone, f: nat, o: nat)
    requires ListsExact(z) && HeadAdded(z.own, z'.own, f, o) && !FreeHead(z.own, f, o) && o <= MAX_ORDER
    requires z'.lists == z.lists[o := [f] + z.lists[o]]
    ensures ListsExact(z')
  {
    forall p | 0 <= p <= MAX_ORDER
      ensures ListExact(z'.own, z'.lists[p], p)
    {
      assert ListExact(z.own, z.lists[p], p);
      assert forall g :: g in z'.lists[p] <==> g in z.lists[p] || (g == f && p == o);
    }
  }

  lemma ListsPulled(z: Zone, z': Zone, f: nat, o: nat)
    requires ListsExact(z) && HeadRemoved(z.own, z'.own, f, o) && o <= MAX_ORDER
    requires z'.lists == z.lists[o := Without(z.lists[o], f)]
    ensures ListsExact(z')
  {
    forall p | 0 <= p <= MAX_ORDER
      ensures ListExact(z'.own, z'.lists[p], p)
    {
      assert ListExact(z.own, z.lists[p], p);
      WithoutExact(z.lists[p], f);
    }
  }

  /** A block of order `o` at `f` is in hand: live, on no list, everything else in order. */
  ghost predicate InHand(z: Zone, f: nat, o: nat) {
    Inv(z) && LiveHead(z.own, f, o)
  }

  /** Frames outside the run keep their labels. */
  ghost predicate SameOutside(own: Labels, own': Labels, f: nat, o: nat) {
    && own'.Keys == own.Keys
    && forall x :: x in own && !InRun(x, f, o) ==> own'[x] == own[x]
  }

  lemma PullKeeps(z: Zone, f: nat, o: nat)
    requires Inv(z) && FreeHead(z.own, f, o)
    ensures o <= MAX_ORDER && InHand(Pull(z, f, o), f, o)
    ensures SameOutside(z.own, Pull(z, f, o).own, f, o)
  {
    var z' := Pull(z, f, o);
    assert InBlock(z.own, f);
    assert forall y :: InRun(y, f, o) ==> z.own[y] == z.own[f];
    PaintTiled(z.own, f, o, false);
    assert HeadRemoved(z.own, z'.own, f, o);
    assert Canonical(z'.own);
    ListsPulled(z, z', f, o);
  }

  lemma PushKeeps(z: Zone, f: nat, o: nat)
    requires InHand(z, f, o) && (o < MAX_ORDER ==> !FreeHead(z.own, Buddy(f, o), o))
    ensures o <= MAX_ORDER && Inv(Push(z, f, o)) && FreeHead(Push(z, f, o).own, f, o)
    ensures SameOutside(z.own, Push(z, f, o).own, f, o)
  {
    assert InBlock(z.own, f);
    var z' := Push(z, f, o);
    assert forall y :: InRun(y, f, o) ==> z.own[y] == z.own[f];
    PaintTiled(z.own, f, o, true);
    assert HeadAdded(z.own, z'.own, f, o);
    CanonicalAdd(z.own, z'.own, f, o);
    ListsPushed(z, z', f, o);
  }

  lemma HalveLabels(own: Labels, f: nat, m: nat, o: nat, p: nat)
    requires m == f + Pow2(o) && p == o + 1 && Aligned(f, p)
    requires forall y :: InRun(y, f, p) ==> y in own && own[y] == Own(false, f, p)
    ensures HeadAdded(own, Halved(own, f, o), m, o) && LiveHead(Halved(own, f, o), f, o)
    ensures SameOutside(own, Halved(own, f, o), f, p)
    ensures forall x :: InRun(x, f, p) ==> Halved(own, f, o)[x].free == !InRun(x, f, o)
  {
    hide InRun, Pow2, Aligned, Buddy, Halved;
    HalfRuns(f, m, o, p);
    HalvedAt(own, f, m, o);
  }

  lemma HalvedAt(own: Labels, f: nat, m: nat, o: nat)
    requires m == f + Pow2(o)
    ensures Halved(own, f, o).Keys == own.Keys
    ensures forall x :: x in own ==>
              Halved(own, f, o)[x] ==
              (if InRun(x, m, o) then Own(true, m, o) else if InRun(x, f, o) then Own(false, f, o) else own[x])
  {
    hide InRun, Pow2;
  }

  lemma HalveKeeps(z: Zone, f: nat, o: nat)
    requires InHand(z, f, o + 1) && o < MAX_ORDER
    ensures InHand(Halve(z, f, o), f, o)
    ensures SameOutside(z.own, Halve(z, f, o).own, f, o + 1)
    ensures forall x :: InRun(x, f, o + 1) ==> x in z.own && Halve(z, f, o).own[x].free == !InRun(x, f, o)
  {
    assert |z.lists| == MAX_ORDER + 1;
    hide Pow2, Aligned, Buddy, ListsExact, Canonical, Halved, InRun, Tiled, HeadAdded, FreeHead, ListExact;
    var m, p := f + Pow2(o), o + 1;
    BlockAt(z.own, f);
    HalveLabels(z.own, f, m, o, p);
    SplitTiled(z.own, f, o);
    HalfIsNew(z.own, f, m, o, p);
    CanonicalAdd(z.own, Halved(z.own, f, o), m, o);
    ListsPushed(z, Halve(z, f, o), m, o);
  }

  lemma HalfIsNew(own: Labels, f: nat, m: nat, o: nat, p: nat)
    requires m == f + Pow2(o) && p == o + 1 && LiveHead(own, f, p) && InBlock(own, f)
    ensures Aligned(m, o) && !FreeHead(own, Buddy(m, o), o) && !FreeHead(own, m, o)
  {
    HalfRuns(f, m, o, p);
  }

  lemma BuddyRuns(f: nat, b: nat, m: nat, o: nat, p: nat)
    requires Aligned(f, o) && b == Buddy(f, o) && m == Min(f, b) && p == o + 1
    ensures Aligned(m, p) && Aligned(b, o) && Buddy(b, o) == f
    ensures forall y :: InRun(y, m, p) <==> InRun(y, f, o) || InRun(y, b, o)
    ensures forall y :: !(InRun(y, f, o) && InRun(y, b, o))
    ensures InRun(f, f, o) && InRun(b, b, o) && InRun(m, m, p) && InRun(f, m, p) && InRun(b, m, p)
  {
    BuddyHalves(f, o);
  }

  lemma MergeLabels(own: Labels, f: nat, b: nat, m: nat, o: nat, p: nat)
    requires Tiled(own) && LiveHead(own, f, o) && LiveHead(own, b, o)
    requires p == o + 1 <= MAX_ORDER && Aligned(m, p) && InRun(m, m, p)
    requires forall y :: InRun(y, m, p) <==> InRun(y, f, o) || InRun(y, b, o)
    ensures Tiled(Paint(own, m, p, false)) && LiveHead(Paint(own, m, p, false), m, p)
    ensures SameOutside(own, Paint(own, m, p, false), m, p)
    ensures forall g: nat, q: nat :: FreeHead(Paint(own, m, p, false), g, q) <==> FreeHead(own, g, q)
  {
    hide Pow2, Aligned, InRun, Tiled;
    BlockAt(own, f);
    BlockAt(own, b);
    assert forall y :: InRun(y, m, p) ==> y in own && !own[y].free && own[y].order == o;
    PaintTiled(own, m, p, false);
  }

  lemma MergeKeeps(z: Zone, f: nat, o: nat)
    requires InHand(z, f, o) && o < MAX_ORDER && FreeHead(z.own, Buddy(f, o), o)
    ensures InHand(Merge(z, f, o), Min(f, Buddy(f, o)), o + 1)
    ensures SameOutside(z.own, Merge(z, f, o).own, Min(f, Buddy(f, o)), o + 1)
  {
    hide Pow2, Aligned, Buddy, Min, InRun, Tiled, Canonical;
    var b, p := Buddy(f, o), o + 1;
    var m := Min(f, b);
    BlockAt(z.own, f);
    BuddyRuns(f, b, m, o, p);
    PullKeeps(z, b, o);
    var z' := Pull(z, b, o);
    MergeLabels(z'.own, f, b, m, o, p);
    SameHeads(z', Merge(z, f, o));
  }

  lemma SameHeads(z: Zone, z': Zone)
    requires Canonical(z.own) && ListsExact(z) && z'.lists == z.lists
    requires forall g: nat, p: nat :: FreeHead(z'.own, g, p) <==> FreeHead(z.own, g, p)
    ensures Canonical(z'.own) && ListsExact(z')
  {
    forall p | 0 <= p <= MAX_ORDER
      ensures ListExact(z'.own, z'.lists[p], p)
    {
      assert ListExact(z.own, z.lists[p], p);
    }
  }

  /** Exactly the frames of the run change from live to free, and every other live block is kept. */
  ghost predicate Freed(own: Labels, own': Labels, f: nat, o: nat) {
    && own'.Keys == own.Keys
    && forall x :: x in own ==>
         && own'[x].free == (own[x].free || InRun(x, f, o))
         && (!own[x].free && !InRun(x, f, o) ==> own'[x] == own[x])
  }

  /** Freeing coalesces back to a canonical tiling, however far the coalescing climbs. */
  lemma {:induction false} FreeZoneKeeps(z: Zone, f: nat, o: nat)
    requires InHand(z, f, o) && o <= MAX_ORDER
    ensures Inv(FreeZone(z, f, o)) && Freed(z.own, FreeZone(z, f, o).own, f, o)
    decreases MAX_ORDER - o
  {
    var b := Buddy(f, o);
    if o < MAX_ORDER && FreeHead(z.own, b, o) {
      var m, z', p := Min(f, b), Merge(z, f, o), o + 1;
      MergeKeeps(z, f, o);
      FreeZoneKeeps(z', m, p);
      BlockAt(z.own, f);
      BlockAt(z.own, b);
      BuddyRuns(f, b, m, o, p);
      MergeFreed(z.own, z'.own, FreeZone(z', m, p).own, f, b, m, o, p);
    } else {
      PushKeeps(z, f, o);
      PushFreed(z.own, f, o);
    }
  }

  lemma PushFreed(own: Labels, f: nat, o: nat)
    ensures Freed(own, Paint(own, f, o, true), f, o)
  {
  }

  lemma MergeFreed(own: Labels, own1: Labels, own2: Labels, f: nat, b: nat, m: nat, o: nat, p: nat)
    requires SameOutside(own, own1, m, p) && Freed(own1, own2, m, p)
    requires forall y :: InRun(y, m, p) <==> InRun(y, f, o) || InRun(y, b, o)
    requires forall y :: InRun(y, b, o) ==> y in own && own[y].free
    ensures Freed(own, own2, f, o)
  {
    hide InRun;
  }

  /** Exactly the frames of the run change from free to one live block. */
  ghost predicate Granted(own: Labels, own': Labels, f: nat, o: nat) {
    && own'.Keys == own.Keys
    && forall x :: x in own ==>
         && own'[x].free == (own[x].free && !InRun(x, f, o))
         && (InRun(x, f, o) ==> own[x].free && own'[x] == Own(false, f, o))
         && (!own[x].free ==> own'[x] == own[x])
  }

  /** What splitting the block in hand from order `c` down to `o` does to the labels. */
  ghost predicate Split(own: Labels, own': Labels, f: nat, c: nat, o: nat) {
    && SameOutside(own, own', f, c)
    && forall x :: InRun(x, f, c) && x in own ==> own'[x].free == !InRun(x, f, o)
  }

  lemma {:induction false} SplitZoneKeeps(z: Zone, f: nat, c: nat, o: nat)
    requires InHand(z, f, c) && o <= c <= MAX_ORDER
    ensures InHand(SplitZone(z, f, c, o), f, o) && Split(z.own, SplitZone(z, f, c, o).own, f, c, o)
    decreases c
  {
    if c == o {
      NothingSplit(z.own, f, c);
    } else {
      var d := c - 1;
      var z' := Halve(z, f, d);
      HalveKeeps(z, f, d);
      SplitZoneKeeps(z', f, d, o);
      SplitJoins(z.own, z'.own, SplitZone(z', f, d, o).own, f, d, o);
    }
  }

  lemma NothingSplit(own: Labels, f: nat, o: nat)
    requires Tiled(own) && LiveHead(own, f, o)
    ensures Split(own, own, f, o, o)
  {
    assert InBlock(own, f);
  }

  lemma SplitJoins(own: Labels, own1: Labels, own2: Labels, f: nat, c: nat, o: nat)
    requires SameOutside(own, own1, f, c + 1) && Split(own1, own2, f, c, o) && o <= c
    requires forall x :: InRun(x, f, c + 1) ==> x in own && own1[x].free == !InRun(x, f, c)
    ensures Split(own, own2, f, c + 1, o)
  {
    RunsShrink(f, c, o);
    RunsShrink(f, c + 1, c);
    assert forall x :: x in own && !InRun(x, f, c + 1) ==> own1[x] == own[x];
  }

  lemma {:induction false} RunsShrink(f: nat, c: nat, o: nat)
    requires o <= c
    ensures forall y :: InRun(y, f, o) ==> InRun(y, f, c)
    decreases c
  {
    if o < c {
      Pow2Grows(o, c);
    }
  }

  /** `buddy_alloc_pages` fails exactly when no aligned run of the requested order is wholly free. */
  lemma AllocComplete(z: Zone, o: nat)
    requires Inv(z) && o <= MAX_ORDER
    ensures FirstNonEmpty(z.lists, o) > MAX_ORDER <==> (forall f: nat :: Aligned(f, o) ==> !FreeRun(z.own, f, o))
  {
    FirstNonEmptyIsFirst(z.lists, o);
    var c := FirstNonEmpty(z.lists, o);
    if c <= MAX_ORDER {
      var f := z.lists[c][0];
      assert ListExact(z.own, z.lists[c], c);
      assert f in z.lists[c];
      assert InBlock(z.own, f);
      AlignedFiner(f, c, o);
      RunsShrink(f, c, o);
      assert FreeRun(z.own, f, o);
    } else {
      forall f: nat | Aligned(f, o)
        ensures !FreeRun(z.own, f, o)
      {
        if FreeRun(z.own, f, o) {
          RunInOneBlock(z.own, f, o);
          NoListedHead(z, z.own[f].start, z.own[f].order, o);
        }
      }
    }
  }

  lemma NoListedHead(z: Zone, f: nat, p: nat, o: nat)
    requires Inv(z) && o <= p && FirstNonEmpty(z.lists, o) > MAX_ORDER && o <= MAX_ORDER
    ensures !FreeHead(z.own, f, p)
  {
    FirstNonEmptyIsFirst(z.lists, o);
    if p <= MAX_ORDER {
      assert ListExact(z.own, z.lists[p], p);
    } else if f in z.own {
      assert InBlock(z.own, f);
    }
  }

  /** A successful allocation grants one aligned, wholly free run and keeps the invariant. */
  lemma AllocKeeps(z: Zone, o: nat)
    requires Inv(z) && o <= MAX_ORDER && FirstNonEmpty(z.lists, o) <= MAX_ORDER
    ensures var c := FirstNonEmpty(z.lists, o);
            && o <= c && z.lists[c] != [] && FreeHead(z.own, z.lists[c][0], c)
            && InHand(AllocZone(z, o), z.lists[c][0], o) && Granted(z.own, AllocZone(z, o).own, z.lists[c][0], o)
  {
    FirstNonEmptyIsFirst(z.lists, o);
    var c := FirstNonEmpty(z.lists, o);
    var f := z.lists[c][0];
    assert ListExact(z.own, z.lists[c], c);
    assert f in z.lists[c];
    PullKeeps(z, f, c);
    SplitZoneKeeps(Pull(z, f, c), f, c, o);
    assert InBlock(z.own, f);
    assert InBlock(AllocZone(z, o).own, f);
    SplitGranted(z.own, Pull(z, f, c).own, AllocZone(z, o).own, f, c, o);
  }

  lemma SplitGranted(own: Labels, own1: Labels, own2: Labels, f: nat, c: nat, o: nat)
    requires SameOutside(own, own1, f, c) && Split(own1, own2, f, c, o) && o <= c
    requires forall x :: InRun(x, f, c) ==> x in own && own[x].free
    requires LiveHead(own2, f, o) && InBlock(own2, f)
    ensures Granted(own, own2, f, o)
  {
    RunsShrink(f, c, o);
    assert forall x :: InRun(x, f, o) ==> own2[x] == own2[f];
  }

  /** Right after a live block of order `o` is freed, any request of at most that order succeeds. */
  lemma FreeThenAlloc(z: Zone, f: nat, o: nat, p: nat)
    requires InHand(z, f, o) && p <= o <= MAX_ORDER
    ensures Inv(FreeZone(z, f, o)) && FirstNonEmpty(FreeZone(z, f, o).lists, p) <= MAX_ORDER
  {
    FreeZoneKeeps(z, f, o);
    assert InBlock(z.own, f);
    var own' := FreeZone(z, f, o).own;
    AlignedFiner(f, o, p);
    RunsShrink(f, o, p);
    assert FreeRun(own', f, p);
    AllocComplete(FreeZone(z, f, o), p);
  }

  // ---------------------------------------------------------------- runs

  datatype Op = Alloc(order: nat) | Free(frame: nat, order: nat)

  /** Requests a caller may make: any order up to the top, or a live block by its first frame. */
  ghost predicate Legal(z: Zone, op: Op) {
    match op
    case Alloc(o) => o <= MAX_ORDER
    case Free(f, o) => LiveHead(z.own, f, o)
  }

  ghost function Step(z: Zone, op: Op): Zone
    requires Inv(z) && Legal(z, op)
  {
    match op
    case Alloc(o) => AllocZone(z, o)
    case Free(f, o) => assert InBlock(z.own, f); FreeZone(z, f, o)
  }

  lemma StepKeeps(z: Zone, op: Op)
    requires Inv(z) && Legal(z, op)
    ensures Inv(Step(z, op)) && Step(z, op).own.Keys == z.own.Keys
  {
    match op
    case Alloc(o) => if FirstNonEmpty(z.lists, o) <= MAX_ORDER { AllocKeeps(z, o); }
    case Free(f, o) => assert InBlock(z.own, f); FreeZoneKeeps(z, f, o);
  }

  ghost predicate LegalRun(z: Zone, ops: seq<Op>)
    requires Inv(z)
    decreases |ops|
  {
    ops != [] ==> Legal(z, ops[0]) && (StepKeeps(z, ops[0]); LegalRun(Step(z, ops[0]), ops[1..]))
  }

  ghost function Run(z: Zone, ops: seq<Op>): Zone
    requires Inv(z) && LegalRun(z, ops)
    decreases |ops|
  {
    if ops == [] then z else StepKeeps(z, ops[0]); Run(Step(z, ops[0]), ops[1..])
  }

  lemma {:induction false} RunKeeps(z: Zone, ops: seq<Op>)
    requires Inv(z) && LegalRun(z, ops)
    ensures Inv(Run(z, ops)) && Run(z, ops).own.Keys == z.own.Keys
    decreases |ops|
  {
    if ops != [] {
      StepKeeps(z, ops[0]);
      RunKeeps(Step(z, ops[0]), ops[1..]);
    }
  }

  /** Any run of requests that leaves nothing live ends with the very free blocks, on the very
      lists, of the wholly free zone it started from. */
  lemma AllFreedRestores(z: Zone, ops: seq<Op>)
    requires Inv(z) && LegalRun(z, ops)
    requires FreeFrames(z.own) == z.own.Keys && FreeFrames(Run(z, ops).own) == Run(z, ops).own.Keys
    ensures Run(z, ops).own == z.own
    ensures forall o, f :: 0 <= o <= MAX_ORDER && |Run(z, ops).lists| == |z.lists| == MAX_ORDER + 1 ==>
              (f in Run(z, ops).lists[o] <==> f in z.lists[o])
  {
    RunKeeps(z, ops);
    var z' := Run(z, ops);
    CanonicalForm(z.own, z'.own);
    forall o, f | 0 <= o <= MAX_ORDER
      ensures f in z'.lists[o] <==> f in z.lists[o]
    {
      assert ListExact(z.own, z.lists[o], o) && ListExact(z'.own, z'.lists[o], o);
    }
  }
}
