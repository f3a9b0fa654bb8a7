/** What a caller may rely on whichever allocator stands behind the interface: blocks are handed out
    of free cells, never overlap, and come back whole. Both allocators are shown to do just this. */
module Allocator {
  datatype Block = Block(start: nat, size: nat)
  datatype Heap = Heap(free: set<nat>, live: set<Block>)

  predicate In(x: nat, b: Block) {
    b.start <= x < b.start + b.size
  }

  ghost predicate Covered(live: set<Block>, x: nat) {
    exists b :: b in live && In(x, b)
  }

  /** Every cell is free or in exactly one live block. */
  ghost predicate Sound(h: Heap, cells: set<nat>) {
    && (forall x :: x in cells <==> x in h.free || Covered(h.live, x))
    && (forall x, b :: x in h.free && b in h.live ==> !In(x, b))
    && (forall x, b, c :: b in h.live && c in h.live && In(x, b) && In(x, c) ==> b == c)
    && (forall b :: b in h.live ==> b.size > 0)
  }

  ghost predicate Grant(h: Heap, h': Heap, b: Block) {
    && b.size > 0 && b !in h.live
    && (forall x :: In(x, b) ==> x in h.free)
    && (forall x :: x in h'.free <==> x in h.free && !In(x, b))
    && h'.live == h.live + {b}
  }

  ghost predicate Release(h: Heap, h': Heap, b: Block) {
    && b in h.live
    && (forall x :: x in h'.free <==> x in h.free || In(x, b))
    && h'.live == h.live - {b}
  }

  /** One request: granted, refused, or a block given back. */
  ghost predicate Step(h: Heap, h': Heap) {
    h' == h || (exists b :: Grant(h, h', b)) || (exists b :: Release(h, h', b))
  }

  lemma GrantSound(h: Heap, h': Heap, b: Block, cells: set<nat>)
    requires Sound(h, cells) && Grant(h, h', b)
    ensures Sound(h', cells)
  {
    forall x
      ensures x in cells <==> x in h'.free || Covered(h'.live, x)
    {
      if c :| c in h.live && In(x, c) {
        assert c in h'.live;
      }
      if In(x, b) {
        assert b in h'.live && x in h.free;
      }
    }
  }

  lemma ReleaseSound(h: Heap, h': Heap, b: Block, cells: set<nat>)
    requires Sound(h, cells) && Release(h, h', b)
    ensures Sound(h', cells)
  {
    forall x
      ensures x in cells <==> x in h'.free || Covered(h'.live, x)
    {
      if c :| c in h.live && In(x, c) && c != b {
        assert c in h'.live;
      }
      if In(x, b) {
        assert Covered(h.live, x);
      }
    }
  }

  /** Giving back what was just granted leaves no trace. */
  lemma GrantThenRelease(h: Heap, h': Heap, h'': Heap, b: Block)
    requires Grant(h, h', b) && Release(h', h'', b)
    ensures h'' == h
  {
    assert h''.free == h.free;
  }

  /** Each heap of the run comes from the one before it by one request. */
  ghost predicate Follows(run: seq<Heap>) {
    forall k :: 0 <= k < |run| - 1 ==> Step(run[k], run[k + 1])
  }

  lemma OneFollows(h: Heap)
    ensures Follows([h])
  {
  }

  lemma FollowsOn(h: Heap, run: seq<Heap>)
    requires run != [] && Step(h, run[0]) && Follows(run)
    ensures Follows([h] + run)
  {
    hide Step;
    var all := [h] + run;
    forall k | 0 <= k < |all| - 1
      ensures Step(all[k], all[k + 1])
    {
      if k > 0 {
        assert Step(run[k - 1], run[k - 1 + 1]);
      }
    }
  }

  lemma StepSound(h: Heap, h': Heap, cells: set<nat>)
    requires Sound(h, cells) && Step(h, h')
    ensures Sound(h', cells)
  {
    hide Sound, Grant, Release;
    if h' != h {
      if exists b :: Grant(h, h', b) {
        var b :| Grant(h, h', b);
        GrantSound(h, h', b, cells);
      } else {
        var b :| Release(h, h', b);
        ReleaseSound(h, h', b, cells);
      }
    }
  }

  /** Over any sequence of requests no two live blocks ever share a cell and none is lost, and once
      nothing is live every cell is free. */
  lemma {:induction false} RunSound(run: seq<Heap>, cells: set<nat>, i: nat)
    requires i < |run| && Sound(run[0], cells) && Follows(run)
    ensures Sound(run[i], cells) && (run[i].live == {} ==> run[i].free == cells)
  {
    if i > 0 {
      RunSound(run, cells, i - 1);
      assert Step(run[i - 1], run[i - 1 + 1]);
      StepSound(run[i - 1], run[i], cells);
    }
    if run[i].live == {} {
      assert forall x :: !Covered(run[i].live, x);
    }
  }
}

/** The buddy zone is such a heap: its cells are frames. */
module BuddyRefines {
  import opened Dyadic
  import opened BuddySpec
  import opened BuddySteps
  import opened Allocator

  ghost function Abstract(own: Labels): Heap {
    Heap(FreeFrames(own), set x | x in own && !own[x].free && own[x].start == x :: Block(x, Pow2(own[x].order)))
  }

  lemma LiveIs(own: Labels, b: Block)
    ensures b in Abstract(own).live <==>
            b.start in own && !own[b.start].free && own[b.start].start == b.start && b.size == Pow2(own[b.start].order)
  {
  }

  lemma IsSound(own: Labels)
    requires Tiled(own)
    ensures Sound(Abstract(own), own.Keys)
  {
    var h := Abstract(own);
    forall x, b: Block | b in h.live && Allocator.In(x, b)
      ensures x in own && own[x] == own[b.start] && b == Block(own[x].start, Pow2(own[x].order)) && !own[x].free
    {
      LiveIs(own, b);
      assert InBlock(own, b.start);
      assert InRun(x, b.start, own[b.start].order);
    }
    forall x | x in own
      ensures x in h.free || Covered(h.live, x)
    {
      BlockAt(own, x);
      var b := Block(own[x].start, Pow2(own[x].order));
      LiveIs(own, b);
      if !own[x].free {
        assert b in h.live && Allocator.In(x, b);
      }
    }
    forall b | b in h.live
      ensures b.size > 0
    {
      LiveIs(own, b);
    }
  }

  /** What `buddy_alloc_pages` grants is a grant of `2^order` cells. */
  lemma AllocGrants(z: Zone, o: nat) returns (b: Block)
    requires Inv(z) && o <= MAX_ORDER && FirstNonEmpty(z.lists, o) <= MAX_ORDER
    ensures b.size == Pow2(o) && Aligned(b.start, o) && Grant(Abstract(z.own), Abstract(AllocZone(z, o).own), b)
  {
    AllocKeeps(z, o);
    var f, own' := z.lists[FirstNonEmpty(z.lists, o)][0], AllocZone(z, o).own;
    b := Block(f, Pow2(o));
    BlockAt(own', f);
    GrantedRefines(z.own, own', f, o);
  }

  lemma GrantedRefines(own: Labels, own': Labels, f: nat, o: nat)
    requires Tiled(own') && Granted(own, own', f, o) && LiveHead(own', f, o)
    ensures Grant(Abstract(own), Abstract(own'), Block(f, Pow2(o)))
  {
    hide Tiled, InBlock, Aligned, Abstract, Granted;
    var h, h', b := Abstract(own), Abstract(own'), Block(f, Pow2(o));
    FreeLeaves(own, own', f, o);
    forall c: Block
      ensures c in h'.live <==> c in h.live || c == b
      ensures c == b ==> c !in h.live
    {
      LiveJoins(own, own', f, o, c);
    }
    assert h'.live == h.live + {b};
  }

  lemma FreeLeaves(own: Labels, own': Labels, f: nat, o: nat)
    requires Tiled(own') && Granted(own, own', f, o) && LiveHead(own', f, o)
    ensures var b := Block(f, Pow2(o));
            && b.size > 0 && (forall x :: Allocator.In(x, b) ==> x in Abstract(own).free)
            && forall x :: x in Abstract(own').free <==> x in Abstract(own).free && !Allocator.In(x, b)
  {
    assert InBlock(own', f);
    assert forall x :: InRun(x, f, o) <==> Allocator.In(x, Block(f, Pow2(o)));
    hide Tiled, Aligned, Pow2;
  }

  lemma LiveJoins(own: Labels, own': Labels, f: nat, o: nat, c: Block)
    requires Granted(own, own', f, o) && LiveHead(own', f, o)
    ensures var b := Block(f, Pow2(o));
            && (c in Abstract(own').live <==> c in Abstract(own).live || c == b)
            && (c == b ==> c !in Abstract(own).live)
  {
    InOwnRun(f, o);
    hide InRun, Pow2;
    LiveIs(own, c);
    LiveIs(own', c);
  }

  /** What `mm_free` does to a live block is its release. */
  lemma FreeReleases(z: Zone, f: nat, o: nat)
    requires InHand(z, f, o) && o <= MAX_ORDER
    ensures Release(Abstract(z.own), Abstract(FreeZone(z, f, o).own), Block(f, Pow2(o)))
  {
    FreeZoneKeeps(z, f, o);
    var own, own' := z.own, FreeZone(z, f, o).own;
    var h, h', b := Abstract(own), Abstract(own'), Block(f, Pow2(o));
    LiveIs(own, b);
    assert InBlock(own, f);
    assert forall x :: InRun(x, f, o) <==> Allocator.In(x, b);
    forall c: Block
      ensures c in h'.live <==> c in h.live && c != b
    {
      LiveIs(own, c);
      LiveIs(own', c);
      InOwnRun(f, o);
    }
    assert h'.live == h.live - {b};
  }

  /** Every legal request to the buddy allocator is a request to the interface. */
  lemma StepRefines(z: Zone, op: Op)
    requires Inv(z) && Legal(z, op)
    ensures Allocator.Step(Abstract(z.own), Abstract(BuddySteps.Step(z, op).own))
  {
    match op
    case Alloc(o) =>
      if FirstNonEmpty(z.lists, o) <= MAX_ORDER {
        var b := AllocGrants(z, o);
        hide Grant;
        assert Grant(Abstract(z.own), Abstract(BuddySteps.Step(z, op).own), b);
      }
    case Free(f, o) =>
      assert InBlock(z.own, f);
      FreeReleases(z, f, o);
      hide Release;
      assert Release(Abstract(z.own), Abstract(BuddySteps.Step(z, op).own), Block(f, Pow2(o)));
  }

  /** The heaps that a run of requests goes through. */
  ghost function Heaps(z: Zone, ops: seq<Op>): seq<Heap>
    requires Inv(z) && LegalRun(z, ops)
    decreases |ops|
  {
    if ops == [] then [Abstract(z.own)]
    else StepKeeps(z, ops[0]); [Abstract(z.own)] + Heaps(BuddySteps.Step(z, ops[0]), ops[1..])
  }

  lemma {:induction false} HeapsFollow(z: Zone, ops: seq<Op>)
    requires Inv(z) && LegalRun(z, ops)
    ensures var run := Heaps(z, ops);
            && |run| == |ops| + 1 && run[0] == Abstract(z.own) && run[|ops|] == Abstract(Run(z, ops).own)
               && Follows(run)
    decreases |ops|
  {
    hide Inv, Abstract, BuddySteps.Step, Legal, Allocator.Step, Follows;
    if ops == [] {
      OneFollows(Abstract(z.own));
    } else {
      StepKeeps(z, ops[0]);
      StepRefines(z, ops[0]);
      HeapsFollow(BuddySteps.Step(z, ops[0]), ops[1..]);
      FollowsOn(Abstract(z.own), Heaps(BuddySteps.Step(z, ops[0]), ops[1..]));
    }
  }

  /** Whatever is requested of a buddy zone, after every request its live blocks lie apart, every
      frame is free or in one of them, and all are free when nothing is live. */
  lemma RunsSoundly(z: Zone, ops: seq<Op>, i: nat)
    requires Inv(z) && LegalRun(z, ops) && i <= |ops|
    ensures i < |Heaps(z, ops)| && Sound(Heaps(z, ops)[i], z.own.Keys)
    ensures Heaps(z, ops)[i].live == {} ==> Heaps(z, ops)[i].free == z.own.Keys
  {
    hide LegalRun, Abstract, Follows, Sound;
    IsSound(z.own);
    HeapsFollow(z, ops);
    RunSound(Heaps(z, ops), z.own.Keys, i);
  }
}

/** The first-fit heap is such a heap: its cells are units. */
module FirstFitRefines {
  import opened FirstFitSpec
  import opened FirstFitSteps
  import opened Allocator

  ghost function Abstract(own: Labels): Heap {
    Heap(FreeUnits(own), set x | x in own && !own[x].free && own[x].start == x :: Block(x, own[x].size))
  }

  lemma LiveIs(own: Labels, b: Block)
    ensures b in Abstract(own).live <==>
            b.start in own && !own[b.start].free && own[b.start].start == b.start && b.size == own[b.start].size
  {
  }

  lemma IsSound(own: Labels)
    requires Tiled(own)
    ensures Sound(Abstract(own), own.Keys)
  {
    var h := Abstract(own);
    forall x, b: Block | b in h.live && Allocator.In(x, b)
      ensures x in own && own[x] == own[b.start] && b == Block(own[x].start, own[x].size) && !own[x].free
    {
      LiveIs(own, b);
      assert InBlock(own, b.start);
      assert Within(x, b.start, own[b.start].size);
    }
    forall x | x in own
      ensures x in h.free || Covered(h.live, x)
    {
      BlockAt(own, x);
      var b := Block(own[x].start, own[x].size);
      LiveIs(own, b);
      if !own[x].free {
        assert b in h.live && Allocator.In(x, b);
      }
    }
    forall b | b in h.live
      ensures b.size > 0
    {
      LiveIs(own, b);
      assert InBlock(own, b.start);
    }
  }

  /** What `mm_alloc` takes off a fitting free block is a grant of `k` cells. */
  lemma AllocGrants(own: Labels, n: nat, h: nat, s: nat, b: nat, k: nat)
    requires Inv(own, n) && FreeHead(own, h) && own[h].size == s >= k > 0 && b == h + (s - k)
    ensures Grant(Abstract(own), Abstract(AllocOwn(own, h, k)), Block(b, k))
  {
    AllocKeeps(own, n, h, s, b, k);
    GrantedRefines(own, AllocOwn(own, h, k), b, k);
  }

  lemma GrantedRefines(own: Labels, own': Labels, b: nat, k: nat)
    requires Granted(own, own', b, k) && k > 0
    ensures Grant(Abstract(own), Abstract(own'), Block(b, k))
  {
    var h, h', block := Abstract(own), Abstract(own'), Block(b, k);
    assert forall x :: Within(x, b, k) <==> Allocator.In(x, block);
    forall x
      ensures x in h'.free <==> x in h.free && !Allocator.In(x, block)
    {
      assert FreeAt(own', x) <==> FreeAt(own, x) && !Within(x, b, k);
    }
    forall c: Block
      ensures c in h'.live <==> c in h.live || c == block
    {
      LiveIs(own, c);
      LiveIs(own', c);
      assert Within(b, b, k);
      assert FreeAt(own', c.start) <==> FreeAt(own, c.start) && !Within(c.start, b, k);
    }
    assert h'.live == h.live + {block};
    assert Within(b, b, k);
    LiveIs(own, block);
  }

  /** What `mm_free` does to a live block is its release. */
  lemma FreeReleases(own: Labels, n: nat, b: nat)
    requires Inv(own, n) && LiveHead(own, b)
    ensures Release(Abstract(own), Abstract(FreeOwn(own, b)), Block(b, own[b].size))
  {
    FreeKeeps(own, n, b);
    BlockWhole(own, b);
    FreedRefines(own, FreeOwn(own, b), b, own[b].size);
  }

  lemma FreedRefines(own: Labels, own': Labels, b: nat, k: nat)
    requires LiveHead(own, b) && own[b].size == k > 0 && Freed(own, own', b)
    requires forall y :: Within(y, b, k) ==> y in own && own[y] == own[b]
    ensures Release(Abstract(own), Abstract(own'), Block(b, k))
  {
    var h, h', block := Abstract(own), Abstract(own'), Block(b, k);
    assert forall x :: Within(x, b, k) <==> Allocator.In(x, block);
    forall x
      ensures x in h'.free <==> x in h.free || Allocator.In(x, block)
    {
      assert FreeAt(own', x) <==> FreeAt(own, x) || Within(x, b, k);
    }
    LiveIs(own, block);
    forall c: Block
      ensures c in h'.live <==> c in h.live && c != block
    {
      LiveIs(own, c);
      LiveIs(own', c);
      assert FreeAt(own', c.start) <==> FreeAt(own, c.start) || Within(c.start, b, k);
      assert Within(b, b, k);
    }
    assert h'.live == h.live - {block};
  }

  /** Whatever `mm_alloc` or `mm_free` did, it was a request to the interface. */
  lemma StepRefines(own: Labels, own': Labels, n: nat)
    requires Inv(own, n) && Requested(own, own')
    ensures Inv(own', n) && Allocator.Step(Abstract(own), Abstract(own'))
  {
    hide Inv, Abstract, Grant, Release, AllocOwn, FreeOwn;
    if own' != own {
      if h: nat, k: nat :| FreeHead(own, h) && own[h].size >= k > 0 && own' == AllocOwn(own, h, k) {
        AllocKeeps(own, n, h, own[h].size, h + (own[h].size - k), k);
        AllocGrants(own, n, h, own[h].size, h + (own[h].size - k), k);
      } else {
        var b :| LiveHead(own, b) && own' == FreeOwn(own, b);
        FreeKeeps(own, n, b);
        FreeReleases(own, n, b);
      }
    }
  }

  /** Along the run each heap comes from the one before it by one call. */
  ghost predicate Calls(run: seq<Labels>) {
    forall k :: 0 <= k < |run| - 1 ==> Requested(run[k], run[k + 1])
  }

  lemma {:induction false} RunFollows(run: seq<Labels>, n: nat, i: nat)
    requires i < |run| && Inv(run[0], n) && Calls(run)
    ensures Inv(run[i], n) && (i > 0 ==> Allocator.Step(Abstract(run[i - 1]), Abstract(run[i])))
  {
    hide Inv, Abstract, Requested, Allocator.Step;
    if i > 0 {
      RunFollows(run, n, i - 1);
      assert Requested(run[i - 1], run[i - 1 + 1]);
      StepRefines(run[i - 1], run[i], n);
    }
  }

  /** Whatever is requested of a first-fit heap, after every request its live blocks lie apart, every
      unit is free or in one of them, and all are free when nothing is live. */
  lemma RunsSoundly(run: seq<Labels>, n: nat, i: nat)
    requires i < |run| && Inv(run[0], n) && Calls(run)
    ensures Sound(Abstract(run[i]), run[0].Keys)
    ensures Abstract(run[i]).live == {} ==> Abstract(run[i]).free == run[0].Keys
  {
    var heaps := seq(|run|, k requires 0 <= k < |run| => Abstract(run[k]));
    IsSound(run[0]);
    hide Inv, Abstract, Sound, Calls, Allocator.Step;
    forall k | 0 <= k < |heaps| - 1
      ensures Allocator.Step(heaps[k], heaps[k + 1])
    {
      RunFollows(run, n, k + 1);
    }
    RunSound(heaps, run[0].Keys, i);
  }
}
