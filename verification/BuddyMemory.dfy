/** The buddy memory manager over its page table, free lists and counters, updated in place. */
module BuddyMemory {
  import opened Dyadic
  import opened BuddySpec
  import opened BuddySteps
  import opened BuddyInit
  import opened Options

  const PAGE_SIZE: nat := 4096
  const MAX_PAGES: nat := 2048
  const NULL: nat := 0

  /** Metadata of one page: PAGE_FREE_FLAG, `order` and `frame_number`. */
  datatype Page = Page(free: bool, order: nat, frame: nat)

  /** Orders and free flags of the pages `k .. k + n` rewritten, all other pages kept. */
  ghost predicate Rewritten(s: seq<Page>, s': seq<Page>, k: nat, n: nat, free: bool, order: nat) {
    && |s'| == |s|
    && forall j :: 0 <= j < |s| ==>
         s'[j].frame == s[j].frame &&
         if k <= j < k + n then s'[j].free == free && s'[j].order == (if free then order else s[j].order)
         else s'[j] == s[j]
  }

  /** Uint32 addition of `size + (PAGE_SIZE - 1)` wraps. */
  function PagesNeeded(size: nat): nat {
    ((size + (PAGE_SIZE - 1)) % 0x1_0000_0000) / PAGE_SIZE
  }

  /** The least order whose blocks hold `pages` pages, or `MAX_ORDER + 1`. */
  function OrderFor(pages: nat, o: nat): (r: nat)
    requires o <= MAX_ORDER + 1
    decreases MAX_ORDER + 1 - o
  {
    if o <= MAX_ORDER && Pow2(o) < pages then OrderFor(pages, o + 1) else o
  }

  lemma {:induction false} OrderForIsLeast(pages: nat, o: nat)
    requires o <= MAX_ORDER + 1
    ensures o <= OrderFor(pages, o) <= MAX_ORDER + 1
    ensures forall p :: o <= p < OrderFor(pages, o) ==> Pow2(p) < pages
    ensures OrderFor(pages, o) <= MAX_ORDER ==> pages <= Pow2(OrderFor(pages, o))
    decreases MAX_ORDER + 1 - o
  {
    if o <= MAX_ORDER && Pow2(o) < pages {
      OrderForIsLeast(pages, o + 1);
    }
  }

  /** The block granted for a uint32 `size` holds `size` bytes exactly when rounding up to whole
      pages does not wrap: a larger request is granted a single page. */
  lemma GrantCovers(size: nat)
    requires 0 < size < 0x1_0000_0000 && OrderFor(PagesNeeded(size), 0) <= MAX_ORDER
    ensures Pow2(OrderFor(PagesNeeded(size), 0)) * PAGE_SIZE >= size <==> size <= 0x1_0000_0000 - PAGE_SIZE
    ensures size > 0x1_0000_0000 - PAGE_SIZE ==> OrderFor(PagesNeeded(size), 0) == 0
  {
    OrderForIsLeast(PagesNeeded(size), 0);
    if size <= 0x1_0000_0000 - PAGE_SIZE {
      assert PagesNeeded(size) == (size + (PAGE_SIZE - 1)) / PAGE_SIZE;
      assert PagesNeeded(size) * PAGE_SIZE >= size;
    } else {
      assert size + (PAGE_SIZE - 1) >= 0x1_0000_0000;
      assert PagesNeeded(size) == 0;
      assert Pow2(0) == 1;
    }
  }

  // ---------------------------------------------------------------- requests that are met

  /** The largest request that rounds up to whole pages without wrapping. */
  const MAX_REQUEST: nat := 0x1_0000_0000 - PAGE_SIZE

  function OrderOf(size: nat): nat {
    OrderFor(PagesNeeded(size), 0)
  }

  /** `o` is the least order whose blocks hold `size` bytes; a size whose rounding wraps gets order 0. */
  ghost predicate LeastFor(o: nat, size: nat) {
    if size > MAX_REQUEST then o == 0
    else size <= Pow2(o) * PAGE_SIZE && forall p: nat :: p < o ==> Pow2(p) * PAGE_SIZE < size
  }

  /** There is room for `size` bytes: an aligned free run of the least order that holds them. */
  ghost predicate Served(own: Labels, size: nat) {
    size > 0 && exists f: nat, o: nat :: o <= MAX_ORDER && LeastFor(o, size) && Aligned(f, o) && FreeRun(own, f, o)
  }

  /** The order `mm_alloc` searches for, in bytes: the least that holds them, past the top order just
      when no block does. */
  lemma OrderExact(size: nat)
    requires 0 < size < 0x1_0000_0000
    ensures OrderOf(size) <= MAX_ORDER ==> LeastFor(OrderOf(size), size)
    ensures OrderOf(size) > MAX_ORDER <==> Pow2(MAX_ORDER) * PAGE_SIZE < size <= MAX_REQUEST
    ensures size <= MAX_REQUEST ==> forall o: nat :: o < OrderOf(size) ==> Pow2(o) * PAGE_SIZE < size
  {
    var pages := PagesNeeded(size);
    OrderForIsLeast(pages, 0);
    if size <= MAX_REQUEST {
      assert pages == (size + (PAGE_SIZE - 1)) / PAGE_SIZE;
      assert (pages - 1) * PAGE_SIZE < size <= pages * PAGE_SIZE;
      forall o: nat
        ensures Pow2(o) < pages <==> Pow2(o) * PAGE_SIZE < size
      {
        WholePages(Pow2(o), pages, size);
      }
    } else {
      assert pages == 0;
    }
  }

  lemma WholePages(n: nat, pages: nat, size: nat)
    requires (pages - 1) * PAGE_SIZE < size <= pages * PAGE_SIZE
    ensures n < pages <==> n * PAGE_SIZE < size
  {
    if n < pages {
      assert n * PAGE_SIZE <= (pages - 1) * PAGE_SIZE;
    } else {
      assert n * PAGE_SIZE >= pages * PAGE_SIZE;
    }
  }

  /** Only one order is the least. */
  lemma LeastIsOne(o: nat, p: nat, size: nat)
    requires LeastFor(o, size) && LeastFor(p, size)
    ensures o == p
  {
  }

  lemma ServedIs(own: Labels, size: nat)
    requires 0 < size < 0x1_0000_0000
    ensures Served(own, size) <==>
            OrderOf(size) <= MAX_ORDER && exists f: nat :: Aligned(f, OrderOf(size)) && FreeRun(own, f, OrderOf(size))
  {
    hide LeastFor, Aligned, FreeRun, OrderOf;
    OrderExact(size);
    if Served(own, size) {
      var f: nat, o: nat :| o <= MAX_ORDER && LeastFor(o, size) && Aligned(f, o) && FreeRun(own, f, o);
      NotPast(o, size);
      LeastIsOne(o, OrderOf(size), size);
    }
  }

  lemma NothingServed(own: Labels)
    ensures !Served(own, 0)
  {
  }

  lemma NotPast(o: nat, size: nat)
    requires o <= MAX_ORDER && 0 < size < 0x1_0000_0000 && LeastFor(o, size)
    ensures OrderOf(size) <= MAX_ORDER
  {
    OrderExact(size);
  }

  lemma OrderGrows(again: nat, granted: nat)
    requires 0 < again <= granted <= MAX_REQUEST
    ensures OrderOf(again) <= OrderOf(granted)
  {
    OrderForIsLeast(PagesNeeded(again), 0);
    OrderForIsLeast(PagesNeeded(granted), 0);
    assert PagesNeeded(again) <= PagesNeeded(granted);
    assert OrderOf(granted) <= MAX_ORDER ==> PagesNeeded(again) <= Pow2(OrderOf(granted));
  }

  /** Freeing a block that was granted for `granted` bytes makes a request for no more bytes succeed. */
  lemma FreeThenServed(z: BuddySpec.Zone, f: nat, granted: nat, again: nat)
    requires OrderOf(granted) <= MAX_ORDER && InHand(z, f, OrderOf(granted))
    requires 0 < again <= granted <= MAX_REQUEST
    ensures Served(FreeZone(z, f, OrderOf(granted)).own, again)
  {
    hide FreeZone, Tiled, Canonical;
    var o, p := OrderOf(granted), OrderOf(again);
    OrderGrows(again, granted);
    FreeThenAlloc(z, f, o, p);
    AllocComplete(FreeZone(z, f, o), p);
    ServedIs(FreeZone(z, f, o).own, again);
  }

  /** Every later free leaves room where there was room. */
  lemma ServedSurvives(own: Labels, own': Labels, f: nat, o: nat, size: nat)
    requires Freed(own, own', f, o) && Served(own, size)
    ensures Served(own', size)
  {
    var g: nat, p: nat :| p <= MAX_ORDER && LeastFor(p, size) && Aligned(g, p) && FreeRun(own, g, p);
    assert FreeRun(own', g, p);
  }

  /** The page is free, or the first of a live block, or none of the heap's. */
  ghost predicate FirstOrFree(own: Labels, x: nat) {
    x in own ==> own[x].free || own[x].start == x
  }

  lemma StillFirstOrFree(own: Labels, own': Labels, f: nat, o: nat)
    requires Freed(own, own', f, o)
    ensures forall x :: FirstOrFree(own, x) ==> FirstOrFree(own', x)
    ensures forall size :: Served(own, size) ==> Served(own', size)
  {
    forall size | Served(own, size)
      ensures Served(own', size)
    {
      ServedSurvives(own, own', f, o, size);
    }
  }

  /** A freed block serves every request no larger than its own. */
  ghost predicate Promised(z: BuddySpec.Zone, f: nat, granted: nat)
    requires OrderOf(granted) <= MAX_ORDER && InHand(z, f, OrderOf(granted))
  {
    forall again: nat :: 0 < again <= granted ==> Served(FreeZone(z, f, OrderOf(granted)).own, again)
  }

  /** In every zone that holds exactly of the blocks whose request rounded up without wrapping. */
  lemma PromiseExact(z: BuddySpec.Zone, f: nat, granted: nat)
    requires 0 < granted < 0x1_0000_0000 && OrderOf(granted) <= MAX_ORDER && InHand(z, f, OrderOf(granted))
    ensures Promised(z, f, granted) <==> granted <= MAX_REQUEST
  {
    if granted <= MAX_REQUEST {
      forall again: nat | 0 < again <= granted
        ensures Served(FreeZone(z, f, OrderOf(granted)).own, again)
      {
        FreeThenServed(z, f, granted, again);
      }
    } else {
      TooLarge(FreeZone(z, f, OrderOf(granted)).own);
    }
  }

  /** Some requests that round up without wrapping are larger than any block. */
  lemma TooLarge(own: Labels)
    ensures !Served(own, MAX_REQUEST)
  {
    ServedIs(own, MAX_REQUEST);
    OrderExact(MAX_REQUEST);
    TopBlock();
  }

  lemma TopBlock()
    ensures forall o :: 0 <= o <= MAX_ORDER ==> Pow2(o) <= 1024
  {
    assert Pow2(5) == 32;
    assert Pow2(10) == 1024;
    forall o | 0 <= o < MAX_ORDER
      ensures Pow2(o) <= 1024
    {
      Pow2Grows(o, MAX_ORDER);
    }
  }

  /** The heap of the one page `base` after `mm_init` and a request of one page. */
  ghost function OnePageGranted(base: nat): BuddySpec.Zone {
    EmptyIsAdding(base, 1);
    GreedyIsCanonical(EmptyZone(base, 1), base, 1);
    AllocZone(GreedyZone(EmptyZone(base, 1), base, 1), 0)
  }

  /** A request whose rounding wraps gets one page. In a heap of that page the promise then fails at
      two pages already. */
  lemma WrappedGrantIsSmall(base: nat, granted: nat)
    requires base > 0 && MAX_REQUEST < granted < 0x1_0000_0000
    ensures OrderOf(granted) == 0 && OrderOf(2 * PAGE_SIZE) == 1
    ensures var z := OnePageGranted(base);
            InHand(z, base, 0) && !Served(FreeZone(z, base, 0).own, 2 * PAGE_SIZE)
  {
    assert PagesNeeded(granted) == 0 && PagesNeeded(2 * PAGE_SIZE) == 2;
    assert Pow2(0) == 1 && Pow2(1) == 2;
    assert OrderOf(2 * PAGE_SIZE) == OrderFor(2, 1) == 1;
    OnePage(base);
    var z := OnePageGranted(base);
    FreeZoneKeeps(z, base, 0);
    var own' := FreeZone(z, base, 0).own;
    ServedIs(own', 2 * PAGE_SIZE);
    forall f: nat
      ensures !FreeRun(own', f, 1)
    {
      assert InRun(f, f, 1) && InRun(f + 1, f, 1);
      assert !(f in z.own && f + 1 in z.own);
    }
  }

  lemma OnePage(base: nat)
    ensures InHand(OnePageGranted(base), base, 0) && OnePageGranted(base).own.Keys == {base}
  {
    var z0, z := EmptyZone(base, 1), GreedyZone(EmptyZone(base, 1), base, 1);
    EmptyIsAdding(base, 1);
    GreedyIsCanonical(z0, base, 1);
    assert z0.own.Keys == {base};
    assert base in FreeFrames(z.own);
    assert Pow2(0) == 1 && Aligned(base, 0) && FreeRun(z.own, base, 0);
    hide GreedyZone, AllocZone, EmptyZone, Tiled, Canonical, FreeZone;
    AllocComplete(z, 0);
    AllocKeeps(z, 0);
    assert z.lists[FirstNonEmpty(z.lists, 0)][0] in z.own;
  }

  /** The coalescing test reads the buddy's flag and order only, yet holds exactly when the buddy
      heads a free block of that order. */
  lemma CoalescingTestExact(own: Labels, b: nat, o: nat, page: Page)
    requires Tiled(own) && b in own && Aligned(b, o)
    requires page.free == own[b].free && (page.free ==> page.order == own[b].order)
    ensures (page.free && page.order == o) <==> FreeHead(own, b, o)
  {
    assert InBlock(own, b);
    if page.free && page.order == o {
      Swallows(own[b].start, o, b, o, b);
    }
  }

  /** Page metadata agrees with the tiling. The order recorded at the head of a block in hand is
      not meaningful yet, nor are those at the inner pages of live blocks. */
  ghost predicate PagesExact(own: Labels, base: nat, total: nat, s: seq<Page>, hand: set<nat>) {
    && total <= |s| == MAX_PAGES
    && (forall x :: x in own <==> base <= x < base + total)
    && (forall x :: x in own ==> PageExact(own[x], x, s[x - base], hand))
  }

  ghost predicate PageExact(b: Own, x: nat, page: Page, hand: set<nat>) {
    && page.frame == x && page.free == b.free
    && (b.free || (b.start == x && x !in hand) ==> page.order == b.order)
  }

  lemma PaintPages(own: Labels, base: nat, total: nat, s: seq<Page>, s': seq<Page>, f: nat, o: nat, free: bool,
                   hand: set<nat>)
    requires PagesExact(own, base, total, s, hand) && base <= f && InZone(own, f, o)
    requires Rewritten(s, s', f - base, Pow2(o), free, o)
    ensures PagesExact(Paint(own, f, o, free), base, total, s', if free then hand - {f} else hand + {f})
  {
    var own' := Paint(own, f, o, free);
    var hand' := if free then hand - {f} else hand + {f};
    forall x | x in own'
      ensures PageExact(own'[x], x, s'[x - base], hand')
    {
      assert PageExact(own[x], x, s[x - base], hand);
    }
  }

  lemma MergePages(own: Labels, base: nat, total: nat, s: seq<Page>, f: nat, b: nat, m: nat, o: nat)
    requires PagesExact(own, base, total, s, {f} + {b}) && (m == f || m == b)
    requires InRun(f, m, o + 1) && InRun(b, m, o + 1)
    requires forall y :: InRun(y, m, o + 1) ==> y in own && !own[y].free
    ensures PagesExact(Paint(own, m, o + 1, false), base, total, s, {m})
  {
    var own' := Paint(own, m, o + 1, false);
    forall x | x in own'
      ensures PageExact(own'[x], x, s[x - base], {m})
    {
      assert PageExact(own[x], x, s[x - base], {f} + {b});
    }
  }

  lemma FreeZoneMerges(z: BuddySpec.Zone, f: nat, o: nat)
    requires o < MAX_ORDER && |z.lists| == MAX_ORDER + 1 && FreeHead(z.own, Buddy(f, o), o)
    ensures |Merge(z, f, o).lists| == MAX_ORDER + 1
    ensures FreeZone(z, f, o) == FreeZone(Merge(z, f, o), Min(f, Buddy(f, o)), o + 1)
  {
  }

  lemma FreeZoneStops(z: BuddySpec.Zone, f: nat, o: nat)
    requires o <= MAX_ORDER && InHand(z, f, o) && (o < MAX_ORDER ==> !FreeHead(z.own, Buddy(f, o), o))
    ensures FreeZone(z, f, o) == Push(z, f, o) && InZone(z.own, f, o)
  {
    assert InBlock(z.own, f);
  }

  /** The block `buddy_alloc_pages` takes: the head of the first list that is not empty. */
  function FirstBlock(lists: seq<seq<nat>>, o: nat): Option<nat>
    requires |lists| == MAX_ORDER + 1 && o <= MAX_ORDER
  {
    FirstNonEmptyIsFirst(lists, o);
    if FirstNonEmpty(lists, o) > MAX_ORDER then None else Some(lists[FirstNonEmpty(lists, o)][0])
  }

  lemma AllocReady(z: BuddySpec.Zone, c: nat)
    requires Inv(z) && c <= MAX_ORDER && z.lists[c] != []
    ensures FreeHead(z.own, z.lists[c][0], c) && z.lists[c][0] in z.lists[c]
    ensures z.lists[c][0] in z.own && InZone(z.own, z.lists[c][0], c)
  {
    assert ListExact(z.own, z.lists[c], c);
    assert z.lists[c][0] in z.lists[c];
    assert InBlock(z.own, z.lists[c][0]);
  }

  lemma SplitZoneHalves(z: BuddySpec.Zone, f: nat, c: nat, o: nat)
    requires o <= c < MAX_ORDER && |z.lists| == MAX_ORDER + 1
    ensures SplitZone(z, f, c + 1, o) == SplitZone(Halve(z, f, c), f, c, o)
  {
  }

  lemma SplitZoneStops(z: BuddySpec.Zone, f: nat, o: nat)
    requires o <= MAX_ORDER && |z.lists| == MAX_ORDER + 1
    ensures SplitZone(z, f, o, o) == z
  {
  }

  lemma HalveReady(z: BuddySpec.Zone, base: nat, total: nat, s: seq<Page>, f: nat, o: nat)
    requires InHand(z, f, o + 1) && PagesExact(z.own, base, total, s, {f})
    ensures base <= f && f + Pow2(o) < base + total
    ensures PagesExact(BothHalves(z.own, f, o), base, total, s, {f} + {f + Pow2(o)})
    ensures InZone(BothHalves(z.own, f, o), f + Pow2(o), o)
    ensures Paint(BothHalves(z.own, f, o), f + Pow2(o), o, true) == Halved(z.own, f, o)
  {
    hide Inv, Paint, Pow2, BothHalves, Halved;
    assert Tiled(z.own) by { InvTiled(z); }
    HalvesInside(z.own, f, f + Pow2(o), o);
    PaintedTwice(z.own, f, o);
    HalvePages(z.own, base, total, s, f, o);
  }

  lemma InvTiled(z: BuddySpec.Zone)
    requires Inv(z)
    ensures Tiled(z.own)
  {
  }

  lemma HalvesInside(own: Labels, f: nat, m: nat, o: nat)
    requires Tiled(own) && LiveHead(own, f, o + 1) && m == f + Pow2(o)
    ensures f in own && m in own && InZone(own, m, o)
    ensures forall y :: InRun(y, f, o) || InRun(y, m, o) ==> y in own && own[y] == Own(false, f, o + 1)
  {
    hide Pow2, Tiled, Aligned, Buddy, InRun;
    BlockAt(own, f);
    HalfRuns(f, m, o, own[f].order);
  }

  lemma PaintedTwice(own: Labels, f: nat, o: nat)
    ensures Paint(BothHalves(own, f, o), f + Pow2(o), o, true) == Halved(own, f, o)
    ensures BothHalves(own, f, o).Keys == own.Keys
  {
  }

  /** Both halves of a live block as live blocks. */
  ghost function BothHalves(own: Labels, f: nat, o: nat): Labels {
    Paint(Paint(own, f, o, false), f + Pow2(o), o, false)
  }

  lemma HalvePages(own: Labels, base: nat, total: nat, s: seq<Page>, f: nat, o: nat)
    requires PagesExact(own, base, total, s, {f})
    requires forall y :: InRun(y, f, o) || InRun(y, f + Pow2(o), o) ==> y in own && own[y] == Own(false, f, o + 1)
    ensures PagesExact(BothHalves(own, f, o), base, total, s, {f} + {f + Pow2(o)})
  {
    hide InRun, Pow2;
    var own' := BothHalves(own, f, o);
    forall x | x in own'
      ensures PageExact(own'[x], x, s[x - base], {f} + {f + Pow2(o)})
    {
      assert PageExact(own[x], x, s[x - base], {f});
    }
  }

  lemma GreedyRun(z: BuddySpec.Zone, frame: nat, nr: nat, o: nat)
    requires Adding(z, frame, nr) && nr > 0 && o == GreedyOrder(frame, nr, MAX_ORDER)
    ensures forall y :: InRun(y, frame, o) ==> y in z.own && !z.own[y].free
  {
    GreedyOrderIsLargest(frame, nr, MAX_ORDER);
  }

  lemma AllocFails(z: BuddySpec.Zone, o: nat)
    requires o <= MAX_ORDER && |z.lists| == MAX_ORDER + 1 && FirstNonEmpty(z.lists, o) > MAX_ORDER
    ensures AllocZone(z, o) == z
  {
  }

  lemma MergeReady(z: BuddySpec.Zone, f: nat, b: nat, m: nat, o: nat, p: nat)
    requires InHand(z, f, o) && o < MAX_ORDER && FreeHead(z.own, b, o)
    requires b == Buddy(f, o) && m == Min(f, b) && p == o + 1
    ensures InZone(z.own, b, o) && b in z.lists[o] && InRun(f, m, p) && InRun(b, m, p)
    ensures forall y :: InRun(y, m, p) ==> y in Pull(z, b, o).own && !Pull(z, b, o).own[y].free
  {
    hide Aligned, Pow2, Buddy, Min, InRun, Tiled;
    BlockAt(z.own, b);
    BlockAt(z.own, f);
    assert ListExact(z.own, z.lists[o], o);
    BuddyRuns(f, b, m, o, p);
  }

  lemma {:induction false} WithoutShorter(l: seq<nat>, f: nat)
    requires f in l
    ensures |Without(l, f)| == |l| - 1
  {
    if l[0] != f {
      WithoutShorter(l[1..], f);
    }
  }

  lemma LivePages(own: Labels, base: nat, total: nat, s: seq<Page>, f: nat, o: nat)
    requires PagesExact(own, base, total, s, {})
    requires forall y :: InRun(y, f, o) ==> y in own && !own[y].free
    ensures PagesExact(Paint(own, f, o, false), base, total, s, {f})
  {
    var own' := Paint(own, f, o, false);
    forall x | x in own'
      ensures PageExact(own'[x], x, s[x - base], {f})
    {
      assert PageExact(own[x], x, s[x - base], {});
    }
  }

  lemma OrderRecorded(own: Labels, base: nat, total: nat, s: seq<Page>, s': seq<Page>, k: nat, o: nat)
    requires PagesExact(own, base, total, s, {base + k}) && k < total && LiveHead(own, base + k, o)
    requires s' == s[k := s[k].(order := o)]
    ensures PagesExact(own, base, total, s', {})
  {
    forall x | x in own
      ensures PageExact(own[x], x, s'[x - base], {})
    {
      assert PageExact(own[x], x, s[x - base], {base + k});
    }
  }

  lemma InUseHand(own: Labels, base: nat, total: nat, s: seq<Page>, f: nat)
    requires PagesExact(own, base, total, s, {})
    ensures PagesExact(own, base, total, s, {f})
  {
    forall x | x in own
      ensures PageExact(own[x], x, s[x - base], {f})
    {
      assert PageExact(own[x], x, s[x - base], {});
    }
  }

  class Manager {
    const pages: array<Page>
    var heapBase: nat
    var totalPages: nat
    var lists: seq<seq<nat>>   // free_lists[o], as absolute frames, head first
    var counts: seq<nat>       // free_block_count
    ghost var own: Labels

    ghost function Zone(): BuddySpec.Zone
      reads `own, `lists
    {
      BuddySpec.Zone(own, lists)
    }

    function Base(): nat
      reads `heapBase
    {
      heapBase / PAGE_SIZE
    }

    ghost predicate Meta(hand: set<nat>)
      reads this, pages
    {
      && PagesExact(own, Base(), totalPages, pages[..], hand)
      && |lists| == MAX_ORDER + 1 && |counts| == MAX_ORDER + 1
      && (forall o :: 0 <= o <= MAX_ORDER ==> counts[o] == |lists[o]|)
    }

    ghost predicate Valid()
      reads this, pages
    {
      Meta({}) && Inv(Zone())
    }

    constructor ()
      ensures pages.Length == MAX_PAGES && fresh(pages)
    {
      pages := new Page[MAX_PAGES](_ => Page(false, 0, 0));
    }

    /** The page loop of `add_to_free_list` and `del_from_free_list`. */
    method MarkPages(k: nat, n: nat, free: bool, order: nat)
      requires k + n <= pages.Length
      modifies pages
      ensures Rewritten(old(pages[..]), pages[..], k, n, free, order)
    {
      var i := 0;
      while i < n
        invariant i <= n
        invariant Rewritten(old(pages[..]), pages[..], k, i, free, order)
      {
        pages[k + i] := if free then pages[k + i].(order := order, free := true) else pages[k + i].(free := false);
        i := i + 1;
      }
    }

    method AddToFreeList(k: nat, order: nat, ghost hand: set<nat>)
      requires order <= MAX_ORDER && k < totalPages && Meta(hand) && InZone(own, Base() + k, order)
      modifies this`lists, this`counts, this`own, pages
      ensures Meta(hand - {Base() + k}) && Zone() == Push(old(Zone()), Base() + k, order)
    {
      hide PagesExact, InZone, Paint, FreeHead, Rewritten;
      ghost var f := Base() + k;
      FrameNumber(k, hand);
      RunOfPages(k, order, hand);
      lists := lists[order := [pages[k].frame] + lists[order]];
      counts := counts[order := counts[order] + 1];
      MarkPages(k, Pow2(order), true, order);
      PaintPages(own, Base(), totalPages, old(pages[..]), pages[..], f, order, true, hand);
      own := Paint(own, f, order, true);
      assert f == Base() + k;
      assert Zone() == Push(old(Zone()), f, order);
    }

    method DelFromFreeList(k: nat, order: nat, ghost hand: set<nat>)
      requires order <= MAX_ORDER && k < totalPages && Meta(hand) && FreeHead(own, Base() + k, order)
      requires InZone(own, Base() + k, order) && Base() + k in lists[order]
      modifies this`lists, this`counts, this`own, pages
      ensures Meta(hand + {Base() + k}) && Zone() == Pull(old(Zone()), Base() + k, order)
    {
      hide PagesExact, InZone, Paint, FreeHead, Rewritten;
      ghost var f := Base() + k;
      FrameNumber(k, hand);
      RunOfPages(k, order, hand);
      WithoutShorter(lists[order], f);
      lists := lists[order := Without(lists[order], pages[k].frame)];
      counts := counts[order := counts[order] - 1];
      MarkPages(k, Pow2(order), false, order);
      PaintPages(own, Base(), totalPages, old(pages[..]), pages[..], f, order, false, hand);
      own := Paint(own, f, order, false);
      assert f == Base() + k;
      assert Zone() == Pull(old(Zone()), f, order);
    }

    method FreePages(k0: nat, order0: nat)
      requires order0 <= MAX_ORDER && k0 < totalPages && Meta({Base() + k0}) && InHand(Zone(), Base() + k0, order0)
      modifies this`lists, this`counts, this`own, pages
      ensures Meta({}) && Zone() == FreeZone(old(Zone()), Base() + k0, order0)
    {
      hide Inv, FreeZone, PagesExact, InZone, Push, Merge;
      var k: nat, order: nat := k0, order0;
      FrameNumber(k, {Base() + k});
      var frame: nat := pages[k].frame;
      while order < MAX_ORDER
        invariant order <= MAX_ORDER && k < totalPages && frame == Base() + k && Meta({frame})
        invariant InHand(Zone(), frame, order)
        invariant FreeZone(Zone(), frame, order) == FreeZone(old(Zone()), Base() + k0, order0)
        decreases MAX_ORDER - order
      {
        var b := Buddy(frame, order);
        if b < Base() || b >= Base() + totalPages {
          OutOfZone(b, frame);
          break;
        }
        BuddyTest(b - Base(), frame, order);
        if !pages[b - Base()].free || pages[b - Base()].order != order {
          break;
        }
        FreeZoneMerges(Zone(), frame, order);
        MergeBuddy(b - Base(), frame, order);
        if b < frame {
          k, frame := b - Base(), b;
        }
        order := order + 1;
      }
      FreeZoneStops(Zone(), frame, order);
      AddToFreeList(k, order, {frame});
      assert {frame} - {frame} == {};
    }

    lemma FrameNumber(k: nat, hand: set<nat>)
      requires k < totalPages && Meta(hand)
      ensures pages.Length == MAX_PAGES >= totalPages && pages[k].frame == Base() + k
    {
      assert PageExact(own[Base() + k], Base() + k, pages[..][k], hand);
    }

    lemma RunOfPages(k: nat, order: nat, hand: set<nat>)
      requires Meta(hand) && InZone(own, Base() + k, order)
      ensures k + Pow2(order) <= totalPages
    {
      var last := Base() + k + Pow2(order) - 1;
      assert InRun(last, Base() + k, order);
      assert last in own;
    }

    lemma OutOfZone(b: nat, frame: nat)
      requires Meta({frame}) && !(Base() <= b < Base() + totalPages)
      ensures b !in own
    {
    }

    lemma BuddyTest(bk: nat, frame: nat, order: nat)
      requires bk < totalPages && Meta({frame}) && InHand(Zone(), frame, order)
      requires Base() + bk == Buddy(frame, order)
      ensures pages[bk].free && pages[bk].order == order <==> FreeHead(own, Buddy(frame, order), order)
    {
      var b := Base() + bk;
      assert PageExact(own[b], b, pages[..][bk], {frame});
      assert InBlock(own, frame);
      BuddyHalves(frame, order);
      CoalescingTestExact(own, b, order, pages[bk]);
    }

    /** Takes the free buddy off its list and joins it to the block in hand. */
    method MergeBuddy(bk: nat, frame: nat, order: nat)
      requires bk < totalPages && order < MAX_ORDER && Meta({frame}) && InHand(Zone(), frame, order)
      requires Base() + bk == Buddy(frame, order) && FreeHead(own, Base() + bk, order)
      modifies this`lists, this`counts, this`own, pages
      ensures Zone() == Merge(old(Zone()), frame, order)
      ensures Meta({Min(frame, Base() + bk)}) && InHand(Zone(), Min(frame, Base() + bk), order + 1)
    {
      hide Inv, PagesExact, InRun, Paint, Aligned, Buddy, Pow2, InZone;
      MergeKeeps(Zone(), frame, order);
      ghost var b := Base() + bk;
      MergeReady(Zone(), frame, b, Min(frame, b), order, order + 1);
      DelFromFreeList(bk, order, {frame});
      MergePages(own, Base(), totalPages, pages[..], frame, b, Min(frame, b), order);
      own := Paint(own, Min(frame, b), order + 1, false);
    }

    /** `current_order--` and the upper half listed: the lower half stays in hand. */
    method HalveBlock(k: nat, order: nat)
      requires order < MAX_ORDER && k < totalPages && Meta({Base() + k}) && InHand(Zone(), Base() + k, order + 1)
      modifies this`lists, this`counts, this`own, pages
      ensures Meta({Base() + k}) && Zone() == Halve(old(Zone()), Base() + k, order)
      ensures InHand(Zone(), Base() + k, order)
    {
      hide Inv, PagesExact, InZone, Paint, FreeHead, LiveHead, Pow2, BothHalves, Halved;
      ghost var f := Base() + k;
      FrameNumber(k, {f});
      var buddy := pages[k].frame + Pow2(order) - Base();
      HalveKeeps(Zone(), f, order);
      HalveReady(Zone(), Base(), totalPages, pages[..], f, order);
      own := BothHalves(own, f, order);
      AddToFreeList(buddy, order, {f} + {f + Pow2(order)});
      assert ({f} + {f + Pow2(order)}) - {f + Pow2(order)} == {f};
    }

    /** The splitting loop of `buddy_alloc_pages`. */
    method SplitDown(k: nat, c: nat, order: nat)
      requires order <= c <= MAX_ORDER && k < totalPages && Meta({Base() + k}) && InHand(Zone(), Base() + k, c)
      modifies this`lists, this`counts, this`own, pages
      ensures Meta({Base() + k}) && Zone() == SplitZone(old(Zone()), Base() + k, c, order)
      ensures InHand(Zone(), Base() + k, order)
    {
      hide Inv, PagesExact, LiveHead, SplitZone;
      ghost var f := Base() + k;
      var current := c;
      while current > order
        invariant order <= current <= c && f == Base() + k
        invariant Meta({f}) && InHand(Zone(), f, current)
        invariant SplitZone(Zone(), f, current, order) == SplitZone(old(Zone()), f, c, order)
      {
        current := current - 1;
        SplitZoneHalves(Zone(), f, current, order);
        HalveBlock(k, current);
      }
      SplitZoneStops(Zone(), f, order);
    }

    method AllocPages(order: nat) returns (r: Option<nat>)
      requires order <= MAX_ORDER && Valid()
      modifies this`lists, this`counts, this`own, pages
      ensures Valid() && Zone() == AllocZone(old(Zone()), order)
      ensures r.None? <==> FirstBlock(old(lists), order).None?
      ensures r.Some? ==> r.value < totalPages && FirstBlock(old(lists), order) == Some(Base() + r.value)
    {
      hide Inv, PagesExact, FreeHead, LiveHead, Pull, SplitZone, InZone, Granted;
      r := None;
      var current := order;
      FirstNonEmptyIsFirst(lists, order);
      while current <= MAX_ORDER && lists[current] == []
        modifies {}
        invariant order <= current <= FirstNonEmpty(lists, order)
      {
        current := current + 1;
      }
      if current <= MAX_ORDER {
        AllocKeeps(Zone(), order);
        AllocReady(Zone(), current);
        FrameInZone(lists[current][0]);
        var k := lists[current][0] - Base();
        PullKeeps(Zone(), Base() + k, current);
        DelFromFreeList(k, current, {});
        assert {} + {Base() + k} == {Base() + k};
        SplitDown(k, current, order);
        RecordOrder(k, order);
        r := Some(k);
      }
    }

    /** `page->order = order` at the head of the granted block. */
    method RecordOrder(k: nat, order: nat)
      requires k < totalPages && Meta({Base() + k}) && InHand(Zone(), Base() + k, order)
      modifies pages
      ensures Meta({})
    {
      hide PagesExact, Inv;
      FrameNumber(k, {Base() + k});
      pages[k] := pages[k].(order := order);
      OrderRecorded(own, Base(), totalPages, old(pages[..]), pages[..], k, order);
    }

    lemma FrameInZone(f: nat)
      requires Meta({}) && f in own
      ensures Base() <= f < Base() + totalPages
    {
    }

    /** `buddy_add_memory`: the greedy decomposition, in which freeing never coalesces. */
    method AddMemory(n: nat)
      requires Meta({}) && n == totalPages && Zone() == EmptyZone(Base(), n)
      modifies this`lists, this`counts, this`own, pages
      ensures Valid() && Zone() == GreedyZone(EmptyZone(Base(), n), Base(), n)
    {
      hide PagesExact, EmptyZone, GreedyZone, Adding, Inv;
      EmptyIsAdding(Base(), n);
      var frame: nat, nr: nat := Base(), n;
      while nr > 0
        invariant frame >= Base() && frame + nr == Base() + n && Meta({}) && Adding(Zone(), frame, nr)
        invariant GreedyZone(Zone(), frame, nr) == GreedyZone(EmptyZone(Base(), n), Base(), n)
        decreases nr
      {
        var order := MAX_ORDER;
        while order > 0
          modifies {}
          invariant 0 <= order <= MAX_ORDER && GreedyOrder(frame, nr, order) == GreedyOrder(frame, nr, MAX_ORDER)
        {
          if Aligned(frame, order) && nr >= Pow2(order) {
            break;
          }
          order := order - 1;
        }
        AddingStep(Zone(), frame, nr, order);
        GreedyZoneAdds(Zone(), frame, nr);
        AddBlock(frame, nr, order);
        frame, nr := frame + Pow2(order), nr - Pow2(order);
      }
      GreedyZoneDone(Zone(), frame, nr);
    }

    /** One greedy block freed into the zone. */
    method AddBlock(frame: nat, ghost nr: nat, order: nat)
      requires Base() <= frame < Base() + totalPages && nr > 0 && order == GreedyOrder(frame, nr, MAX_ORDER)
      requires Meta({}) && Adding(Zone(), frame, nr)
      modifies this`lists, this`counts, this`own, pages
      ensures Meta({}) && Zone() == Push(old(Zone()), frame, order)
    {
      hide PagesExact, Inv, Buddy, FreeHead, LiveHead;
      GreedyNeverCoalesces(Zone(), frame, nr, order);
      GreedyRun(Zone(), frame, nr, order);
      LivePages(own, Base(), totalPages, pages[..], frame, order);
      own := Paint(own, frame, order, false);
      FreeZoneStops(Zone(), frame, order);
      FreePages(frame - Base(), order);
    }

    method MmInit(start: nat, size: nat)
      requires pages.Length == MAX_PAGES
      modifies this, pages
      ensures Valid() && heapBase == start && totalPages == Min(size / PAGE_SIZE, MAX_PAGES)
      ensures Zone() == GreedyZone(EmptyZone(start / PAGE_SIZE, totalPages), start / PAGE_SIZE, totalPages)
      ensures FreeFrames(own) == own.Keys
    {
      hide GreedyZone, Inv, FreeFrames, Adding;
      var numPages := size / PAGE_SIZE;
      if numPages > MAX_PAGES {
        numPages := MAX_PAGES;
      }
      heapBase, totalPages := start, numPages;
      lists := seq(MAX_ORDER + 1, _ => []);
      counts := seq(MAX_ORDER + 1, _ => 0);
      var i := 0;
      while i < numPages
        modifies pages
        invariant i <= numPages
        invariant forall j :: 0 <= j < i ==> pages[j] == Page(false, 0, Base() + j)
      {
        pages[i] := Page(false, 0, Base() + i);
        i := i + 1;
      }
      own := EmptyZone(Base(), numPages).own;
      assert Zone() == EmptyZone(Base(), numPages);
      AddMemory(numPages);
      EmptyIsAdding(Base(), numPages);
      GreedyIsCanonical(EmptyZone(Base(), numPages), Base(), numPages);
    }

    method MmAlloc(size: nat) returns (ptr: nat)
      requires Valid() && heapBase > 0 && size < 0x1_0000_0000
      modifies this`lists, this`counts, this`own, pages
      ensures Valid()
      ensures ptr != NULL <==> Served(old(own), size)
      ensures ptr == NULL ==> Zone() == old(Zone())
      ensures ptr != NULL ==>
                var order := OrderOf(size);
                && LeastFor(order, size)
                && Zone() == AllocZone(old(Zone()), order)
                && FirstBlock(old(lists), order).Some?
                && var f := FirstBlock(old(lists), order).value;
                && f >= Base() && ptr == heapBase + (f - Base()) * PAGE_SIZE && LiveHead(own, f, order)
                && Granted(old(own), own, f, order)
    {
      hide Inv, PagesExact, FreeHead, AllocZone, Granted, FreeRun, Aligned, LeastFor, Served, PagesNeeded;
      if size == 0 {
        NothingServed(own);
        return NULL;
      }
      OrderExact(size);
      ServedIs(own, size);
      var order := 0;
      var pagesNeeded := PagesNeeded(size);
      while order <= MAX_ORDER && Pow2(order) < pagesNeeded
        modifies {}
        invariant 0 <= order <= MAX_ORDER + 1 && OrderFor(pagesNeeded, order) == OrderFor(pagesNeeded, 0)
      {
        order := order + 1;
      }
      if order > MAX_ORDER {
        return NULL;
      }
      AllocComplete(Zone(), order);
      FirstNonEmptyIsFirst(lists, order);
      if FirstNonEmpty(lists, order) <= MAX_ORDER {
        AllocKeeps(Zone(), order);
      } else {
        AllocFails(Zone(), order);
      }
      var page := AllocPages(order);
      if page.None? {
        return NULL;
      }
      ptr := heapBase + page.value * PAGE_SIZE;
    }

    /** A pointer in the heap whose page is in use must point into the first page of a live block. */
    ghost predicate Freeable(ptr: nat)
      reads this
    {
      heapBase <= ptr < heapBase + totalPages * PAGE_SIZE ==>
        var x := Base() + (ptr - heapBase) / PAGE_SIZE;
        FirstOrFree(own, x)
    }

    method MmFree(ptr: nat)
      requires Valid() && Freeable(ptr)
      modifies this`lists, this`counts, this`own, pages
      ensures Valid()
      ensures var x := Base() + (ptr - heapBase) / PAGE_SIZE;
              if ptr != NULL && heapBase <= ptr < heapBase + totalPages * PAGE_SIZE && x in old(own)
                && !old(own)[x].free
              then old(own)[x].order <= MAX_ORDER
                   && Zone() == FreeZone(old(Zone()), x, old(own)[x].order)
                   && Freed(old(own), own, x, old(own)[x].order)
              else Zone() == old(Zone())
      ensures forall q: nat :: old(Freeable(q)) ==> Freeable(q)
      ensures forall size: nat :: Served(old(own), size) ==> Served(own, size)
    {
      hide Inv, FreeZone, Freed, PagesExact, Served, FirstOrFree;
      if ptr == NULL {
        return;
      }
      if ptr < heapBase || ptr >= heapBase + totalPages * PAGE_SIZE {
        return;
      }
      var pageIndex := (ptr - heapBase) / PAGE_SIZE;
      if pageIndex >= totalPages {
        return;
      }
      FrameNumber(pageIndex, {});
      PageInUse(pageIndex);
      if pages[pageIndex].free {
        return;
      }
      InUse(Base() + pageIndex);
      ghost var was, order := own, own[Base() + pageIndex].order;
      FreeZoneKeeps(Zone(), Base() + pageIndex, order);
      FreePages(pageIndex, pages[pageIndex].order);
      StillFirstOrFree(was, own, Base() + pageIndex, order);
    }

    lemma InUse(x: nat)
      requires x in own && FirstOrFree(own, x) && !own[x].free
      ensures own[x].start == x
    {
    }

    /** Frees a block and any others, then asks again. */
    method FreeThenAlloc(ptr: nat, more: seq<nat>, ghost granted: nat, again: nat) returns (p: nat)
      requires Valid() && heapBase > 0 && heapBase <= ptr < heapBase + totalPages * PAGE_SIZE
      requires OrderOf(granted) <= MAX_ORDER && LiveHead(own, Base() + (ptr - heapBase) / PAGE_SIZE, OrderOf(granted))
      requires 0 < again <= granted <= MAX_REQUEST
      requires forall i :: 0 <= i < |more| ==> Freeable(more[i])
      modifies this`lists, this`counts, this`own, pages
      ensures Valid() && p != NULL
    {
      hide Inv, PagesExact, FreeZone, Freed, Served, LiveHead;
      FreeThenServed(Zone(), Base() + (ptr - heapBase) / PAGE_SIZE, granted, again);
      HeadFacts(Base() + (ptr - heapBase) / PAGE_SIZE, OrderOf(granted));
      MmFree(ptr);
      for i := 0 to |more|
        invariant Valid() && Served(own, again) && forall j :: i <= j < |more| ==> Freeable(more[j])
      {
        MmFree(more[i]);
      }
      p := MmAlloc(again);
    }

    lemma HeadFacts(x: nat, order: nat)
      requires Valid() && LiveHead(own, x, order)
      ensures x in own && !own[x].free && own[x].order == order && FirstOrFree(own, x)
    {
    }

    lemma PageInUse(k: nat)
      requires Valid() && k < totalPages
      ensures Base() + k in own && pages[k].free == own[Base() + k].free
      ensures own[Base() + k].order <= MAX_ORDER && Meta({Base() + k})
      ensures own[Base() + k].start == Base() + k ==> pages[k].order == own[Base() + k].order
    {
      hide Inv, Canonical, ListsExact;
      InvTiled(Zone());
      BlockAt(own, Base() + k);
      hide Tiled, InBlock;
      assert PageExact(own[Base() + k], Base() + k, pages[..][k], {});
      InUseHand(own, Base(), totalPages, pages[..], Base() + k);
    }

    method MmGetStats() returns (total: nat, free: nat)
      requires Valid()
      ensures total == totalPages * PAGE_SIZE && free == |FreeFrames(own)| * PAGE_SIZE
    {
      hide Inv, PagesExact;
      total := totalPages * PAGE_SIZE;
      var freePages := 0;
      var o := 0;
      while o <= MAX_ORDER
        invariant 0 <= o <= MAX_ORDER + 1 && freePages == ListedFrames(lists, o)
      {
        freePages := freePages + counts[o] * Pow2(o);
        o := o + 1;
      }
      StatsCountFreeFrames(Zone());
      free := freePages * PAGE_SIZE;
    }
  }
}
