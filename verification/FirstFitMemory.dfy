/** The first-fit memory manager over its block headers and roving ring pointer, updated in place. */
module FirstFitMemory {
  import opened Intervals
  import opened FirstFitSpec
  import opened FirstFitSteps
  import opened FirstFitRing
  import opened Options

  const BLOCK_SIZE: nat := 16
  const MIN_BLOCK_UNITS: nat := 2
  const NULL: nat := 0

  function BytesToUnits(bytes: nat): nat {
    (bytes + BLOCK_SIZE - 1) / BLOCK_SIZE
  }

  /** Units for `bytes` and a header. */
  function UnitsNeeded(bytes: nat): (k: nat)
    ensures k > 0
  {
    BytesToUnits(bytes) + 1
  }

  /** A granted block has room for the request beside its header, and wastes less than one unit. */
  lemma GrantCovers(bytes: nat)
    requires bytes > 0
    ensures UnitsNeeded(bytes) >= MIN_BLOCK_UNITS
    ensures bytes <= (UnitsNeeded(bytes) - 1) * BLOCK_SIZE < bytes + BLOCK_SIZE
  {
  }

  // ---------------------------------------------------------------- headers

  /** The `blockSize` fields at block starts agree with the tiling; the sentinel's is 0. */
  ghost predicate SizesExact(size: seq<nat>, own: Labels) {
    && |size| > 0 && size[SENTINEL] == 0
    && forall h :: h in own && own[h].start == h ==> h < |size| && size[h] == own[h].size
  }

  lemma CutSizes(size: seq<nat>, own: Labels, own': Labels, h: nat, s: nat, b: nat, k: nat)
    requires SizesExact(size, own) && Cut(own, own', h, s, b, k) && 0 < h && b < |size|
    ensures h < |size| && SizesExact(if s == k then size else size[h := s - k][b := k], own')
  {
    var size' := if s == k then size else size[h := s - k][b := k];
    assert Within(h, h, s) && Within(b, h, s);
    forall x | x in own' && own'[x].start == x
      ensures x < |size'| && size'[x] == own'[x].size
    {
      if !Within(x, h, s) {
        assert own'[x] == own[x];
      }
    }
  }

  lemma FreedSizes(size: seq<nat>, own: Labels, b: nat, l: nat, joined: nat, m: nat)
    requires SizesExact(size, own) && LiveHead(own, b) && 0 < b && b + joined == l + m && joined > 0
    requires 0 < l <= b < |size|
    requires forall x :: Within(x, l, m) && x in own ==> l <= own[x].start
    ensures SizesExact(size[b := joined][l := m], Paint(own, l, m, true))
  {
    var size', own' := size[b := joined][l := m], Paint(own, l, m, true);
    forall x | x in own' && own'[x].start == x
      ensures x < |size'| && size'[x] == own'[x].size
    {
      assert !Within(x, l, m) ==> own'[x] == own[x];
    }
  }

  lemma GrantedUnits(own: Labels, own': Labels, b: nat, k: nat)
    requires Granted(own, own', b, k)
    ensures |FreeUnits(own)| == |FreeUnits(own')| + k
  {
    forall y: nat
      ensures y in FreeUnits(own) <==> y in FreeUnits(own') || b <= y < b + k
      ensures b <= y < b + k ==> y !in FreeUnits(own')
    {
      assert FreeAt(own', y) <==> FreeAt(own, y) && !Within(y, b, k);
      assert Within(y, b, k) ==> FreeAt(own, y);
    }
    AddInterval(FreeUnits(own'), FreeUnits(own), b, k);
  }

  lemma FreedUnitsCount(own: Labels, own': Labels, b: nat, s: nat)
    requires Tiled(own) && LiveHead(own, b) && s == own[b].size && Freed(own, own', b)
    ensures |FreeUnits(own')| == |FreeUnits(own)| + s
  {
    BlockWhole(own, b);
    forall y: nat
      ensures y in FreeUnits(own') <==> y in FreeUnits(own) || b <= y < b + s
      ensures b <= y < b + s ==> y !in FreeUnits(own)
    {
      assert FreeAt(own', y) <==> FreeAt(own, y) || Within(y, b, s);
      assert Within(y, b, s) ==> own[y] == own[b];
    }
    AddInterval(FreeUnits(own), FreeUnits(own'), b, s);
  }

  /** The heap that `mm_init` makes: one free block. */
  ghost function OneBlock(n: nat): Labels {
    map x | x in Interval(1, n) :: Own(true, 1, n)
  }

  /** `mm_alloc` of `bytes` bytes finds a block. */
  ghost predicate Served(own: Labels, bytes: nat) {
    bytes > 0 && exists a :: FreeRun(own, a, UnitsNeeded(bytes))
  }

  /** Every later free leaves room where there was room, and every other granted block as it was. */
  lemma FreedLater(own: Labels, n: nat, b: nat)
    requires Inv(own, n) && LiveHead(own, b)
    ensures forall bytes :: Served(own, bytes) ==> Served(FreeOwn(own, b), bytes)
    ensures forall h :: LiveHead(own, h) && h != b ==> LiveHead(FreeOwn(own, b), h)
  {
    hide FreeOwn, Inv, LiveHead;
    FreeKeeps(own, n, b);
    FreedLiveHeads(own, n, b);
    var own' := FreeOwn(own, b);
    forall bytes | Served(own, bytes)
      ensures Served(own', bytes)
    {
      var a :| FreeRun(own, a, UnitsNeeded(bytes));
      assert FreeRun(own', a, UnitsNeeded(bytes));
    }
  }

  /** Freeing a block granted for `granted` bytes makes a request for no more bytes succeed. */
  lemma FreeThenServed(own: Labels, n: nat, b: nat, granted: nat, again: nat)
    requires Inv(own, n) && LiveHead(own, b) && own[b].size == UnitsNeeded(granted) && 0 < again <= granted
    ensures Served(FreeOwn(own, b), again)
  {
    hide Inv, FreeOwn;
    FreeKeeps(own, n, b);
    assert forall y :: Within(y, b, UnitsNeeded(again)) ==> Within(y, b, own[b].size);
    assert FreeRun(FreeOwn(own, b), b, UnitsNeeded(again));
  }

  lemma AllFreeState(own: Labels, n: nat, ring: seq<nat>)
    requires Inv(own, n) && RingExact(own, ring) && n > 0 && |FreeUnits(own)| == n
    ensures ring == [SENTINEL, 1] && own == OneBlock(n)
  {
    hide RingExact, Tiled, Separated;
    IntervalSize(1, n);
    AllOf(FreeUnits(own), Interval(1, n));
    assert forall x :: x in own ==> x in FreeUnits(own);
    AllFreeIsOneBlock(own, n);
    AllFreeRing(own, n, ring);
    assert forall x :: x in OneBlock(n) <==> x in own;
  }

  ghost function FreeAll(own: Labels, blocks: seq<nat>): Labels {
    if blocks == [] then own else FreeAll(FreeOwn(own, blocks[0]), blocks[1..])
  }

  /** Freeing every live block, in any order, restores the single initial block. */
  lemma {:induction false} FreeAllRestores(own: Labels, n: nat, blocks: seq<nat>)
    requires Inv(own, n) && n > 0
    requires forall h :: LiveHead(own, h) <==> h in blocks
    requires forall i, j :: 0 <= i < j < |blocks| ==> blocks[i] != blocks[j]
    ensures FreeAll(own, blocks) == OneBlock(n)
    decreases |blocks|
  {
    if blocks == [] {
      forall x | x in own
        ensures FreeAt(own, x)
      {
        BlockAt(own, x);
        assert !LiveHead(own, own[x].start);
      }
      AllFreeIsOneBlock(own, n);
      IntervalSize(1, n);
      assert forall x :: x in OneBlock(n) <==> x in own;
    } else {
      assert LiveHead(own, blocks[0]);
      FreedLiveHeads(own, n, blocks[0]);
      FreeAllRestores(FreeOwn(own, blocks[0]), n, blocks[1..]);
    }
  }

  lemma FreedLiveHeads(own: Labels, n: nat, b: nat)
    requires Inv(own, n) && LiveHead(own, b)
    ensures Inv(FreeOwn(own, b), n)
    ensures forall h :: LiveHead(FreeOwn(own, b), h) <==> LiveHead(own, h) && h != b
  {
    hide FreeOwn, Separated;
    FreeKeeps(own, n, b);
    BlockWhole(own, b);
    hide Tiled;
    var own' := FreeOwn(own, b);
    assert Within(b, b, own[b].size);
    forall h
      ensures LiveHead(own', h) <==> LiveHead(own, h) && h != b
    {
      assert FreeAt(own', h) <==> FreeAt(own, h) || Within(h, b, own[b].size);
    }
  }

  /** The insertion search of `mm_free` stops at a ring position exactly when the header there is
      the address predecessor of the block. */
  lemma SearchStopsAtPredecessor(r: seq<nat>, i: nat, b: nat, next: nat)
    requires i < |r| && r[0] == SENTINEL && b > SENTINEL && (forall a, c :: 0 <= a < c < |r| ==> r[a] < r[c])
    requires next == if i == |r| - 1 then r[0] else r[i + 1]
    ensures (r[i] < b < next) || (r[i] >= next && (b > r[i] || b < next)) <==> Predecessor(r, i, b)
  {
  }

  /** Once a hop search has come back to where it started, every listed header has been passed. */
  lemma FullCircle(own: Labels, n: nat, r: seq<nat>, p: nat, k: nat)
    requires Inv(own, n) && RingExact(own, r) && p < |r| && k > 0
    requires forall i :: p < i <= p + |r| ==> !FitsAt(own, r, i, k)
    ensures !exists a :: FreeRun(own, a, k)
  {
    forall i | 1 <= i < |r|
      ensures !(FreeHead(own, r[i]) && own[r[i]].size >= k)
    {
      var q := if i > p then i else i + |r|;
      assert !FitsAt(own, r, q, k);
    }
    AllocComplete(own, n, r, k);
  }

  /** The heap's headers, rover and counters against the tiling and the ring they stand for. */
  ghost predicate Represents(n: nat, own: Labels, ring: seq<nat>, pos: nat, next: seq<nat>, size: seq<nat>,
                             freeList: Option<nat>, freeMemory: nat) {
    && |next| == |size| && 2 <= n < |next|
    && Inv(own, n) && RingExact(own, ring) && Linked(next, ring) && SizesExact(size, own)
    && pos < |ring| && freeList == Some(ring[pos])
    && freeMemory == |FreeUnits(own)| * BLOCK_SIZE
  }

  class Manager {
    const next: array<nat>   // metadata.next of each unit's header
    const size: array<nat>   // metadata.blockSize of each unit's header
    var freeList: Option<nat>
    var totalMemory: nat
    var freeMemory: nat
    ghost var n: nat
    ghost var own: Labels
    ghost var ring: seq<nat>
    ghost var pos: nat

    ghost predicate Valid()
      reads this, next, size
    {
      && next != size && next.Length == size.Length && totalMemory == n * BLOCK_SIZE
      && Represents(n, own, ring, pos, next[..], size[..], freeList, freeMemory)
    }

    /** Headers for a memory of `units` units, behind the sentinel. */
    constructor (units: nat)
      ensures fresh(next) && fresh(size) && next != size && next.Length == size.Length == units + 1
      ensures freeList == None
    {
      next := new nat[units + 1];
      size := new nat[units + 1];
      freeList, totalMemory, freeMemory := None, 0, 0;
      n, own, ring, pos := 0, map[], [], 0;
    }

    method MmInit(bytes: nat)
      requires next != size && next.Length == size.Length && bytes / BLOCK_SIZE < next.Length
      modifies this, next, size
      ensures bytes / BLOCK_SIZE < MIN_BLOCK_UNITS ==>
                freeList == old(freeList) && own == old(own) && next[..] == old(next[..]) && size[..] == old(size[..])
      ensures bytes / BLOCK_SIZE >= MIN_BLOCK_UNITS ==>
                && Valid() && n == bytes / BLOCK_SIZE && ring == [SENTINEL, 1] && pos == 0
                && own == OneBlock(n)
    {
      var totalUnits := bytes / BLOCK_SIZE;
      if totalUnits < MIN_BLOCK_UNITS {
        return;
      }
      size[1] := totalUnits;
      totalMemory := totalUnits * BLOCK_SIZE;
      freeMemory := totalMemory;
      next[SENTINEL] := 1;
      size[SENTINEL] := 0;
      next[1] := SENTINEL;
      freeList := Some(SENTINEL);
      n, ring, pos := totalUnits, [SENTINEL, 1], 0;
      own := OneBlock(n);
      InitialUnits(own, n);
    }

    lemma InitialUnits(own: Labels, n: nat)
      requires n > 0 && own == OneBlock(n)
      ensures |FreeUnits(own)| == n && Inv(own, n) && own.Keys == Interval(1, n)
      ensures forall x :: x in own <==> 1 <= x <= n
    {
      IntervalSize(1, n);
      AddInterval({}, FreeUnits(own), 1, n);
    }

    method MmAlloc(bytes: nat) returns (ptr: nat, ghost q: nat)
      requires Valid() && bytes < 0x1_0000_0000
      modifies this, next, size
      ensures Valid() && n == old(n)
      ensures ptr != NULL <==> Served(old(own), bytes)
      ensures ptr == NULL ==> own == old(own) && ring == old(ring) && pos == old(pos)
      ensures ptr != NULL ==>
                && FirstFit(old(own), old(ring), old(pos), UnitsNeeded(bytes), q)
                && Taken(old(own), old(ring), q, UnitsNeeded(bytes), ptr)
      ensures Requested(old(own), own)
    {
      hide Inv, Linked, SizesExact, RingExact, FitsAt, FreeRun, Granted, AllocOwn, At;
      q := 0;
      if bytes == 0 {
        return NULL, q;
      }
      var unitsNeeded := BytesToUnits(bytes) + 1;
      if unitsNeeded < MIN_BLOCK_UNITS {
        unitsNeeded := MIN_BLOCK_UNITS;
      }
      assert unitsNeeded == UnitsNeeded(bytes) by { GrantCovers(bytes); }
      var previous := freeList.value;
      RingStart();
      var current := next[previous];
      q := pos + 1;
      while true
        invariant unchanged(this) && unchanged(next) && unchanged(size)
        invariant pos < q <= pos + |ring| && previous == At(ring, q - 1) && current == At(ring, q)
        invariant forall i :: pos < i < q ==> !FitsAt(own, ring, i, unitsNeeded)
        decreases pos + |ring| - q
      {
        FitTest(q, unitsNeeded);
        if size[current] >= unitsNeeded {
          Witness(q, unitsNeeded);
          ptr := Take(previous, current, unitsNeeded, q);
          TakenRequested(old(own), old(ring), q, unitsNeeded, ptr);
          return ptr, q;
        }
        CircleDone(q);
        if current == freeList.value {
          FullCircle(own, n, ring, pos, unitsNeeded);
          return NULL, q;
        }
        Hop(q);
        previous, current := current, next[current];
        q := q + 1;
      }
    }

    lemma RingStart()
      requires Valid()
      ensures At(ring, pos) == freeList.value < next.Length && next[freeList.value] == At(ring, pos + 1)
    {
      LinkedAt(next[..], ring, pos);
    }

    lemma Hop(q: nat)
      requires Valid() && q < 2 * |ring| - 1
      ensures At(ring, q) < next.Length && next[At(ring, q)] == At(ring, q + 1)
    {
      LinkedAt(next[..], ring, q);
    }

    lemma CircleDone(q: nat)
      requires Valid() && pos < q <= pos + |ring|
      ensures At(ring, q) == freeList.value <==> q == pos + |ring|
    {
    }

    lemma FitTest(q: nat, k: nat)
      requires Valid() && q < 2 * |ring| && k > 0
      ensures At(ring, q) < size.Length && (size[At(ring, q)] >= k <==> FitsAt(own, ring, q, k))
    {
      var i := if q < |ring| then q else q - |ring|;
      assert i > 0 ==> FreeHead(own, ring[i]);
      assert size[..][ring[i]] == size[ring[i]];
    }

    lemma Witness(q: nat, k: nat)
      requires Valid() && FitsAt(own, ring, q, k) && k > 0
      ensures exists a :: FreeRun(own, a, k)
    {
      var i := if q < |ring| then q else q - |ring|;
      assert 1 <= i < |ring| && FreeHead(own, ring[i]) && own[ring[i]].size >= k;
      AllocComplete(own, n, ring, k);
    }

    /** The state after a block of `k` units was cut from the one at ring position `q`. */
    ghost predicate Taken(own0: Labels, ring0: seq<nat>, q: nat, k: nat, ptr: nat)
      reads this
    {
      && 0 < q < 2 * |ring0| && FitsAt(own0, ring0, q, k)
      && var h := At(ring0, q);
      && own == AllocOwn(own0, h, k) && Granted(own0, own, h + (own0[h].size - k), k)
      && ptr == h + (own0[h].size - k) + 1
      && freeList == Some(At(ring0, q - 1))
    }

    lemma TakenRequested(own0: Labels, ring0: seq<nat>, q: nat, k: nat, ptr: nat)
      requires Taken(own0, ring0, q, k, ptr) && k > 0
      ensures Requested(own0, own)
    {
      hide AllocOwn, Granted;
      assert FreeHead(own0, At(ring0, q));
    }

    /** The branch of `mm_alloc` that removes or splits the block found. */
    method Take(previous: nat, current: nat, k: nat, ghost q: nat) returns (ptr: nat)
      requires Valid() && 0 < q < 2 * |ring| && previous == At(ring, q - 1) && current == At(ring, q)
      requires FitsAt(own, ring, q, k) && k > 0
      modifies this, next, size
      ensures Valid() && n == old(n) && ptr != NULL && Taken(old(own), old(ring), q, k, ptr)
    {
      hide Represents, Granted, AllocOwn, AllocRing;
      SentinelUnfit(q, k);
      ghost var i := if q < |ring| then q else q - |ring|;
      ghost var s := own[current].size;
      ghost var own1, ring1 := AllocOwn(own, current, k), AllocRing(ring, i, s == k);
      TakeReady(i, previous, current, k, s, current + (s - k), own1, ring1);
      assert n < next.Length by { Headers(); }
      var free := freeMemory - k * BLOCK_SIZE;
      var block := CutHeaders(previous, current, k);
      ptr := block + 1;
      Commit(previous, free, own1, ring1, i - 1);
    }

    lemma Headers()
      requires Valid()
      ensures n < next.Length
    {
    }

    lemma SentinelUnfit(q: nat, k: nat)
      requires Valid() && FitsAt(own, ring, q, k) && 0 < q
      ensures var i := if q < |ring| then q else q - |ring|; 0 < i < |ring| && At(ring, q - 1) == ring[i - 1]
    {
    }

    /** What removing or splitting the block found writes into the block headers. */
    method CutHeaders(previous: nat, current: nat, k: nat) returns (block: nat)
      requires next != size && next.Length == size.Length && previous < next.Length && current < next.Length
      requires size[current] >= k && current + size[current] <= size.Length && k > 0
      modifies next, size
      ensures block == current + (old(size[current]) - k)
      ensures old(size[current]) == k ==>
                next[..] == old(next[..])[previous := old(next[current])] && size[..] == old(size[..])
      ensures old(size[current]) != k ==>
                next[..] == old(next[..]) && size[..] == old(size[..])[current := old(size[current]) - k][block := k]
    {
      if size[current] == k {
        next[previous] := next[current];
        block := current;
      } else {
        size[current] := size[current] - k;
        block := current + size[current];
        size[block] := k;
      }
    }

    lemma TakeReady(i: nat, p: nat, h: nat, k: nat, s: nat, b: nat, own1: Labels, ring1: seq<nat>)
      requires Valid() && Get(ring, i) == h && i < |ring| && FreeHead(own, h) && own[h].size == s
               && p == Get(ring, i - 1)
      requires s >= k > 0 && b == h + (s - k) && i > 0
      requires own1 == AllocOwn(own, h, k) && ring1 == AllocRing(ring, i, s == k)
      ensures 0 < h < next.Length && Get(size[..], h) == s && h + s <= n + 1 && p < next.Length
      ensures freeMemory >= k * BLOCK_SIZE && Granted(own, own1, b, k)
      ensures Represents(n, own1, ring1, i - 1, if s == k then Upd(next[..], p, Get(next[..], h)) else next[..],
                         if s == k then size[..] else Upd(Upd(size[..], h, s - k), b, k),
                         Some(p), freeMemory - k * BLOCK_SIZE)
    {
      hide Inv, Linked, RingExact, SizesExact, AllocOwn, Cut, Granted, Tiled, Separated, Distinct;
      TakeBounds(i, p, h, k, s);
      AllocKeeps(own, n, h, s, b, k);
      UnlinkBlock(next[..], ring, i);
      GrantedUnits(own, own1, b, k);
      AllocRingExact(own, own1, ring, i, h, s, b, k);
      CutSizes(size[..], own, own1, h, s, b, k);
    }

    lemma TakeBounds(i: nat, p: nat, h: nat, k: nat, s: nat)
      requires Valid() && Get(ring, i) == h && i < |ring| && FreeHead(own, h) && own[h].size == s
               && p == Get(ring, i - 1)
      requires s >= k > 0 && i > 0
      ensures 0 < h < next.Length && Get(size[..], h) == s && h + s <= n + 1 && p < next.Length
      ensures Inv(own, n) && RingExact(own, ring) && Linked(next[..], ring) && SizesExact(size[..], own) && Tiled(own)
      ensures Distinct(ring) && n + 1 <= size.Length
    {
      hide Separated, Tiled;
      InvParts();
      BlockWhole(own, h);
      assert Within(h + s - 1, h, s);
      assert size[..][h] == size[h];
    }

    /** `ptr` is null or was granted by `mm_alloc` and not freed since. */
    ghost predicate Freeable(ptr: nat)
      reads this
    {
      ptr != NULL ==> LiveHead(own, ptr - 1)
    }

    method MmFree(ptr: nat)
      requires Valid() && Freeable(ptr)
      modifies this, next, size
      ensures Valid() && n == old(n)
      ensures ptr == NULL ==> own == old(own) && ring == old(ring) && pos == old(pos) && freeMemory == old(freeMemory)
      ensures ptr != NULL ==> own == FreeOwn(old(own), ptr - 1) && Freed(old(own), own, ptr - 1)
      ensures ptr != NULL ==> freeList == Some(LeftEdge(old(own), ptr - 1))
      ensures Requested(old(own), own)
      ensures forall q: nat :: old(Freeable(q)) && q != ptr ==> Freeable(q)
      ensures forall bytes: nat :: Served(old(own), bytes) ==> Served(own, bytes)
    {
      hide Inv, Linked, SizesExact, RingExact, At, FreeOwn, Freed, LeftEdge, LiveHead, Served;
      if ptr == NULL {
        return;
      }
      var b := ptr - 1;
      FreedLater(own, n, b);
      BlockHeader(b);
      var current, t := FindPredecessor(b);
      Release(b, current, t);
    }

    /** Frees a block and any others, then asks again. */
    method FreeThenAlloc(ptr: nat, more: seq<nat>, ghost granted: nat, again: nat) returns (p: nat)
      requires Valid() && ptr != NULL && Freeable(ptr) && own[ptr - 1].size == UnitsNeeded(granted)
      requires 0 < again <= granted && again < 0x1_0000_0000
      requires forall i :: 0 <= i < |more| ==> Freeable(more[i]) && more[i] != ptr
      requires forall i, j :: 0 <= i < j < |more| ==> more[i] != more[j]
      modifies this, next, size
      ensures Valid() && p != NULL
    {
      hide Valid, FreeOwn, Freed, Served, LeftEdge, Taken, FirstFit;
      FreedServes(ptr, granted, again);
      MmFree(ptr);
      for i := 0 to |more|
        invariant Valid() && Served(own, again)
        invariant forall j :: i <= j < |more| ==> Freeable(more[j])
      {
        MmFree(more[i]);
      }
      ghost var q;
      p, q := MmAlloc(again);
    }

    lemma FreedServes(ptr: nat, granted: nat, again: nat)
      requires Valid() && ptr != NULL && Freeable(ptr) && own[ptr - 1].size == UnitsNeeded(granted)
               && 0 < again <= granted
      ensures Served(FreeOwn(own, ptr - 1), again)
    {
      hide Linked, RingExact, SizesExact, Inv, Served, FreeOwn;
      FreeThenServed(own, n, ptr - 1, granted, again);
    }

    /** The insertion search: from wherever the rover points, it ends at the address predecessor. */
    method FindPredecessor(b: nat) returns (current: nat, ghost t: nat)
      requires Valid() && LiveHead(own, b)
      ensures t < |ring| && current == ring[t] && Predecessor(ring, t, b)
      ensures current < next.Length && current < b && (b < next[current] || next[current] <= current)
    {
      hide Inv, Linked, SizesExact, At, LiveHead;
      BlockHeader(b);
      t := PredecessorExists(ring, b);
      current := freeList.value;
      ghost var q := pos;
      ghost var end := if pos <= t then t else t + |ring|;
      RingStart();
      while !(b > current && b < next[current])
        invariant pos <= q <= end < 2 * |ring| - 1 && current == At(ring, q) && current < next.Length
        decreases end - q
      {
        SearchStep(q, b, t, end);
        if current >= next[current] && (b > current || b < next[current]) {
          break;
        }
        Hop(q);
        Hop(q + 1);
        current := next[current];
        q := q + 1;
      }
      SearchStep(q, b, t, end);
    }

    lemma SearchStep(q: nat, b: nat, t: nat, end: nat)
      requires Valid() && q <= end < 2 * |ring| - 1 && b > SENTINEL && Predecessor(ring, t, b)
      requires pos <= q && end == if pos <= t then t else t + |ring|
      ensures var c := At(ring, q);
              c < next.Length && (q == end <==> (c < b < next[c]) || (c >= next[c] && (b > c || b < next[c])))
      ensures q == end ==> At(ring, q) == ring[t]
    {
      hide Valid;
      RingSorted();
      Hop(q);
      var i := if q < |ring| then q else q - |ring|;
      SearchStopsAtPredecessor(ring, i, b, At(ring, q + 1));
      if Predecessor(ring, i, b) {
        PredecessorUnique(ring, i, t, b);
      }
    }

    lemma RingSorted()
      requires Valid()
      ensures |ring| > 0 && ring[0] == SENTINEL && forall a, c :: 0 <= a < c < |ring| ==> ring[a] < ring[c]
    {
    }

    lemma BlockHeader(b: nat)
      requires Valid() && LiveHead(own, b)
      ensures 0 < b < next.Length && size[b] == own[b].size && b + own[b].size <= n + 1 && own[b].size > 0 && b !in ring
    {
      BlockWhole(own, b);
      assert Within(b + own[b].size - 1, b, own[b].size);
      assert size[..][b] == size[b];
      assert forall i :: 1 <= i < |ring| ==> FreeHead(own, ring[i]);
    }

    /** The linking half of `mm_free`: coalesce with either neighbour, and move the rover. */
    method Release(b: nat, predecessor: nat, ghost t: nat)
      requires Valid() && LiveHead(own, b)
      requires t < |ring| && predecessor == ring[t] && Predecessor(ring, t, b)
      modifies this, next, size
      ensures Valid() && n == old(n) && own == FreeOwn(old(own), b) && Freed(old(own), own, b)
      ensures freeList == Some(LeftEdge(old(own), b))
    {
      hide Valid, Represents, FreeOwn, Freed, LiveHead, LeftEdge, Predecessor, Upd, Get;
      ghost var x, left, right, after, joined, total, own1, ring1 := Released(b, t, predecessor);
      var free := freeMemory + size[b] * BLOCK_SIZE;
      var current := LinkHeaders(b, predecessor, left, right, x, after, joined, total);
      Commit(current, free, own1, ring1, if left then t else t + 1);
    }

    /** Moves the rover and the counter, once the headers stand for the new tiling and ring. */
    method Commit(current: nat, free: nat, ghost own1: Labels, ghost ring1: seq<nat>, ghost pos1: nat)
      requires next != size && next.Length == size.Length && totalMemory == n * BLOCK_SIZE
      requires Represents(n, own1, ring1, pos1, next[..], size[..], Some(current), free)
      modifies this`freeList, this`freeMemory, this`own, this`ring, this`pos
      ensures Valid() && own == own1 && ring == ring1 && pos == pos1 && freeList == Some(current)
    {
      hide Represents;
      freeMemory := free;
      freeList := Some(current);
      own, ring, pos := own1, ring1, pos1;
    }

    lemma RingHeader(t: nat)
      requires Valid() && t < |ring|
      ensures ring[t] < next.Length
    {
      Hop(t);
    }

    lemma Released(b: nat, t: nat, c: nat)
        returns (x: nat, left: bool, right: bool, after: nat, joined: nat, total: nat, own1: Labels, ring1: seq<nat>)
      requires Valid() && LiveHead(own, b) && Predecessor(ring, t, b) && t < |ring| && c == ring[t]
      ensures next != size && next.Length == size.Length && totalMemory == n * BLOCK_SIZE
      ensures c < b < next.Length && x < next.Length && x == next[c] && x != b && (right ==> x != c)
      ensures right <==> b + Get(size[..], b) == x
      ensures left <==> c + Get(size[..], c) == b
      ensures after == if right then Get(next[..], x) else x
      ensures joined == Get(size[..], b) + if right then Get(size[..], x) else 0
      ensures total == joined + if left then Get(size[..], c) else 0
      ensures LeftEdge(own, b) == if left then c else b
      ensures own1 == FreeOwn(own, b) && Freed(own, own1, b)
      ensures Represents(n, own1, ring1, if left then t else t + 1,
                         Upd(Upd(next[..], b, after), c, if left then after else b),
                         Upd(Upd(size[..], b, joined), if left then c else b, total),
                         Some(if left then c else b), freeMemory + size[b] * BLOCK_SIZE)
    {
      hide Inv, Linked, SizesExact, RingExact, FreeOwn, Freed, FreeRing, JoinsLeft, JoinsRight,
           Predecessor, Distinct, LeftEdge, RightEdge, Upd, LiveHead;
      x := Get(next[..], c);
      left, right := JoinsLeft(own, b), JoinsRight(own, b);
      var l;
      l, joined, total := ReleaseState(b, t);
      ReleaseTests(b, t, c, x);
      after := if right then Get(next[..], x) else x;
      ReleaseLinks(b, t, c, left, right, after);
      own1, ring1 := FreeOwn(own, b), FreeRing(ring, t, b, left, right);
    }

    /** What coalescing and linking write into the block headers. */
    method LinkHeaders(b: nat, predecessor: nat, ghost left: bool, ghost right: bool, ghost x: nat, ghost after: nat,
                       ghost joined: nat, ghost total: nat) returns (current: nat)
      requires next != size && next.Length == size.Length && b < next.Length && predecessor < b
      requires x == next[predecessor] && x < next.Length && x != b && (right ==> x != predecessor)
      requires right <==> b + Get(size[..], b) == x
      requires left <==> predecessor + Get(size[..], predecessor) == b
      requires after == if right then Get(next[..], x) else x
      requires joined == Get(size[..], b) + if right then Get(size[..], x) else 0
      requires total == joined + if left then Get(size[..], predecessor) else 0
      modifies next, size
      ensures current == if left then predecessor else b
      ensures next[..] == Upd(Upd(old(next[..]), b, after), predecessor, if left then after else b)
      ensures size[..] == Upd(Upd(old(size[..]), b, joined), current, total)
    {
      current := predecessor;
      if b + size[b] == next[current] {
        size[b] := size[b] + size[next[current]];
        next[b] := next[next[current]];
      } else {
        next[b] := next[current];
      }
      if current + size[current] == b {
        size[current] := size[current] + size[b];
        next[current] := next[b];
      } else {
        next[current] := b;
        current := b;
      }
    }

    /** The two address comparisons of `mm_free` decide exactly whether to coalesce. */
    lemma ReleaseTests(b: nat, t: nat, c: nat, x: nat)
      requires Valid() && LiveHead(own, b) && Predecessor(ring, t, b) && c == Get(ring, t) && x == Get(next[..], c)
      ensures 0 < b < next.Length && Get(size[..], b) == own[b].size && c < b && x < size.Length && t < |ring|
      ensures b + Get(size[..], b) == x <==> JoinsRight(own, b)
      ensures JoinsRight(own, b) ==> t + 1 < |ring| && Get(ring, t + 1) == x
      ensures x != b && (JoinsRight(own, b) ==> x != c)
      ensures RightEdge(own, b) == b + Get(size[..], b) + if JoinsRight(own, b) then Get(size[..], x) else 0
      ensures c + Get(size[..], c) == b <==> JoinsLeft(own, b)
      ensures LeftEdge(own, b) == if JoinsLeft(own, b) then c else b
    {
      BlockHeader(b);
      CoalescingTestsExact(own, n, ring, t, b);
      hide Inv, Separated, Tiled;
      assert size[..][ring[t]] == size[ring[t]];
      assert t > 0 ==> FreeHead(own, ring[t]);
      Hop(t);
      if t + 1 < |ring| {
        assert FreeHead(own, ring[t + 1]);
        assert size[..][ring[t + 1]] == size[ring[t + 1]];
      }
    }

    lemma ReleaseLinks(b: nat, t: nat, c: nat, left: bool, right: bool, after: nat)
      requires Valid() && LiveHead(own, b) && c == Get(ring, t) && Predecessor(ring, t, b)
      requires left == JoinsLeft(own, b) && right == JoinsRight(own, b)
      requires after == if right then Get(next[..], Get(ring, t + 1)) else Get(next[..], c)
      ensures Linked(Upd(Upd(next[..], b, after), c, if left then after else b), FreeRing(ring, t, b, left, right))
      ensures RingExact(FreeOwn(own, b), FreeRing(ring, t, b, left, right))
      ensures left ==> t < |FreeRing(ring, t, b, left, right)| && FreeRing(ring, t, b, left, right)[t] == c
      ensures !left ==> t + 1 < |FreeRing(ring, t, b, left, right)| && FreeRing(ring, t, b, left, right)[t + 1] == b
    {
      hide JoinsLeft, JoinsRight, Inv, FreeOwn;
      BlockHeader(b);
      RingHeader(t);
      CoalescingTestsExact(own, n, ring, t, b);
      hide Linked;
      FreeRingLinked(next[..], ring, t, b, left, right, after);
      FreeRingExact(own, n, ring, t, b, left, right);
    }

    lemma ReleaseState(b: nat, t: nat) returns (l: nat, joined: nat, total: nat)
      requires Valid() && LiveHead(own, b)
      ensures l == LeftEdge(own, b) <= b < size.Length && b + joined == l + total == RightEdge(own, b)
      ensures SizesExact(Upd(Upd(size[..], b, joined), l, total), FreeOwn(own, b))
      ensures Inv(FreeOwn(own, b), n) && Freed(own, FreeOwn(own, b), b)
      ensures |FreeUnits(FreeOwn(own, b))| == |FreeUnits(own)| + own[b].size
    {
      hide Inv, Separated, LeftEdge, RightEdge, FreeOwn, Freed;
      BlockHeader(b);
      FreeKeeps(own, n, b);
      InvParts();
      var e;
      l, e, total := Edges(own, b);
      joined := e - b;
      LeftPositive(b, l, total);
      FreedUnitsCount(own, FreeOwn(own, b), b, own[b].size);
      FreedSizes(size[..], own, b, l, joined, total);
    }

    lemma InvParts()
      requires Valid()
      ensures Tiled(own) && Separated(own)
    {
    }

    lemma LeftPositive(b: nat, l: nat, m: nat)
      requires Valid() && Whole(own, l, m) && m > 0
      ensures l > 0
    {
      assert Within(l, l, m);
    }

    /** Once the counters say all memory is free, the heap is the single block `mm_init` made. */
    lemma AllFreeRestores()
      requires Valid() && freeMemory == totalMemory
      ensures ring == [SENTINEL, 1] && own == OneBlock(n)
    {
      AllFreeState(own, n, ring);
    }

    method MmGetStats() returns (total: nat, free: nat)
      requires Valid()
      ensures total == n * BLOCK_SIZE && free == |FreeUnits(own)| * BLOCK_SIZE
    {
      total, free := totalMemory, freeMemory;
    }
  }
}
