/** The first-fit heap as a labelling of units by the block that holds them, and its free ring. */
module FirstFitSpec {

  /** Unit addresses: the sentinel lies below the heap, whose units are 1, 2, ... */
  const SENTINEL: nat := 0

  /** The block a unit belongs to: free or live, its header's unit and its size in units. */
  datatype Own = Own(free: bool, start: nat, size: nat)
  type Labels = map<nat, Own>

  ghost predicate Within(x: nat, h: nat, n: nat) {
    h <= x < h + n
  }

  ghost predicate InBlock(own: Labels, x: nat)
    requires x in own
  {
    && Within(x, own[x].start, own[x].size)
    && forall y :: Within(y, own[x].start, own[x].size) ==> y in own && own[y] == own[x]
  }

  ghost predicate Tiled(own: Labels) {
    forall x :: x in own ==> InBlock(own, x)
  }

  ghost predicate FreeAt(own: Labels, x: nat) {
    x in own && own[x].free
  }

  ghost predicate FreeHead(own: Labels, h: nat) {
    FreeAt(own, h) && own[h].start == h
  }

  ghost predicate LiveHead(own: Labels, h: nat) {
    h in own && !own[h].free && own[h].start == h
  }

  /** No free block is followed by another free block. */
  ghost predicate Separated(own: Labels) {
    forall x :: FreeAt(own, x) ==> !FreeAt(own, own[x].start + own[x].size)
  }

  /** The units of the heap are exactly 1 to `n`. */
  ghost predicate Heap(own: Labels, n: nat) {
    forall x :: x in own <==> 1 <= x <= n
  }

  ghost predicate Inv(own: Labels, n: nat) {
    Tiled(own) && Separated(own) && Heap(own, n)
  }

  ghost predicate FreeRun(own: Labels, a: nat, k: nat) {
    forall y :: Within(y, a, k) ==> FreeAt(own, y)
  }

  ghost function FreeUnits(own: Labels): set<nat> {
    set x | x in own && own[x].free
  }

  /** The circular free list from the sentinel on: free headers in strictly rising address order. */
  ghost predicate RingExact(own: Labels, r: seq<nat>) {
    && |r| > 0 && r[0] == SENTINEL
    && (forall i, j :: 0 <= i < j < |r| ==> r[i] < r[j])
    && (forall i :: 1 <= i < |r| ==> FreeHead(own, r[i]))
    && (forall h :: FreeHead(own, h) ==> h in r)
  }

  /** The ring read onwards past its end. */
  function At(r: seq<nat>, i: nat): nat
    requires |r| > 0 && i < 2 * |r|
  {
    if i < |r| then r[i] else r[i - |r|]
  }

  // ---------------------------------------------------------------- completeness and canonical form

  /** A run of free units lies inside one free block. */
  lemma {:induction false} RunInOneBlock(own: Labels, a: nat, k: nat)
    requires Tiled(own) && Separated(own) && k > 0 && FreeRun(own, a, k)
    ensures FreeAt(own, a) && a + k <= own[a].start + own[a].size
    decreases k
  {
    assert Within(a, a, k);
    assert InBlock(own, a);
    if k > 1 {
      assert FreeRun(own, a, k - 1) by {
        assert forall y :: Within(y, a, k - 1) ==> Within(y, a, k);
      }
      RunInOneBlock(own, a, k - 1);
      assert Within(a + k - 1, a, k);
    }
  }

  lemma BlockAt(own: Labels, x: nat)
    requires Tiled(own) && x in own
    ensures InBlock(own, x) && own[x].start in own && own[own[x].start] == own[x]
    ensures FreeAt(own, x) ==> FreeHead(own, own[x].start)
  {
    assert InBlock(own, x);
    assert Within(own[x].start, own[x].start, own[x].size);
  }

  /** Some listed block holds `k` units exactly when some contiguous run of `k` units is free. */
  lemma AllocComplete(own: Labels, n: nat, r: seq<nat>, k: nat)
    requires Inv(own, n) && RingExact(own, r) && k > 0
    ensures (exists i :: 1 <= i < |r| && FreeHead(own, r[i]) && own[r[i]].size >= k) <==>
            (exists a :: FreeRun(own, a, k))
  {
    if i :| 1 <= i < |r| && FreeHead(own, r[i]) && own[r[i]].size >= k {
      BlockAt(own, r[i]);
      assert FreeRun(own, r[i], k) by {
        assert forall y :: Within(y, r[i], k) ==> Within(y, own[r[i]].start, own[r[i]].size);
      }
    }
    if a :| FreeRun(own, a, k) {
      RunInOneBlock(own, a, k);
      BlockAt(own, a);
      var i :| 0 <= i < |r| && r[i] == own[a].start;
      assert own[a].start in own;
    }
  }

  /** Tilings with the same free units have the same free blocks. */
  lemma CanonicalForm(own: Labels, own': Labels)
    requires Tiled(own) && Separated(own) && Tiled(own') && Separated(own')
    requires forall x :: FreeAt(own, x) <==> FreeAt(own', x)
    ensures forall x :: FreeAt(own, x) ==> x in own' && own[x] == own'[x]
  {
    forall x | FreeAt(own, x)
      ensures own[x] == own'[x]
    {
      BlockCovers(own, own', x);
      BlockCovers(own', own, x);
    }
  }

  lemma BlockCovers(own: Labels, own': Labels, x: nat)
    requires Tiled(own) && Tiled(own') && Separated(own') && FreeAt(own, x)
    requires forall y :: FreeAt(own, y) ==> FreeAt(own', y)
    ensures FreeAt(own', x) && own'[x].start <= own[x].start
    ensures own[x].start + own[x].size <= own'[x].start + own'[x].size
  {
    BlockAt(own, x);
    BlockAt(own', x);
    var h, n := own[x].start, own[x].size;
    assert FreeRun(own', h, n);
    RunInOneBlock(own', h, n);
    BlockAt(own', h);
    assert Within(x, own'[h].start, own'[h].size);
  }

  /** With every unit free the heap is the single block that `mm_init` made. */
  lemma AllFreeIsOneBlock(own: Labels, n: nat)
    requires Inv(own, n) && n > 0 && forall x :: x in own ==> FreeAt(own, x)
    ensures forall x :: 1 <= x <= n ==> own[x] == Own(true, 1, n)
  {
    assert FreeRun(own, 1, n);
    RunInOneBlock(own, 1, n);
    BlockAt(own, 1);
    assert own[1].start == 1;
    assert !Within(n + 1, own[1].start, own[1].size);
    assert own[1] == Own(true, 1, n);
    forall x | 1 <= x <= n
      ensures own[x] == Own(true, 1, n)
    {
      assert Within(x, own[1].start, own[1].size);
    }
  }

  lemma AllFreeRing(own: Labels, n: nat, r: seq<nat>)
    requires Inv(own, n) && RingExact(own, r) && n > 0 && forall x :: x in own ==> FreeAt(own, x)
    ensures r == [SENTINEL, 1]
  {
    AllFreeIsOneBlock(own, n);
    assert FreeHead(own, 1);
    assert forall h :: FreeHead(own, h) ==> h == 1;
    OnlyHead(own, r);
  }

  lemma OnlyHead(own: Labels, r: seq<nat>)
    requires RingExact(own, r) && FreeHead(own, 1) && forall h :: FreeHead(own, h) ==> h == 1
    ensures r == [SENTINEL, 1]
  {
    var i :| 0 <= i < |r| && r[i] == 1;
    OneIndex(own, r, i, 1);
    OneIndex(own, r, i, |r| - 1);
  }

  lemma OneIndex(own: Labels, r: seq<nat>, i: nat, j: nat)
    requires RingExact(own, r) && (forall h :: FreeHead(own, h) ==> h == 1)
    requires 1 <= j < |r| && i < |r| && r[i] == 1
    ensures j == i
  {
    assert FreeHead(own, r[j]);
  }
}
