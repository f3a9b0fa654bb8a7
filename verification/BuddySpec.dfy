/** The buddy system as a labelling of frames: every frame of the zone carries the label of the
    block that holds it, so a label map is a tiling of the zone by free and live blocks. */
module BuddySpec {
  import opened Dyadic

  const MAX_ORDER: nat := 10

  /** The block a frame belongs to: free or live, its first frame and its order. */
  datatype Own = Own(free: bool, start: nat, order: nat)
  type Labels = map<nat, Own>

  /** Labels by absolute frame number, with the free lists (one per order, head first). */
  datatype Zone = Zone(own: Labels, lists: seq<seq<nat>>)

  // ---------------------------------------------------------------- tilings

  ghost predicate InRun(x: nat, f: nat, o: nat) {
    f <= x < f + Pow2(o)
  }

  /** The label of frame `x` names an aligned run around `x`, inside the zone, all of whose
      frames carry that same label. */
  ghost predicate InBlock(own: Labels, x: nat)
    requires x in own
  {
    && own[x].order <= MAX_ORDER
    && Aligned(own[x].start, own[x].order)
    && InRun(x, own[x].start, own[x].order)
    && forall y :: InRun(y, own[x].start, own[x].order) ==> y in own && own[y] == own[x]
  }

  ghost predicate Tiled(own: Labels) {
    forall x :: x in own ==> InBlock(own, x)
  }

  ghost predicate FreeHead(own: Labels, f: nat, o: nat) {
    f in own && own[f] == Own(true, f, o)
  }

  ghost predicate LiveHead(own: Labels, f: nat, o: nat) {
    f in own && own[f] == Own(false, f, o)
  }

  /** No free block below the top order has a free buddy of its own order. */
  ghost predicate Canonical(own: Labels) {
    forall f: nat, o: nat :: FreeHead(own, f, o) && o < MAX_ORDER ==> !FreeHead(own, Buddy(f, o), o)
  }

  ghost predicate FreeRun(own: Labels, f: nat, o: nat) {
    forall y :: InRun(y, f, o) ==> y in own && own[y].free
  }

  ghost function FreeFrames(own: Labels): set<nat> {
    set x | x in own && own[x].free
  }

  /** The free list of order `o` holds each free block of that order once, and nothing else. */
  ghost predicate ListExact(own: Labels, l: seq<nat>, o: nat) {
    && (forall i, j :: 0 <= i < j < |l| ==> l[i] != l[j])
    && (forall f :: f in l <==> FreeHead(own, f, o))
  }

  ghost predicate ListsExact(z: Zone) {
    && |z.lists| == MAX_ORDER + 1
    && forall o :: 0 <= o <= MAX_ORDER ==> ListExact(z.own, z.lists[o], o)
  }

  ghost predicate Inv(z: Zone) {
    Tiled(z.own) && Canonical(z.own) && ListsExact(z)
  }

  // ---------------------------------------------------------------- completeness and canonical form

  lemma InOwnRun(f: nat, o: nat)
    ensures InRun(f, f, o)
  {
  }

  /** Any wholly free aligned run lies inside one listed free block. */
  lemma {:induction false} RunInOneBlock(own: Labels, f: nat, o: nat)
    requires Tiled(own) && Canonical(own) && o <= MAX_ORDER && Aligned(f, o) && FreeRun(own, f, o)
    ensures f in own && own[f].order >= o
    ensures FreeHead(own, own[f].start, own[f].order)
    ensures own[f].start <= f && f + Pow2(o) <= own[f].start + Pow2(own[f].order)
    decreases o
  {
    hide Aligned, Pow2, Canonical, Buddy, Tiled, InBlock, FreeRun;
    FreeRunStarts(own, f, o);
    BlockAt(own, f);
    if o > 0 {
      var m := f + Pow2(o - 1);
      HalfRuns(f, m, o - 1, o);
      FreeHalves(own, f, m, o - 1, o);
      RunInOneBlock(own, f, o - 1);
      RunInOneBlock(own, m, o - 1);
      FreeRunStarts(own, m, o - 1);
      BlockAt(own, m);
      HalvesShareBlock(own, f, m, o - 1);
    }
    Swallows(own[f].start, own[f].order, f, o, f);
  }

  lemma FreeRunStarts(own: Labels, f: nat, o: nat)
    requires FreeRun(own, f, o)
    ensures f in own && own[f].free && InRun(f, f, o)
  {
    InOwnRun(f, o);
  }

  lemma FreeHalves(own: Labels, f: nat, m: nat, o: nat, p: nat)
    requires m == f + Pow2(o) && p == o + 1 && Aligned(f, p) && FreeRun(own, f, p)
    ensures FreeRun(own, f, o) && FreeRun(own, m, o)
  {
    hide InRun;
    HalfRuns(f, m, o, p);
  }

  lemma BlockAt(own: Labels, x: nat)
    requires Tiled(own) && x in own
    ensures InBlock(own, x) && own[x].order <= MAX_ORDER && Aligned(own[x].start, own[x].order)
    ensures InRun(x, own[x].start, own[x].order)
    ensures own[x].start in own && own[own[x].start] == own[x]
  {
    assert InBlock(own, x);
    InOwnRun(own[x].start, own[x].order);
  }

  /** The halves `f` and `m` of the run of order `p` at `f` are buddies of order `o`. */
  lemma HalfRuns(f: nat, m: nat, o: nat, p: nat)
    requires m == f + Pow2(o) && p == o + 1 && Aligned(f, p)
    ensures Aligned(f, o) && Aligned(m, o) && Buddy(f, o) == m && Buddy(m, o) == f
    ensures forall y :: InRun(y, f, p) <==> InRun(y, f, o) || InRun(y, m, o)
    ensures forall y :: !(InRun(y, f, o) && InRun(y, m, o))
    ensures InRun(f, f, o) && InRun(m, m, o) && InRun(f, f, p) && InRun(m, f, p)
  {
    AlignedFiner(f, p, o);
    BuddyHalves(f, o);
  }

  /** Two buddy runs, each inside a free block, lie in one: both halves cannot be blocks. */
  lemma HalvesShareBlock(own: Labels, f: nat, m: nat, o: nat)
    requires Canonical(own) && o < MAX_ORDER && Aligned(f, o + 1) && m == f + Pow2(o)
    requires f in own && m in own && own[f].free && own[m].free && InBlock(own, f) && InBlock(own, m)
    requires own[f].order >= o && own[m].order >= o
    ensures own[f].order >= o + 1
  {
    HalfRuns(f, m, o, o + 1);
    if own[m].order > o {
      Swallows(own[m].start, own[m].order, f, o + 1, m);
      assert InRun(f, own[m].start, own[m].order);
    } else {
      Swallows(own[m].start, o, m, o, m);
      assert !(FreeHead(own, f, o) && FreeHead(own, m, o));
      if own[f].order == o {
        Swallows(own[f].start, o, f, o, f);
      }
    }
  }

  /** The block around a free frame is the largest aligned run around it that is wholly free:
      it depends on the set of free frames alone. */
  lemma FreeBlockIsMaximal(own: Labels, x: nat, f: nat, o: nat)
    requires Tiled(own) && Canonical(own) && x in own && own[x].free
    requires o <= MAX_ORDER && Aligned(f, o) && InRun(x, f, o) && FreeRun(own, f, o)
    ensures FreeRun(own, own[x].start, own[x].order)
    ensures own[x].start <= f && f + Pow2(o) <= own[x].start + Pow2(own[x].order)
  {
    RunInOneBlock(own, f, o);
    assert InBlock(own, f) && InBlock(own, x);
    assert InRun(x, own[f].start, own[f].order);
  }

  /** Two coalesced tilings with the same free frames have the same free blocks. */
  lemma CanonicalForm(own: Labels, own': Labels)
    requires Tiled(own) && Canonical(own) && Tiled(own') && Canonical(own')
    requires FreeFrames(own) == FreeFrames(own')
    ensures forall x :: x in FreeFrames(own) ==> own[x] == own'[x]
    ensures forall f, o :: FreeHead(own, f, o) <==> FreeHead(own', f, o)
  {
    forall x | x in FreeFrames(own)
      ensures own[x] == own'[x]
    {
      var b, b' := own[x], own'[x];
      SameFreeRuns(own, own', x);
      SameFreeRuns(own', own, x);
      FreeBlockIsMaximal(own, x, b'.start, b'.order);
      FreeBlockIsMaximal(own', x, b.start, b.order);
      if b.order < b'.order {
        Pow2Grows(b.order, b'.order);
      } else if b'.order < b.order {
        Pow2Grows(b'.order, b.order);
      }
    }
    forall f, o
      ensures FreeHead(own, f, o) <==> FreeHead(own', f, o)
    {
      if FreeHead(own, f, o) { assert f in FreeFrames(own); }
      if FreeHead(own', f, o) { assert f in FreeFrames(own'); }
    }
  }

  lemma SameFreeRuns(own: Labels, own': Labels, x: nat)
    requires Tiled(own) && Tiled(own') && FreeFrames(own) == FreeFrames(own') && x in FreeFrames(own)
    ensures x in own' && own'[x].free && InBlock(own, x)
    ensures FreeRun(own', own[x].start, own[x].order)
  {
    assert x in FreeFrames(own');
    assert InBlock(own, x);
    forall y | InRun(y, own[x].start, own[x].order)
      ensures y in own' && own'[y].free
    {
      assert y in FreeFrames(own);
      assert y in FreeFrames(own');
    }
  }

  lemma {:induction false} Pow2Grows(o: nat, p: nat)
    requires o < p
    ensures Pow2(o) < Pow2(p)
    decreases p
  {
    if o + 1 < p {
      Pow2Grows(o, p - 1);
    }
  }
}
