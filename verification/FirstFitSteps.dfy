/** What first-fit allocation and coalescing do to the tiling and to the free ring. */
module FirstFitSteps {
  import opened FirstFitSpec

  ghost function Paint(own: Labels, h: nat, n: nat, free: bool): Labels {
    map x | x in own :: if Within(x, h, n) then Own(free, h, n) else own[x]
  }

  /** The tail of the free block at `h`, or all of it, becomes a live block of `k` units. */
  ghost function AllocOwn(own: Labels, h: nat, k: nat): Labels {
    if h !in own || own[h].size < k then own
    else
      var rest := own[h].size - k;
      if rest == 0 then Paint(own, h, k, false)
      else Paint(Paint(own, h, rest, true), h + rest, k, false)
  }

  ghost predicate JoinsLeft(own: Labels, b: nat) {
    b > 0 && FreeAt(own, b - 1)
  }

  ghost predicate JoinsRight(own: Labels, b: nat) {
    b in own && FreeAt(own, b + own[b].size)
  }

  ghost function LeftEdge(own: Labels, b: nat): nat {
    if JoinsLeft(own, b) then own[b - 1].start else b
  }

  ghost function RightEdge(own: Labels, b: nat): nat {
    if b !in own then b
    else
      var e := b + own[b].size;
      if JoinsRight(own, b) then e + own[e].size else e
  }

  /** The live block at `b` becomes free and joins the free blocks on either side of it. */
  ghost function FreeOwn(own: Labels, b: nat): Labels {
    var l, e := LeftEdge(own, b), RightEdge(own, b);
    if l <= e then Paint(own, l, e - l, true) else own
  }

  // ---------------------------------------------------------------- tilings

  /** The region `h .. h + n` is made of whole blocks. */
  ghost predicate Whole(own: Labels, h: nat, n: nat) {
    forall y :: Within(y, h, n) ==> y in own && h <= own[y].start && own[y].start + own[y].size <= h + n
  }

  ghost predicate SameOutside(own: Labels, own': Labels, h: nat, n: nat) {
    && own'.Keys == own.Keys
    && forall x :: x in own && !Within(x, h, n) ==> own'[x] == own[x]
  }

  /** Rewriting a region of whole blocks into whole blocks keeps the tiling. */
  lemma RegionTiled(own: Labels, own': Labels, h: nat, n: nat)
    requires Tiled(own) && Whole(own, h, n) && SameOutside(own, own', h, n)
    requires forall y :: Within(y, h, n) ==> InBlock(own', y)
    ensures Tiled(own')
  {
    forall x | x in own'
      ensures InBlock(own', x)
    {
      if !Within(x, h, n) {
        OutsideKept(own, own', h, n, x);
      }
    }
  }

  lemma OutsideKept(own: Labels, own': Labels, h: nat, n: nat, x: nat)
    requires Tiled(own) && Whole(own, h, n) && SameOutside(own, own', h, n) && x in own && !Within(x, h, n)
    ensures InBlock(own', x)
  {
    BlockAt(own, x);
    forall y | Within(y, own[x].start, own[x].size)
      ensures !Within(y, h, n)
    {
      assert own[y] == own[x];
    }
  }

  lemma BlockWhole(own: Labels, h: nat)
    requires Tiled(own) && h in own && own[h].start == h
    ensures own[h].size > 0 && Whole(own, h, own[h].size)
    ensures forall y :: Within(y, h, own[h].size) ==> y in own && own[y] == own[h]
  {
    BlockAt(own, h);
  }

  /** Exactly the `k` units at `b` turn from free to one live block. */
  ghost predicate Granted(own: Labels, own': Labels, b: nat, k: nat) {
    && own'.Keys == own.Keys
    && (forall x :: FreeAt(own', x) <==> FreeAt(own, x) && !Within(x, b, k))
    && (forall x :: Within(x, b, k) ==> FreeAt(own, x) && own'[x] == Own(false, b, k))
    && (forall x :: x in own && !own[x].free ==> own'[x] == own[x])
  }

  /** The free block `h` of `s` units is cut at `b`: the units before it stay one free block, the
      `k` units from it on become one live block. */
  ghost predicate Cut(own: Labels, own': Labels, h: nat, s: nat, b: nat, k: nat) {
    && h in own && own[h] == Own(true, h, s) && b + k == h + s && h <= b && k > 0
    && SameOutside(own, own', h, s)
    && (forall x: nat :: Within(x, h, s) ==>
          x in own && own[x] == own[h] && own'[x] == (if x < b then Own(true, h, b - h) else Own(false, b, k)))
  }

  lemma AllocCuts(own: Labels, h: nat, s: nat, b: nat, k: nat)
    requires Tiled(own) && FreeHead(own, h) && own[h].size == s >= k > 0 && b == h + (s - k)
    ensures Cut(own, AllocOwn(own, h, k), h, s, b, k)
  {
    BlockWhole(own, h);
  }

  lemma AllocKeeps(own: Labels, n: nat, h: nat, s: nat, b: nat, k: nat)
    requires Inv(own, n) && FreeHead(own, h) && own[h].size == s >= k > 0 && b == h + (s - k)
    ensures Inv(AllocOwn(own, h, k), n) && Granted(own, AllocOwn(own, h, k), b, k)
    ensures Cut(own, AllocOwn(own, h, k), h, s, b, k)
  {
    hide Separated, AllocOwn, Tiled, Cut;
    AllocCuts(own, h, s, b, k);
    var own' := AllocOwn(own, h, k);
    CutTiled(own, own', h, s, b, k);
    CutSeparated(own, own', h, s, b, k);
    CutGranted(own, own', h, s, b, k);
  }

  lemma CutTiled(own: Labels, own': Labels, h: nat, s: nat, b: nat, k: nat)
    requires Tiled(own) && Cut(own, own', h, s, b, k)
    ensures Tiled(own')
  {
    BlockWhole(own, h);
    forall y | Within(y, h, s)
      ensures InBlock(own', y)
    {
      assert own[y] == own[h];
    }
    RegionTiled(own, own', h, s);
  }

  lemma CutSeparated(own: Labels, own': Labels, h: nat, s: nat, b: nat, k: nat)
    requires Separated(own) && Cut(own, own', h, s, b, k)
    ensures Separated(own')
  {
    forall x | FreeAt(own', x)
      ensures !FreeAt(own', own'[x].start + own'[x].size)
    {
      assert FreeAt(own, x);
      if Within(x, h, s) {
        assert Within(b, h, s);
      } else {
        var e := own[x].start + own[x].size;
        assert !FreeAt(own, e);
        assert !Within(e, h, s);
      }
    }
  }

  lemma CutGranted(own: Labels, own': Labels, h: nat, s: nat, b: nat, k: nat)
    requires Cut(own, own', h, s, b, k)
    ensures Granted(own, own', b, k) && own'.Keys == own.Keys
  {
    forall x | Within(x, b, k)
      ensures FreeAt(own, x) && own'[x] == Own(false, b, k)
    {
      assert Within(x, h, s);
    }
  }

  /** Exactly the units of the live block at `b` turn free, and every other live block is kept. */
  ghost predicate Freed(own: Labels, own': Labels, b: nat) {
    && b in own && own'.Keys == own.Keys
    && (forall x :: FreeAt(own', x) <==> FreeAt(own, x) || Within(x, b, own[b].size))
    && (forall x :: x in own && !own[x].free && !Within(x, b, own[b].size) ==> own'[x] == own[x])
  }

  /** The edges of the freed block, and the whole blocks between them. */
  lemma Edges(own: Labels, b: nat) returns (l: nat, e: nat, m: nat)
    requires Tiled(own) && Separated(own) && LiveHead(own, b)
    ensures l == LeftEdge(own, b) && e == RightEdge(own, b) && e == l + m
    ensures l <= b < b + own[b].size <= e && Whole(own, l, m)
    ensures !FreeAt(own, e) && (l > 0 ==> !FreeAt(own, l - 1))
    ensures forall y :: Within(y, l, m) ==> FreeAt(own, y) || Within(y, b, own[b].size)
    ensures FreeOwn(own, b) == Paint(own, l, m, true)
  {
    hide Paint, Tiled, Separated, JoinsLeft, JoinsRight, LeftEdge, RightEdge, Whole;
    l, e := LeftEdge(own, b), RightEdge(own, b);
    LeftOf(own, b, l);
    RightOf(own, b, e);
    m := e - l;
    BlockWhole(own, b);
    EdgesWhole(own, b, b + own[b].size, l, e, m);
  }

  lemma EdgesWhole(own: Labels, b: nat, f: nat, l: nat, e: nat, m: nat)
    requires LiveHead(own, b) && f == b + own[b].size && l <= b <= f <= e && m == e - l
    requires forall y :: l <= y < b ==> FreeAt(own, y) && own[y].start == l && l + own[y].size == b
    requires forall y :: Within(y, b, own[b].size) ==> y in own && own[y] == own[b]
    requires forall y :: f <= y < e ==> FreeAt(own, y) && own[y].start == f && f + own[y].size == e
    ensures Whole(own, l, m)
    ensures forall y :: Within(y, l, m) ==> FreeAt(own, y) || Within(y, b, own[b].size)
  {
    forall y: nat | Within(y, l, m)
      ensures y in own && l <= own[y].start && own[y].start + own[y].size <= l + m
      ensures FreeAt(own, y) || Within(y, b, own[b].size)
    {
      if y < b {
        assert FreeAt(own, y);
      } else if y < f {
        assert Within(y, b, own[b].size);
      } else {
        assert FreeAt(own, y);
      }
    }
  }

  lemma LeftOf(own: Labels, b: nat, l: nat)
    requires Tiled(own) && Separated(own) && LiveHead(own, b) && l == LeftEdge(own, b)
    ensures l <= b && (l > 0 ==> !FreeAt(own, l - 1))
    ensures forall y :: l <= y < b ==> FreeAt(own, y) && own[y].start == l && l + own[y].size == b
    ensures JoinsLeft(own, b) ==> l < b
  {
    if JoinsLeft(own, b) {
      BlockAt(own, b - 1);
      BlockAt(own, b);
      assert !Within(b, l, own[b - 1].size);
      forall y: nat | l <= y < b
        ensures FreeAt(own, y) && own[y].start == l && l + own[y].size == b
      {
        assert Within(y, l, own[b - 1].size);
      }
      if l > 0 && l - 1 in own {
        BlockAt(own, l - 1);
        BlockAt(own, l);
        assert !Within(l, own[l - 1].start, own[l - 1].size);
      }
    }
  }

  lemma RightOf(own: Labels, b: nat, e: nat)
    requires Tiled(own) && Separated(own) && LiveHead(own, b) && e == RightEdge(own, b)
    ensures b + own[b].size <= e && !FreeAt(own, e)
    ensures forall y :: b + own[b].size <= y < e ==>
              FreeAt(own, y) && own[y].start == b + own[b].size && own[y].start + own[y].size == e
    ensures JoinsRight(own, b) ==> FreeHead(own, b + own[b].size)
  {
    if JoinsRight(own, b) {
      var f := b + own[b].size;
      BlockAt(own, f);
      BlockAt(own, b);
      assert Within(f - 1, b, own[b].size);
      assert !Within(f - 1, own[f].start, own[f].size);
      forall y: nat | f <= y < e
        ensures FreeAt(own, y) && own[y].start == f && f + own[y].size == e
      {
        assert Within(y, f, own[f].size);
      }
    }
  }

  lemma FreeKeeps(own: Labels, n: nat, b: nat)
    requires Inv(own, n) && LiveHead(own, b)
    ensures Inv(FreeOwn(own, b), n) && Freed(own, FreeOwn(own, b), b)
  {
    hide LeftEdge, RightEdge, Tiled, Separated, Whole, Freed, Paint, FreeOwn;
    var l, e, m := Edges(own, b);
    var own' := FreeOwn(own, b);
    FreedTiled(own, own', l, m);
    FreedSeparated(own, own', l, e, m);
    FreedUnits(own, own', b, l, e, m);
  }

  lemma FreedTiled(own: Labels, own': Labels, l: nat, m: nat)
    requires Tiled(own) && Whole(own, l, m) && own' == Paint(own, l, m, true)
    ensures Tiled(own')
  {
    RegionTiled(own, own', l, m);
  }

  lemma FreedSeparated(own: Labels, own': Labels, l: nat, e: nat, m: nat)
    requires Tiled(own) && Separated(own) && own' == Paint(own, l, m, true) && Whole(own, l, m)
    requires e == l + m && !FreeAt(own, e) && (l > 0 ==> !FreeAt(own, l - 1))
    ensures Separated(own')
  {
    forall x | FreeAt(own', x)
      ensures !FreeAt(own', own'[x].start + own'[x].size)
    {
      if !Within(x, l, m) {
        assert FreeAt(own, x);
        BlockAt(own, x);
        var f := own[x].start + own[x].size;
        assert !FreeAt(own, f);
        assert Within(f - 1, own[x].start, own[x].size);
        OutsideKept(own, own', l, m, x);
        assert FreeAt(own, f - 1) && own[f - 1] == own[x];
        assert !Within(f - 1, l, m);
      }
    }
  }

  lemma FreedUnits(own: Labels, own': Labels, b: nat, l: nat, e: nat, m: nat)
    requires b in own && l <= b && b + own[b].size <= e && e == l + m && own' == Paint(own, l, m, true)
    requires Whole(own, l, m)
    requires forall y :: Within(y, l, m) ==> FreeAt(own, y) || Within(y, b, own[b].size)
    ensures Freed(own, own', b)
  {
    assert forall y :: Within(y, b, own[b].size) ==> Within(y, l, m);
  }

  /** What one call of `mm_alloc` or `mm_free` may do to the tiling. */
  ghost predicate Requested(own: Labels, own': Labels) {
    || own' == own
    || (exists h, k :: FreeHead(own, h) && own[h].size >= k > 0 && own' == AllocOwn(own, h, k))
    || (exists b :: LiveHead(own, b) && own' == FreeOwn(own, b))
  }
}
