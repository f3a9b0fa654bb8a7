/** How allocation and freeing change the circular free list, link by link. */
module FirstFitRing {
  import opened FirstFitSpec
  import opened FirstFitSteps

  /** Each listed header's `next` field names the following one; the last names the sentinel. */
  ghost predicate Linked(next: seq<nat>, r: seq<nat>) {
    && (forall i :: 0 <= i < |r| ==> r[i] < |next|)
    && (forall i :: 0 <= i < |r| - 1 ==> next[r[i]] == r[i + 1])
    && (|r| > 0 ==> next[r[|r| - 1]] == r[0])
  }

  /** A header field written, or read, in place. */
  function Upd(s: seq<nat>, i: nat, v: nat): (s': seq<nat>)
    ensures |s'| == |s|
  {
    if i < |s| then s[i := v] else s
  }

  function Get(s: seq<nat>, i: nat): nat {
    if i < |s| then s[i] else 0
  }

  lemma LinkedAt(next: seq<nat>, r: seq<nat>, i: nat)
    requires Linked(next, r) && i < 2 * |r| - 1
    ensures At(r, i) < |next| && next[At(r, i)] == At(r, i + 1)
  {
    var j := if i < |r| then i else i - |r|;
    if j < |r| - 1 {
      assert next[r[j]] == r[j + 1];
    }
  }

  /** The block at `h` can serve a request of `k` units. */
  ghost predicate Fits(own: Labels, h: nat, k: nat) {
    FreeHead(own, h) && own[h].size >= k
  }

  ghost predicate FitsAt(own: Labels, r: seq<nat>, q: nat, k: nat) {
    q < 2 * |r| && Fits(own, At(r, q), k)
  }

  /** Reading the ring onwards from position `p`, the first block that fits is at `q`. */
  ghost predicate FirstFit(own: Labels, r: seq<nat>, p: nat, k: nat, q: nat) {
    && p < |r| && p < q <= p + |r| && FitsAt(own, r, q, k)
    && forall i :: p < i < q ==> !FitsAt(own, r, i, k)
  }

  // ---------------------------------------------------------------- allocation

  function AllocRing(r: seq<nat>, i: nat, exact: bool): seq<nat> {
    if exact && i < |r| then r[..i] + r[i + 1..] else r
  }

  lemma AllocRingExact(own: Labels, own': Labels, r: seq<nat>, i: nat, h: nat, s: nat, b: nat, k: nat)
    requires RingExact(own, r) && 1 <= i < |r| && r[i] == h && Cut(own, own', h, s, b, k)
    ensures RingExact(own', AllocRing(r, i, s == k))
  {
    assert s >= k;
    CutHeads(own, own', h, s, b, k);
    hide Cut, FreeHead;
    if s == k {
      DropOne(r, i);
    }
    var r' := AllocRing(r, i, s == k);
    forall j | 1 <= j < |r'|
      ensures FreeHead(own', r'[j])
    {
      assert r'[j] in r' && r'[j] > r'[0];
      HeadsInRing(own, r);
    }
  }

  lemma CutHeads(own: Labels, own': Labels, h: nat, s: nat, b: nat, k: nat)
    requires Cut(own, own', h, s, b, k)
    ensures forall x :: FreeHead(own', x) <==> FreeHead(own, x) && (x == h ==> s > k)
  {
    forall x
      ensures FreeHead(own', x) <==> FreeHead(own, x) && (x == h ==> s > k)
    {
      if x in own && Within(x, h, s) {
        assert own[x] == own[h];
      }
    }
  }

  ghost predicate Distinct(r: seq<nat>) {
    forall i, j :: 0 <= i < j < |r| ==> r[i] != r[j]
  }

  lemma UnlinkBlock(next: seq<nat>, r: seq<nat>, i: nat)
    requires Linked(next, r) && 1 <= i < |r| && Distinct(r)
    ensures Linked(next[r[i - 1] := next[r[i]]], AllocRing(r, i, true)) && Distinct(AllocRing(r, i, true))
  {
    var r' := AllocRing(r, i, true);
    var next' := next[r[i - 1] := next[r[i]]];
    forall j | 0 <= j < |r'| - 1
      ensures next'[r'[j]] == r'[j + 1]
    {
      var a := if j < i then j else j + 1;
      assert r'[j] == r[a] && (a < |r| - 1 ==> next[r[a]] == r[a + 1]);
    }
    assert r'[|r'| - 1] == (if i == |r| - 1 then r[i - 1] else r[|r| - 1]);
  }

  // ---------------------------------------------------------------- freeing

  /** `r[t]` is the address predecessor of `b` in the ring. */
  ghost predicate Predecessor(r: seq<nat>, t: nat, b: nat) {
    && t < |r| && r[t] < b
    && (t + 1 < |r| ==> b < r[t + 1])
  }

  lemma {:induction false} PredecessorExists(r: seq<nat>, b: nat) returns (t: nat)
    requires |r| > 0 && r[0] < b && (forall i, j :: 0 <= i < j < |r| ==> r[i] < r[j]) && b !in r
    ensures Predecessor(r, t, b)
  {
    if r[|r| - 1] < b {
      t := |r| - 1;
    } else {
      assert r[|r| - 1] in r;
      t := PredecessorExists(r[..|r| - 1], b);
      assert t + 1 < |r|;
      assert t + 1 == |r| - 1 ==> r[|r| - 1] > b;
    }
  }

  lemma PredecessorUnique(r: seq<nat>, t: nat, t': nat, b: nat)
    requires (forall i, j :: 0 <= i < j < |r| ==> r[i] < r[j]) && Predecessor(r, t, b) && Predecessor(r, t', b)
    ensures t == t'
  {
  }

  /** The two coalescing tests compare addresses with the ring neighbours only, yet hold exactly
      when the unit before, or after, the freed block is free. */
  lemma CoalescingTestsExact(own: Labels, n: nat, r: seq<nat>, t: nat, b: nat)
    requires Inv(own, n) && RingExact(own, r) && LiveHead(own, b) && Predecessor(r, t, b)
    ensures t > 0 ==> r[t] in own
    ensures JoinsLeft(own, b) <==> t > 0 && r[t] + own[r[t]].size == b
    ensures LeftEdge(own, b) == if JoinsLeft(own, b) then r[t] else b
    ensures JoinsRight(own, b) <==> t + 1 < |r| && b + own[b].size == r[t + 1]
  {
    if t > 0 {
      assert FreeHead(own, r[t]);
      if r[t] + own[r[t]].size == b {
        LeftNeighbour(own, r, t, b);
      }
    }
    if JoinsLeft(own, b) {
      LeftHead(own, n, r, t, b);
    }
    if JoinsRight(own, b) {
      RightHead(own, r, t, b);
    }
    if t + 1 < |r| {
      assert FreeHead(own, r[t + 1]);
    }
  }

  lemma LeftNeighbour(own: Labels, r: seq<nat>, t: nat, b: nat)
    requires Tiled(own) && t < |r| && FreeHead(own, r[t]) && r[t] + own[r[t]].size == b
    ensures JoinsLeft(own, b) && own[b - 1].start == r[t]
  {
    BlockAt(own, r[t]);
    assert Within(b - 1, own[r[t]].start, own[r[t]].size);
  }

  lemma LeftHead(own: Labels, n: nat, r: seq<nat>, t: nat, b: nat)
    requires Inv(own, n) && RingExact(own, r) && LiveHead(own, b) && Predecessor(r, t, b) && JoinsLeft(own, b)
    ensures t > 0 && own[b - 1].start == r[t] && r[t] + own[r[t]].size == b
  {
    var l := own[b - 1].start;
    LeftOf(own, b, l);
    BlockAt(own, b - 1);
    assert FreeAt(own, l) && own[l].start == l;
    var i :| 0 <= i < |r| && r[i] == l;
    assert l in own;
    assert r[t] >= l;
    assert FreeAt(own, r[t]) && own[r[t]].start == l;
    assert FreeHead(own, r[t]);
  }

  lemma RightHead(own: Labels, r: seq<nat>, t: nat, b: nat)
    requires Tiled(own) && Separated(own) && RingExact(own, r) && LiveHead(own, b) && Predecessor(r, t, b)
    requires JoinsRight(own, b)
    ensures t + 1 < |r| && b + own[b].size == r[t + 1]
  {
    var f := b + own[b].size;
    RightOf(own, b, RightEdge(own, b));
    BlockWhole(own, b);
    var i :| 0 <= i < |r| && r[i] == f;
    assert FreeHead(own, r[t + 1]);
    assert !Within(r[t + 1], b, own[b].size);
  }

  function Insert(r: seq<nat>, t: nat, b: nat): seq<nat> {
    if t < |r| then r[..t + 1] + [b] + r[t + 1..] else r
  }

  /** `b` enters after its predecessor; a right neighbour it absorbed leaves, and so does `b`
      itself when its left neighbour absorbed it. */
  function FreeRing(r: seq<nat>, t: nat, b: nat, left: bool, right: bool): seq<nat> {
    var r1 := Insert(r, t, b);
    var r2 := if right then AllocRing(r1, t + 2, true) else r1;
    if left then AllocRing(r2, t + 1, true) else r2
  }

  lemma InsertLinked(next: seq<nat>, r: seq<nat>, t: nat, b: nat)
    requires Linked(next, r) && t < |r| && b < |next| && b !in r && Distinct(r)
    ensures Linked(next[b := next[r[t]]][r[t] := b], Insert(r, t, b)) && Distinct(Insert(r, t, b))
  {
    var r', next' := Insert(r, t, b), next[b := next[r[t]]][r[t] := b];
    forall i | 0 <= i < |r'|
      ensures r'[i] < |next| && (i < |r'| - 1 ==> next'[r'[i]] == r'[i + 1])
    {
      var a := if i <= t then i else i - 1;
      assert a < |r| - 1 ==> next[r[a]] == r[a + 1];
    }
    assert r'[|r'| - 1] == (if t == |r| - 1 then b else r[|r| - 1]);
  }

  lemma FreeRingLinked(next: seq<nat>, r: seq<nat>, t: nat, b: nat, left: bool, right: bool, after: nat)
    requires Linked(next, r) && t < |r| && b < |next| && b !in r && (right ==> t + 1 < |r|) && Distinct(r)
    requires r[t] < |next| && (right ==> r[t + 1] < |next|) && after == (if right then next[r[t + 1]] else next[r[t]])
    ensures Linked(next[b := after][r[t] := if left then after else b], FreeRing(r, t, b, left, right))
  {
    hide Linked, Distinct, Insert, AllocRing;
    var r2 := if right then AllocRing(Insert(r, t, b), t + 2, true) else Insert(r, t, b);
    RightLinked(next, r, t, b, right, after);
    if left {
      var next2 := next[b := after][r[t] := b];
      assert r[t] != b;
      UnlinkBlock(next2, r2, t + 1);
      assert next2[r[t] := next2[b]] == next[b := after][r[t] := after];
    }
  }

  lemma RightLinked(next: seq<nat>, r: seq<nat>, t: nat, b: nat, right: bool, after: nat)
    requires Linked(next, r) && t < |r| && b < |next| && b !in r && (right ==> t + 1 < |r|) && Distinct(r)
    requires r[t] < |next| && (right ==> r[t + 1] < |next|) && after == (if right then next[r[t + 1]] else next[r[t]])
    ensures var r2 := if right then AllocRing(Insert(r, t, b), t + 2, true) else Insert(r, t, b);
            && Linked(next[b := after][r[t] := b], r2) && Distinct(r2)
            && |r2| > t + 1 && r2[t] == r[t] && r2[t + 1] == b
  {
    assert right ==> r[t] != r[t + 1];
    hide Linked, Distinct, Insert, AllocRing;
    InsertLinked(next, r, t, b);
    InsertAt(r, t, b);
    if right {
      var r1, next1 := Insert(r, t, b), next[b := next[r[t]]][r[t] := b];
      UnlinkBlock(next1, r1, t + 2);
      AllocRingAt(r1, t + 2, t);
      assert r1[t + 2] == r[t + 1];
      Relink(next, b, r[t], next[r[t]], after);
    }
  }

  lemma InsertAt(r: seq<nat>, t: nat, b: nat)
    requires t < |r|
    ensures |Insert(r, t, b)| == |r| + 1 && Insert(r, t, b)[t] == r[t] && Insert(r, t, b)[t + 1] == b
    ensures t + 1 < |r| ==> Insert(r, t, b)[t + 2] == r[t + 1]
  {
  }

  lemma AllocRingAt(r: seq<nat>, i: nat, t: nat)
    requires t + 2 == i < |r|
    ensures |AllocRing(r, i, true)| == |r| - 1 && AllocRing(r, i, true)[t] == r[t]
            && AllocRing(r, i, true)[t + 1] == r[t + 1]
  {
  }

  lemma Relink(next: seq<nat>, b: nat, c: nat, x: nat, y: nat)
    requires b < |next| && c < |next| && b != c
    ensures next[b := x][c := b][b := y] == next[b := y][c := b]
  {
  }

  lemma FreeRingHolds(r: seq<nat>, t: nat, b: nat, left: bool, right: bool)
    requires Predecessor(r, t, b) && (right ==> t + 1 < |r|) && (left ==> t > 0)
    requires forall i, j :: 0 <= i < j < |r| ==> r[i] < r[j]
    ensures var r' := FreeRing(r, t, b, left, right);
            && |r'| > 0 && r'[0] == r[0] && (forall i, j :: 0 <= i < j < |r'| ==> r'[i] < r'[j])
            && (forall x :: x in r' <==> (x in r || x == b) && !(right && x == r[t + 1]) && !(left && x == b))
  {
    assert t < |r|;
    hide Insert, AllocRing, Predecessor;
    InsertHolds(r, t, b);
    var r1 := Insert(r, t, b);
    var r2 := if right then AllocRing(r1, t + 2, true) else r1;
    if right {
      DropOne(r1, t + 2);
    }
    if left {
      DropOne(r2, t + 1);
    }
  }

  lemma InsertHolds(r: seq<nat>, t: nat, b: nat)
    requires Predecessor(r, t, b) && forall i, j :: 0 <= i < j < |r| ==> r[i] < r[j]
    ensures |Insert(r, t, b)| == |r| + 1 && Insert(r, t, b)[0] == r[0] && Insert(r, t, b)[t + 1] == b
    ensures t + 1 < |r| ==> Insert(r, t, b)[t + 2] == r[t + 1] && b != r[t + 1]
    ensures forall x :: x in Insert(r, t, b) <==> x in r || x == b
    ensures forall i, j :: 0 <= i < j < |r| + 1 ==> Insert(r, t, b)[i] < Insert(r, t, b)[j]
  {
    assert Insert(r, t, b) == r[..t + 1] + [b] + r[t + 1..];
    assert r == r[..t + 1] + r[t + 1..];
  }

  lemma DropOne(r: seq<nat>, i: nat)
    requires i < |r| && forall a, c :: 0 <= a < c < |r| ==> r[a] < r[c]
    ensures |AllocRing(r, i, true)| == |r| - 1 && (i > 0 ==> AllocRing(r, i, true)[0] == r[0])
    ensures forall x :: x in AllocRing(r, i, true) <==> x in r && x != r[i]
    ensures forall a, c :: 0 <= a < c < |r| - 1 ==> AllocRing(r, i, true)[a] < AllocRing(r, i, true)[c]
    ensures forall a :: 0 <= a < i ==> AllocRing(r, i, true)[a] == r[a]
  {
    var r' := AllocRing(r, i, true);
    forall x | x in r && x != r[i]
      ensures x in r'
    {
      var j :| 0 <= j < |r| && r[j] == x;
      assert r'[if j < i then j else j - 1] == x;
    }
  }

  lemma FreedHeads(own: Labels, b: nat, f: nat)
    requires Tiled(own) && Separated(own) && LiveHead(own, b) && f == b + own[b].size
    ensures forall x :: FreeHead(FreeOwn(own, b), x) <==>
              (FreeHead(own, x) || x == b) && !(JoinsRight(own, b) && x == f) && !(JoinsLeft(own, b) && x == b)
  {
    var l, e, m := Edges(own, b);
    LeftOf(own, b, l);
    RightOf(own, b, e);
    BlockWhole(own, b);
    hide Tiled, Separated, FreeOwn, Whole, RightEdge;
    var own' := FreeOwn(own, b);
    forall x
      ensures FreeHead(own', x) <==>
              (FreeHead(own, x) || x == b) && !(JoinsRight(own, b) && x == f) && !(JoinsLeft(own, b) && x == b)
    {
    }
  }

  lemma FreeRingExact(own: Labels, n: nat, r: seq<nat>, t: nat, b: nat, left: bool, right: bool)
    requires Inv(own, n) && RingExact(own, r) && LiveHead(own, b) && Predecessor(r, t, b)
    requires left == JoinsLeft(own, b) && right == JoinsRight(own, b)
    ensures (right ==> t + 1 < |r|) && RingExact(FreeOwn(own, b), FreeRing(r, t, b, left, right))
  {
    hide Tiled, Separated, Heap, FreeOwn, FreeRing, JoinsLeft, JoinsRight, FreeHead, Predecessor;
    CoalescingTestsExact(own, n, r, t, b);
    FreeRingHolds(r, t, b, left, right);
    FreedHeads(own, b, b + own[b].size);
    HeadsInRing(own, r);
    var r' := FreeRing(r, t, b, left, right);
    forall i | 1 <= i < |r'|
      ensures FreeHead(FreeOwn(own, b), r'[i])
    {
      assert r'[i] in r' && r'[i] > r'[0];
    }
  }

  lemma HeadsInRing(own: Labels, r: seq<nat>)
    requires RingExact(own, r)
    ensures forall x :: x in r && x != SENTINEL ==> FreeHead(own, x)
  {
  }
}
