/** Powers of two, and the aligned runs of frames that the buddy system hands out. */
module Dyadic {

  function Pow2(o: nat): (p: nat)
    ensures p >= 1
  {
    if o == 0 then 1 else 2 * Pow2(o - 1)
  }

  /** The first frame of the aligned run of `Pow2(o)` frames that holds frame `x`. */
  function Down(x: nat, o: nat): nat {
    ModBelow(x, Pow2(o));
    x - x % Pow2(o)
  }

  lemma ModBelow(x: nat, p: nat)
    requires p > 0
    ensures 0 <= x % p <= x
  {
    if x >= p {
      assert x % p < p;
    } else {
      DivUnique(x, p, 0, x);
    }
  }

  predicate Aligned(f: nat, o: nat) {
    f % Pow2(o) == 0
  }

  /** `f ^ (1 << o)`: frame `f` with bit `o` flipped. */
  function Buddy(f: nat, o: nat): nat {
    if (f / Pow2(o)) % 2 == 0 then f + Pow2(o) else f - Pow2(o)
  }

  lemma MulOrder(a: int, b: int, p: nat)
    requires a < b
    ensures a * p + p == (a + 1) * p && (a + 1) * p <= b * p
  {
    assert b * p - (a + 1) * p == (b - (a + 1)) * p;
    assert (b - (a + 1)) * p >= 0;
  }

  lemma DivUnique(x: nat, p: nat, q: nat, r: nat)
    requires p > 0 && r < p && x == q * p + r
    ensures x / p == q && x % p == r
  {
    var q', r' := x / p, x % p;
    assert x == q' * p + r';
    if q > q' {
      MulOrder(q', q, p);
    } else if q < q' {
      MulOrder(q, q', p);
    }
  }

  lemma MulDivisible(f: nat, p: nat, k: nat)
    requires p > 0 && k > 0 && f % (p * k) == 0
    ensures f % p == 0
  {
    var q := f / (p * k);
    assert f == (q * k) * p + 0;
    DivUnique(f, p, q * k, 0);
  }

  lemma DownHolds(x: nat, o: nat)
    ensures Aligned(Down(x, o), o) && Down(x, o) <= x < Down(x, o) + Pow2(o)
  {
    var p := Pow2(o);
    assert x == (x / p) * p + x % p;
    DivUnique(Down(x, o), p, x / p, 0);
  }

  lemma DownUnique(f: nat, o: nat, x: nat)
    requires Aligned(f, o) && f <= x < f + Pow2(o)
    ensures Down(x, o) == f
  {
    var q := Quotient(f, Pow2(o));
    hide Pow2;
    DivUnique(x, Pow2(o), q, x - f);
  }

  lemma Quotient(f: nat, p: nat) returns (q: nat)
    requires p > 0 && f % p == 0
    ensures f == q * p
  {
    q := f / p;
  }

  lemma Pow2Splits(o: nat, p: nat) returns (k: nat)
    requires p <= o
    ensures k > 0 && Pow2(o) == Pow2(p) * k
    decreases o
  {
    if p == o {
      k := 1;
    } else {
      var k' := Pow2Splits(o - 1, p);
      k := 2 * k';
    }
  }

  lemma AlignedFiner(f: nat, o: nat, p: nat)
    requires p <= o && Aligned(f, o)
    ensures Aligned(f, p) && Pow2(p) <= Pow2(o)
  {
    var k := Pow2Splits(o, p);
    MulDivisible(f, Pow2(p), k);
    if k > 1 {
      MulOrder(1, k, Pow2(p));
    }
  }

  /** Aligned runs are nested or disjoint. */
  lemma Nested(f: nat, o: nat, x: nat, p: nat)
    requires p <= o && Aligned(f, o) && f <= x < f + Pow2(o)
    ensures f <= Down(x, p) && Down(x, p) + Pow2(p) <= f + Pow2(o)
  {
    var k := Pow2Splits(o, p);
    AlignedFiner(f, o, p);
    DownHolds(x, p);
    var a := Exact(f, Pow2(p));
    var b := Exact(Down(x, p), Pow2(p));
    NestedMultiples(a, b, k, Pow2(p), x);
  }

  lemma Exact(f: nat, p: nat) returns (q: nat)
    requires p > 0 && f % p == 0
    ensures q == f / p && q * p == f
  {
    q := f / p;
  }

  lemma NestedMultiples(a: nat, b: nat, k: nat, p: nat, x: nat)
    requires a * p <= x < a * p + p * k && b * p <= x < b * p + p
    ensures a * p <= b * p && b * p + p <= a * p + p * k
  {
    assert a * p + p * k == (a + k) * p;
    if b < a {
      MulOrder(b, a, p);
    } else if b >= a + k {
      if b > a + k {
        MulOrder(a + k, b, p);
      }
    } else {
      MulOrder(b, a + k, p);
      if a < b {
        MulOrder(a, b, p);
      }
    }
  }

  /** Of two aligned runs that share a frame, the coarser one swallows the other. */
  lemma Swallows(f: nat, o: nat, g: nat, p: nat, x: nat)
    requires p <= o && Aligned(f, o) && Aligned(g, p)
    requires f <= x < f + Pow2(o) && g <= x < g + Pow2(p)
    ensures f <= g && g + Pow2(p) <= f + Pow2(o)
  {
    Nested(f, o, x, p);
    DownUnique(g, p, x);
  }

  /** Two buddies are the two halves of one aligned run, and each is the buddy of the other. */
  lemma BuddyHalves(f: nat, o: nat)
    requires Aligned(f, o)
    ensures Aligned(Buddy(f, o), o) && Buddy(Buddy(f, o), o) == f
    ensures Aligned(f, o + 1) ==> Buddy(f, o) == f + Pow2(o)
    ensures !Aligned(f, o + 1) ==> Buddy(f, o) + Pow2(o) == f && Aligned(Buddy(f, o), o + 1)
    ensures Pow2(o + 1) == 2 * Pow2(o)
  {
    var p := Pow2(o);
    var q := f / p;
    assert Pow2(o + 1) == 2 * p;
    BuddyMultiple(q, p, f);
    if q % 2 == 0 {
      assert Buddy(f, o) == f + p;
      assert (q + 1) % 2 == 1;
      assert f % Pow2(o + 1) == 0;
      assert f + p - p == f;
    } else {
      assert Buddy(f, o) == f - p;
      assert (q - 1) % 2 == 0;
      assert f % Pow2(o + 1) == p;
      assert f - p + p == f;
    }
  }

  lemma BuddyMultiple(q: nat, p: nat, f: nat)
    requires p > 0 && q == f / p && f % p == 0
    ensures q % 2 == 0 ==> (f + p) % p == 0 && (f + p) / p == q + 1 && f % (2 * p) == 0
    ensures q % 2 == 1 ==> f >= p && (f - p) % p == 0 && (f - p) / p == q - 1
                           && f % (2 * p) == p && (f - p) % (2 * p) == 0
  {
    assert f == q * p;
    if q % 2 == 0 {
      EvenBuddy(q, p);
    } else {
      OddBuddy(q, p, f);
    }
  }

  lemma OddBuddy(q: nat, p: nat, f: nat)
    requires p > 0 && q % 2 == 1 && f == q * p
    ensures f >= p && (f - p) % p == 0 && (f - p) / p == q - 1
    ensures f % (2 * p) == p && (f - p) % (2 * p) == 0
  {
    EvenBuddy(q - 1, p);
    assert f - p == (q - 1) * p;
    DivUnique(f, 2 * p, (q - 1) / 2, p);
  }

  lemma EvenBuddy(q: nat, p: nat)
    requires p > 0 && q % 2 == 0
    ensures (q * p) % (2 * p) == 0 && (q * p) % p == 0 && (q * p) / p == q
    ensures q * p + p == (q + 1) * p && (q * p + p) % p == 0 && (q * p + p) / p == q + 1
    ensures q * p == (q / 2) * (2 * p)
  {
    EvenMultiple(q, p);
    Multiple(q, p);
    Multiple(q + 1, p);
    MulOrder(q, q + 1, p);
  }

  lemma Multiple(q: nat, p: nat)
    requires p > 0
    ensures (q * p) / p == q && (q * p) % p == 0
  {
    DivUnique(q * p, p, q, 0);
  }

  lemma EvenMultiple(q: nat, p: nat)
    requires p > 0 && q % 2 == 0
    ensures q * p == (q / 2) * (2 * p) && (q * p) % (2 * p) == 0
  {
    assert q == (q / 2) * 2;
    assert q * p == (q / 2) * (2 * p);
    DivUnique(q * p, 2 * p, q / 2, 0);
  }
}
