/** Counting the frames or units of a contiguous run. */
module Intervals {

  ghost function Interval(f: nat, n: nat): set<nat> {
    if n == 0 then {} else Interval(f, n - 1) + {f + n - 1}
  }

  lemma {:induction false} IntervalSize(f: nat, n: nat)
    ensures |Interval(f, n)| == n && forall y :: y in Interval(f, n) <==> f <= y < f + n
  {
    if n > 0 {
      IntervalSize(f, n - 1);
    }
  }

  lemma AddInterval(s: set<nat>, s': set<nat>, f: nat, n: nat)
    requires forall y :: y in s' <==> y in s || f <= y < f + n
    requires forall y :: f <= y < f + n ==> y !in s
    ensures |s'| == |s| + n
  {
    IntervalSize(f, n);
    assert s' == s + Interval(f, n);
    assert s !! Interval(f, n);
  }

  lemma {:induction false} AllOf(s: set<nat>, whole: set<nat>)
    requires s <= whole && |s| == |whole|
    ensures s == whole
  {
    if x :| x in whole && x !in s {
      Subset(s, whole - {x});
    }
  }

  lemma {:induction false} Subset(s: set<nat>, t: set<nat>)
    requires s <= t
    ensures |s| <= |t|
  {
    if x :| x in s {
      Subset(s - {x}, t - {x});
    }
  }
}
