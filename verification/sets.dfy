/** Counting facts about finite sets of integers, used to show that a board
    with 64 marked squares marks every square. */
module Sets {

  /** `i` is one of 0..n-1. `Range` repeats the bounds inline, from which
      Dafny sees the set is finite, and adds this predicate as the term its
      quantifiers trigger on. */
  predicate Below(i: int, n: nat)
  {
    0 <= i < n
  }

  /** The integers 0..n-1. */
  function Range(n: nat): set<int>
  {
    set i: int | 0 <= i < n && Below(i, n)
  }

  lemma {:induction false} RangeCard(n: nat)
    ensures |Range(n)| == n
  {
    if n > 0 {
      RangeCard(n - 1);
      assert Range(n) == Range(n - 1) + {n - 1};
    }
  }

  /** A subset is no larger than its superset: the superset is the subset
      plus the disjoint remainder. */
  lemma SubsetCard(a: set<int>, b: set<int>)
    requires a <= b
    ensures |a| <= |b|
    ensures |b - a| == |b| - |a|
  {
    assert b == a + (b - a);
  }

  /** A subset as large as its superset is the superset. */
  lemma SubsetEqualCard(a: set<int>, b: set<int>)
    requires a <= b && |a| == |b|
    ensures a == b
  {
    SubsetCard(a, b);
    assert b - a == {};
  }
}
