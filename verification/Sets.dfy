// Sizes of sets.

module Sets {
  lemma Fewer<T>(small: set<T>, large: set<T>)
    requires small <= large
    ensures |small| <= |large|
  {
    assert large == small + (large - small);
  }

  function Below(n: nat): (below: set<nat>)
    ensures |below| == n && forall j: nat :: j in below <==> j < n
  {
    if n == 0 then {} else Below(n - 1) + {n - 1}
  }
}
