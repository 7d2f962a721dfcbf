/** Sizes of finite sets. */
module Sets {
  lemma SubsetSize<T>(a: set<T>, b: set<T>)
    requires a <= b
    ensures |a| <= |b|
  {
    assert b == a + (b - a);
  }

  lemma AddsOne<T>(more: set<T>, fewer: set<T>, x: T, added: bool)
    requires x !in fewer && forall y :: y in more <==> y in fewer || (added && y == x)
    ensures |more| == |fewer| + if added then 1 else 0
  {
    assert more == fewer + if added then {x} else {};
  }
}
