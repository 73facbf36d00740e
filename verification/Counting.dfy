/** Two facts of counting that several modules need. */
module Counting {

  lemma {:induction false} Times(a: nat, b: nat, k: nat)
    requires a <= b
    ensures a * k <= b * k
  {
    if a < b {
      Times(a, b - 1, k);
      assert b * k == (b - 1) * k + k;
    }
  }

  lemma SubsetCardinality<T(!new)>(a: set<T>, b: set<T>)
    requires a <= b
    ensures |a| <= |b|
  {
    assert b == a + (b - a);
  }
}
