/** Small vocabulary shared by every component: optional values and facts about finite sets and sums. */
module Common {

  datatype Option<+T> = None | Some(value: T)

  lemma SubsetCardinality<T>(small: set<T>, large: set<T>)
    requires small <= large
    ensures |small| <= |large|
  {
    assert large == small + (large - small);
  }
}
