/** Counting. */
module FiniteSets {

  lemma {:induction false} SubsetNoLarger<T>(a: set<T>, b: set<T>)
    requires a <= b
    ensures |a| <= |b|
  {
    if x :| x in a {
      SubsetNoLarger(a - {x}, b - {x});
    }
  }
}
