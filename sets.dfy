/** Cardinality facts about finite sets and the sequences that list them. */
module Sets {

  /** Finite subsets are no larger than their supersets. */
  lemma {:induction false} SubsetCard<T>(a: set<T>, b: set<T>)
    requires a <= b
    ensures |a| <= |b|
    decreases a
  {
    if a != {} {
      var x :| x in a;
      SubsetCard(a - {x}, b - {x});
    }
  }

  /** A list of distinct elements is as long as the set it enumerates. */
  lemma {:induction false} DistinctCard<T>(xs: seq<T>, s: set<T>)
    requires forall i, j :: 0 <= i < j < |xs| ==> xs[i] != xs[j]
    requires forall x :: x in s <==> x in xs
    ensures |xs| == |s|
    decreases |xs|
  {
    if xs != [] {
      var n := |xs| - 1;
      var last := xs[n];
      assert last !in xs[..n];
      forall x ensures x in s - {last} <==> x in xs[..n] {
        if x in xs && x != last {
          var i :| 0 <= i < |xs| && xs[i] == x;
          assert i < n;
          assert xs[..n][i] == x;
        }
      }
      DistinctCard(xs[..n], s - {last});
    } else {
      assert forall x :: x !in s;
      assert s == {};
    }
  }
}
