/** Sizes of finite sets. */
module Sets {

  lemma SubsetSize<T>(a: set<T>, b: set<T>)
    requires a <= b
    ensures |a| <= |b|
  {
    assert b == a + (b - a);
  }

  lemma ProperSubsetSize<T>(a: set<T>, b: set<T>, x: T)
    requires x in b && a <= b - {x}
    ensures |a| < |b|
  {
    assert b == a + (b - a) && x in b - a;
  }

  /** A list without repeats is as long as the set of its elements. */
  lemma {:induction false} DistinctSize<T>(s: seq<T>, e: set<T>)
    requires forall i, j :: 0 <= i < j < |s| ==> s[i] != s[j]
    requires forall x :: x in s <==> x in e
    ensures |s| == |e|
  {
    if s == [] {
      assert e == {};
    } else {
      var last := s[|s| - 1];
      DistinctSize(s[..|s| - 1], e - {last});
      assert e == e - {last} + {last};
    }
  }
}
