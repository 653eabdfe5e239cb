/** Lists without duplicates, and counting subsets. */
module Sets {
  ghost predicate NoDuplicates<T>(xs: seq<T>) { forall i, j :: 0 <= i < j < |xs| ==> xs[i] != xs[j] }

  lemma SubsetSize<T>(a: set<T>, b: set<T>)
    requires a <= b
    ensures |a| <= |b|
  {
    assert b == a + (b - a);
  }

  lemma {:induction false} DistinctCount<T>(s: seq<T>)
    requires NoDuplicates(s)
    ensures |set x | x in s| == |s|
  {
    if s != [] {
      var n := |s| - 1;
      DistinctCount(s[..n]);
      assert (set x | x in s) == (set x | x in s[..n]) + {s[n]} by { assert s == s[..n] + [s[n]]; }
      assert s[n] !in s[..n];
    }
  }

  /** The integers from 0 up to n. */
  function Range(n: nat): (r: set<int>)
    ensures |r| == n && forall x :: x in r <==> 0 <= x < n
  {
    if n == 0 then {} else Range(n - 1) + {n - 1}
  }

  lemma DistinctInRange(s: seq<int>, n: nat)
    requires NoDuplicates(s) && forall x :: x in s ==> 0 <= x < n
    ensures |s| <= n
  {
    DistinctCount(s);
    SubsetSize((set x | x in s), Range(n));
  }
}
