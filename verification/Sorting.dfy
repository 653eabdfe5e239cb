/** Python's stable `sorted`, which the limiter, the aggregator and the rankers all call.
    A list has one stable sort under a given order, so the insertion sort below stands for it. */
module Sorting {
  import opened Sets

  ghost predicate TotalPreorder<T(!new)>(le: (T, T) -> bool) {
    && (forall x, y :: le(x, y) || le(y, x))
    && (forall x, y, z :: le(x, y) && le(y, z) ==> le(x, z))
  }

  ghost predicate Ordered<T>(xs: seq<T>, le: (T, T) -> bool) {
    forall i, j :: 0 <= i < j < |xs| ==> le(xs[i], xs[j])
  }

  /** `a` stands somewhere before `b` in `xs`. */
  ghost predicate Before<T>(xs: seq<T>, a: T, b: T) {
    exists i, j :: 0 <= i < j < |xs| && xs[i] == a && xs[j] == b
  }

  function Insert<T>(x: T, ys: seq<T>, le: (T, T) -> bool): (r: seq<T>)
    ensures |r| == |ys| + 1
  {
    if ys == [] then [x]
    else if le(x, ys[0]) then [x] + ys
    else [ys[0]] + Insert(x, ys[1..], le)
  }

  function StableSort<T>(xs: seq<T>, le: (T, T) -> bool): (r: seq<T>)
    ensures |r| == |xs|
  {
    if xs == [] then [] else Insert(xs[0], StableSort(xs[1..], le), le)
  }

  lemma {:induction false} InsertPermutes<T>(x: T, ys: seq<T>, le: (T, T) -> bool)
    ensures multiset(Insert(x, ys, le)) == multiset([x] + ys)
  {
    if ys == [] {
    } else if le(x, ys[0]) {
    } else {
      InsertPermutes(x, ys[1..], le);
      assert ys == [ys[0]] + ys[1..];
    }
  }

  /** Sorting loses and invents nothing. */
  lemma {:induction false} SortPermutes<T>(xs: seq<T>, le: (T, T) -> bool)
    ensures multiset(StableSort(xs, le)) == multiset(xs)
  {
    if xs == [] {
    } else {
      SortPermutes(xs[1..], le);
      InsertPermutes(xs[0], StableSort(xs[1..], le), le);
      assert xs == [xs[0]] + xs[1..];
    }
  }

  lemma SortMember<T>(xs: seq<T>, le: (T, T) -> bool, x: T)
    ensures x in StableSort(xs, le) <==> x in xs
  {
    SortPermutes(xs, le);
    assert x in multiset(StableSort(xs, le)) <==> x in multiset(xs);
  }

  lemma {:induction false} InsertOrdered<T(!new)>(x: T, ys: seq<T>, le: (T, T) -> bool)
    requires TotalPreorder(le) && Ordered(ys, le)
    ensures Ordered(Insert(x, ys, le), le)
  {
    if ys == [] {
    } else if le(x, ys[0]) {
    } else {
      var rest := Insert(x, ys[1..], le);
      InsertOrdered(x, ys[1..], le);
      InsertPermutes(x, ys[1..], le);
      forall j | 0 <= j < |rest|
        ensures le(ys[0], rest[j])
      {
        assert rest[j] in multiset([x] + ys[1..]);
      }
    }
  }

  lemma {:induction false} SortOrdered<T(!new)>(xs: seq<T>, le: (T, T) -> bool)
    requires TotalPreorder(le)
    ensures Ordered(StableSort(xs, le), le)
  {
    if xs == [] {
    } else {
      SortOrdered(xs[1..], le);
      InsertOrdered(xs[0], StableSort(xs[1..], le), le);
    }
  }

  lemma {:induction false} InsertKeepsBefore<T>(x: T, ys: seq<T>, le: (T, T) -> bool, a: T, b: T)
    requires Before(ys, a, b)
    ensures Before(Insert(x, ys, le), a, b)
  {
    var i, j :| 0 <= i < j < |ys| && ys[i] == a && ys[j] == b;
    var r := Insert(x, ys, le);
    if le(x, ys[0]) {
      assert r[i + 1] == a && r[j + 1] == b;
    } else if i == 0 {
      InsertPermutes(x, ys[1..], le);
      assert b in multiset([x] + ys[1..]) by { assert ([x] + ys[1..])[j] == b; }
      assert b in Insert(x, ys[1..], le);
      var k :| 0 <= k < |r| - 1 && r[1..][k] == b;
      assert r[0] == a && r[k + 1] == b;
    } else {
      assert ys[1..][i - 1] == a && ys[1..][j - 1] == b;
      InsertKeepsBefore(x, ys[1..], le, a, b);
      var p, q :| 0 <= p < q < |r| - 1 && r[1..][p] == a && r[1..][q] == b;
      assert r[p + 1] == a && r[q + 1] == b;
    }
  }

  lemma {:induction false} InsertBefore<T>(x: T, ys: seq<T>, le: (T, T) -> bool, b: T)
    requires b in ys && le(x, b)
    ensures Before(Insert(x, ys, le), x, b)
  {
    var r := Insert(x, ys, le);
    if le(x, ys[0]) {
      var j :| 0 <= j < |ys| && ys[j] == b;
      assert r[0] == x && r[j + 1] == b;
    } else {
      assert b in ys[1..];
      InsertBefore(x, ys[1..], le, b);
      var p, q :| 0 <= p < q < |r| - 1 && r[1..][p] == x && r[1..][q] == b;
      assert r[p + 1] == x && r[q + 1] == b;
    }
  }

  /** Stability: a pair already in order keeps its order, ties included. */
  lemma {:induction false} SortStable<T>(xs: seq<T>, le: (T, T) -> bool, a: T, b: T)
    requires Before(xs, a, b) && le(a, b)
    ensures Before(StableSort(xs, le), a, b)
  {
    var i, j :| 0 <= i < j < |xs| && xs[i] == a && xs[j] == b;
    var rest := StableSort(xs[1..], le);
    if i == 0 {
      SortMember(xs[1..], le, b);
      assert xs[1..][j - 1] == b;
      InsertBefore(a, rest, le, b);
    } else {
      assert xs[1..][i - 1] == a && xs[1..][j - 1] == b;
      SortStable(xs[1..], le, a, b);
      InsertKeepsBefore(xs[0], rest, le, a, b);
    }
  }

  /** A strictly smaller element comes first, wherever it started. */
  lemma SortStrict<T(!new)>(xs: seq<T>, le: (T, T) -> bool, a: T, b: T)
    requires TotalPreorder(le)
    requires a in xs && b in xs && !le(b, a)
    ensures Before(StableSort(xs, le), a, b)
  {
    var s := StableSort(xs, le);
    SortOrdered(xs, le);
    SortMember(xs, le, a);
    SortMember(xs, le, b);
    var i :| 0 <= i < |s| && s[i] == a;
    var j :| 0 <= j < |s| && s[j] == b;
    assert i < j;
  }

  lemma MultisetNoDuplicates<T>(xs: seq<T>, ys: seq<T>)
    requires multiset(xs) == multiset(ys) && NoDuplicates(xs)
    ensures NoDuplicates(ys)
  {
    forall i, j | 0 <= i < j < |ys|
      ensures ys[i] != ys[j]
    {
      if ys[i] == ys[j] {
        var v := ys[i];
        assert ys == ys[..j] + [v] + ys[j + 1..];
        assert v in ys[..j];
        assert multiset(ys)[v] >= 2;
        NoDuplicatesCount(xs, v);
      }
    }
  }

  lemma {:induction false} NoDuplicatesCount<T>(xs: seq<T>, v: T)
    requires NoDuplicates(xs)
    ensures multiset(xs)[v] <= 1
  {
    if xs == [] {
    } else {
      assert xs == [xs[0]] + xs[1..];
      NoDuplicatesCount(xs[1..], v);
      if xs[0] == v {
        assert v !in xs[1..];
      }
    }
  }

  lemma SortNoDuplicates<T>(xs: seq<T>, le: (T, T) -> bool)
    requires NoDuplicates(xs)
    ensures NoDuplicates(StableSort(xs, le))
  {
    SortPermutes(xs, le);
    MultisetNoDuplicates(xs, StableSort(xs, le));
  }

  /** The first k of a sorted list come no later in the order than anything left out. */
  lemma SortedPrefixIsBest<T(!new)>(xs: seq<T>, le: (T, T) -> bool, k: nat)
    requires TotalPreorder(le)
    ensures var r := StableSort(xs, le);
            var best := if |r| <= k then r else r[..k];
            && |best| == (if |xs| < k then |xs| else k) && (forall x :: x in best ==> x in xs)
            && forall p, q :: p in xs && p !in best && q in best ==> le(q, p)
  {
    var r := StableSort(xs, le);
    var best := if |r| <= k then r else r[..k];
    SortOrdered(xs, le);
    forall x
      ensures x in r <==> x in xs
    {
      SortMember(xs, le, x);
    }
    forall p, q | p in xs && p !in best && q in best
      ensures le(q, p)
    {
      var i :| 0 <= i < |r| && r[i] == p;
      var j :| 0 <= j < |best| && best[j] == q;
      assert forall n :: 0 <= n < |best| ==> best[n] == r[n];
      assert i >= |best|;
    }
  }
}
