/** NDCG as `dealfinder/ranking.py` computes it. The discount of position i (1 / log2(i + 2) in the
    original) is any positive, strictly decreasing function. */
module Ranking {
  import opened Sets

  type Discount = nat -> real

  ghost predicate Falls(d: Discount) {
    (forall i: nat :: d(i) > 0.0) && (forall i: nat, j: nat :: i < j ==> d(i) > d(j))
  }

  function Discounted(gain: real, discount: real): real { gain * discount }

  function Dcg(rels: seq<real>, d: Discount): real {
    if rels == [] then 0.0 else Dcg(rels[..|rels| - 1], d) + Discounted(rels[|rels| - 1], d(|rels| - 1))
  }

  lemma GainOfHit(discount: real)
    ensures Discounted(1.0, discount) == discount && Discounted(0.0, discount) == 0.0
  {
  }

  /** Python's `xs[:k]`, negative k included. */
  function Slice<T>(xs: seq<T>, k: int): seq<T> {
    if k >= 0 then (if k < |xs| then xs[..k] else xs) else (if |xs| + k > 0 then xs[..|xs| + k] else [])
  }

  function Gains<T>(xs: seq<T>, relevant: set<T>): (r: seq<real>)
    ensures |r| == |xs| && forall i :: 0 <= i < |xs| ==> r[i] == if xs[i] in relevant then 1.0 else 0.0
  {
    seq(|xs|, i requires 0 <= i < |xs| => if xs[i] in relevant then 1.0 else 0.0)
  }

  function Min(a: int, b: int): int { if a <= b then a else b }

  function Repeat(x: real, n: int): (r: seq<real>)
    ensures |r| == (if n > 0 then n else 0) && forall i :: 0 <= i < |r| ==> r[i] == x
  {
    if n > 0 then seq(n, _ => x) else []
  }

  function Ideal(relevant: nat, k: int): seq<real> { Repeat(1.0, Min(relevant, k)) + Repeat(0.0, k - relevant) }

  function NdcgAtK<T>(recommended: seq<T>, relevant: set<T>, k: int, d: Discount): real {
    var idcg := Dcg(Ideal(|relevant|, k), d);
    if idcg > 0.0 then Dcg(Gains(Slice(recommended, k), relevant), d) / idcg else 0.0
  }

  // ---------------------------------------------------------------- the best possible sum

  /** The sum of the first n discounts. */
  function Top(n: nat, d: Discount): real { if n == 0 then 0.0 else Top(n - 1, d) + d(n - 1) }

  ghost predicate ZeroOne(rels: seq<real>) { forall i :: 0 <= i < |rels| ==> rels[i] == 0.0 || rels[i] == 1.0 }

  function Ones(rels: seq<real>): (n: nat)
    ensures n <= |rels|
  {
    if rels == [] then 0 else Ones(rels[..|rels| - 1]) + (if rels[|rels| - 1] == 1.0 then 1 else 0)
  }

  ghost predicate OnesFirst(rels: seq<real>) { forall i :: 0 <= i < Ones(rels) ==> rels[i] == 1.0 }

  /** h hits sum to at most the first h discounts, and to exactly that only when they come first. */
  lemma {:induction false} HitsFirstIsBest(rels: seq<real>, d: Discount)
    requires Falls(d) && ZeroOne(rels)
    ensures 0.0 <= Dcg(rels, d) <= Top(Ones(rels), d)
    ensures Dcg(rels, d) == Top(Ones(rels), d) <==> OnesFirst(rels)
  {
    if rels != [] {
      var n := |rels| - 1;
      var front := rels[..n];
      HitsFirstIsBest(front, d);
      OnesFirstFront(rels);
      LastGain(rels, d);
      NextPlace(Ones(front), n, d);
      hide Dcg, OnesFirst, Ones, Top, Falls;
    }
  }

  /** What the last item adds to the sum and to the hits: nothing, or its discount and one. */
  lemma LastGain(rels: seq<real>, d: Discount)
    requires ZeroOne(rels) && rels != []
    ensures var n := |rels| - 1;
            if rels[n] == 1.0 then Ones(rels) == Ones(rels[..n]) + 1 && Dcg(rels, d) == Dcg(rels[..n], d) + d(n)
            else Ones(rels) == Ones(rels[..n]) && Dcg(rels, d) == Dcg(rels[..n], d)
  {
    GainOfHit(d(|rels| - 1));
    hide Discounted;
  }

  /** The next best place is worth at least as much as any later one, and exactly as much only as itself. */
  lemma NextPlace(hits: nat, n: nat, d: Discount)
    requires Falls(d) && hits <= n
    ensures Top(hits + 1, d) == Top(hits, d) + d(hits)
    ensures 0.0 < d(n) <= d(hits) && (d(n) == d(hits) <==> hits == n)
  {
  }

  lemma OnesFirstFront(rels: seq<real>)
    requires rels != [] && ZeroOne(rels)
    ensures var n := |rels| - 1;
            OnesFirst(rels) <==> OnesFirst(rels[..n]) && (rels[n] == 1.0 ==> Ones(rels[..n]) == n)
  {
    var n := |rels| - 1;
    var front := rels[..n];
    if OnesFirst(rels) {
      assert forall i :: 0 <= i < Ones(front) ==> front[i] == rels[i];
      if rels[n] == 1.0 && Ones(front) < n {
        assert forall i :: 0 <= i <= Ones(front) ==> rels[i] == 1.0;
        PrefixOfOnes(front, Ones(front) + 1);
      }
    }
  }

  lemma {:induction false} PrefixOfOnes(rels: seq<real>, m: nat)
    requires m <= |rels| && forall i :: 0 <= i < m ==> rels[i] == 1.0
    ensures Ones(rels) >= m
  {
    if rels != [] {
      PrefixOfOnes(rels[..|rels| - 1], if m == |rels| then m - 1 else m);
    }
  }

  lemma {:induction false} TopGrows(m: nat, n: nat, d: Discount)
    requires Falls(d) && m <= n
    ensures Top(m, d) <= Top(n, d) && (m < n ==> Top(m, d) < Top(n, d))
    decreases n
  {
    if m < n { TopGrows(m, n - 1, d); }
  }

  lemma {:induction false} DcgOfZeros(rels: seq<real>, n: nat, d: Discount)
    requires n <= |rels| && forall i :: 0 <= i < n ==> rels[i] == 1.0
    requires forall i :: n <= i < |rels| ==> rels[i] == 0.0
    ensures Dcg(rels, d) == Top(n, d)
    decreases |rels|
  {
    if rels != [] {
      GainOfHit(d(|rels| - 1));
      hide Discounted;
      DcgOfZeros(rels[..|rels| - 1], if n == |rels| then n - 1 else n, d);
    }
  }

  lemma IdealIsTop(relevant: nat, k: int, d: Discount)
    requires k >= 0
    ensures Dcg(Ideal(relevant, k), d) == Top(Min(relevant, k), d)
  {
    DcgOfZeros(Ideal(relevant, k), Min(relevant, k), d);
  }

  // ---------------------------------------------------------------- hits

  lemma GainsFront<T>(xs: seq<T>, relevant: set<T>)
    requires xs != []
    ensures Gains(xs, relevant)[..|xs| - 1] == Gains(xs[..|xs| - 1], relevant)
  {
  }

  function Hits<T>(xs: seq<T>, relevant: set<T>): set<T> { set x | x in xs && x in relevant }

  lemma HitsPush<T>(xs: seq<T>, relevant: set<T>)
    requires NoDuplicates(xs) && xs != []
    ensures var n := |xs| - 1;
            |Hits(xs, relevant)| == |Hits(xs[..n], relevant)| + (if xs[n] in relevant then 1 else 0)
  {
    var n := |xs| - 1;
    var before := Hits(xs[..n], relevant);
    assert xs == xs[..n] + [xs[n]] && xs[n] !in before;
    assert Hits(xs, relevant) == if xs[n] in relevant then before + {xs[n]} else before;
  }

  lemma {:induction false} HitsAreCounted<T>(xs: seq<T>, relevant: set<T>)
    requires NoDuplicates(xs)
    ensures Ones(Gains(xs, relevant)) == |Hits(xs, relevant)|
    decreases |xs|
  {
    if xs != [] {
      GainsFront(xs, relevant);
      HitsAreCounted(xs[..|xs| - 1], relevant);
      HitsPush(xs, relevant);
      hide Hits;
    }
  }

  /** Distinct hits are distinct relevant items. */
  lemma HitsAreRelevant<T>(xs: seq<T>, relevant: set<T>)
    requires NoDuplicates(xs)
    ensures Ones(Gains(xs, relevant)) == |set x | x in xs && x in relevant| <= |relevant|
  {
    HitsAreCounted(xs, relevant);
    SubsetSize(Hits(xs, relevant), relevant);
  }

  lemma Ratio(x: real, y: real)
    requires 0.0 <= x <= y && y > 0.0
    ensures 0.0 <= x / y <= 1.0 && (x / y == 1.0 <==> x == y)
  {
    assert x / y * y == x;
  }

  lemma HitCount<T>(recommended: seq<T>, relevant: set<T>, k: int)
    requires NoDuplicates(recommended) && k >= 0
    ensures Ones(Gains(Slice(recommended, k), relevant)) <= Min(|relevant|, k)
    ensures ZeroOne(Gains(Slice(recommended, k), relevant))
  {
    HitsAreRelevant(Slice(recommended, k), relevant);
  }

  /** For every list without duplicates, NDCG lies between 0 and 1. */
  lemma NdcgIsAFraction<T>(recommended: seq<T>, relevant: set<T>, k: int, d: Discount)
    requires Falls(d) && NoDuplicates(recommended)
    ensures 0.0 <= NdcgAtK(recommended, relevant, k, d) <= 1.0
  {
    if k >= 0 {
      var gains, m := Gains(Slice(recommended, k), relevant), Min(|relevant|, k);
      HitCount(recommended, relevant, k);
      HitsFirstIsBest(gains, d);
      TopGrows(Ones(gains), m, d);
      IdealIsTop(|relevant|, k, d);
      hide Dcg, Top, Falls, Gains, Slice, Ideal;
      if Dcg(Ideal(|relevant|, k), d) > 0.0 {
        Ratio(Dcg(gains, d), Dcg(Ideal(|relevant|, k), d));
      }
    } else {
      assert Ideal(|relevant|, k) == [];
    }
  }

  /** NDCG is 1 exactly when the first min(|relevant|, k) recommendations exist and are all relevant. */
  lemma NdcgIsOneWhenPerfect<T>(recommended: seq<T>, relevant: set<T>, k: int, d: Discount)
    requires Falls(d) && NoDuplicates(recommended) && k >= 1 && relevant != {}
    ensures var m := if |relevant| < k then |relevant| else k;
            NdcgAtK(recommended, relevant, k, d) == 1.0
            <==> m <= |recommended| && forall i :: 0 <= i < m ==> recommended[i] in relevant
  {
    var gains, m := Gains(Slice(recommended, k), relevant), Min(|relevant|, k);
    HitCount(recommended, relevant, k);
    HitsFirstIsBest(gains, d);
    TopGrows(Ones(gains), m, d);
    TopGrows(0, m, d);
    IdealIsTop(|relevant|, k, d);
    PerfectGains(recommended, relevant, k, m);
    hide Dcg, Top, Falls, Gains, Slice, Ideal, OnesFirst;
    assert |relevant| > 0;
    Ratio(Dcg(gains, d), Dcg(Ideal(|relevant|, k), d));
  }

  lemma PerfectGains<T>(recommended: seq<T>, relevant: set<T>, k: int, m: nat)
    requires k >= 1 && m <= k && Ones(Gains(Slice(recommended, k), relevant)) <= m
    ensures var gains := Gains(Slice(recommended, k), relevant);
            (Ones(gains) == m && OnesFirst(gains))
            <==> m <= |recommended| && forall i :: 0 <= i < m ==> recommended[i] in relevant
  {
    var gains := Gains(Slice(recommended, k), relevant);
    if m <= |recommended| && forall i :: 0 <= i < m ==> recommended[i] in relevant {
      assert forall i :: 0 <= i < m ==> gains[i] == 1.0;
      PrefixOfOnes(gains, m);
    }
    if Ones(gains) == m && OnesFirst(gains) {
      forall i | 0 <= i < m
        ensures recommended[i] in relevant
      {
        assert gains[i] == 1.0;
      }
    }
  }

  /** With nothing relevant, or no places, NDCG is 0. */
  lemma NdcgOfNothing<T>(recommended: seq<T>, relevant: set<T>, k: int, d: Discount)
    requires k <= 0 || relevant == {}
    ensures NdcgAtK(recommended, relevant, k, d) == 0.0
  {
    if k <= 0 {
      IdealOfNothing(|relevant|, k, d);
    } else {
      IdealIsTop(0, k, d);
    }
  }

  lemma {:induction false} ZerosGainNothing(rels: seq<real>, d: Discount)
    requires forall i :: 0 <= i < |rels| ==> rels[i] == 0.0
    ensures Dcg(rels, d) == 0.0
  {
    if rels != [] {
      ZerosGainNothing(rels[..|rels| - 1], d);
      GainOfHit(d(|rels| - 1));
    }
  }

  lemma IdealOfNothing(relevant: nat, k: int, d: Discount)
    requires k <= 0
    ensures Dcg(Ideal(relevant, k), d) == 0.0
  {
    ZerosGainNothing(Ideal(relevant, k), d);
  }
}
