/** Rank fusion and the value rerank of `dealfinder/search.py`, and `search_catalog` as their
    composition over two given rankings. */
module Fusion {
  import opened Sets
  import opened Sorting

  type Scores = map<int, real>

  function At(scores: Scores, d: int): real { if d in scores then scores[d] else 0.0 }

  /** `sorted(..., key=lambda x: -score)`: higher scores first, ties in the order they stood. */
  function ByScore(scores: Scores): (int, int) -> bool { (a, b) => At(scores, a) >= At(scores, b) }

  // ---------------------------------------------------------------- reciprocal rank fusion

  function Share(k: nat, rank: nat): real { 1.0 / (k + rank + 1) as real }

  /** A Counter: its scores, and its keys in order of first appearance. */
  datatype Tally = Tally(order: seq<int>, scores: Scores)

  function Count(t: Tally, doc: int, share: real): Tally {
    Tally(if doc in t.scores then t.order else t.order + [doc], t.scores[doc := At(t.scores, doc) + share])
  }

  function CountRanking(t: Tally, ranking: seq<int>, k: nat): Tally {
    if ranking == [] then t
    else Count(CountRanking(t, ranking[..|ranking| - 1], k), ranking[|ranking| - 1], Share(k, |ranking| - 1))
  }

  function CountAll(rankings: seq<seq<int>>, k: nat): Tally {
    if rankings == [] then Tally([], map[])
    else CountRanking(CountAll(rankings[..|rankings| - 1], k), rankings[|rankings| - 1], k)
  }

  /** `fused[:top] if top else fused`: a top of 0 keeps everything. */
  function Cut(fused: seq<int>, top: nat): seq<int> { if top == 0 || |fused| <= top then fused else fused[..top] }

  function Fused(rankings: seq<seq<int>>, k: nat): seq<int> {
    var t := CountAll(rankings, k);
    StableSort(t.order, ByScore(t.scores))
  }

  method RrfFuse(rankings: seq<seq<int>>, k: nat, top: nat) returns (fused: seq<int>)
    ensures fused == Cut(Fused(rankings, k), top)
  {
    hide Count;
    var t := Tally([], map[]);
    for i := 0 to |rankings|
      invariant t == CountAll(rankings[..i], k)
    {
      assert rankings[..i + 1][..i] == rankings[..i];
      var r := rankings[i];
      ghost var before := t;
      for rank := 0 to |r|
        invariant t == CountRanking(before, r[..rank], k)
      {
        assert r[..rank + 1][..rank] == r[..rank];
        t := Count(t, r[rank], Share(k, rank));
      }
      assert r[..|r|] == r;
    }
    assert rankings[..|rankings|] == rankings;
    fused := Cut(StableSort(t.order, ByScore(t.scores)), top);
  }

  // ---------------------------------------------------------------- what the scores are

  /** What one ranking gives a document. */
  function Given(ranking: seq<int>, k: nat, doc: int): real {
    if ranking == [] then 0.0
    else
      Given(ranking[..|ranking| - 1], k, doc)
      + (if ranking[|ranking| - 1] == doc then Share(k, |ranking| - 1) else 0.0)
  }

  function Total(rankings: seq<seq<int>>, k: nat, doc: int): real {
    if rankings == [] then 0.0
    else Total(rankings[..|rankings| - 1], k, doc) + Given(rankings[|rankings| - 1], k, doc)
  }

  ghost predicate Seen(rankings: seq<seq<int>>, doc: int) { exists i :: 0 <= i < |rankings| && doc in rankings[i] }

  ghost predicate ValidTally(t: Tally) {
    NoDuplicates(t.order) && forall d :: d in t.order <==> d in t.scores
  }

  lemma {:induction false} RankingCounts(t: Tally, ranking: seq<int>, k: nat, doc: int)
    requires ValidTally(t)
    ensures var t' := CountRanking(t, ranking, k);
            && ValidTally(t') && (doc in t'.order <==> doc in t.order || doc in ranking)
            && At(t'.scores, doc) == At(t.scores, doc) + Given(ranking, k, doc)
    decreases |ranking|
  {
    if ranking != [] {
      var n := |ranking| - 1;
      RankingCounts(t, ranking[..n], k, doc);
      assert ranking == ranking[..n] + [ranking[n]];
      hide Count, At, Share, ValidTally;
    }
  }

  /** Every document's score is the sum of its shares, and exactly the documents seen are scored. */
  lemma {:induction false} ScoresAreTotals(rankings: seq<seq<int>>, k: nat, doc: int)
    ensures var t := CountAll(rankings, k);
            ValidTally(t) && At(t.scores, doc) == Total(rankings, k, doc) && (doc in t.order <==> Seen(rankings, doc))
  {
    if rankings != [] {
      var n := |rankings| - 1;
      ScoresAreTotals(rankings[..n], k, doc);
      RankingCounts(CountAll(rankings[..n], k), rankings[n], k, doc);
      hide ValidTally, At, CountRanking, Given;
      if i :| 0 <= i < n && doc in rankings[..n][i] {
        assert doc in rankings[i];
      }
      if i :| 0 <= i < |rankings| && doc in rankings[i] && i < n {
        assert doc in rankings[..n][i];
      }
    }
  }

  lemma {:induction false} GivenAt(ranking: seq<int>, k: nat, doc: int, i: nat)
    requires NoDuplicates(ranking) && i < |ranking| && ranking[i] == doc
    ensures Given(ranking, k, doc) == Share(k, i)
  {
    var n := |ranking| - 1;
    if i == n {
      GivenNothing(ranking[..n], k, doc);
    } else {
      GivenAt(ranking[..n], k, doc, i);
    }
  }

  /** What a ranking without duplicates gives: 1 / (k + place) to the document in that place, counted
      from 1, and nothing to others. */
  lemma GivenIsReciprocal(ranking: seq<int>, k: nat, doc: int)
    requires NoDuplicates(ranking)
    ensures forall i :: 0 <= i < |ranking| && ranking[i] == doc ==> Given(ranking, k, doc) == 1.0 / (k + i + 1) as real
    ensures doc !in ranking ==> Given(ranking, k, doc) == 0.0
  {
    forall i | 0 <= i < |ranking| && ranking[i] == doc
      ensures Given(ranking, k, doc) == 1.0 / (k + i + 1) as real
    {
      GivenAt(ranking, k, doc, i);
    }
    if doc !in ranking { GivenNothing(ranking, k, doc); }
  }

  /** A document whose sum over the rankings is larger comes first. */
  lemma FusedByTotal(rankings: seq<seq<int>>, k: nat, a: int, b: int)
    requires Seen(rankings, a) && Seen(rankings, b) && Total(rankings, k, a) > Total(rankings, k, b)
    ensures Before(Fused(rankings, k), a, b)
  {
    var t := CountAll(rankings, k);
    ScoresAreTotals(rankings, k, a);
    ScoresAreTotals(rankings, k, b);
    hide CountAll, Total, Seen;
    SortStrict(t.order, ByScore(t.scores), a, b);
  }

  lemma {:induction false} GivenNothing(ranking: seq<int>, k: nat, doc: int)
    requires doc !in ranking
    ensures Given(ranking, k, doc) == 0.0
  {
    if ranking != [] { GivenNothing(ranking[..|ranking| - 1], k, doc); }
  }

  lemma ShareFalls(k: nat, i: nat, j: nat)
    requires i < j
    ensures 0.0 < Share(k, j) < Share(k, i)
  {
    Reciprocal((k + i + 1) as real, (k + j + 1) as real);
  }

  lemma Reciprocal(x: real, y: real)
    requires 0.0 < x < y
    ensures 0.0 < 1.0 / y < 1.0 / x
  {
  }

  // ---------------------------------------------------------------- Pareto order

  /** In this ranking a is above b, or b is not there. */
  ghost predicate NotBelow(ranking: seq<int>, a: int, b: int) { b in ranking ==> Before(ranking, a, b) }

  /** a is there, and b is not or stands lower. */
  ghost predicate Above(ranking: seq<int>, a: int, b: int) { a in ranking && NotBelow(ranking, a, b) }

  lemma NotBelowGivesMore(ranking: seq<int>, k: nat, a: int, b: int)
    requires NoDuplicates(ranking) && NotBelow(ranking, a, b)
    ensures Given(ranking, k, a) >= Given(ranking, k, b)
    ensures a in ranking ==> Given(ranking, k, a) > Given(ranking, k, b)
  {
    hide Given, Share;
    if b in ranking {
      var i, j :| 0 <= i < j < |ranking| && ranking[i] == a && ranking[j] == b;
      GivenAt(ranking, k, a, i);
      GivenAt(ranking, k, b, j);
      ShareFalls(k, i, j);
    } else {
      GivenNothing(ranking, k, b);
      if a in ranking {
        var i :| 0 <= i < |ranking| && ranking[i] == a;
        GivenAt(ranking, k, a, i);
        ShareFalls(k, i, i + 1);
      } else {
        GivenNothing(ranking, k, a);
      }
    }
  }

  lemma {:induction false} DominanceScoresMore(rankings: seq<seq<int>>, k: nat, a: int, b: int)
    requires forall i :: 0 <= i < |rankings| ==> NoDuplicates(rankings[i]) && NotBelow(rankings[i], a, b)
    ensures Total(rankings, k, a) >= Total(rankings, k, b)
    ensures (exists i :: 0 <= i < |rankings| && a in rankings[i]) ==> Total(rankings, k, a) > Total(rankings, k, b)
  {
    if rankings != [] {
      var n := |rankings| - 1;
      hide Given, NotBelow, NoDuplicates;
      DominanceScoresMore(rankings[..n], k, a, b);
      NotBelowGivesMore(rankings[n], k, a, b);
      if i :| 0 <= i < |rankings| && a in rankings[i] {
        if i < n { assert a in rankings[..n][i]; }
      }
    }
  }

  /** a is never below b and is above it somewhere. */
  ghost predicate Dominates(rankings: seq<seq<int>>, a: int, b: int) {
    && (forall i :: 0 <= i < |rankings| ==> NotBelow(rankings[i], a, b))
    && exists i :: 0 <= i < |rankings| && Above(rankings[i], a, b)
  }

  ghost predicate EachOnce(rankings: seq<seq<int>>) { forall i :: 0 <= i < |rankings| ==> NoDuplicates(rankings[i]) }

  /** The fused list holds exactly the documents seen, each once. */
  lemma FusedHoldsTheSeen(rankings: seq<seq<int>>, k: nat, doc: int)
    ensures NoDuplicates(Fused(rankings, k)) && (doc in Fused(rankings, k) <==> Seen(rankings, doc))
  {
    var t := CountAll(rankings, k);
    ScoresAreTotals(rankings, k, doc);
    SortMember(t.order, ByScore(t.scores), doc);
    SortNoDuplicates(t.order, ByScore(t.scores));
  }

  /** Fusion respects Pareto order. */
  lemma FusionRespectsDominance(rankings: seq<seq<int>>, k: nat, a: int, b: int)
    requires EachOnce(rankings) && Dominates(rankings, a, b) && Seen(rankings, b)
    ensures Before(Fused(rankings, k), a, b)
  {
    var t := CountAll(rankings, k);
    ScoresAreTotals(rankings, k, a);
    ScoresAreTotals(rankings, k, b);
    DominanceScoresMore(rankings, k, a, b);
    assert Seen(rankings, a);
    hide CountAll, Total, NotBelow, NoDuplicates;
    SortStrict(t.order, ByScore(t.scores), a, b);
  }

  // ---------------------------------------------------------------- the value rerank

  function Max(x: real, y: real): real { if x >= y then x else y }

  function LastIndex(docs: seq<int>, d: int): (i: int)
    ensures -1 <= i < |docs|
    ensures i >= 0 ==> docs[i] == d
    ensures i < 0 ==> d !in docs
  {
    if docs == [] then -1 else if docs[|docs| - 1] == d then |docs| - 1 else LastIndex(docs[..|docs| - 1], d)
  }

  /** Relevance by rank: 1 for the first, 0 for the last of several. A repeated id takes its last rank. */
  function Relevance(docs: seq<int>, d: int): real {
    1.0 - LastIndex(docs, d) as real / (if |docs| - 1 > 1 then |docs| - 1 else 1) as real
  }

  function Combined(docs: seq<int>, deal: Scores, alpha: real, d: int): real {
    Blended(alpha, Relevance(docs, d), Max(0.0, At(deal, d)))
  }

  function Blended(alpha: real, relevance: real, value: real): real { (1.0 - alpha) * relevance + alpha * value }

  function CombinedScores(docs: seq<int>, deal: Scores, alpha: real): Scores {
    map d | d in docs :: Combined(docs, deal, alpha, d)
  }

  function ValueRerank(docs: seq<int>, deal: Scores, alpha: real): seq<int> {
    StableSort(docs, ByScore(CombinedScores(docs, deal, alpha)))
  }

  lemma IndexIsUnique(docs: seq<int>, i: nat)
    requires NoDuplicates(docs) && i < |docs|
    ensures LastIndex(docs, docs[i]) == i
  {
  }

  /** In a list without duplicates, ahead is ahead by last place. */
  lemma AheadByLastPlace(docs: seq<int>, a: int, b: int)
    requires NoDuplicates(docs) && Before(docs, a, b)
    ensures LastIndex(docs, a) < LastIndex(docs, b)
  {
    var i, j :| 0 <= i < j < |docs| && docs[i] == a && docs[j] == b;
    IndexIsUnique(docs, i);
    IndexIsUnique(docs, j);
  }

  lemma EarlierIsMoreRelevant(docs: seq<int>, a: int, b: int)
    requires LastIndex(docs, a) <= LastIndex(docs, b)
    ensures Relevance(docs, a) >= Relevance(docs, b)
  {
    var i, j := LastIndex(docs, a) as real, LastIndex(docs, b) as real;
    Quotients(i, j, (if |docs| - 1 > 1 then |docs| - 1 else 1) as real);
  }

  lemma Quotients(x: real, y: real, m: real)
    requires x <= y && m > 0.0
    ensures x / m <= y / m
  {
  }

  lemma Blend(alpha: real, r: real, r': real, v: real, v': real)
    requires 0.0 <= alpha <= 1.0 && r >= r' && v >= v'
    ensures Blended(alpha, r, v) >= Blended(alpha, r', v')
  {
    assert (1.0 - alpha) * (r - r') >= 0.0 && alpha * (v - v') >= 0.0;
  }

  lemma AheadScoresNoLess(docs: seq<int>, deal: Scores, alpha: real, a: int, b: int)
    requires 0.0 <= alpha <= 1.0 && LastIndex(docs, a) <= LastIndex(docs, b)
    requires At(deal, a) >= At(deal, b)
    ensures Combined(docs, deal, alpha, a) >= Combined(docs, deal, alpha, b)
  {
    EarlierIsMoreRelevant(docs, a, b);
    hide Relevance, LastIndex, Blended;
    Blend(alpha, Relevance(docs, a), Relevance(docs, b), Max(0.0, At(deal, a)), Max(0.0, At(deal, b)));
  }

  /** The rerank loses and adds nothing, whatever the list. */
  lemma RerankPermutes(docs: seq<int>, deal: Scores, alpha: real)
    ensures multiset(ValueRerank(docs, deal, alpha)) == multiset(docs)
  {
    SortPermutes(docs, ByScore(CombinedScores(docs, deal, alpha)));
  }

  /** The rerank never puts a document behind one it was ahead of, by its last place too, whose deal is
      no better. In a list without duplicates the two places are one (AheadByLastPlace). */
  lemma RerankKeepsBetterDeals(docs: seq<int>, deal: Scores, alpha: real, a: int, b: int)
    requires 0.0 <= alpha <= 1.0 && Before(docs, a, b) && LastIndex(docs, a) <= LastIndex(docs, b)
    requires At(deal, a) >= At(deal, b)
    ensures Before(ValueRerank(docs, deal, alpha), a, b)
  {
    assert a in docs && b in docs;
    AheadScoresNoLess(docs, deal, alpha, a, b);
    hide Combined, Before, StableSort, LastIndex;
    var scores := CombinedScores(docs, deal, alpha);
    assert ByScore(scores)(a, b);
    SortStable(docs, ByScore(scores), a, b);
  }

  /** The rerank's order: of two documents in the list, the one with the larger blend of relevance, by last
      place, and deal score comes first. */
  lemma RerankByBlend(docs: seq<int>, deal: Scores, alpha: real, a: int, b: int, i: nat, j: nat)
    requires i < |docs| && docs[i] == a && a !in docs[i + 1..] && j < |docs| && docs[j] == b && b !in docs[j + 1..]
    requires var last := if |docs| > 2 then (|docs| - 1) as real else 1.0;
             var va := if a in deal && deal[a] > 0.0 then deal[a] else 0.0;
             var vb := if b in deal && deal[b] > 0.0 then deal[b] else 0.0;
             (1.0 - alpha) * (1.0 - i as real / last) + alpha * va
             > (1.0 - alpha) * (1.0 - j as real / last) + alpha * vb
    ensures Before(ValueRerank(docs, deal, alpha), a, b)
  {
    hide *;
    CombinedIsBlend(docs, deal, alpha, i);
    CombinedIsBlend(docs, deal, alpha, j);
    assert a in docs && b in docs;
    RerankByCombined(docs, deal, alpha, a, b);
  }

  lemma RerankByCombined(docs: seq<int>, deal: Scores, alpha: real, a: int, b: int)
    requires a in docs && b in docs && Combined(docs, deal, alpha, a) > Combined(docs, deal, alpha, b)
    ensures Before(ValueRerank(docs, deal, alpha), a, b)
  {
    hide Combined, StableSort;
    SortStrict(docs, ByScore(CombinedScores(docs, deal, alpha)), a, b);
  }

  lemma CombinedIsBlend(docs: seq<int>, deal: Scores, alpha: real, i: nat)
    requires i < |docs| && docs[i] !in docs[i + 1..]
    ensures var last := if |docs| > 2 then (|docs| - 1) as real else 1.0;
            var value := if docs[i] in deal && deal[docs[i]] > 0.0 then deal[docs[i]] else 0.0;
            Combined(docs, deal, alpha, docs[i]) == (1.0 - alpha) * (1.0 - i as real / last) + alpha * value
  {
    LastPlace(docs, i);
  }

  lemma {:induction false} LastPlace(docs: seq<int>, i: nat)
    requires i < |docs| && docs[i] !in docs[i + 1..]
    ensures LastIndex(docs, docs[i]) == i
  {
    var n := |docs| - 1;
    if i < n {
      assert docs[n] in docs[i + 1..];
      var rest := docs[i + 1..];
      assert docs[..n][i + 1..] == rest[..|rest| - 1];
      LastPlace(docs[..n], i);
    }
  }

  /** Without that the rerank can reverse them: a document listed again at the end takes its last rank. */
  lemma RepeatedDocumentFallsBehind(a: int, b: int)
    requires a != b
    ensures Before([a, b, a], a, b) && !Before(ValueRerank([a, b, a], map[], 0.0), a, b)
  {
    var docs := [a, b, a];
    assert docs[0] == a && docs[1] == b;
    assert docs[..|docs| - 1] == [a, b];
    assert LastIndex([a, b], b) == 1;
    assert LastIndex(docs, a) == 2 && LastIndex(docs, b) == 1;
    var le := ByScore(CombinedScores(docs, map[], 0.0));
    assert Relevance(docs, a) == 0.0 && Relevance(docs, b) == 0.5;
    assert Combined(docs, map[], 0.0, a) == 0.0 && Combined(docs, map[], 0.0, b) == 0.5;
    assert !le(a, b) && le(b, a) && le(a, a);
    hide ByScore, CombinedScores, Combined, LastIndex;
    assert docs[1..] == [b, a] && [b, a][1..] == [a] && [a][1..] == [];
    assert StableSort([a], le) == [a];
    assert StableSort([b, a], le) == Insert(b, [a], le) == [b, a];
    assert StableSort(docs, le) == Insert(a, [b, a], le) == [b] + Insert(a, [a], le) == [b, a, a];
  }

  // ---------------------------------------------------------------- search_catalog

  /** The indices `search_catalog` returns, from the semantic and the keyword ranking. */
  function SearchCatalog(semantic: seq<int>, keyword: seq<int>, deal: Scores, k: nat, alpha: real): seq<int> {
    var hybrid := Cut(Fused([semantic, keyword], 60), if 3 * k > k then 3 * k else k);
    var valued := ValueRerank(hybrid, deal, alpha);
    if |valued| <= k then valued else valued[..k]
  }

  lemma PrefixKeepsBefore(s: seq<int>, n: nat, a: int, b: int)
    requires NoDuplicates(s) && n <= |s| && Before(s, a, b) && b in s[..n]
    ensures Before(s[..n], a, b) && a in s[..n]
  {
    var i, j :| 0 <= i < j < |s| && s[i] == a && s[j] == b;
    var j' :| 0 <= j' < n && s[..n][j'] == b;
    assert j == j';
    assert s[..n][i] == a && s[..n][j] == b;
  }

  lemma CutIsPrefix(s: seq<int>, top: nat)
    requires NoDuplicates(s)
    ensures NoDuplicates(Cut(s, top)) && exists n :: 0 <= n <= |s| && Cut(s, top) == s[..n]
  {
    assert s == s[..|s|];
  }

  /** Results are distinct documents that some ranking held, at most k of them. */
  lemma SearchResultsAreDistinct(semantic: seq<int>, keyword: seq<int>, deal: Scores, k: nat, alpha: real)
    ensures NoDuplicates(SearchCatalog(semantic, keyword, deal, k, alpha))
            && |SearchCatalog(semantic, keyword, deal, k, alpha)| <= k
    ensures forall d :: d in SearchCatalog(semantic, keyword, deal, k, alpha) ==> d in semantic || d in keyword
  {
    var top := if 3 * k > k then 3 * k else k;
    var fused := Fused([semantic, keyword], 60);
    var hybrid := Cut(fused, top);
    var valued := ValueRerank(hybrid, deal, alpha);
    FusedHoldsTheSeen([semantic, keyword], 60, 0);
    hide Fused, ByScore, NoDuplicates;
    CutIsPrefix(fused, top);
    SortNoDuplicates(hybrid, ByScore(CombinedScores(hybrid, deal, alpha)));
    forall d | d in SearchCatalog(semantic, keyword, deal, k, alpha)
      ensures d in semantic || d in keyword
    {
      SortMember(hybrid, ByScore(CombinedScores(hybrid, deal, alpha)), d);
      FusedHoldsTheSeen([semantic, keyword], 60, d);
    }
    PrefixIsDistinct(valued, k);
  }

  /** The cut: the first `top`, or all if there are no more or `top` is 0. */
  lemma CutReads(fused: seq<int>, top: nat)
    ensures Cut(fused, top) <= fused
    ensures |Cut(fused, top)| == if top == 0 || |fused| < top then |fused| else top
  {
  }

  /** Of the first k of a rerank: as many as there are, all from the list, and none left out with a larger
      blend. */
  lemma RerankTakesTheBest(docs: seq<int>, deal: Scores, alpha: real, k: nat)
    ensures var valued := ValueRerank(docs, deal, alpha);
            TheBest(docs, deal, alpha, k, if |valued| <= k then valued else valued[..k])
  {
    var scores := CombinedScores(docs, deal, alpha);
    var valued := StableSort(docs, ByScore(scores));
    var best := if |valued| <= k then valued else valued[..k];
    ByScoreIsTotal(scores);
    SortedPrefixIsBest(docs, ByScore(scores), k);
    hide StableSort, Combined;
    forall p, q | p in docs && p !in best && q in best
      ensures Combined(docs, deal, alpha, p) <= Combined(docs, deal, alpha, q)
    {
      assert ByScore(scores)(q, p);
    }
  }

  ghost predicate TheBest(docs: seq<int>, deal: Scores, alpha: real, k: nat, best: seq<int>) {
    && |best| == (if |docs| < k then |docs| else k) && (forall d :: d in best ==> d in docs)
    && forall p, q :: p in docs && p !in best && q in best ==>
         Combined(docs, deal, alpha, p) <= Combined(docs, deal, alpha, q)
  }

  /** Which documents a search returns: as many as asked for, of the first 3k of the fused list; and of
      these none is left out with a larger blend than one that is returned. */
  lemma SearchTakesTheBest(semantic: seq<int>, keyword: seq<int>, deal: Scores, k: nat, alpha: real)
    requires k > 0
    ensures var fused := Fused([semantic, keyword], 60);
            TheBest(if |fused| > 3 * k then fused[..3 * k] else fused, deal, alpha, k,
                    SearchCatalog(semantic, keyword, deal, k, alpha))
  {
    hide Fused, ValueRerank, TheBest;
    RerankTakesTheBest(Cut(Fused([semantic, keyword], 60), 3 * k), deal, alpha, k);
  }

  lemma ByScoreIsTotal(scores: Scores)
    ensures TotalPreorder(ByScore(scores))
  {
  }

  /** With k at least the number of documents there are, everything ranked is a result. */
  lemma RankedIsResult(semantic: seq<int>, keyword: seq<int>, deal: Scores, k: nat, alpha: real, n: nat, d: int)
    requires forall i :: i in semantic || i in keyword ==> 0 <= i < n
    requires k >= n && (d in semantic || d in keyword)
    ensures d in SearchCatalog(semantic, keyword, deal, k, alpha)
  {
    var top := if 3 * k > k then 3 * k else k;
    var fused := Fused([semantic, keyword], 60);
    forall x
      ensures NoDuplicates(fused) && (x in fused <==> x in semantic || x in keyword)
    {
      FusedHoldsTheSeen([semantic, keyword], 60, x);
      SeenOfTwo(semantic, keyword, x);
    }
    hide Fused, NoDuplicates, ByScore;
    DistinctInRange(fused, n);
    assert Cut(fused, top) == fused;
    SortMember(fused, ByScore(CombinedScores(fused, deal, alpha)), d);
    SortPermutes(fused, ByScore(CombinedScores(fused, deal, alpha)));
    SameLength(StableSort(fused, ByScore(CombinedScores(fused, deal, alpha))), fused);
  }

  lemma SameLength(xs: seq<int>, ys: seq<int>)
    requires multiset(xs) == multiset(ys)
    ensures |xs| == |ys|
  {
    assert |multiset(xs)| == |multiset(ys)|;
  }

  lemma SeenOfTwo(r: seq<int>, s: seq<int>, d: int)
    ensures Seen([r, s], d) <==> d in r || d in s
  {
    assert [r, s][0] == r && [r, s][1] == s;
  }

  lemma PrefixIsDistinct(s: seq<int>, k: nat)
    requires NoDuplicates(s)
    ensures k < |s| ==> NoDuplicates(s[..k])
  {
  }

  lemma HybridRespectsDominance(semantic: seq<int>, keyword: seq<int>, top: nat, a: int, b: int)
    requires NoDuplicates(semantic) && NoDuplicates(keyword) && Dominates([semantic, keyword], a, b)
    requires b in Cut(Fused([semantic, keyword], 60), top)
    ensures Before(Cut(Fused([semantic, keyword], 60), top), a, b)
  {
    var fused := Fused([semantic, keyword], 60);
    assert EachOnce([semantic, keyword]);
    hide Fused, Dominates, NoDuplicates, Before;
    FusedHoldsTheSeen([semantic, keyword], 60, b);
    assert b in fused;
    FusionRespectsDominance([semantic, keyword], 60, a, b);
  }

  /** End to end: a result that another document dominates in both rankings, at no worse a deal, is
      preceded by it. */
  lemma SearchRespectsDominance(semantic: seq<int>, keyword: seq<int>, deal: Scores, k: nat, alpha: real, a: int,
                                b: int)
    requires NoDuplicates(semantic) && NoDuplicates(keyword) && 0.0 <= alpha <= 1.0
    requires Dominates([semantic, keyword], a, b) && At(deal, a) >= At(deal, b)
    requires b in SearchCatalog(semantic, keyword, deal, k, alpha)
    ensures Before(SearchCatalog(semantic, keyword, deal, k, alpha), a, b)
  {
    var top := if 3 * k > k then 3 * k else k;
    var hybrid := Cut(Fused([semantic, keyword], 60), top);
    var le := ByScore(CombinedScores(hybrid, deal, alpha));
    var valued := StableSort(hybrid, le);
    assert valued == ValueRerank(hybrid, deal, alpha) && b in valued;
    FusedHoldsTheSeen([semantic, keyword], 60, b);
    hide Fused, ByScore, Dominates, CombinedScores, StableSort, Before;
    CutIsPrefix(Fused([semantic, keyword], 60), top);
    SortMember(hybrid, le, b);
    SortNoDuplicates(hybrid, le);
    HybridRespectsDominance(semantic, keyword, top, a, b);
    AheadByLastPlace(hybrid, a, b);
    RerankKeepsBetterDeals(hybrid, deal, alpha, a, b);
    hide NoDuplicates, Cut;
    if k < |valued| {
      PrefixKeepsBefore(valued, k, a, b);
    }
  }
}
