/** The tiered search of `dealfinder/aggregate.py`: a circuit breaker over the sources, escalation
    from cheap tiers to dear ones, a fallback, and the two dedup passes. Each source's answer is
    given: found products, an error, or no answer before the deadline. */
module Aggregate {
  import opened Products
  import opened Sorting
  import opened Sets
  import Ingest
  import Dedup

  const COOLDOWN_S := 90.0

  datatype Source = Source(name: string, tier: int, fallbackOnly: bool)

  datatype Outcome = Found(products: seq<Product>) | Failed | Late

  /** What a source did in this call, and when the breaker looked at it. */
  datatype Answer = Answer(outcome: Outcome, at: real)

  type Answers = map<string, Answer>

  ghost predicate Answered(sources: seq<Source>, answers: Answers) {
    forall s :: s in sources ==> s.name in answers
  }

  /** What a call has gathered so far. */
  datatype Tally = Tally(cooldown: map<string, real>, live: seq<string>, throttled: seq<string>, timedOut: seq<string>,
                         searched: seq<string>, products: seq<Product>)

  function Judge(t: Tally, name: string, a: Answer): Tally {
    var t := t.(searched := t.searched + [name]);
    match a.outcome
    case Late =>
      t.(cooldown := t.cooldown[name := a.at + COOLDOWN_S],
         throttled := t.throttled + [name], timedOut := t.timedOut + [name])
    case Failed => t.(cooldown := t.cooldown[name := a.at + COOLDOWN_S], throttled := t.throttled + [name])
    case Found(ps) => if ps == [] then t else t.(live := t.live + [name], products := t.products + ps)
  }

  function RunBatch(t: Tally, batch: seq<Source>, answers: Answers): Tally
    requires Answered(batch, answers)
    decreases |batch|
  {
    if batch == [] then t
    else
      var n := |batch| - 1;
      Judge(RunBatch(t, batch[..n], answers), batch[n].name, answers[batch[n].name])
  }

  predicate Benched(cooldown: map<string, real>, name: string, now: real) { name in cooldown && now < cooldown[name] }

  /** The ways a call narrows its list of sources. */
  datatype Test = OfTier(tier: int) | OfFallback | OfReal | OfAwake(cooldown: map<string, real>, now: real)

  predicate Passes(s: Source, test: Test) {
    match test
    case OfTier(tier) => s.tier == tier
    case OfFallback => s.fallbackOnly
    case OfReal => !s.fallbackOnly
    case OfAwake(cooldown, now) => !Benched(cooldown, s.name, now)
  }

  function Filter(sources: seq<Source>, test: Test): (r: seq<Source>)
    ensures forall s :: s in r <==> s in sources && Passes(s, test)
  {
    if sources == [] then []
    else
      Filter(sources[..|sources| - 1], test)
      + (if Passes(sources[|sources| - 1], test) then [sources[|sources| - 1]] else [])
  }

  function InTier(sources: seq<Source>, tier: int): seq<Source> { Filter(sources, OfTier(tier)) }

  function Fallbacks(sources: seq<Source>): seq<Source> { Filter(sources, OfFallback) }

  function Reals(sources: seq<Source>): seq<Source> { Filter(sources, OfReal) }

  /** The sources that are not cooling down. */
  function Available(sources: seq<Source>, cooldown: map<string, real>, now: real): seq<Source> {
    Filter(sources, OfAwake(cooldown, now))
  }

  function InsertTier(t: int, xs: seq<int>): seq<int> {
    if xs == [] || t < xs[0] then [t] + xs
    else if t == xs[0] then xs
    else [xs[0]] + InsertTier(t, xs[1..])
  }

  /** `sorted({tier(s) for s in sources})` */
  function Tiers(sources: seq<Source>): seq<int> {
    if sources == [] then [] else InsertTier(sources[|sources| - 1].tier, Tiers(sources[..|sources| - 1]))
  }

  ghost predicate Increasing(xs: seq<int>) { forall i, j :: 0 <= i < j < |xs| ==> xs[i] < xs[j] }

  lemma {:induction false} InsertTierSorted(t: int, xs: seq<int>)
    requires Increasing(xs)
    ensures Increasing(InsertTier(t, xs)) && forall x :: x in InsertTier(t, xs) <==> x == t || x in xs
  {
    if xs != [] && t > xs[0] {
      InsertTierSorted(t, xs[1..]);
      var r := InsertTier(t, xs[1..]);
      forall j | 0 <= j < |r|
        ensures xs[0] < r[j]
      {
        assert r[j] in r;
      }
    }
  }

  lemma {:induction false} TiersSorted(sources: seq<Source>)
    ensures Increasing(Tiers(sources)) && forall t :: t in Tiers(sources) <==> exists s :: s in sources && s.tier == t
  {
    if sources != [] {
      var n := |sources| - 1;
      TiersSorted(sources[..n]);
      InsertTierSorted(sources[n].tier, Tiers(sources[..n]));
      assert sources == sources[..n] + [sources[n]];
    }
  }

  /** The tally after the first m tiers. */
  function AfterTiers(t: Tally, sources: seq<Source>, answers: Answers, m: nat): Tally
    requires Answered(sources, answers) && m <= |Tiers(sources)|
  {
    if m == 0 then t
    else RunBatch(AfterTiers(t, sources, answers, m - 1), InTier(sources, Tiers(sources)[m - 1]), answers)
  }

  function KeysOf(ps: seq<Product>): set<string> { set p | p in ps :: DedupKey(p) }

  /** The first m tiers ran and no more: the lower ones together fell short of the target each time,
      and either none is left or the target is met. */
  ghost predicate StoppedAfter(t: Tally, sources: seq<Source>, answers: Answers, target: int, m: nat)
    requires Answered(sources, answers)
  {
    && m <= |Tiers(sources)| && (Tiers(sources) != [] ==> m > 0)
    && (forall k :: 1 <= k < m ==> |KeysOf(AfterTiers(t, sources, answers, k).products)| < target)
    && (m < |Tiers(sources)| ==> |KeysOf(AfterTiers(t, sources, answers, m).products)| >= target)
  }

  // ---------------------------------------------------------------- one call's search

  function Empty(cooldown: map<string, real>): Tally { Tally(cooldown, [], [], [], [], []) }

  /** What a whole search does, `m` being the number of tiers it ran. */
  ghost predicate Searches(cooldown: map<string, real>, sources: seq<Source>, answers: Answers, start: real,
                           target: int,
                           m: nat, t: Tally)
    requires Answered(sources, answers)
  {
    var available := Available(sources, cooldown, start);
    var tiered := Reals(available);
    && StoppedAfter(Empty(cooldown), tiered, answers, target, m)
    && var t' := AfterTiers(Empty(cooldown), tiered, answers, m);
       t == if t'.products == [] then RunBatch(t', Fallbacks(available), answers) else t'
  }

  class Aggregator {
    var cooldown: map<string, real>

    constructor ()
      ensures cooldown == map[]
    {
      cooldown := map[];
    }

    /** The inner `run`: query one batch, bench the sources that failed or were late. */
    method RunSources(t: Tally, batch: seq<Source>, answers: Answers) returns (t': Tally)
      requires Answered(batch, answers) && t.cooldown == cooldown
      modifies this
      ensures t' == RunBatch(t, batch, answers) && cooldown == t'.cooldown
    {
      t' := t;
      for i := 0 to |batch|
        invariant Answered(batch[..i], answers) && t' == RunBatch(t, batch[..i], answers) && cooldown == t'.cooldown
      {
        assert batch[..i + 1][..i] == batch[..i];
        t' := Judge(t', batch[i].name, answers[batch[i].name]);
        cooldown := t'.cooldown;
      }
      assert batch[..|batch|] == batch;
    }

    /** The tier loop. */
    method Climb(tiered: seq<Source>, answers: Answers, target: int) returns (t: Tally, ghost m: nat)
      requires Answered(tiered, answers)
      modifies this
      ensures StoppedAfter(Empty(old(cooldown)), tiered, answers, target, m)
      ensures t == AfterTiers(Empty(old(cooldown)), tiered, answers, m) && cooldown == t.cooldown
    {
      hide RunBatch, Tiers, KeysOf;
      var tiers := Tiers(tiered);
      t := Empty(cooldown);
      m := 0;
      for i := 0 to |tiers|
        invariant m == i && cooldown == t.cooldown
        invariant t == AfterTiers(Empty(old(cooldown)), tiered, answers, i)
        invariant forall k :: 1 <= k <= i ==>
                  |KeysOf(AfterTiers(Empty(old(cooldown)), tiered, answers, k).products)| < target
      {
        t := RunSources(t, InTier(tiered, tiers[i]), answers);
        m := i + 1;
        if |KeysOf(t.products)| >= target {
          break;
        }
      }
    }

    method Search(sources: seq<Source>, answers: Answers, start: real, target: int) returns (t: Tally, ghost m: nat)
      requires Answered(sources, answers)
      modifies this
      ensures Searches(old(cooldown), sources, answers, start, target, m, t)
      ensures cooldown == t.cooldown
    {
      var available := Available(sources, cooldown, start);
      var tiered := Reals(available);
      t, m := Climb(tiered, answers, target);
      if t.products == [] {
        t := RunSources(t, Fallbacks(available), answers);
      }
    }
  }

  // ---------------------------------------------------------------- what a tally means

  function Names(sources: seq<Source>): (r: seq<string>)
    ensures |r| == |sources| && forall i :: 0 <= i < |r| ==> r[i] == sources[i].name
  {
    seq(|sources|, i requires 0 <= i < |sources| => sources[i].name)
  }

  /** The lists agree with the answers of the sources searched, each searched once. */
  ghost predicate ListsOk(t: Tally, answers: Answers) {
    match t
    case Tally(_, live, throttled, timedOut, searched, _) =>
      && NoDuplicates(searched) && (forall n :: n in searched ==> n in answers)
      && (forall n :: n in throttled <==> n in searched && !answers[n].outcome.Found?)
      && (forall n :: n in timedOut <==> n in searched && answers[n].outcome.Late?)
      && (forall n :: n in live <==> n in searched && answers[n].outcome.Found? && answers[n].outcome.products != [])
  }

  /** The breaker holds every source that failed or was late for its cooldown, and leaves the others
      as they were. */
  ghost predicate BreakerOk(t: Tally, cooldown: map<string, real>, answers: Answers) {
    match t
    case Tally(cooldown', _, throttled, _, _, _) =>
      && (forall n :: n in throttled ==> n in answers && n in cooldown' && cooldown'[n] == answers[n].at + 90.0)
      && (forall n :: n !in throttled ==>
          (n in cooldown' <==> n in cooldown) && (n in cooldown ==> cooldown'[n] == cooldown[n]))
  }

  /** The products are those of the sources searched. */
  ghost predicate ProductsOk(t: Tally, answers: Answers) {
    match t
    case Tally(_, _, _, _, searched, products) =>
      forall p :: p in products
        <==> exists n :: n in searched && n in answers && answers[n].outcome.Found? && p in answers[n].outcome.products
  }

  ghost predicate TallyOk(t: Tally, cooldown: map<string, real>, answers: Answers) {
    match t
    case Tally(_, _, _, _, _, _) => ListsOk(t, answers) && BreakerOk(t, cooldown, answers) && ProductsOk(t, answers)
  }

  lemma JudgeKeepsLists(t: Tally, answers: Answers, name: string)
    requires ListsOk(t, answers) && name in answers && name !in t.searched
    ensures ListsOk(Judge(t, name, answers[name]), answers)
  {
  }

  lemma JudgeKeepsBreaker(t: Tally, cooldown: map<string, real>, answers: Answers, name: string)
    requires BreakerOk(t, cooldown, answers) && name in answers && name !in t.throttled
    ensures BreakerOk(Judge(t, name, answers[name]), cooldown, answers)
  {
  }

  lemma JudgeKeepsProducts(t: Tally, answers: Answers, name: string)
    requires ProductsOk(t, answers) && name in answers && name !in t.searched
    ensures ProductsOk(Judge(t, name, answers[name]), answers)
  {
    var t' := Judge(t, name, answers[name]);
    forall p
      ensures p in t'.products
              <==> exists n ::
                n in t'.searched && n in answers && answers[n].outcome.Found? && p in answers[n].outcome.products
    {
      if p in t.products {
        var n :| n in t.searched && n in answers && answers[n].outcome.Found? && p in answers[n].outcome.products;
        assert n in t'.searched;
      }
      if n :| n in t'.searched && n in answers && answers[n].outcome.Found? && p in answers[n].outcome.products
              && n != name {
        assert n in t.searched;
      }
      assert name in t'.searched;
    }
  }

  lemma ThrottledWasSearched(t: Tally, answers: Answers, name: string)
    requires ListsOk(t, answers) && name !in t.searched
    ensures name !in t.throttled
  {
  }

  lemma JudgeKeeps(t: Tally, cooldown: map<string, real>, answers: Answers, name: string)
    requires TallyOk(t, cooldown, answers) && name in answers && name !in t.searched
    ensures TallyOk(Judge(t, name, answers[name]), cooldown, answers)
  {
    hide ListsOk, BreakerOk, ProductsOk, Judge;
    ThrottledWasSearched(t, answers, name);
    JudgeKeepsLists(t, answers, name);
    JudgeKeepsBreaker(t, cooldown, answers, name);
    JudgeKeepsProducts(t, answers, name);
  }

  lemma RunBatchStep(t: Tally, batch: seq<Source>, answers: Answers)
    requires Answered(batch, answers)
    ensures batch == [] ==> RunBatch(t, batch, answers) == t && Names(batch) == []
    ensures batch != [] ==>
              var n := |batch| - 1;
              RunBatch(t, batch, answers)
                == Judge(RunBatch(t, batch[..n], answers), batch[n].name, answers[batch[n].name])
  {
  }

  lemma {:induction false} BatchKeeps(t: Tally, cooldown: map<string, real>, answers: Answers, batch: seq<Source>)
    requires TallyOk(t, cooldown, answers) && Answered(batch, answers) && NoDuplicates(Names(batch))
    requires forall s :: s in batch ==> s.name !in t.searched
    ensures TallyOk(RunBatch(t, batch, answers), cooldown, answers)
    ensures RunBatch(t, batch, answers).searched == t.searched + Names(batch)
    decreases |batch|
  {
    hide TallyOk, RunBatch, Names, NoDuplicates;
    RunBatchStep(t, batch, answers);
    if batch != [] {
      var n := |batch| - 1;
      FrontDiffers(batch);
      assert batch[..n + 1] == batch;
      BatchKeeps(t, cooldown, answers, batch[..n]);
      JudgeKeeps(RunBatch(t, batch[..n], answers), cooldown, answers, batch[n].name);
    }
  }

  /** `part` lists some of `whole`, in order: enough to keep names distinct. */
  ghost predicate NamesWithin(part: seq<Source>, whole: seq<Source>) {
    NoDuplicates(Names(part)) && forall s :: s in part ==> s in whole
  }

  lemma DistinctPush(part: seq<Source>, s: Source)
    requires NoDuplicates(Names(part)) && forall r :: r in part ==> r.name != s.name
    ensures NoDuplicates(Names(part + [s]))
  {
    forall i | 0 <= i < |part|
      ensures Names(part + [s])[i] != s.name
    {
      assert part[i] in part;
    }
  }

  lemma FrontDiffers(sources: seq<Source>)
    requires sources != [] && NoDuplicates(Names(sources))
    ensures var n := |sources| - 1;
            NoDuplicates(Names(sources[..n])) && forall r :: r in sources[..n] ==> r.name != sources[n].name
  {
    var n := |sources| - 1;
    forall r | r in sources[..n]
      ensures r.name != sources[n].name
    {
      var i :| 0 <= i < n && sources[..n][i] == r;
      assert Names(sources)[i] != Names(sources)[n];
    }
    forall i, j | 0 <= i < j < n
      ensures Names(sources[..n])[i] != Names(sources[..n])[j]
    {
      assert Names(sources)[i] != Names(sources)[j];
    }
  }

  lemma {:induction false} SelectionIsDistinct(sources: seq<Source>, test: Test)
    requires NoDuplicates(Names(sources))
    ensures NamesWithin(Filter(sources, test), sources)
  {
    if sources == [] {
    } else {
      var n := |sources| - 1;
      FrontDiffers(sources);
      SelectionIsDistinct(sources[..n], test);
      hide Names, NoDuplicates;
      if Passes(sources[n], test) { DistinctPush(Filter(sources[..n], test), sources[n]); }
    }
  }

  /** The names searched are those of the sources in the given tiers. */
  ghost predicate SearchedTiers(searched: seq<string>, sources: seq<Source>, tiers: seq<int>) {
    forall n :: n in searched <==> exists s :: s in sources && s.name == n && s.tier in tiers
  }

  lemma TierAddsItsNames(searched: seq<string>, sources: seq<Source>, tiers: seq<int>, tier: int)
    requires SearchedTiers(searched, sources, tiers)
    ensures SearchedTiers(searched + Names(InTier(sources, tier)), sources, tiers + [tier])
  {
    var batch := InTier(sources, tier);
    forall n
      ensures n in searched + Names(batch) <==> exists s :: s in sources && s.name == n && s.tier in tiers + [tier]
    {
      NamesMember(batch, n);
      if s :| s in sources && s.name == n && s.tier in tiers + [tier] {
        assert s in batch || s.tier in tiers;
      }
    }
  }

  lemma TierStep(t: Tally, sources: seq<Source>, answers: Answers, cooldown: map<string, real>, tiers: seq<int>,
                 tier: int)
    requires Answered(sources, answers) && NoDuplicates(Names(sources)) && tier !in tiers
    requires TallyOk(t, cooldown, answers) && SearchedTiers(t.searched, sources, tiers)
    ensures TallyOk(RunBatch(t, InTier(sources, tier), answers), cooldown, answers)
    ensures SearchedTiers(RunBatch(t, InTier(sources, tier), answers).searched, sources, tiers + [tier])
  {
    var batch := InTier(sources, tier);
    SelectionIsDistinct(sources, OfTier(tier));
    hide TallyOk, SearchedTiers, Filter, RunBatch, NoDuplicates;
    forall s | s in batch
      ensures s.name !in t.searched
    {
    }
    BatchKeeps(t, cooldown, answers, batch);
    TierAddsItsNames(t.searched, sources, tiers, tier);
  }

  lemma NothingSearched(cooldown: map<string, real>, sources: seq<Source>, answers: Answers)
    ensures TallyOk(Empty(cooldown), cooldown, answers) && SearchedTiers(Empty(cooldown).searched, sources, [])
  {
  }

  /** The first m tiers search exactly the sources in them, each once. */
  lemma {:induction false} TiersKeep(sources: seq<Source>, answers: Answers, cooldown: map<string, real>, m: nat)
    requires Answered(sources, answers) && NoDuplicates(Names(sources)) && m <= |Tiers(sources)|
    ensures TallyOk(AfterTiers(Empty(cooldown), sources, answers, m), cooldown, answers)
    ensures SearchedTiers(AfterTiers(Empty(cooldown), sources, answers, m).searched, sources, Tiers(sources)[..m])
  {
    hide TallyOk, SearchedTiers, RunBatch, InTier, Tiers, NoDuplicates, Answered;
    if m == 0 {
      NothingSearched(cooldown, sources, answers);
      assert Tiers(sources)[..0] == [];
    } else {
      TiersKeep(sources, answers, cooldown, m - 1);
      TierIsNew(sources, m - 1);
      TierStep(AfterTiers(Empty(cooldown), sources, answers, m - 1), sources, answers, cooldown,
               Tiers(sources)[..m - 1], Tiers(sources)[m - 1]);
      assert Tiers(sources)[..m] == Tiers(sources)[..m - 1] + [Tiers(sources)[m - 1]];
    }
  }

  lemma TierIsNew(sources: seq<Source>, i: nat)
    requires i < |Tiers(sources)|
    ensures Tiers(sources)[i] !in Tiers(sources)[..i]
  {
    TiersSorted(sources);
  }

  lemma SameNameSameSource(sources: seq<Source>, r: Source, s: Source)
    requires NoDuplicates(Names(sources)) && r in sources && s in sources && r.name == s.name
    ensures r == s
  {
    var i :| 0 <= i < |sources| && sources[i] == r;
    var j :| 0 <= j < |sources| && sources[j] == s;
    assert Names(sources)[i] == Names(sources)[j];
  }

  lemma NamesMember(batch: seq<Source>, n: string)
    ensures n in Names(batch) <==> exists s :: s in batch && s.name == n
  {
    if s :| s in batch && s.name == n {
      var i :| 0 <= i < |batch| && batch[i] == s;
      assert Names(batch)[i] == n;
    }
  }

  lemma FallbackIsNotReal(sources: seq<Source>, s: Source)
    requires NoDuplicates(Names(sources)) && s in Fallbacks(sources)
    ensures forall r :: r in Reals(sources) ==> r.name != s.name
  {
    forall r | r in Reals(sources)
      ensures r.name != s.name
    {
      if r.name == s.name { SameNameSameSource(sources, r, s); }
    }
  }

  /** The tiers' tally, seen from one available list: exactly the sources of the tiers that ran. */
  lemma TieredPart(available: seq<Source>, answers: Answers, cooldown: map<string, real>, m: nat)
    requires Answered(available, answers) && NoDuplicates(Names(available)) && m <= |Tiers(Reals(available))|
    ensures var t := AfterTiers(Empty(cooldown), Reals(available), answers, m);
            && TallyOk(t, cooldown, answers)
            && (forall n :: n in t.searched ==> exists s :: s in available && s.name == n)
            && (forall s :: s in Fallbacks(available) ==> s.name !in t.searched)
            && (forall s :: s in Reals(available) ==>
                (s.name in t.searched <==> s.tier in Tiers(Reals(available))[..m]))
  {
    var tiered := Reals(available);
    SelectionIsDistinct(available, OfReal);
    hide NoDuplicates, Tiers;
    TiersKeep(tiered, answers, cooldown, m);
    hide TallyOk, AfterTiers;
    var t := AfterTiers(Empty(cooldown), tiered, answers, m);
    forall s | s in Fallbacks(available)
      ensures s.name !in t.searched
    {
      FallbackIsNotReal(available, s);
    }
    forall s | s in tiered
      ensures s.name in t.searched <==> s.tier in Tiers(tiered)[..m]
    {
      if r :| r in tiered && r.name == s.name && r.tier in Tiers(tiered)[..m] {
        SameNameSameSource(tiered, r, s);
      }
    }
  }

  /** The fallback's part, when it runs: every fallback source, once. */
  lemma FallbackPart(available: seq<Source>, answers: Answers, cooldown: map<string, real>, t: Tally)
    requires Answered(available, answers) && NoDuplicates(Names(available)) && TallyOk(t, cooldown, answers)
    requires forall s :: s in Fallbacks(available) ==> s.name !in t.searched
    ensures var t' := RunBatch(t, Fallbacks(available), answers);
            && TallyOk(t', cooldown, answers)
            && (forall n :: n in t'.searched <==>
                n in t.searched || exists s :: s in Fallbacks(available) && s.name == n)
  {
    SelectionIsDistinct(available, OfFallback);
    hide TallyOk, RunBatch, Filter, NoDuplicates;
    BatchKeeps(t, cooldown, answers, Fallbacks(available));
    forall n
      ensures n in Names(Fallbacks(available)) <==> exists s :: s in Fallbacks(available) && s.name == n
    {
      NamesMember(Fallbacks(available), n);
    }
  }

  /** One whole search: each source is searched at most once, only if it was not benched; tiers are
      climbed in order, and the fallback sources run exactly when the tiers found nothing. */
  lemma SearchIsSound(cooldown: map<string, real>, sources: seq<Source>, answers: Answers, start: real, target: int,
                      m: nat, t: Tally)
    requires Answered(sources, answers) && NoDuplicates(Names(sources))
    requires Searches(cooldown, sources, answers, start, target, m, t)
    ensures TallyOk(t, cooldown, answers)
    ensures forall n :: n in t.searched ==> !Benched(cooldown, n, start) && exists s :: s in sources && s.name == n
    ensures var tiered := Reals(Available(sources, cooldown, start));
            forall s :: s in tiered ==> (s.name in t.searched <==> s.tier in Tiers(tiered)[..m])
    ensures var available := Available(sources, cooldown, start);
            forall s :: s in Fallbacks(available) ==>
              (s.name in t.searched <==> AfterTiers(Empty(cooldown), Reals(available), answers, m).products == [])
  {
    var available := Available(sources, cooldown, start);
    SelectionIsDistinct(sources, OfAwake(cooldown, start));
    hide TallyOk, AfterTiers, Tiers, RunBatch, NoDuplicates, Filter;
    WholeSearch(available, answers, cooldown, m, t);
  }

  lemma WholeSearch(available: seq<Source>, answers: Answers, cooldown: map<string, real>, m: nat, t: Tally)
    requires Answered(available, answers) && NoDuplicates(Names(available)) && m <= |Tiers(Reals(available))|
    requires var t' := AfterTiers(Empty(cooldown), Reals(available), answers, m);
             t == if t'.products == [] then RunBatch(t', Fallbacks(available), answers) else t'
    ensures TallyOk(t, cooldown, answers)
    ensures forall n :: n in t.searched ==> exists s :: s in available && s.name == n
    ensures forall s :: s in Reals(available) ==> (s.name in t.searched <==> s.tier in Tiers(Reals(available))[..m])
    ensures forall s :: s in Fallbacks(available) ==>
              (s.name in t.searched <==> AfterTiers(Empty(cooldown), Reals(available), answers, m).products == [])
  {
    hide TallyOk, AfterTiers, Tiers, RunBatch, NoDuplicates, Filter;
    TieredPart(available, answers, cooldown, m);
    if AfterTiers(Empty(cooldown), Reals(available), answers, m).products == [] {
      FallbackPart(available, answers, cooldown, AfterTiers(Empty(cooldown), Reals(available), answers, m));
      forall r | r in Fallbacks(available)
        ensures forall s :: s in Reals(available) ==> s.name != r.name
      {
        FallbackIsNotReal(available, r);
      }
    }
  }

  function ProductsOf(a: Answer): seq<Product> {
    match a.outcome
    case Found(ps) => ps
    case Failed => []
    case Late => []
  }

  /** The distinct keys of all that the sources of the tiers below this one find. */
  function KeysBelow(sources: seq<Source>, answers: Answers, tier: int): set<string>
    requires Answered(sources, answers)
  {
    set s, p | s in sources && s.tier < tier && p in ProductsOf(answers[s.name]) :: DedupKey(p)
  }

  lemma TiersBelow(sources: seq<Source>, k: nat, tier: int)
    requires k < |Tiers(sources)| && tier in Tiers(sources)
    ensures tier in Tiers(sources)[..k] <==> tier < Tiers(sources)[k]
  {
    TiersSorted(sources);
    var i :| 0 <= i < |Tiers(sources)| && Tiers(sources)[i] == tier;
    if i < k { assert Tiers(sources)[..k][i] == tier; }
  }

  /** What the first k tiers gather is what the sources below tier k find. */
  lemma GatheredBelow(sources: seq<Source>, answers: Answers, cooldown: map<string, real>, k: nat)
    requires Answered(sources, answers) && NoDuplicates(Names(sources)) && k < |Tiers(sources)|
    ensures KeysOf(AfterTiers(Empty(cooldown), sources, answers, k).products)
            == KeysBelow(sources, answers, Tiers(sources)[k])
  {
    TiersKeep(sources, answers, cooldown, k);
    TiersSorted(sources);
    var t := AfterTiers(Empty(cooldown), sources, answers, k);
    hide AfterTiers, Tiers, ListsOk, BreakerOk, NoDuplicates;
    forall p: Product
      ensures p in t.products
              <==> exists s :: s in sources && s.tier < Tiers(sources)[k] && p in ProductsOf(answers[s.name])
    {
      if p in t.products {
        var n :| n in t.searched && n in answers && answers[n].outcome.Found? && p in answers[n].outcome.products;
        var s :| s in sources && s.name == n && s.tier in Tiers(sources)[..k];
        TiersBelow(sources, k, s.tier);
      }
      if s :| s in sources && s.tier < Tiers(sources)[k] && p in ProductsOf(answers[s.name]) {
        TiersBelow(sources, k, s.tier);
        assert s.name in t.searched;
      }
    }
    hide TallyOk, SearchedTiers;
  }

  lemma KeysBelowGrow(sources: seq<Source>, answers: Answers, low: int, high: int)
    requires Answered(sources, answers) && low <= high
    ensures |KeysBelow(sources, answers, low)| <= |KeysBelow(sources, answers, high)|
  {
    SubsetSize(KeysBelow(sources, answers, low), KeysBelow(sources, answers, high));
  }

  /** The tiers that ran are exactly the lowest one and those with less than the target below them. */
  lemma TierRuns(sources: seq<Source>, answers: Answers, cooldown: map<string, real>, target: int, m: nat, k: nat)
    requires Answered(sources, answers) && NoDuplicates(Names(sources)) && k < |Tiers(sources)|
    requires StoppedAfter(Empty(cooldown), sources, answers, target, m)
    ensures k < m <==> k == 0 || |KeysBelow(sources, answers, Tiers(sources)[k])| < target
  {
    TiersSorted(sources);
    hide AfterTiers, KeysBelow, KeysOf, Tiers, NoDuplicates;
    if 1 <= k < m {
      GatheredBelow(sources, answers, cooldown, k);
    } else if m <= k {
      GatheredBelow(sources, answers, cooldown, m);
      KeysBelowGrow(sources, answers, Tiers(sources)[m], Tiers(sources)[k]);
    }
  }

  /** Escalation, exactly: a source that is available and no fallback is searched if and only if no
      lower tier has such a source, or all such sources of the lower tiers together find fewer than
      `target` distinct keys. */
  lemma EscalatesExactlyWhenShort(cooldown: map<string, real>, sources: seq<Source>, answers: Answers, start: real,
                                  target: int, m: nat, t: Tally, s: Source)
    requires Answered(sources, answers) && NoDuplicates(Names(sources))
    requires Searches(cooldown, sources, answers, start, target, m, t)
    requires s in Reals(Available(sources, cooldown, start))
    ensures var reals := Reals(Available(sources, cooldown, start));
            s.name in t.searched
            <==> (forall r :: r in reals ==> s.tier <= r.tier) || |KeysBelow(reals, answers, s.tier)| < target
  {
    var available := Available(sources, cooldown, start);
    SelectionIsDistinct(sources, OfAwake(cooldown, start));
    SelectionIsDistinct(available, OfReal);
    SearchIsSound(cooldown, sources, answers, start, target, m, t);
    hide TallyOk, NoDuplicates, Filter, AfterTiers, KeysBelow, Tiers, StoppedAfter;
    TierOfSourceRuns(Reals(available), answers, cooldown, target, m, s);
  }

  lemma TierOfSourceRuns(reals: seq<Source>, answers: Answers, cooldown: map<string, real>, target: int, m: nat,
                         s: Source)
    requires Answered(reals, answers) && NoDuplicates(Names(reals)) && s in reals
    requires StoppedAfter(Empty(cooldown), reals, answers, target, m)
    ensures m <= |Tiers(reals)|
    ensures s.tier in Tiers(reals)[..m]
            <==> (forall r :: r in reals ==> s.tier <= r.tier) || |KeysBelow(reals, answers, s.tier)| < target
  {
    TiersSorted(reals);
    assert s.tier in Tiers(reals);
    hide NoDuplicates, KeysBelow, Tiers, AfterTiers;
    var k :| 0 <= k < |Tiers(reals)| && Tiers(reals)[k] == s.tier;
    TierRuns(reals, answers, cooldown, target, m, k);
    LowestTier(reals, k);
  }

  lemma LowestTier(sources: seq<Source>, k: nat)
    requires k < |Tiers(sources)|
    ensures k == 0 <==> forall r :: r in sources ==> Tiers(sources)[k] <= r.tier
  {
    TiersSorted(sources);
    if k > 0 {
      assert Tiers(sources)[0] in Tiers(sources);
      var r :| r in sources && r.tier == Tiers(sources)[0];
    }
  }

  /** The source's cooldown, if it has one, is over. */
  ghost predicate Rested(cooldown: map<string, real>, s: Source, start: real) {
    s.name !in cooldown || start >= cooldown[s.name]
  }

  /** The distinct keys of all that rested sources of tiers below this one find, fallbacks aside. */
  ghost function KeysFoundBelow(cooldown: map<string, real>, sources: seq<Source>, answers: Answers, start: real,
                                tier: int): set<string>
    requires Answered(sources, answers)
  {
    set r, p | r in sources && !r.fallbackOnly && Rested(cooldown, r, start) && r.tier < tier
               && answers[r.name].outcome.Found? && p in answers[r.name].outcome.products :: DedupKey(p)
  }

  /** Which sources a search asks, exactly, on its inputs. A source that is no fallback: it has rested,
      and no rested one is of a lower tier, or those of the lower tiers find too few keys. A fallback: it
      has rested, and the others that were asked found nothing. */
  lemma SearchIsExact(cooldown: map<string, real>, sources: seq<Source>, answers: Answers, start: real, target: int,
                      m: nat, t: Tally, s: Source)
    requires Answered(sources, answers) && NoDuplicates(Names(sources)) && s in sources
    requires Searches(cooldown, sources, answers, start, target, m, t)
    ensures !s.fallbackOnly ==>
              (s.name in t.searched
               <==> Rested(cooldown, s, start)
                    && ((forall r :: r in sources && !r.fallbackOnly && Rested(cooldown, r, start) ==> s.tier <= r.tier)
                        || |KeysFoundBelow(cooldown, sources, answers, start, s.tier)| < target))
    ensures s.fallbackOnly ==>
              (s.name in t.searched
               <==> Rested(cooldown, s, start)
                    && forall r :: r in sources && !r.fallbackOnly && r.name in t.searched ==>
                         answers[r.name].outcome.Found? ==> answers[r.name].outcome.products == [])
  {
    if s.fallbackOnly {
      FallbackIsExact(cooldown, sources, answers, start, target, m, t, s);
    } else {
      RealIsExact(cooldown, sources, answers, start, target, m, t, s);
    }
  }

  lemma RealsAreRested(cooldown: map<string, real>, sources: seq<Source>, answers: Answers, start: real, tier: int)
    requires Answered(sources, answers)
    ensures var reals := Reals(Available(sources, cooldown, start));
            && (forall r :: r in reals <==> r in sources && !r.fallbackOnly && Rested(cooldown, r, start))
            && KeysBelow(reals, answers, tier) == KeysFoundBelow(cooldown, sources, answers, start, tier)
  {
    hide Filter;
  }

  lemma RealIsExact(cooldown: map<string, real>, sources: seq<Source>, answers: Answers, start: real, target: int,
                    m: nat, t: Tally, s: Source)
    requires Answered(sources, answers) && NoDuplicates(Names(sources)) && s in sources && !s.fallbackOnly
    requires Searches(cooldown, sources, answers, start, target, m, t)
    ensures s.name in t.searched
            <==> Rested(cooldown, s, start)
                 && ((forall r :: r in sources && !r.fallbackOnly && Rested(cooldown, r, start) ==> s.tier <= r.tier)
                     || |KeysFoundBelow(cooldown, sources, answers, start, s.tier)| < target)
  {
    RealsAreRested(cooldown, sources, answers, start, s.tier);
    SearchIsSound(cooldown, sources, answers, start, target, m, t);
    hide Searches, TallyOk, NoDuplicates, Filter, AfterTiers, KeysBelow, KeysFoundBelow, Tiers, Answered;
    if Rested(cooldown, s, start) {
      EscalatesExactlyWhenShort(cooldown, sources, answers, start, target, m, t, s);
    }
  }

  lemma FallbackIsExact(cooldown: map<string, real>, sources: seq<Source>, answers: Answers, start: real, target: int,
                        m: nat, t: Tally, s: Source)
    requires Answered(sources, answers) && NoDuplicates(Names(sources)) && s in sources && s.fallbackOnly
    requires Searches(cooldown, sources, answers, start, target, m, t)
    ensures s.name in t.searched
            <==> Rested(cooldown, s, start)
                 && forall r :: r in sources && !r.fallbackOnly && r.name in t.searched ==>
                      answers[r.name].outcome.Found? ==> answers[r.name].outcome.products == []
  {
    SearchIsSound(cooldown, sources, answers, start, target, m, t);
    FallbacksAreRested(cooldown, sources, start, s);
    hide Searches, TallyOk, NoDuplicates, Filter, AfterTiers, Tiers, Answered, Available, Fallbacks;
    TiersFindNothingExactly(cooldown, sources, answers, start, m, t);
  }

  lemma FallbacksAreRested(cooldown: map<string, real>, sources: seq<Source>, start: real, s: Source)
    requires s in sources && s.fallbackOnly
    ensures s in Fallbacks(Available(sources, cooldown, start)) <==> Rested(cooldown, s, start)
  {
    hide Filter;
  }

  lemma TiersFindNothingExactly(cooldown: map<string, real>, sources: seq<Source>, answers: Answers, start: real,
                                m: nat, t: Tally)
    requires Answered(sources, answers) && NoDuplicates(Names(sources))
    requires m <= |Tiers(Reals(Available(sources, cooldown, start)))|
    requires forall n :: n in t.searched ==> !Benched(cooldown, n, start) && exists s :: s in sources && s.name == n
    requires var tiered := Reals(Available(sources, cooldown, start));
             forall s :: s in tiered ==> (s.name in t.searched <==> s.tier in Tiers(tiered)[..m])
    ensures AfterTiers(Empty(cooldown), Reals(Available(sources, cooldown, start)), answers, m).products == []
            <==> forall r :: r in sources && !r.fallbackOnly && r.name in t.searched ==>
                   answers[r.name].outcome.Found? ==> answers[r.name].outcome.products == []
  {
    var reals := Reals(Available(sources, cooldown, start));
    var t' := AfterTiers(Empty(cooldown), reals, answers, m);
    RealsAreRested(cooldown, sources, answers, start, 0);
    TieredTally(cooldown, sources, answers, start, m);
    hide *;
    TieredNames(sources, reals, cooldown, start, t.searched, t'.searched, Tiers(reals)[..m]);
    NothingFound(sources, answers, t', t.searched);
  }

  lemma TieredTally(cooldown: map<string, real>, sources: seq<Source>, answers: Answers, start: real, m: nat)
    requires Answered(sources, answers) && NoDuplicates(Names(sources))
    requires m <= |Tiers(Reals(Available(sources, cooldown, start)))|
    ensures var reals := Reals(Available(sources, cooldown, start));
            var t := AfterTiers(Empty(cooldown), reals, answers, m);
            ProductsOk(t, answers) && SearchedTiers(t.searched, reals, Tiers(reals)[..m])
  {
    var available := Available(sources, cooldown, start);
    SelectionIsDistinct(sources, OfAwake(cooldown, start));
    SelectionIsDistinct(available, OfReal);
    hide NoDuplicates, Filter, AfterTiers, Tiers, ListsOk, BreakerOk, ProductsOk, SearchedTiers;
    TiersKeep(Reals(available), answers, cooldown, m);
  }

  lemma TieredNames(sources: seq<Source>, reals: seq<Source>, cooldown: map<string, real>, start: real,
                    searched: seq<string>, inTiers: seq<string>, tiers: seq<int>)
    requires forall r :: r in reals <==> r in sources && !r.fallbackOnly && Rested(cooldown, r, start)
    requires forall n :: n in searched ==> !Benched(cooldown, n, start)
    requires forall s :: s in reals ==> (s.name in searched <==> s.tier in tiers)
    requires SearchedTiers(inTiers, reals, tiers)
    ensures forall n :: n in inTiers
                        <==> exists r :: r in sources && !r.fallbackOnly && r.name in searched && r.name == n
  {
    forall n
      ensures n in inTiers <==> exists r :: r in sources && !r.fallbackOnly && r.name in searched && r.name == n
    {
      if r :| r in sources && !r.fallbackOnly && r.name in searched && r.name == n { assert r in reals; }
      if r :| r in reals && r.name == n && r.tier in tiers { assert r in sources && !r.fallbackOnly; }
    }
  }

  lemma NothingFound(sources: seq<Source>, answers: Answers, t': Tally, searched: seq<string>)
    requires Answered(sources, answers) && ProductsOk(t', answers)
    requires forall n :: n in t'.searched
                         <==> exists r :: r in sources && !r.fallbackOnly && r.name in searched && r.name == n
    ensures t'.products == []
            <==> forall r :: r in sources && !r.fallbackOnly && r.name in searched ==>
                   answers[r.name].outcome.Found? ==> answers[r.name].outcome.products == []
  {
    if t'.products != [] {
      var p := t'.products[0];
      assert p in t'.products;
      var n :| n in t'.searched && n in answers && answers[n].outcome.Found? && p in answers[n].outcome.products;
      var r :| r in sources && !r.fallbackOnly && r.name in searched && r.name == n;
      assert answers[r.name].outcome.products != [];
    }
    if r :| r in sources && !r.fallbackOnly && r.name in searched
            && answers[r.name].outcome.Found? && answers[r.name].outcome.products != [] {
      var p := answers[r.name].outcome.products[0];
      assert r.name in t'.searched;
      assert p in answers[r.name].outcome.products && p in t'.products;
    }
  }

  /** What a search reports: late sources are among the throttled, no throttled source is live, and
      every product comes from a live source. */
  lemma ReportIsConsistent(cooldown: map<string, real>, sources: seq<Source>, answers: Answers, start: real,
                           target: int, m: nat, t: Tally)
    requires Answered(sources, answers) && NoDuplicates(Names(sources))
    requires Searches(cooldown, sources, answers, start, target, m, t)
    ensures forall n :: n in t.timedOut ==> n in t.throttled
    ensures forall n :: n in t.throttled ==> n !in t.live
    ensures forall p :: p in t.products ==> exists n :: n in t.live && n in answers && p in ProductsOf(answers[n])
  {
    SearchIsSound(cooldown, sources, answers, start, target, m, t);
    hide Searches, Answered, NoDuplicates, BreakerOk, Available, AfterTiers;
    forall p | p in t.products
      ensures exists n :: n in t.live && n in answers && p in ProductsOf(answers[n])
    {
      var n :| n in t.searched && n in answers && answers[n].outcome.Found? && p in answers[n].outcome.products;
      assert n in t.live && p in ProductsOf(answers[n]);
    }
  }

  // ---------------------------------------------------------------- runs of calls

  datatype Call = Call(sources: seq<Source>, answers: Answers, start: real, end: real, target: int, m: nat,
                       tally: Tally)

  /** Calls that do not overlap; the breaker is the only state between them. */
  datatype Trace = Idle | Then(before: Trace, call: Call)

  function CooldownAfter(tr: Trace): map<string, real> {
    match tr
    case Idle => map[]
    case Then(_, call) => call.tally.cooldown
  }

  ghost predicate CallOk(cooldown: map<string, real>, c: Call) {
    && Answered(c.sources, c.answers) && NoDuplicates(Names(c.sources))
    && Searches(cooldown, c.sources, c.answers, c.start, c.target, c.m, c.tally)
    && c.start <= c.end && (forall n :: n in c.answers ==> c.start <= c.answers[n].at <= c.end)
  }

  ghost predicate EndsBy(tr: Trace, t: real) {
    match tr
    case Idle => true
    case Then(_, call) => call.end <= t
  }

  /** Call c came right after the calls of `past`. */
  ghost predicate Came(tr: Trace, past: Trace, c: Call) {
    match tr
    case Idle => false
    case Then(before, call) => (past == before && c == call) || Came(before, past, c)
  }

  ghost predicate Possible(tr: Trace) {
    forall past, c :: Came(tr, past, c) ==> CallOk(CooldownAfter(past), c) && EndsBy(past, c.start)
  }

  lemma LastCall(before: Trace, c: Call)
    requires Possible(Then(before, c))
    ensures Possible(before) && CallOk(CooldownAfter(before), c) && EndsBy(before, c.start)
  {
    hide CallOk, EndsBy, CooldownAfter;
    assert Came(Then(before, c), before, c);
    forall past, d | Came(before, past, d)
      ensures Came(Then(before, c), past, d)
    {
    }
  }

  ghost predicate Ran(tr: Trace, c: Call) {
    match tr
    case Idle => false
    case Then(before, call) => c == call || Ran(before, c)
  }

  /** What one call does to the breaker. */
  lemma CallBenches(cooldown: map<string, real>, c: Call)
    requires CallOk(cooldown, c)
    ensures TallyOk(c.tally, cooldown, c.answers)
    ensures forall n :: n in c.tally.searched ==> !Benched(cooldown, n, c.start)
  {
    hide TallyOk, Answered, NoDuplicates, Searches;
    SearchIsSound(cooldown, c.sources, c.answers, c.start, c.target, c.m, c.tally);
  }

  lemma {:induction false} RanOk(tr: Trace, c: Call)
    requires Possible(tr) && Ran(tr, c)
    ensures c.end <= tr.call.end && forall n :: n in c.answers ==> c.start <= c.answers[n].at <= c.end
  {
    LastCall(tr.before, tr.call);
    hide Searches, Answered, NoDuplicates, Possible;
    if c != tr.call { RanOk(tr.before, c); }
  }

  /** Every bench of the past is still on the books. */
  lemma {:induction false} BenchIsRemembered(tr: Trace, c: Call, name: string)
    requires Possible(tr) && Ran(tr, c) && name in c.tally.throttled && name in c.answers
    ensures name in CooldownAfter(tr) && CooldownAfter(tr)[name] >= c.answers[name].at + COOLDOWN_S
  {
    var Then(before, call) := tr;
    LastCall(before, call);
    CallBenches(CooldownAfter(before), call);
    hide CallOk, Possible;
    if c != call {
      BenchIsRemembered(before, c, name);
      RanOk(before, c);
      RanOk(tr, call);
    }
  }

  /** Over any calls that do not overlap, a source that failed or missed its deadline is not searched
      again by any call that starts before its cooldown ends. */
  lemma BenchedSourceRests(tr: Trace, past: Call, next: Call, name: string)
    requires Possible(Then(tr, next)) && Ran(tr, past)
    requires name in past.tally.throttled && name in past.answers && next.start < past.answers[name].at + COOLDOWN_S
    ensures name !in next.tally.searched
  {
    LastCall(tr, next);
    hide CallOk, Possible;
    BenchIsRemembered(tr, past, name);
    CallBenches(CooldownAfter(tr), next);
  }

  // ---------------------------------------------------------------- what is shown

  predicate NoDearer(p: Product, q: Product) { p.price <= q.price }

  function FirstN(ps: seq<Product>, n: nat): seq<Product> { if |ps| <= n then ps else ps[..n] }

  /** The results ascend in price and begin with the lowest price fetched. */
  ghost predicate CheapestFirst(products: seq<Product>, limit: nat, results: seq<Product>) {
    && (forall i, j :: 0 <= i < j < |results| ==> results[i].price <= results[j].price)
    && (limit >= 1 && products != [] ==>
          && results != [] && results[0] in products
          && forall a :: 0 <= a < |products| ==> results[0].price <= products[a].price)
  }

  /** The two dedup passes and the ranking. */
  method Rank(products: seq<Product>, cfg: Dedup.Config, limit: nat)
    returns (results: seq<Product>, ghost picks: seq<nat>, ghost kept: seq<Product>)
    ensures Ingest.ValidCatalog(Ingest.AddAll(products))
    ensures Dedup.KeepsCheapest(Ingest.Values(Ingest.AddAll(products)), cfg, picks, kept)
    ensures results == FirstN(StableSort(kept, NoDearer), limit)
    ensures CheapestFirst(products, limit, results)
    ensures |results| == if |kept| <= limit then |kept| else limit
  {
    hide Dedup.KeepsCheapest;
    var c := Ingest.AddMore([], Ingest.Catalog([], map[]), products);
    assert [] + products == products;
    Ingest.CatalogIsValid(products);
    var items;
    items, picks := Dedup.DedupByEmbedding(Ingest.Values(c), cfg);
    kept := items;
    results := FirstN(StableSort(items, NoDearer), limit);
    ResultsAreCheapestFirst(products, cfg, limit, picks, kept);
  }

  /** What is shown of the kept offers: all of them if there is room, else as many as there is room for;
      and none left out costs less than one that is shown. */
  lemma ShowsTheCheapest(kept: seq<Product>, limit: nat)
    ensures var results := FirstN(StableSort(kept, NoDearer), limit);
            && |results| == (if |kept| <= limit then |kept| else limit)
            && multiset(results) <= multiset(kept)
            && (|kept| <= limit ==> multiset(results) == multiset(kept))
            && forall p, q :: p in results && q in multiset(kept) - multiset(results) ==> p.price <= q.price
  {
    var sorted := StableSort(kept, NoDearer);
    SortPermutes(kept, NoDearer);
    SortOrdered(kept, NoDearer);
    hide StableSort;
    if |sorted| > limit {
      LeftOut(sorted, limit);
      hide Ordered;
      assert multiset(kept) - multiset(sorted[..limit]) == multiset(sorted[limit..]);
    }
  }

  lemma LeftOut(sorted: seq<Product>, limit: nat)
    requires limit <= |sorted| && Ordered(sorted, NoDearer)
    ensures multiset(sorted) == multiset(sorted[..limit]) + multiset(sorted[limit..])
    ensures forall p, q :: p in sorted[..limit] && q in multiset(sorted[limit..]) ==> p.price <= q.price
  {
    assert sorted == sorted[..limit] + sorted[limit..];
    forall p, q | p in sorted[..limit] && q in multiset(sorted[limit..])
      ensures p.price <= q.price
    {
      var i :| 0 <= i < limit && sorted[..limit][i] == p;
      var j :| 0 <= j < |sorted| - limit && sorted[limit..][j] == q;
      assert NoDearer(sorted[i], sorted[limit + j]);
    }
  }

  /** No cheaper offer is lost: for every product fetched, some kept one costs no more and stands for
      the same offer, namely a product with the same exact key (r) and then the same cluster. */
  lemma NoCheaperOfferLost(products: seq<Product>, cfg: Dedup.Config, picks: seq<nat>, kept: seq<Product>, a: nat)
    returns (r: nat, c: nat)
    requires Ingest.ValidCatalog(Ingest.AddAll(products)) && a < |products|
    requires Dedup.KeepsCheapest(Ingest.Values(Ingest.AddAll(products)), cfg, picks, kept)
    ensures var items := Ingest.Values(Ingest.AddAll(products));
            && r < |items| && DedupKey(items[r]) == DedupKey(products[a])
            && c < |kept| && c < |picks| && picks[c] < |items| && kept[c] == items[picks[c]]
            && Dedup.Linked(items, cfg, r, picks[c]) && kept[c].price <= products[a].price
  {
    var cat := Ingest.AddAll(products);
    var items, k := Ingest.Values(cat), DedupKey(products[a]);
    var b := Ingest.KeepsFirstCheapest(products, k);
    assert k in cat.order;
    r :| 0 <= r < |cat.order| && cat.order[r] == k;
    assert items[r] == products[b];
    hide Dedup.KeepsCheapest, Dedup.Linked, Ingest.AddAll;
    c := Dedup.NoCheaperOfferLost(items, cfg, picks, kept, r);
  }

  /** Everything kept was fetched. */
  lemma KeptWasFetched(products: seq<Product>, cfg: Dedup.Config, picks: seq<nat>, kept: seq<Product>, c: nat)
    requires Ingest.ValidCatalog(Ingest.AddAll(products)) && c < |kept|
    requires Dedup.KeepsCheapest(Ingest.Values(Ingest.AddAll(products)), cfg, picks, kept)
    ensures kept[c] in products
  {
    var cat := Ingest.AddAll(products);
    assert picks[c] < |Ingest.Values(cat)| && kept[c] == Ingest.Values(cat)[picks[c]];
    var k := cat.order[picks[c]];
    assert k in cat.order;
    var b := Ingest.KeepsFirstCheapest(products, k);
  }

  lemma FrontIsCheapest(products: seq<Product>, cfg: Dedup.Config, picks: seq<nat>, kept: seq<Product>, a: nat)
    requires Ingest.ValidCatalog(Ingest.AddAll(products)) && a < |products|
    requires Dedup.KeepsCheapest(Ingest.Values(Ingest.AddAll(products)), cfg, picks, kept)
    ensures var sorted := StableSort(kept, NoDearer); sorted != [] && sorted[0].price <= products[a].price
  {
    var sorted := StableSort(kept, NoDearer);
    SortOrdered(kept, NoDearer);
    var r, c := NoCheaperOfferLost(products, cfg, picks, kept, a);
    hide Dedup.KeepsCheapest, Dedup.Linked, Ingest.AddAll, StableSort;
    SortMember(kept, NoDearer, kept[c]);
    var j :| 0 <= j < |sorted| && sorted[j] == kept[c];
    assert j > 0 ==> NoDearer(sorted[0], sorted[j]);
  }

  /** Results are in ascending price order, and with a limit of at least one the first carries the
      lowest price fetched. */
  lemma ResultsAreCheapestFirst(products: seq<Product>, cfg: Dedup.Config, limit: nat, picks: seq<nat>,
                                kept: seq<Product>)
    requires Ingest.ValidCatalog(Ingest.AddAll(products))
    requires Dedup.KeepsCheapest(Ingest.Values(Ingest.AddAll(products)), cfg, picks, kept)
    ensures CheapestFirst(products, limit, FirstN(StableSort(kept, NoDearer), limit))
  {
    hide Dedup.KeepsCheapest, Ingest.AddAll, Ingest.ValidCatalog, StableSort;
    var sorted := StableSort(kept, NoDearer);
    SortOrdered(kept, NoDearer);
    assert forall i, j :: 0 <= i < j < |sorted| ==> NoDearer(sorted[i], sorted[j]);
    if limit >= 1 && products != [] {
      forall a | 0 <= a < |products|
        ensures sorted != [] && sorted[0].price <= products[a].price
      {
        FrontIsCheapest(products, cfg, picks, kept, a);
      }
      assert sorted[0].price <= products[0].price;
      SortMember(kept, NoDearer, sorted[0]);
      var c :| 0 <= c < |kept| && kept[c] == sorted[0];
      KeptWasFetched(products, cfg, picks, kept, c);
    }
  }
}
