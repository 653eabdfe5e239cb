/** The per-text vector cache of `dealfinder/embed.py`: two locked regions with unlocked work
    between them, a time to live, and a least-recently-used bound. */
module EmbedCache {
  import opened Sets
  import opened OrderedDicts

  const TTL_S := 21600.0
  const CACHE_MAX := 4096

  type Vec = seq<real>

  /** The embedding is a fixed function of the text. `hash` is SHA-256, taken to be free of collisions. */
  datatype Model = Model(embed: string -> Vec, hash: string -> string)

  ghost predicate CollisionFree(m: Model) {
    forall s, t {:trigger m.hash(s), m.hash(t)} :: m.hash(s) == m.hash(t) ==> s == t
  }

  /** A cached vector and the clock reading of the call that stored it. */
  datatype Stamped = Stamped(at: real, vec: Vec)

  type Cache = OrderedDict<Stamped>

  // ---------------------------------------------------------------- the two regions

  predicate Fresh(data: map<string, Stamped>, k: string, now: real) {
    k in data && now - data[k].at < TTL_S
  }

  /** The keys the first region serves, in order. */
  function Hits(data: map<string, Stamped>, keys: seq<string>, now: real): seq<string> {
    if keys == [] then []
    else Hits(data, keys[..|keys| - 1], now) + (if Fresh(data, keys[|keys| - 1], now) then [keys[|keys| - 1]] else [])
  }

  function Served(data: map<string, Stamped>, keys: seq<string>, now: real): map<string, Vec> {
    map k | k in keys && Fresh(data, k, now) :: data[k].vec
  }

  /** The texts still to embed: each missing key once, in order of first appearance. */
  function Missing(m: Model, texts: seq<string>, found: map<string, Vec>): seq<string> {
    if texts == [] then []
    else
      var rest, t := Missing(m, texts[..|texts| - 1], found), texts[|texts| - 1];
      if m.hash(t) in found || t in rest then rest else rest + [t]
  }

  function Keys(m: Model, texts: seq<string>): (r: seq<string>)
    ensures |r| == |texts| && forall i :: 0 <= i < |texts| ==> r[i] == m.hash(texts[i])
  {
    seq(|texts|, i requires 0 <= i < |texts| => m.hash(texts[i]))
  }

  /** `embed_texts`: one vector a text, in order. */
  function EmbedTexts(m: Model, texts: seq<string>): (r: seq<Vec>)
    ensures |r| == |texts| && forall i :: 0 <= i < |texts| ==> r[i] == m.embed(texts[i])
  {
    seq(|texts|, i requires 0 <= i < |texts| => m.embed(texts[i]))
  }

  function PutAll(d: Cache, keys: seq<string>, vecs: seq<Vec>, now: real): Cache
    requires |keys| == |vecs|
    decreases |keys|
  {
    if keys == [] then d
    else
      var n := |keys| - 1;
      Put(PutAll(d, keys[..n], vecs[..n], now), keys[n], Stamped(now, vecs[n]))
  }

  function AddFound(found: map<string, Vec>, keys: seq<string>, vecs: seq<Vec>): map<string, Vec>
    requires |keys| == |vecs|
    decreases |keys|
  {
    if keys == [] then found
    else
      var n := |keys| - 1;
      AddFound(found, keys[..n], vecs[..n])[keys[n] := vecs[n]]
  }

  // ---------------------------------------------------------------- what the regions keep

  /** Every cached vector is the embedding of the text behind its key. */
  ghost predicate Faithful(m: Model, data: map<string, Stamped>) {
    forall t {:trigger m.hash(t)} :: m.hash(t) in data ==> data[m.hash(t)].vec == m.embed(t)
  }

  ghost predicate FoundOk(m: Model, found: map<string, Vec>) {
    forall t {:trigger m.hash(t)} :: m.hash(t) in found ==> found[m.hash(t)] == m.embed(t)
  }

  ghost predicate CacheOk(m: Model, d: Cache) {
    Valid(d) && Faithful(m, d.data) && |d.order| <= CACHE_MAX
  }

  lemma HitsPush(data: map<string, Stamped>, keys: seq<string>, i: nat, now: real)
    requires i < |keys|
    ensures Hits(data, keys[..i + 1], now)
            == if Fresh(data, keys[i], now) then Hits(data, keys[..i], now) + [keys[i]] else Hits(data, keys[..i], now)
  {
    assert keys[..i + 1][..i] == keys[..i];
  }

  lemma NoHits(data: map<string, Stamped>, now: real)
    ensures Hits(data, [], now) == []
  {
  }

  lemma TouchAllPush(s: seq<string>, ks: seq<string>, k: string)
    ensures TouchAll(s, ks + [k]) == Touch(TouchAll(s, ks), k)
  {
    assert (ks + [k])[..|ks|] == ks;
  }

  lemma {:induction false} HitsExact(data: map<string, Stamped>, keys: seq<string>, now: real)
    ensures forall k :: k in Hits(data, keys, now) <==> k in keys && k in data && now - data[k].at < 21600.0
  {
    if keys != [] {
      var n := |keys| - 1;
      HitsExact(data, keys[..n], now);
      assert keys == keys[..n] + [keys[n]];
    }
  }

  lemma {:induction false} MissingExact(m: Model, texts: seq<string>, found: map<string, Vec>)
    ensures forall t :: t in Missing(m, texts, found) <==> t in texts && m.hash(t) !in found
  {
    if texts != [] {
      var n := |texts| - 1;
      MissingExact(m, texts[..n], found);
      assert texts == texts[..n] + [texts[n]];
    }
  }

  /** Touching keys that are already there keeps the cache good. */
  lemma LookUpKeeps(m: Model, d: Cache, keys: seq<string>, now: real)
    requires CacheOk(m, d)
    ensures CacheOk(m, d.(order := TouchAll(d.order, Hits(d.data, keys, now)))) && FoundOk(m, Served(d.data, keys, now))
  {
    HitsExact(d.data, keys, now);
    TouchAllKeeps(d.order, Hits(d.data, keys, now));
  }

  lemma PutIsFaithful(m: Model, d: Cache, t: string, now: real)
    requires CollisionFree(m) && Valid(d) && Faithful(m, d.data)
    ensures var e := Put(d, m.hash(t), Stamped(now, m.embed(t)));
            Valid(e) && Faithful(m, e.data) && e.order == Touch(d.order, m.hash(t))
  {
    PutKeepsValid(d, m.hash(t), Stamped(now, m.embed(t)));
  }

  lemma PutAllPush(m: Model, d: Cache, front: seq<string>, t: string, now: real)
    ensures PutAll(d, Keys(m, front + [t]), EmbedTexts(m, front + [t]), now)
            == Put(PutAll(d, Keys(m, front), EmbedTexts(m, front), now), m.hash(t), Stamped(now, m.embed(t)))
    ensures Keys(m, front + [t]) == Keys(m, front) + [m.hash(t)]
  {
    var texts, n := front + [t], |front|;
    assert Keys(m, texts)[..n] == Keys(m, front) && EmbedTexts(m, texts)[..n] == EmbedTexts(m, front);
    hide Put;
  }

  lemma {:induction false} PutAllKeeps(m: Model, d: Cache, texts: seq<string>, now: real)
    requires CollisionFree(m) && Valid(d) && Faithful(m, d.data)
    ensures var e := PutAll(d, Keys(m, texts), EmbedTexts(m, texts), now);
            Valid(e) && Faithful(m, e.data) && e.order == TouchAll(d.order, Keys(m, texts))
    decreases |texts|
  {
    if texts != [] {
      hide PutAll, TouchAll, Valid, Faithful, Put, CollisionFree, Keys, EmbedTexts;
      var front, t := texts[..|texts| - 1], texts[|texts| - 1];
      assert texts == front + [t];
      PutAllKeeps(m, d, front, now);
      PutAllPush(m, d, front, t, now);
      PutIsFaithful(m, PutAll(d, Keys(m, front), EmbedTexts(m, front), now), t, now);
      TouchAllPush(d.order, Keys(m, front), m.hash(t));
    }
  }

  lemma {:induction false} AddFoundOk(m: Model, found: map<string, Vec>, texts: seq<string>)
    requires CollisionFree(m) && FoundOk(m, found)
    ensures var all := AddFound(found, Keys(m, texts), EmbedTexts(m, texts));
            FoundOk(m, all) && all.Keys == found.Keys + set k | k in Keys(m, texts)
    decreases |texts|
  {
    if texts != [] {
      var n := |texts| - 1;
      var front := texts[..n];
      AddFoundOk(m, found, front);
      assert Keys(m, texts)[..n] == Keys(m, front) && EmbedTexts(m, texts)[..n] == EmbedTexts(m, front);
      assert Keys(m, texts) == Keys(m, front) + [m.hash(texts[n])];
    }
  }

  /** Storing keeps the cache good and leaves the most recently used keys. */
  lemma StoreKeeps(m: Model, d: Cache, texts: seq<string>, now: real)
    requires CollisionFree(m) && CacheOk(m, d)
    ensures var e := Trim(PutAll(d, Keys(m, texts), EmbedTexts(m, texts), now), CACHE_MAX);
            CacheOk(m, e) && e.order == LastN(TouchAll(d.order, Keys(m, texts)), CACHE_MAX)
  {
    PutAllKeeps(m, d, texts, now);
    TrimKeepsLast(PutAll(d, Keys(m, texts), EmbedTexts(m, texts), now), CACHE_MAX);
  }

  /** Once the missing texts are embedded, every text of the call has its vector. */
  lemma AllFound(m: Model, texts: seq<string>, found: map<string, Vec>)
    requires CollisionFree(m) && FoundOk(m, found)
    ensures var ms := Missing(m, texts, found);
            var all := AddFound(found, Keys(m, ms), EmbedTexts(m, ms));
            forall i :: 0 <= i < |texts| ==> m.hash(texts[i]) in all && all[m.hash(texts[i])] == m.embed(texts[i])
  {
    var ms := Missing(m, texts, found);
    MissingExact(m, texts, found);
    AddFoundOk(m, found, ms);
    forall i | 0 <= i < |texts|
      ensures m.hash(texts[i]) in found || m.hash(texts[i]) in Keys(m, ms)
    {
      if m.hash(texts[i]) !in found {
        var j :| 0 <= j < |ms| && ms[j] == texts[i];
        assert Keys(m, ms)[j] == m.hash(texts[i]);
      }
    }
  }

  // ---------------------------------------------------------------- the object

  class VectorCache {
    var cache: Cache

    constructor ()
      ensures cache == OrderedDict([], map[])
    {
      cache := OrderedDict([], map[]);
    }

    /** The first locked region. */
    method LookUp(keys: seq<string>, now: real) returns (found: map<string, Vec>)
      modifies this
      ensures found == Served(old(cache).data, keys, now)
      ensures cache.data == old(cache).data
              && cache.order == TouchAll(old(cache).order, Hits(old(cache).data, keys, now))
    {
      hide Hits, TouchAll;
      NoUses(cache.order);
      assert Hits(cache.data, keys[..0], now) == [] by { NoHits(cache.data, now); assert keys[..0] == []; }
      found := map[];
      ghost var data := cache.data;
      for i := 0 to |keys|
        invariant cache.data == data == old(cache).data
        invariant found == Served(data, keys[..i], now)
        invariant cache.order == TouchAll(old(cache).order, Hits(data, keys[..i], now))
      {
        var k := keys[i];
        assert keys[..i + 1] == keys[..i] + [k];
        assert keys[..i + 1][..i] == keys[..i];
        HitsPush(data, keys, i, now);
        if k in cache.data && now - cache.data[k].at < TTL_S {
          found := found[k := cache.data[k].vec];
          TouchAllPush(old(cache).order, Hits(data, keys[..i], now), k);
          cache := MoveToEnd(cache, k);
        }
      }
      assert keys[..|keys|] == keys;
    }

    /** The second locked region. */
    method Store(keys: seq<string>, vecs: seq<Vec>, now: real, found: map<string, Vec>) returns (all: map<string, Vec>)
      requires |keys| == |vecs|
      modifies this
      ensures all == AddFound(found, keys, vecs)
      ensures cache == Trim(PutAll(old(cache), keys, vecs, now), CACHE_MAX)
    {
      all := found;
      for i := 0 to |keys|
        invariant all == AddFound(found, keys[..i], vecs[..i])
        invariant cache == PutAll(old(cache), keys[..i], vecs[..i], now)
      {
        assert keys[..i + 1][..i] == keys[..i] && vecs[..i + 1][..i] == vecs[..i];
        all := all[keys[i] := vecs[i]];
        cache := Put(cache, keys[i], Stamped(now, vecs[i]));
      }
      assert keys[..|keys|] == keys && vecs[..|vecs|] == vecs;
      while |cache.order| > CACHE_MAX
        invariant Trim(cache, CACHE_MAX) == Trim(PutAll(old(cache), keys, vecs, now), CACHE_MAX)
        decreases |cache.order|
      {
        cache := OrderedDict(cache.order[1..], cache.data - {cache.order[0]});
      }
    }

    /** The whole call, undisturbed. The result is the uncached one, and the cache is left with the
        most recently used keys: this call's hits, then its misses, newest last. */
    method EmbedTextsCached(m: Model, texts: seq<string>, now: real) returns (vecs: seq<Vec>)
      requires CollisionFree(m) && CacheOk(m, cache)
      modifies this
      ensures vecs == EmbedTexts(m, texts)
      ensures CacheOk(m, cache)
      ensures cache.order == LastN(TouchAll(old(cache).order, Uses(m, old(cache).data, texts, now)), CACHE_MAX)
    {
      hide Valid, Faithful, Hits, Served, TouchAll, Missing;
      var keys := Keys(m, texts);
      LookUpKeeps(m, cache, keys, now);
      var found := LookUp(keys, now);
      var missing := Missing(m, texts, found);
      AllFound(m, texts, found);
      TouchAllConcat(old(cache).order, Hits(old(cache).data, keys, now), Keys(m, missing));
      StoreKeeps(m, cache, missing, now);
      if missing != [] {
        var embedded := EmbedTexts(m, missing);
        found := Store(Keys(m, missing), embedded, now, found);
      } else {
        NoUses(cache.order);
        assert Keys(m, missing) == [];
      }
      vecs := seq(|texts|, i requires 0 <= i < |texts| && keys[i] in found => found[keys[i]]);
    }
  }

  lemma NoUses(s: seq<string>)
    ensures TouchAll(s, []) == s
  {
  }

  /** The keys a call uses, in the order it touches them. */
  function Uses(m: Model, data: map<string, Stamped>, texts: seq<string>, now: real): seq<string> {
    var keys := Keys(m, texts);
    Hits(data, keys, now) + Keys(m, Missing(m, texts, Served(data, keys, now)))
  }

  /** A call uses exactly the keys of its texts. */
  lemma UsesAreTheTexts(m: Model, data: map<string, Stamped>, texts: seq<string>, now: real)
    ensures forall k :: k in Uses(m, data, texts, now) <==> k in Keys(m, texts)
  {
    var keys := Keys(m, texts);
    var found := Served(data, keys, now);
    var ms := Missing(m, texts, found);
    HitsExact(data, keys, now);
    MissingExact(m, texts, found);
    forall k
      ensures k in Uses(m, data, texts, now) <==> k in keys
    {
      if k in Keys(m, ms) {
        var j :| 0 <= j < |ms| && Keys(m, ms)[j] == k;
        var i :| 0 <= i < |texts| && texts[i] == ms[j];
        assert keys[i] == k;
      }
      if i :| 0 <= i < |texts| && keys[i] == k {
        if k !in found {
          var j :| 0 <= j < |ms| && ms[j] == texts[i];
          assert Keys(m, ms)[j] == k;
        }
      }
    }
  }

  // ---------------------------------------------------------------- interleaved calls

  /** A call between its two regions. */
  datatype Pending = Pending(texts: seq<string>, now: real, found: map<string, Vec>)

  /** What a call returned, and how many texts had been embedded by then. */
  datatype Outcome = Outcome(texts: seq<string>, now: real, vecs: seq<Vec>, logged: nat)

  /** A text that was embedded, what came out, and the clock reading of the call that embedded it. */
  datatype Embedding = Embedding(text: string, at: real, vec: Vec)

  /** `used` is every key used so far, in the order of its last use: what a cache without a bound would
      hold. `log` is every text embedded. */
  datatype System = System(cache: Cache, used: seq<string>, pending: map<nat, Pending>, returned: map<nat, Outcome>,
                           log: seq<Embedding>)

  const EMPTY := System(OrderedDict([], map[]), [], map[], map[], [])

  function Embeddings(m: Model, texts: seq<string>, now: real): (r: seq<Embedding>)
    ensures |r| == |texts| && forall i :: 0 <= i < |texts| ==> r[i] == Embedding(texts[i], now, m.embed(texts[i]))
  {
    seq(|texts|, i requires 0 <= i < |texts| => Embedding(texts[i], now, m.embed(texts[i])))
  }

  /** The first region of a call, the rest of it, or a batch that raised. */
  datatype Event = Enter(id: nat, texts: seq<string>, now: real) | Finish(id: nat) | EmbeddingFails(id: nat)

  /** The cache after a call's second region, which a call without misses does not enter. */
  function Restored(m: Model, cache: Cache, ms: seq<string>, now: real): Cache {
    if ms == [] then cache else Trim(PutAll(cache, Keys(m, ms), EmbedTexts(m, ms), now), CACHE_MAX)
  }

  /** What the rest of a call returns. */
  function Assembled(m: Model, p: Pending): seq<Vec> {
    var ms := Missing(m, p.texts, p.found);
    var all := AddFound(p.found, Keys(m, ms), EmbedTexts(m, ms));
    seq(|p.texts|, i requires 0 <= i < |p.texts| => if m.hash(p.texts[i]) in all then all[m.hash(p.texts[i])] else [])
  }

  function Next(m: Model, s: System, e: Event): System {
    match e
    case Enter(id, texts, now) =>
      var keys := Keys(m, texts);
      var hits := Hits(s.cache.data, keys, now);
      s.(cache := s.cache.(order := TouchAll(s.cache.order, hits)), used := TouchAll(s.used, hits),
         pending := s.pending[id := Pending(texts, now, Served(s.cache.data, keys, now))])
    case Finish(id) =>
      if id !in s.pending then s
      else
        var p := s.pending[id];
        var ms := Missing(m, p.texts, p.found);
        System(Restored(m, s.cache, ms, p.now), TouchAll(s.used, Keys(m, ms)), s.pending - {id},
               s.returned[id := Outcome(p.texts, p.now, Assembled(m, p), |s.log| + |ms|)],
               s.log + Embeddings(m, ms, p.now))
    case EmbeddingFails(id) => s.(pending := s.pending - {id})
  }

  /** Any interleaving of the regions of any calls, with any clock readings and any failures. */
  datatype Trace = Initially | Then(before: Trace, e: Event)

  function StateOf(m: Model, tr: Trace): System {
    match tr
    case Initially => EMPTY
    case Then(before, e) => Next(m, StateOf(m, before), e)
  }

  ghost predicate Correct(m: Model, o: Outcome) { o.vecs == EmbedTexts(m, o.texts) }

  /** The cache is good, and is the recent end of everything used. */
  ghost predicate Current(m: Model, cache: Cache, used: seq<string>) {
    CacheOk(m, cache) && NoDuplicates(used) && Covers(CACHE_MAX, used, cache.order)
  }

  ghost predicate PendingOk(m: Model, pending: map<nat, Pending>) {
    forall id :: id in pending ==> FoundOk(m, pending[id].found)
  }

  ghost predicate ReturnedOk(m: Model, returned: map<nat, Outcome>) {
    forall id :: id in returned ==> Correct(m, returned[id])
  }

  ghost predicate Inv(m: Model, s: System) {
    match s
    case System(cache, used, pending, returned, _) =>
      Current(m, cache, used) && PendingOk(m, pending) && ReturnedOk(m, returned)
  }

  lemma OrderIsDistinct(m: Model, cache: Cache, used: seq<string>)
    requires Current(m, cache, used)
    ensures CacheOk(m, cache) && NoDuplicates(cache.order) && NoDuplicates(used) && Covers(CACHE_MAX, used, cache.order)
  {
  }

  lemma LookUpStaysCurrent(m: Model, cache: Cache, used: seq<string>, keys: seq<string>, now: real)
    requires Current(m, cache, used)
    ensures Current(m, cache.(order := TouchAll(cache.order, Hits(cache.data, keys, now))),
                    TouchAll(used, Hits(cache.data, keys, now)))
    ensures FoundOk(m, Served(cache.data, keys, now))
  {
    OrderIsDistinct(m, cache, used);
    hide CacheOk, Covers, Hits, TouchAll, NoDuplicates, FoundOk, Served;
    LookUpKeeps(m, cache, keys, now);
    TouchAllKeepsCover(CACHE_MAX, used, cache.order, Hits(cache.data, keys, now));
    TouchAllKeeps(used, Hits(cache.data, keys, now));
  }

  lemma StoreStaysCurrent(m: Model, cache: Cache, used: seq<string>, ms: seq<string>, now: real)
    requires CollisionFree(m) && Current(m, cache, used)
    ensures Current(m, Trim(PutAll(cache, Keys(m, ms), EmbedTexts(m, ms), now), CACHE_MAX), TouchAll(used, Keys(m, ms)))
  {
    OrderIsDistinct(m, cache, used);
    hide CacheOk, Covers, TouchAll, NoDuplicates, PutAll, Trim, LastN, CollisionFree, Keys, EmbedTexts;
    StoreKeeps(m, cache, ms, now);
    TouchAllKeepsCover(CACHE_MAX, used, cache.order, Keys(m, ms));
    TouchAllKeeps(used, Keys(m, ms));
    TrimKeepsCover(CACHE_MAX, TouchAll(used, Keys(m, ms)), TouchAll(cache.order, Keys(m, ms)));
  }

  lemma EnterKeeps(m: Model, s: System, e: Event)
    requires CollisionFree(m) && Inv(m, s) && e.Enter?
    ensures Inv(m, Next(m, s, e))
  {
    hide Current, FoundOk, Correct, CollisionFree, Hits, TouchAll, Served, Keys;
    LookUpStaysCurrent(m, s.cache, s.used, Keys(m, e.texts), e.now);
  }

  lemma AssembledIsExact(m: Model, p: Pending)
    requires CollisionFree(m) && FoundOk(m, p.found)
    ensures Assembled(m, p) == EmbedTexts(m, p.texts)
  {
    AllFound(m, p.texts, p.found);
  }

  lemma FinishKeeps(m: Model, s: System, e: Event)
    requires CollisionFree(m) && Inv(m, s) && e.Finish? && e.id in s.pending
    ensures Inv(m, Next(m, s, e))
  {
    hide Current, FoundOk, CollisionFree, Missing, PutAll, AddFound, Trim, Keys, EmbedTexts, Assembled;
    var p := s.pending[e.id];
    var ms := Missing(m, p.texts, p.found);
    AssembledIsExact(m, p);
    if ms == [] {
      NoKeys(m);
      NoUses(s.used);
    } else {
      StoreStaysCurrent(m, s.cache, s.used, ms, p.now);
    }
  }

  lemma NoKeys(m: Model)
    ensures Keys(m, []) == []
  {
  }

  lemma {:induction false} TraceKeeps(m: Model, tr: Trace)
    requires CollisionFree(m)
    ensures Inv(m, StateOf(m, tr))
  {
    match tr
    case Initially =>
    case Then(before, e) =>
      TraceKeeps(m, before);
      hide Inv;
      if e.Enter? {
        EnterKeeps(m, StateOf(m, before), e);
      } else if e.Finish? && e.id in StateOf(m, before).pending {
        FinishKeeps(m, StateOf(m, before), e);
      } else {
        DroppingPendingKeeps(m, StateOf(m, before), e);
      }
  }

  lemma DroppingPendingKeeps(m: Model, s: System, e: Event)
    requires Inv(m, s) && (e.EmbeddingFails? || (e.Finish? && e.id !in s.pending))
    ensures Inv(m, Next(m, s, e))
  {
  }

  /** Whatever the interleaving, every call returns exactly its texts' embeddings, duplicates
      included and in order; the cache never exceeds its bound between regions; and it always holds
      the most recently used keys. */
  lemma InterleavedCallsAreCorrect(m: Model, tr: Trace)
    requires CollisionFree(m)
    ensures forall id :: id in StateOf(m, tr).returned
                         ==> StateOf(m, tr).returned[id].vecs == EmbedTexts(m, StateOf(m, tr).returned[id].texts)
    ensures |StateOf(m, tr).cache.order| <= 4096
    ensures StateOf(m, tr).cache.order == LastN(StateOf(m, tr).used, 4096)
  {
    TraceKeeps(m, tr);
    hide StateOf;
    var s := StateOf(m, tr);
    forall id | id in s.returned
      ensures s.returned[id].vecs == EmbedTexts(m, s.returned[id].texts)
    {
      assert Correct(m, s.returned[id]);
    }
    CurrentIsRecent(m, s.cache, s.used);
  }

  lemma CurrentIsRecent(m: Model, cache: Cache, used: seq<string>)
    requires Current(m, cache, used)
    ensures |cache.order| <= CACHE_MAX && cache.order == LastN(used, CACHE_MAX)
  {
    TrimKeepsCover(CACHE_MAX, used, cache.order);
  }

  /** The keys that the calls of a run use, in order: on entry those it finds, then those it embeds. */
  function UsesOf(m: Model, tr: Trace): seq<string> {
    match tr
    case Initially => []
    case Then(before, Enter(_, texts, now)) =>
      UsesOf(m, before) + Hits(StateOf(m, before).cache.data, Keys(m, texts), now)
    case Then(before, Finish(id)) =>
      var pending := StateOf(m, before).pending;
      UsesOf(m, before)
      + (if id in pending then Keys(m, Missing(m, pending[id].texts, pending[id].found)) else [])
    case Then(before, EmbeddingFails(_)) => UsesOf(m, before)
  }

  lemma {:induction false} UsedIsUses(m: Model, tr: Trace)
    ensures StateOf(m, tr).used == TouchAll([], UsesOf(m, tr))
  {
    match tr
    case Initially =>
    case Then(before, e) =>
      UsedIsUses(m, before);
      var s := StateOf(m, before);
      hide Hits, Missing, Keys, TouchAll, Restored, Assembled;
      match e
      case Enter(_, texts, now) => TouchAllConcat([], UsesOf(m, before), Hits(s.cache.data, Keys(m, texts), now));
      case Finish(id) =>
        if id in s.pending {
          TouchAllConcat([], UsesOf(m, before), Keys(m, Missing(m, s.pending[id].texts, s.pending[id].found)));
        } else {
          assert UsesOf(m, tr) == UsesOf(m, before);
        }
      case EmbeddingFails(_) =>
  }

  /** What the cache holds, for every interleaving: the 4096 keys most recently found or embedded, the
      least recent first. */
  lemma CacheHoldsTheRecent(m: Model, tr: Trace)
    requires CollisionFree(m)
    ensures StateOf(m, tr).cache.order == LastN(TouchAll([], UsesOf(m, tr)), 4096)
  {
    InterleavedCallsAreCorrect(m, tr);
    UsedIsUses(m, tr);
  }

  // ---------------------------------------------------------------- how old a returned vector is

  /** This vector was logged for the text behind this key, by a call with this clock reading. */
  ghost predicate Logged(m: Model, log: seq<Embedding>, k: string, e: Stamped) {
    exists j :: 0 <= j < |log| && m.hash(log[j].text) == k && log[j].at == e.at && log[j].vec == e.vec
  }

  /** It was logged so by a call whose clock reading was less than the TTL before `now`. */
  ghost predicate Young(m: Model, log: seq<Embedding>, k: string, now: real, v: Vec) {
    exists j :: 0 <= j < |log| && m.hash(log[j].text) == k && now - log[j].at < TTL_S && log[j].vec == v
  }

  ghost predicate CacheLogged(m: Model, log: seq<Embedding>, data: map<string, Stamped>) {
    match m
    case Model(_, _) => forall k :: k in data ==> Logged(m, log, k, data[k])
  }

  ghost predicate FoundYoung(m: Model, log: seq<Embedding>, now: real, found: map<string, Vec>) {
    match m
    case Model(_, _) => forall k :: k in found ==> Young(m, log, k, now, found[k])
  }

  ghost predicate VecsYoung(m: Model, log: seq<Embedding>, o: Outcome) {
    match o
    case Outcome(texts, now, vecs, logged) =>
      && |vecs| == |texts| && logged <= |log|
      && forall i :: 0 <= i < |texts| ==> Young(m, log[..logged], m.hash(texts[i]), now, vecs[i])
  }

  ghost predicate AllYoung(m: Model, s: System) {
    match s
    case System(cache, _, pending, returned, log) =>
      && CacheLogged(m, log, cache.data)
      && (forall id :: id in pending ==> FoundYoung(m, log, pending[id].now, pending[id].found))
      && (forall id :: id in returned ==> VecsYoung(m, log, returned[id]))
  }

  lemma YoungLater(m: Model, log: seq<Embedding>, more: seq<Embedding>, k: string, now: real, v: Vec)
    requires Young(m, log, k, now, v)
    ensures Young(m, log + more, k, now, v)
  {
    var j :| 0 <= j < |log| && m.hash(log[j].text) == k && now - log[j].at < TTL_S && log[j].vec == v;
    assert (log + more)[j] == log[j];
  }

  lemma LoggedLater(m: Model, log: seq<Embedding>, more: seq<Embedding>, k: string, e: Stamped)
    requires Logged(m, log, k, e)
    ensures Logged(m, log + more, k, e)
  {
    var j :| 0 <= j < |log| && m.hash(log[j].text) == k && log[j].at == e.at && log[j].vec == e.vec;
    assert (log + more)[j] == log[j];
  }

  lemma NewIsLogged(m: Model, log: seq<Embedding>, texts: seq<string>, now: real, i: nat)
    requires i < |texts|
    ensures Logged(m, log + Embeddings(m, texts, now), m.hash(texts[i]), Stamped(now, m.embed(texts[i])))
    ensures Young(m, log + Embeddings(m, texts, now), m.hash(texts[i]), now, m.embed(texts[i]))
  {
    assert (log + Embeddings(m, texts, now))[|log| + i] == Embedding(texts[i], now, m.embed(texts[i]));
  }

  lemma ServedIsYoung(m: Model, log: seq<Embedding>, data: map<string, Stamped>, keys: seq<string>, now: real)
    requires CacheLogged(m, log, data)
    ensures FoundYoung(m, log, now, Served(data, keys, now))
  {
    forall k | k in Served(data, keys, now)
      ensures Young(m, log, k, now, data[k].vec)
    {
      assert Logged(m, log, k, data[k]);
    }
  }

  /** What the batch stores is new, the rest was there. */
  lemma {:induction false} PutAllData(m: Model, d: Cache, texts: seq<string>, now: real, k: string)
    requires k in PutAll(d, Keys(m, texts), EmbedTexts(m, texts), now).data
    ensures var e := PutAll(d, Keys(m, texts), EmbedTexts(m, texts), now);
            || (k in d.data && e.data[k] == d.data[k])
            || exists i :: 0 <= i < |texts| && m.hash(texts[i]) == k && e.data[k] == Stamped(now, m.embed(texts[i]))
    decreases |texts|
  {
    if texts != [] {
      var n := |texts| - 1;
      var front := texts[..n];
      assert texts == front + [texts[n]];
      PutAllPush(m, d, front, texts[n], now);
      hide Keys, EmbedTexts;
      if k != m.hash(texts[n]) {
        PutAllData(m, d, front, now, k);
        hide PutAll;
      }
    }
  }

  lemma {:induction false} AddFoundData(m: Model, found: map<string, Vec>, texts: seq<string>, k: string)
    requires k in AddFound(found, Keys(m, texts), EmbedTexts(m, texts))
    ensures var all := AddFound(found, Keys(m, texts), EmbedTexts(m, texts));
            || (k in found && all[k] == found[k])
            || exists i :: 0 <= i < |texts| && m.hash(texts[i]) == k && all[k] == m.embed(texts[i])
    decreases |texts|
  {
    if texts != [] {
      var n := |texts| - 1;
      var front := texts[..n];
      assert Keys(m, texts)[..n] == Keys(m, front) && EmbedTexts(m, texts)[..n] == EmbedTexts(m, front);
      if k != m.hash(texts[n]) { AddFoundData(m, found, front, k); }
    }
  }

  lemma StoreStaysLogged(m: Model, log: seq<Embedding>, d: Cache, ms: seq<string>, now: real)
    requires CacheLogged(m, log, d.data) && Valid(PutAll(d, Keys(m, ms), EmbedTexts(m, ms), now))
    ensures CacheLogged(m, log + Embeddings(m, ms, now),
                        Trim(PutAll(d, Keys(m, ms), EmbedTexts(m, ms), now), CACHE_MAX).data)
  {
    var e := PutAll(d, Keys(m, ms), EmbedTexts(m, ms), now);
    TrimKeepsLast(e, CACHE_MAX);
    forall k | k in Trim(e, CACHE_MAX).data
      ensures Logged(m, log + Embeddings(m, ms, now), k, e.data[k])
    {
      PutAllData(m, d, ms, now, k);
      hide PutAll, Trim, Logged, Embeddings;
      if k in d.data && e.data[k] == d.data[k] {
        LoggedLater(m, log, Embeddings(m, ms, now), k, d.data[k]);
      } else {
        var i :| 0 <= i < |ms| && m.hash(ms[i]) == k && e.data[k] == Stamped(now, m.embed(ms[i]));
        NewIsLogged(m, log, ms, now, i);
      }
    }
  }

  lemma AssembledIsYoung(m: Model, log: seq<Embedding>, p: Pending)
    requires CollisionFree(m) && FoundOk(m, p.found) && FoundYoung(m, log, p.now, p.found)
    ensures var ms := Missing(m, p.texts, p.found);
            VecsYoung(m, log + Embeddings(m, ms, p.now), Outcome(p.texts, p.now, Assembled(m, p), |log| + |ms|))
  {
    var ms := Missing(m, p.texts, p.found);
    var log' := log + Embeddings(m, ms, p.now);
    assert log'[..|log| + |ms|] == log';
    var all := AddFound(p.found, Keys(m, ms), EmbedTexts(m, ms));
    AllFound(m, p.texts, p.found);
    forall i | 0 <= i < |p.texts|
      ensures Young(m, log + Embeddings(m, ms, p.now), m.hash(p.texts[i]), p.now, all[m.hash(p.texts[i])])
    {
      var k := m.hash(p.texts[i]);
      AddFoundData(m, p.found, ms, k);
      hide AddFound, Missing, Young, Embeddings;
      if k in p.found && all[k] == p.found[k] {
        assert Young(m, log, k, p.now, p.found[k]);
        YoungLater(m, log, Embeddings(m, ms, p.now), k, p.now, p.found[k]);
      } else {
        var j :| 0 <= j < |ms| && m.hash(ms[j]) == k && all[k] == m.embed(ms[j]);
        NewIsLogged(m, log, ms, p.now, j);
      }
    }
  }

  lemma RestStaysYoung(m: Model, s: System, more: seq<Embedding>)
    requires AllYoung(m, s)
    ensures forall id :: id in s.pending ==> FoundYoung(m, s.log + more, s.pending[id].now, s.pending[id].found)
    ensures forall id :: id in s.returned ==> VecsYoung(m, s.log + more, s.returned[id])
  {
    forall k: string, now: real, v: Vec | Young(m, s.log, k, now, v)
      ensures Young(m, s.log + more, k, now, v)
    {
      YoungLater(m, s.log, more, k, now, v);
    }
    forall n: nat | n <= |s.log|
      ensures (s.log + more)[..n] == s.log[..n]
    {
    }
    hide Young;
  }

  lemma PendingIsOk(m: Model, s: System, id: nat)
    requires Inv(m, s) && AllYoung(m, s) && id in s.pending
    ensures FoundOk(m, s.pending[id].found) && Valid(s.cache) && Faithful(m, s.cache.data)
    ensures CacheLogged(m, s.log, s.cache.data)
    ensures FoundYoung(m, s.log, s.pending[id].now, s.pending[id].found)
  {
  }

  lemma RestoredIsLogged(m: Model, log: seq<Embedding>, cache: Cache, ms: seq<string>, now: real)
    requires CollisionFree(m) && Valid(cache) && Faithful(m, cache.data) && CacheLogged(m, log, cache.data)
    ensures CacheLogged(m, log + Embeddings(m, ms, now), Restored(m, cache, ms, now).data)
  {
    if ms == [] {
      assert log + Embeddings(m, ms, now) == log;
    } else {
      PutAllKeeps(m, cache, ms, now);
      StoreStaysLogged(m, log, cache, ms, now);
    }
  }

  lemma Finished(m: Model, s: System, e: Event)
    requires e.Finish? && e.id in s.pending
    ensures var p := s.pending[e.id];
            var ms := Missing(m, p.texts, p.found);
            var s' := Next(m, s, e);
            && s'.log == s.log + Embeddings(m, ms, p.now) && s'.cache == Restored(m, s.cache, ms, p.now)
            && s'.pending == s.pending - {e.id}
            && s'.returned == s.returned[e.id := Outcome(p.texts, p.now, Assembled(m, p), |s.log| + |ms|)]
  {
    hide Missing, Assembled, Embeddings, Keys, TouchAll, Restored;
  }

  lemma FinishStaysYoung(m: Model, s: System, e: Event)
    requires CollisionFree(m) && Inv(m, s) && AllYoung(m, s) && e.Finish? && e.id in s.pending
    ensures AllYoung(m, Next(m, s, e))
  {
    hide *;
    PendingIsOk(m, s, e.id);
    var p := s.pending[e.id];
    var ms := Missing(m, p.texts, p.found);
    Finished(m, s, e);
    RestoredIsLogged(m, s.log, s.cache, ms, p.now);
    AssembledIsYoung(m, s.log, p);
    RestStaysYoung(m, s, Embeddings(m, ms, p.now));
    ReturningStaysYoung(m, s, Next(m, s, e), e.id, Outcome(p.texts, p.now, Assembled(m, p), |s.log| + |ms|));
  }

  lemma ReturningStaysYoung(m: Model, s: System, s': System, id: nat, o: Outcome)
    requires s'.pending == s.pending - {id} && s'.returned == s.returned[id := o]
    requires CacheLogged(m, s'.log, s'.cache.data) && VecsYoung(m, s'.log, o)
    requires forall i :: i in s.pending ==> FoundYoung(m, s'.log, s.pending[i].now, s.pending[i].found)
    requires forall i :: i in s.returned ==> VecsYoung(m, s'.log, s.returned[i])
    ensures AllYoung(m, s')
  {
    hide CacheLogged, FoundYoung, VecsYoung;
  }

  lemma EnterStaysYoung(m: Model, s: System, e: Event)
    requires AllYoung(m, s) && e.Enter?
    ensures AllYoung(m, Next(m, s, e))
  {
    ServedIsYoung(m, s.log, s.cache.data, Keys(m, e.texts), e.now);
    hide CacheLogged, FoundYoung, VecsYoung, Hits, Served, Keys, TouchAll;
  }

  lemma DroppingPendingStaysYoung(m: Model, s: System, e: Event)
    requires AllYoung(m, s) && (e.EmbeddingFails? || (e.Finish? && e.id !in s.pending))
    ensures AllYoung(m, Next(m, s, e))
  {
    hide CacheLogged, FoundYoung, VecsYoung;
  }

  lemma {:induction false} TraceStaysYoung(m: Model, tr: Trace)
    requires CollisionFree(m)
    ensures AllYoung(m, StateOf(m, tr))
  {
    match tr
    case Initially =>
    case Then(before, e) =>
      TraceStaysYoung(m, before);
      hide AllYoung;
      if e.Enter? {
        EnterStaysYoung(m, StateOf(m, before), e);
      } else if e.Finish? && e.id in StateOf(m, before).pending {
        TraceKeeps(m, before);
        hide Inv;
        FinishStaysYoung(m, StateOf(m, before), e);
      } else {
        DroppingPendingStaysYoung(m, StateOf(m, before), e);
      }
  }

  /** Whatever the interleaving, every vector a call returns had been embedded from its own text by the
      time it returned, by a call whose clock reading was less than the TTL before this call's: none is
      served at or past it. */
  lemma ReturnedVectorsAreYoung(m: Model, tr: Trace, id: nat, i: nat)
    requires CollisionFree(m) && id in StateOf(m, tr).returned && i < |StateOf(m, tr).returned[id].texts|
    ensures var s := StateOf(m, tr);
            var o := s.returned[id];
            && |o.vecs| == |o.texts| && o.logged <= |s.log|
            && exists j :: 0 <= j < o.logged && s.log[j].text == o.texts[i] && s.log[j].vec == o.vecs[i]
                           && o.now - s.log[j].at < 21600.0
  {
    TraceStaysYoung(m, tr);
    hide StateOf;
    var s := StateOf(m, tr);
    var o := s.returned[id];
    assert VecsYoung(m, s.log, o);
    var log := s.log[..o.logged];
    var j :| 0 <= j < |log| && m.hash(log[j].text) == m.hash(o.texts[i]) && o.now - log[j].at < TTL_S
             && log[j].vec == o.vecs[i];
    assert s.log[j].text == o.texts[i];
  }

  /** A call embeds exactly the texts that have no vector in the cache, or one at least six hours old. */
  lemma OnlyMissesAreEmbedded(m: Model, data: map<string, Stamped>, texts: seq<string>, now: real, t: string)
    ensures t in Missing(m, texts, Served(data, Keys(m, texts), now))
            <==> t in texts && (m.hash(t) !in data || now - data[m.hash(t)].at >= 21600.0)
  {
    var keys := Keys(m, texts);
    MissingExact(m, texts, Served(data, keys, now));
    if t in texts {
      var i :| 0 <= i < |texts| && texts[i] == t;
      assert keys[i] == m.hash(t);
    }
    hide Missing;
  }

  /** The log holds only what was embedded: each entry is its text's vector. */
  lemma {:induction false} LogIsExact(m: Model, tr: Trace, j: nat)
    requires j < |StateOf(m, tr).log|
    ensures StateOf(m, tr).log[j].vec == m.embed(StateOf(m, tr).log[j].text)
  {
    var Then(before, _) := tr;
    if j < |StateOf(m, before).log| { LogIsExact(m, before, j); }
  }
}
