/** The "Also on eBay" cache of `dealfinder/shop.py` (`ebay_box`): one time to live per entry, short
    for failures, and a least-recently-used bound. */
module EbayBox {
  import opened Options
  import opened OrderedDicts

  const CACHE_TTL_S := 900.0
  const FAILURE_TTL_S := 60.0
  const CACHE_MAX := 256

  datatype Item = Item(id: string, title: string, price: real)

  datatype Rows = Rows(at: real, items: seq<Item>, ttl: real)

  function Take(items: seq<Item>, limit: nat): seq<Item> { if |items| <= limit then items else items[..limit] }

  /** The rows of one search, or none when it raised, and how long they may be kept. */
  function Shown(response: Option<seq<Item>>, limit: nat): seq<Item> {
    if response.Some? then Take(response.value, limit) else []
  }

  function TtlOf(response: Option<seq<Item>>): real { if response.Some? then CACHE_TTL_S else FAILURE_TTL_S }

  predicate Hit(cache: OrderedDict<Rows>, key: string, now: real) {
    key in cache.data && now - cache.data[key].at < cache.data[key].ttl
  }

  function Stored(cache: OrderedDict<Rows>, key: string, rows: Rows): OrderedDict<Rows> {
    Trim(Put(cache, key, rows), CACHE_MAX)
  }

  class Box {
    var cache: OrderedDict<Rows>

    constructor ()
      ensures cache == OrderedDict([], map[])
    {
      cache := OrderedDict([], map[]);
    }

    /** An undisturbed call; `response` is what eBay would answer, if it is asked. */
    method Ask(key: string, limit: nat, now: real, response: Option<seq<Item>>) returns (items: seq<Item>, asked: bool)
      modifies this
      ensures asked == !Hit(old(cache), key, now)
      ensures items == if asked then Shown(response, limit) else Take(old(cache).data[key].items, limit)
      ensures cache == if asked then Stored(old(cache), key, Rows(now, Shown(response, limit), TtlOf(response)))
                       else MoveToEnd(old(cache), key)
    {
      if key in cache.data && now - cache.data[key].at < cache.data[key].ttl {
        items, asked := Take(cache.data[key].items, limit), false;
        cache := MoveToEnd(cache, key);
        return;
      }
      items, asked := Shown(response, limit), true;
      cache := Put(cache, key, Rows(now, items, TtlOf(response)));
      while |cache.order| > CACHE_MAX
        invariant Trim(cache, CACHE_MAX) == Stored(old(cache), key, Rows(now, items, TtlOf(response)))
        decreases |cache.order|
      {
        cache := OrderedDict(cache.order[1..], cache.data - {cache.order[0]});
      }
    }
  }

  // ---------------------------------------------------------------- interleaved calls

  datatype Request = Request(key: string, limit: nat, now: real)

  /** One search of eBay, made for a request. */
  datatype Search = Search(request: Request, response: Option<seq<Item>>)

  datatype Reply = Reply(request: Request, items: seq<Item>)

  datatype System = System(cache: OrderedDict<Rows>, pending: map<nat, Request>, log: seq<Search>, replies: seq<Reply>)

  const EMPTY := System(OrderedDict([], map[]), map[], [], [])

  /** The first locked region of a call, or eBay's answer and the second one. */
  datatype Event = Enter(id: nat, r: Request) | Answer(id: nat, response: Option<seq<Item>>)

  function Next(s: System, e: Event): System {
    match e
    case Enter(id, r) =>
      if Hit(s.cache, r.key, r.now) then
        s.(cache := MoveToEnd(s.cache, r.key),
           replies := s.replies + [Reply(r, Take(s.cache.data[r.key].items, r.limit))])
      else s.(pending := s.pending[id := r])
    case Answer(id, response) =>
      if id !in s.pending then s
      else
        var r := s.pending[id];
        System(Stored(s.cache, r.key, Rows(r.now, Shown(response, r.limit), TtlOf(response))),
               s.pending - {id}, s.log + [Search(r, response)], s.replies + [Reply(r, Shown(response, r.limit))])
  }

  datatype Trace = Initially | Then(before: Trace, e: Event)

  function StateOf(tr: Trace): System {
    match tr
    case Initially => EMPTY
    case Then(before, e) => Next(StateOf(before), e)
  }

  /** `rows` is what some search for this key gave. */
  ghost predicate Fetched(log: seq<Search>, key: string, rows: Rows) {
    exists i :: 0 <= i < |log| && log[i].request.key == key
                && rows == Rows(log[i].request.now, Shown(log[i].response, log[i].request.limit),
                                TtlOf(log[i].response))
  }

  /** The reply's rows come from this search, which was for the same key and was made for this very
      request or begun less than its own time to live before it. */
  ghost predicate ComesFrom(search: Search, reply: Reply) {
    && search.request.key == reply.request.key
    && (search.request == reply.request
        || reply.request.now - search.request.now < if search.response.Some? then 900.0 else 60.0)
    && reply.items == Take(Shown(search.response, search.request.limit), reply.request.limit)
  }

  ghost predicate ReplyOk(log: seq<Search>, reply: Reply) {
    exists i :: 0 <= i < |log| && ComesFrom(log[i], reply)
  }

  ghost predicate CacheOk(log: seq<Search>, cache: OrderedDict<Rows>) {
    && Valid(cache) && |cache.order| <= 256
    && (forall k :: k in cache.data ==> Fetched(log, k, cache.data[k]))
  }

  ghost predicate Inv(s: System) {
    CacheOk(s.log, s.cache) && forall i :: 0 <= i < |s.replies| ==> ReplyOk(s.log, s.replies[i])
  }

  lemma FetchedLater(log: seq<Search>, more: Search, key: string, rows: Rows)
    requires Fetched(log, key, rows)
    ensures Fetched(log + [more], key, rows)
  {
    var i :| 0 <= i < |log| && log[i].request.key == key
             && rows == Rows(log[i].request.now, Shown(log[i].response, log[i].request.limit), TtlOf(log[i].response));
    assert (log + [more])[i] == log[i];
  }

  lemma ReplyOkLater(log: seq<Search>, more: Search, reply: Reply)
    requires ReplyOk(log, reply)
    ensures ReplyOk(log + [more], reply)
  {
    var i :| 0 <= i < |log| && ComesFrom(log[i], reply);
    assert (log + [more])[i] == log[i];
  }

  lemma HitKeeps(s: System, e: Event)
    requires Inv(s) && e.Enter? && Hit(s.cache, e.r.key, e.r.now)
    ensures Inv(Next(s, e))
  {
    var r := e.r;
    TouchKeepsDistinct(s.cache.order, r.key);
    TouchMember(s.cache.order, r.key);
    var rows := s.cache.data[r.key];
    assert Fetched(s.log, r.key, rows);
    var i :| 0 <= i < |s.log| && s.log[i].request.key == r.key
             && rows == Rows(s.log[i].request.now, Shown(s.log[i].response, s.log[i].request.limit),
                             TtlOf(s.log[i].response));
    assert ComesFrom(s.log[i], Reply(r, Take(rows.items, r.limit)));
    hide ComesFrom;
  }

  lemma StoredKeeps(log: seq<Search>, cache: OrderedDict<Rows>, r: Request, response: Option<seq<Item>>)
    requires CacheOk(log, cache)
    ensures CacheOk(log + [Search(r, response)],
                    Stored(cache, r.key, Rows(r.now, Shown(response, r.limit), TtlOf(response))))
  {
    var rows := Rows(r.now, Shown(response, r.limit), TtlOf(response));
    var log' := log + [Search(r, response)];
    PutKeepsValid(cache, r.key, rows);
    TrimKeepsLast(Put(cache, r.key, rows), CACHE_MAX);
    var cache' := Stored(cache, r.key, rows);
    forall k | k in cache'.data
      ensures Fetched(log', k, cache'.data[k])
    {
      if k == r.key {
        assert log'[|log|] == Search(r, response);
      } else {
        FetchedLater(log, Search(r, response), k, cache.data[k]);
      }
    }
  }

  lemma AnswerKeeps(s: System, e: Event)
    requires Inv(s) && e.Answer? && e.id in s.pending
    ensures Inv(Next(s, e))
  {
    var r := s.pending[e.id];
    StoredKeeps(s.log, s.cache, r, e.response);
    hide CacheOk, Stored, Fetched;
    var s' := Next(s, e);
    forall i | 0 <= i < |s'.replies|
      ensures ReplyOk(s'.log, s'.replies[i])
    {
      if i < |s.replies| {
        ReplyOkLater(s.log, Search(r, e.response), s.replies[i]);
      } else {
        assert ComesFrom(s'.log[|s.log|], s'.replies[i]);
      }
    }
  }

  /** Under any interleaving, no reply uses rows at or past their own time to live, and the cache
      keeps its bound. */
  lemma {:induction false} RepliesAreRecent(tr: Trace)
    ensures forall i :: 0 <= i < |StateOf(tr).replies| ==> ReplyOk(StateOf(tr).log, StateOf(tr).replies[i])
    ensures CacheOk(StateOf(tr).log, StateOf(tr).cache)
  {
    match tr
    case Initially =>
    case Then(before, e) =>
      RepliesAreRecent(before);
      hide CacheOk, ReplyOk, Hit;
      var s := StateOf(before);
      if e.Enter? && Hit(s.cache, e.r.key, e.r.now) {
        HitKeeps(s, e);
      } else if e.Answer? && e.id in s.pending {
        AnswerKeeps(s, e);
      }
  }

  /** In every reachable state, a request is answered at once exactly when its key has rows from a search
      less than 15 minutes before it, or less than a minute when that search failed. */
  lemma LiveRowsAreReused(tr: Trace, id: nat, r: Request) returns (i: nat)
    ensures var s, s' := StateOf(tr), Next(StateOf(tr), Enter(id, r));
            if r.key in s.cache.data then
              && i < |s.log| && Fetched([s.log[i]], r.key, s.cache.data[r.key])
              && (s'.replies != s.replies
                  <==> r.now - s.log[i].request.now < if s.log[i].response.Some? then 900.0 else 60.0)
            else s'.replies == s.replies && s'.pending == s.pending[id := r]
  {
    RepliesAreRecent(tr);
    var s := StateOf(tr);
    hide StateOf;
    i := 0;
    if r.key in s.cache.data {
      var rows := s.cache.data[r.key];
      assert Fetched(s.log, r.key, rows);
      i :| 0 <= i < |s.log| && s.log[i].request.key == r.key
           && rows == Rows(s.log[i].request.now, Shown(s.log[i].response, s.log[i].request.limit),
                           TtlOf(s.log[i].response));
      assert [s.log[i]][0] == s.log[i];
      if Hit(s.cache, r.key, r.now) {
        assert |Next(s, Enter(id, r)).replies| == |s.replies| + 1;
      }
    }
  }

  /** New rows go to the recent end, and only the 256 most recently used keys stay. */
  lemma StoredKeepsTheRecent(cache: OrderedDict<Rows>, key: string, rows: Rows)
    requires Valid(cache)
    ensures Stored(cache, key, rows).order == LastN(Touch(cache.order, key), 256)
    ensures key in Stored(cache, key, rows).data && Stored(cache, key, rows).data[key] == rows
  {
    var d := Put(cache, key, rows);
    PutKeepsValid(cache, key, rows);
    TrimKeepsLast(d, CACHE_MAX);
    var kept := Stored(cache, key, rows).order;
    assert kept[|kept| - 1] == key && key in kept;
  }

  function KeysUsed(replies: seq<Reply>): (keys: seq<string>)
    ensures |keys| == |replies| && forall i :: 0 <= i < |replies| ==> keys[i] == replies[i].request.key
  {
    seq(|replies|, i requires 0 <= i < |replies| => replies[i].request.key)
  }

  /** What the box holds, for every interleaving: the 256 keys most recently answered, from the cache or by
      eBay, the least recent first. */
  lemma {:induction false} CacheHoldsTheRecent(tr: Trace)
    ensures Valid(StateOf(tr).cache)
    ensures StateOf(tr).cache.order == LastN(TouchAll([], KeysUsed(StateOf(tr).replies)), 256)
  {
    match tr
    case Initially =>
    case Then(before, e) =>
      CacheHoldsTheRecent(before);
      var s := StateOf(before);
      RepliesAreRecent(tr);
      if e.Enter? && Hit(s.cache, e.r.key, e.r.now) {
        HitIsUse(s, e);
      } else if e.Answer? && e.id in s.pending {
        AnswerIsUse(s, e);
      }
  }

  lemma UsePushed(replies: seq<Reply>, reply: Reply)
    ensures TouchAll([], KeysUsed(replies + [reply])) == Touch(TouchAll([], KeysUsed(replies)), reply.request.key)
  {
    hide Touch;
    assert KeysUsed(replies + [reply])[..|replies|] == KeysUsed(replies);
  }

  lemma HitIsUse(s: System, e: Event)
    requires e.Enter? && Hit(s.cache, e.r.key, e.r.now) && Valid(s.cache)
    requires s.cache.order == LastN(TouchAll([], KeysUsed(s.replies)), 256)
    ensures Next(s, e).cache.order == LastN(TouchAll([], KeysUsed(Next(s, e).replies)), 256)
  {
    var used := TouchAll([], KeysUsed(s.replies));
    var s' := Next(s, e);
    TouchAllKeeps([], KeysUsed(s.replies));
    assert e.r.key in s.cache.order;
    hide TouchAll, Touch, LastN;
    UsePushed(s.replies, s'.replies[|s.replies|]);
    RecentEndKept(256, used, e.r.key);
  }

  lemma AnswerIsUse(s: System, e: Event)
    requires e.Answer? && e.id in s.pending && Valid(s.cache)
    requires s.cache.order == LastN(TouchAll([], KeysUsed(s.replies)), 256)
    ensures Next(s, e).cache.order == LastN(TouchAll([], KeysUsed(Next(s, e).replies)), 256)
  {
    var used := TouchAll([], KeysUsed(s.replies));
    var r := s.pending[e.id];
    var rows := Rows(r.now, Shown(e.response, r.limit), TtlOf(e.response));
    TouchAllKeeps([], KeysUsed(s.replies));
    UsePushed(s.replies, Reply(r, Shown(e.response, r.limit)));
    StoredKeepsTheRecent(s.cache, r.key, rows);
    hide TouchAll, Without, Stored;
    TouchKeepsCover(256, used, s.cache.order, r.key);
    TrimKeepsCover(256, Touch(used, r.key), Touch(s.cache.order, r.key));
  }

  // ---------------------------------------------------------------- the cache against the plain search

  /** Where the cache and the plain search disagree, for every reply under any interleaving: it comes
      from some search, and whatever eBay had of which that search showed the first rows, the reply
      is what a plain search of the same stock shows if and only if it asked for no more than that
      search did, or there was no more. */
  lemma ReplyEqualsPlainSearch(tr: Trace, i: nat) returns (j: nat)
    requires i < |StateOf(tr).replies|
    ensures j < |StateOf(tr).log| && ComesFrom(StateOf(tr).log[j], StateOf(tr).replies[i])
    ensures var search, reply := StateOf(tr).log[j], StateOf(tr).replies[i];
            forall stock ::
              search.response.Some? && Shown(search.response, search.request.limit) == Take(stock, search.request.limit)
              ==> (reply.items == Take(stock, reply.request.limit)
                   <==> reply.request.limit <= search.request.limit || |stock| <= search.request.limit)
  {
    RepliesAreRecent(tr);
    var log, reply := StateOf(tr).log, StateOf(tr).replies[i];
    hide StateOf;
    assert ReplyOk(log, reply);
    j :| 0 <= j < |log| && ComesFrom(log[j], reply);
    forall stock | Shown(log[j].response, log[j].request.limit) == Take(stock, log[j].request.limit)
      ensures reply.items == Take(stock, reply.request.limit)
              <==> reply.request.limit <= log[j].request.limit || |stock| <= log[j].request.limit
    {
    }
  }

  /** The short reply happens: after a search for few rows, a call for more of a larger stock that comes
      within the time to live gets only the few, and eBay is not asked again. */
  lemma LargerRequestIsCutShort(key: string, stock: seq<Item>, few: nat, more: nat, now: real, later: real)
    returns (tr: Trace)
    requires few < more && few < |stock| && now <= later < now + CACHE_TTL_S
    ensures |StateOf(tr).replies| == 2 && |StateOf(tr).log| == 1
    ensures StateOf(tr).replies[1] == Reply(Request(key, more, later), Take(stock, few))
    ensures Take(stock, few) != Take(stock, more)
  {
    var asked, shown := Request(key, few, now), Rows(now, Take(stock, few), CACHE_TTL_S);
    tr := Then(Initially, Enter(0, asked));
    assert StateOf(tr) == EMPTY.(pending := map[0 := asked]);
    tr := Then(tr, Answer(0, Some(stock)));
    assert StateOf(tr).cache == Stored(EMPTY.cache, key, shown)
           && StateOf(tr).replies == [Reply(asked, Take(stock, few))];
    hide Stored;
    tr := Then(tr, Enter(1, Request(key, more, later)));
    assert Take(Take(stock, few), more) == Take(stock, few);
    assert |Take(stock, few)| < |Take(stock, more)|;
  }

}
