/** The bounded-memory limiter of `dealfinder/ratelimit.py`: one path's table of client deques,
    its two-stage cleanup, and what any run of requests can get through it. Paths do not share
    state, so a run is a run of one path; `Limiter` below holds one table per path. */
module RateLimit {
  import opened Options
  import opened Compliance
  import opened Sets

  const SHRINK_EVERY_S := 1.0

  datatype Params = Params(limit: nat, window: real, maxKeys: nat)

  type Table = map<string, seq<real>>

  datatype PathState = PathState(events: Table, lastShrink: Option<real>)

  // ---------------------------------------------------------------- cleanup, by meaning

  predicate StrLe(a: string, b: string) {
    a == "" || (b != "" && (a[0] < b[0] || (a[0] == b[0] && StrLe(a[1..], b[1..]))))
  }

  datatype Stamped = Stamped(last: real, key: string)

  /** Python's order on the (last seen, key) pairs. */
  predicate LessRecent(x: Stamped, y: Stamped) {
    x.last < y.last || (x.last == y.last && StrLe(x.key, y.key))
  }

  function Last(ev: seq<real>): real { if ev == [] then 0.0 else ev[|ev| - 1] }

  predicate Idle(ev: seq<real>, cutoff: real) { ev == [] || Last(ev) <= cutoff }

  function Live(events: Table, cutoff: real): Table {
    map k | k in events && !Idle(events[k], cutoff) :: events[k]
  }

  function Open(events: Table, limit: nat): set<string> { set k | k in events && |events[k]| < limit }

  function AtLimit(events: Table, limit: nat): set<string> { set k | k in events && |events[k]| >= limit }

  function Stamp(events: Table, k: string): Stamped
    requires k in events
  {
    Stamped(Last(events[k]), k)
  }

  /** 90% of the cap: `int(max_keys * 0.9)` in exact arithmetic. */
  function Target(maxKeys: nat): nat { 9 * maxKeys / 10 }

  function DropCount(live: nat, open: nat, target: nat): nat {
    if live <= target then 0 else if live - target < open then live - target else open
  }

  /** Nobody kept open was seen less recently than somebody dropped. */
  ghost predicate LeastRecent(live: Table, limit: nat, dropped: set<string>) {
    forall d, k :: d in dropped && d in live && k in Open(live, limit) - dropped
                   ==> LessRecent(Stamp(live, d), Stamp(live, k))
  }

  /** `dropped` is the least recently seen open clients, as many as the target asks. */
  ghost predicate DropsFrom(P: Params, live: Table, dropped: set<string>, events': Table) {
    && dropped <= Open(live, P.limit)
    && |dropped| == DropCount(|live|, |Open(live, P.limit)|, Target(P.maxKeys))
    && LeastRecent(live, P.limit, dropped)
    && events' == live - dropped
  }

  /** Idle clients go first. */
  ghost predicate Shrinks(P: Params, events: Table, now: real, dropped: set<string>, events': Table) {
    DropsFrom(P, Live(events, now - P.window), dropped, events')
  }

  ghost predicate MayShrink(P: Params, s: PathState, now: real, dropped: set<string>, s': PathState) {
    if s.lastShrink.None? || now - s.lastShrink.value >= SHRINK_EVERY_S then
      s'.lastShrink == Some(now) && Shrinks(P, s.events, now, dropped, s'.events)
    else
      s' == s && dropped == {}
  }

  lemma OpenOrAtLimit(events: Table, limit: nat)
    ensures |Open(events, limit)| + |AtLimit(events, limit)| == |events|
  {
    var o, f := Open(events, limit), AtLimit(events, limit);
    assert o + f == events.Keys && o !! f;
    assert |o + f| == |o| + |f|;
  }

  function Min(a: int, b: int): int { if a <= b then a else b }

  function Max(a: int, b: int): int { if a <= b then b else a }

  lemma DropCountFits(live: nat, open: nat, limited: nat, target: nat)
    requires live == open + limited
    ensures live - DropCount(live, open, target) == Min(live, Max(target, limited))
  {
  }

  /** The exact size after a cleanup; no client at its limit is dropped. */
  lemma ShrinkSize(P: Params, events: Table, now: real, dropped: set<string>, events': Table)
    requires Shrinks(P, events, now, dropped, events')
    ensures |events'| == Min(|Live(events, now - P.window)|,
                             Max(Target(P.maxKeys), |AtLimit(Live(events, now - P.window), P.limit)|))
    ensures AtLimit(events', P.limit) == AtLimit(Live(events, now - P.window), P.limit)
  {
    hide Live, DropCount, Min, Max, Target;
    var live := Live(events, now - P.window);
    OpenOrAtLimit(live, P.limit);
    DropCountFits(|live|, |Open(live, P.limit)|, |AtLimit(live, P.limit)|, Target(P.maxKeys));
    DroppedSize(live, dropped);
  }

  lemma DroppedSize(live: Table, dropped: set<string>)
    requires dropped <= live.Keys
    ensures |live - dropped| == |live| - |dropped|
  {
    assert (live - dropped).Keys == live.Keys - dropped;
    assert |live.Keys - dropped| == |live.Keys| - |dropped|;
  }

  /** a comes no later than b in code point order: a is a prefix of b, or they first differ at a smaller
      character of a. */
  ghost predicate NoLaterInOrder(a: string, b: string) {
    a <= b || exists i :: 0 <= i < |a| && i < |b| && a[..i] == b[..i] && a[i] < b[i]
  }

  lemma {:induction false} StrLeIsOrder(a: string, b: string)
    requires StrLe(a, b)
    ensures NoLaterInOrder(a, b)
  {
    if a != "" && a[0] == b[0] {
      StrLeIsOrder(a[1..], b[1..]);
      if i :| 0 <= i < |a| - 1 && i < |b| - 1 && a[1..][..i] == b[1..][..i] && a[1..][i] < b[1..][i] {
        assert a[..i + 1] == [a[0]] + a[1..][..i] && b[..i + 1] == [b[0]] + b[1..][..i];
        assert a[i + 1] < b[i + 1];
      }
    } else if a != "" {
      assert a[..0] == b[..0];
    }
  }

  /** The client has a stamp in the window that ends now. */
  predicate Active(P: Params, events: Table, k: string, now: real) {
    k in events && events[k] != [] && events[k][|events[k]| - 1] > now - P.window
  }

  /** A cleanup, on the deques: nothing is added or changed, inactive clients go, clients at their limit
      stay, and so many go that the table is at 90% of the cap, or full of clients at their limit. */
  lemma CleanupIsExact(P: Params, events: Table, now: real, dropped: set<string>, events': Table)
    requires Shrinks(P, events, now, dropped, events')
    ensures forall k :: k in events' ==> Active(P, events, k, now) && events'[k] == events[k]
    ensures forall k :: Active(P, events, k, now) && |events[k]| >= P.limit ==> k in events'
    ensures var live := set k | k in events && Active(P, events, k, now);
            var limited := set k | k in events && Active(P, events, k, now) && |events[k]| >= P.limit;
            var aim := if |limited| > 9 * P.maxKeys / 10 then |limited| else 9 * P.maxKeys / 10;
            |events'| == if |live| <= aim then |live| else aim
  {
    CleanupSize(P, events, now, dropped, events');
    hide LeastRecent, DropCount, Target;
  }

  /** No active client that goes was seen later than one under its limit that stays, nor at the same time
      with a later name. */
  lemma DroppedWasSeenEarlier(P: Params, events: Table, now: real, dropped: set<string>, events': Table,
                              d: string, k: string)
    requires Shrinks(P, events, now, dropped, events')
    requires Active(P, events, d, now) && d !in events' && k in events' && |events'[k]| < P.limit
    ensures k in events && events[k] != [] && events[d] != []
    ensures events[d][|events[d]| - 1] <= events[k][|events[k]| - 1]
    ensures events[d][|events[d]| - 1] == events[k][|events[k]| - 1] ==> NoLaterInOrder(d, k)
  {
    var live := Live(events, now - P.window);
    assert LessRecent(Stamp(live, d), Stamp(live, k));
    if Last(events[d]) == Last(events[k]) { StrLeIsOrder(d, k); }
    hide NoLaterInOrder;
  }

  lemma ActiveAreLive(P: Params, events: Table, now: real)
    ensures Live(events, now - P.window).Keys == set k | k in events && Active(P, events, k, now)
    ensures AtLimit(Live(events, now - P.window), P.limit)
            == set k | k in events && Active(P, events, k, now) && |events[k]| >= P.limit
  {
  }

  lemma CleanupSize(P: Params, events: Table, now: real, dropped: set<string>, events': Table)
    requires Shrinks(P, events, now, dropped, events')
    ensures var live := set k | k in events && Active(P, events, k, now);
            var limited := set k | k in events && Active(P, events, k, now) && |events[k]| >= P.limit;
            var aim := if |limited| > 9 * P.maxKeys / 10 then |limited| else 9 * P.maxKeys / 10;
            |events'| == if |live| <= aim then |live| else aim
  {
    ShrinkSize(P, events, now, dropped, events');
    ActiveAreLive(P, events, now);
    hide Shrinks, Live, AtLimit, Active;
    assert |Live(events, now - P.window)| == |Live(events, now - P.window).Keys|;
  }

  // ---------------------------------------------------------------- one request

  function Deque(events: Table, k: string): seq<real> { if k in events then events[k] else [] }

  function Crowded(P: Params, s: PathState, key: string): bool {
    key !in s.events && |s.events| >= 2 * P.maxKeys
  }

  /** One request, and which clients its cleanups dropped while still open. */
  datatype Visit = Visit(key: string, now: real, droppedFirst: set<string>, entered: PathState,
                         reply: Option<real>, droppedLast: set<string>, after: PathState)

  /** The request was turned away without reaching the window, the table being full. */
  ghost predicate TurnedAway(P: Params, s: PathState, v: Visit) {
    Crowded(P, s, v.key) && |v.entered.events| >= 2 * P.maxKeys
  }

  ghost predicate Enters(P: Params, s: PathState, v: Visit) {
    if Crowded(P, s, v.key) then MayShrink(P, s, v.now, v.droppedFirst, v.entered)
    else v.entered == s && v.droppedFirst == {}
  }

  /** The table once the window has judged the request. */
  function Judged(P: Params, v: Visit): PathState {
    var ev := Deque(v.entered.events, v.key);
    v.entered.(events := v.entered.events[v.key := Admit(P.limit, P.window, ev, v.now)])
  }

  ghost predicate Settles(P: Params, v: Visit) {
    if |Judged(P, v).events| > P.maxKeys then MayShrink(P, Judged(P, v), v.now, v.droppedLast, v.after)
    else v.after == Judged(P, v) && v.droppedLast == {}
  }

  ghost predicate Step(P: Params, s: PathState, v: Visit) {
    && Enters(P, s, v)
    && if TurnedAway(P, s, v) then
         v.reply == Some(P.window) && v.after == v.entered && v.droppedLast == {}
       else
         && Settles(P, v)
         && var kept := Expire(Deque(v.entered.events, v.key), v.now - P.window);
            v.reply == if |kept| < P.limit then None
                       else if kept == [] then Some(P.window)   // only for a limit of 0
                       else Some(kept[0] + P.window - v.now)
  }

  const FRESH := PathState(map[], None)

  /** The requests one path has seen, last outermost. */
  datatype Trace = Nothing | After(past: Trace, visit: Visit)

  function StateAfter(tr: Trace): PathState {
    match tr
    case Nothing => FRESH
    case After(_, v) => v.after
  }

  ghost predicate EndsBy(tr: Trace, now: real) {
    match tr
    case Nothing => true
    case After(_, v) => v.now <= now
  }

  /** In this run, request v came after the requests of `past`. */
  ghost predicate Came(tr: Trace, past: Trace, v: Visit) {
    match tr
    case Nothing => false
    case After(before, w) => (before == past && w == v) || Came(before, past, v)
  }

  /** Any traffic at all, under a clock that never goes back: every request was one step. */
  ghost predicate Run(P: Params, tr: Trace) {
    forall past, v :: Came(tr, past, v) ==> EndsBy(past, v.now) && Step(P, StateAfter(past), v)
  }

  lemma LastStep(P: Params, past: Trace, v: Visit)
    requires Run(P, After(past, v))
    ensures Run(P, past) && Step(P, StateAfter(past), v) && EndsBy(past, v.now)
  {
    hide Step, EndsBy, StateAfter;
    assert Came(After(past, v), past, v);
    forall before, w | Came(past, before, w)
      ensures Came(After(past, v), before, w)
    {
    }
  }

  // ---------------------------------------------------------------- one client's history

  /** What happened to one client: it was admitted, or dropped as least recently seen. */
  datatype Entry = Admitted(at: real) | Dropped(at: real)

  datatype History = Start | Then(past: History, e: Entry)

  /** One request's effect on client k's history. */
  function Logged(h: History, v: Visit, k: string): History {
    var h := if k in v.droppedFirst then Then(h, Dropped(v.now)) else h;
    var h := if v.key == k && v.reply.None? then Then(h, Admitted(v.now)) else h;
    if k in v.droppedLast then Then(h, Dropped(v.now)) else h
  }

  function Log(tr: Trace, k: string): History {
    match tr
    case Nothing => Start
    case After(past, v) => Logged(Log(past, k), v, k)
  }

  /** The admissions since the client was last dropped: what a limiter without cleanup would hold. */
  function Remembered(h: History): seq<real> {
    match h
    case Start => []
    case Then(past, Admitted(t)) => Remembered(past) + [t]
    case Then(past, Dropped(_)) => []
  }

  function AdmittedIn(h: History, lo: real, hi: real): nat {
    match h
    case Start => 0
    case Then(past, e) => AdmittedIn(past, lo, hi) + (if e.Admitted? && lo < e.at <= hi then 1 else 0)
  }

  function DroppedIn(h: History, lo: real, hi: real): nat {
    match h
    case Start => 0
    case Then(past, e) => DroppedIn(past, lo, hi) + (if e.Dropped? && lo < e.at <= hi then 1 else 0)
  }

  ghost predicate NoLaterThan(h: History, t: real) {
    match h
    case Start => true
    case Then(past, e) => e.at <= t && NoLaterThan(past, t)
  }

  ghost predicate DropsBy(h: History, t: Option<real>) {
    match h
    case Start => true
    case Then(past, e) => (e.Dropped? ==> t.Some? && e.at <= t.value) && DropsBy(past, t)
  }

  /** The next entry comes no earlier, is made while under the limit, and, if it is a drop, at least
      a cleanup interval after every other drop. */
  ghost predicate MayFollow(P: Params, h: History, e: Entry) {
    && NoLaterThan(h, e.at)
    && CountAfter(Remembered(h), e.at - P.window) < P.limit
    && (e.Dropped? ==> DropsBy(h, Some(e.at - SHRINK_EVERY_S)))
  }

  ghost predicate ValidLog(P: Params, h: History) {
    match h
    case Start => true
    case Then(past, e) => ValidLog(P, past) && MayFollow(P, past, e)
  }

  lemma {:induction false} NoLaterThanWeaken(h: History, t: real, u: real)
    requires NoLaterThan(h, t) && t <= u
    ensures NoLaterThan(h, u)
  {
    match h
    case Start =>
    case Then(past, _) => NoLaterThanWeaken(past, t, u);
  }

  lemma {:induction false} DropsByWeaken(h: History, t: Option<real>, u: Option<real>)
    requires DropsBy(h, t) && (t.Some? ==> u.Some? && t.value <= u.value)
    ensures DropsBy(h, u)
  {
    match h
    case Start =>
    case Then(past, _) => DropsByWeaken(past, t, u);
  }

  lemma {:induction false} CountAfterLater(ev: seq<real>, early: real, late: real)
    requires early <= late
    ensures CountAfter(ev, late) <= CountAfter(ev, early)
  {
    if ev != [] { CountAfterLater(ev[..|ev| - 1], early, late); }
  }

  lemma CountAfterPush(g: seq<real>, t: real, cutoff: real)
    ensures CountAfter(g + [t], cutoff) == CountAfter(g, cutoff) + (if t > cutoff then 1 else 0)
  {
    assert (g + [t])[..|g|] == g;
  }

  lemma {:induction false} NothingRemembered(h: History, lo: real)
    requires NoLaterThan(h, lo)
    ensures CountAfter(Remembered(h), lo) == 0
  {
    match h
    case Start =>
    case Then(past, e) =>
      NothingRemembered(past, lo);
      CountAfterPush(Remembered(past), e.at, lo);
  }

  /** What `drops` forgotten histories can add: limit - 1 admissions each. */
  function Extra(limit: nat, drops: nat): int { if drops == 0 then 0 else Extra(limit, drops - 1) + limit - 1 }

  lemma ExtraGrows(limit: nat, drops: nat)
    ensures Extra(limit, 0) == 0
    ensures Extra(limit, drops + 1) == Extra(limit, drops) + limit - 1
  {
  }

  lemma {:induction false} ExtraIsProduct(limit: nat, drops: nat)
    ensures Extra(limit, drops) == (limit - 1) * drops
  {
    if drops > 0 { ExtraIsProduct(limit, drops - 1); }
  }

  /** The counting argument, for the entries up to hi: admissions in the window are the ones still
      remembered, plus at most limit - 1 for each drop in the window. */
  lemma {:induction false} WindowCount(P: Params, h: History, hi: real)
    requires P.limit >= 1 && ValidLog(P, h) && NoLaterThan(h, hi)
    ensures CountAfter(Remembered(h), hi - P.window) <= P.limit
    ensures AdmittedIn(h, hi - P.window, hi)
            <= CountAfter(Remembered(h), hi - P.window) + Extra(P.limit, DroppedIn(h, hi - P.window, hi))
  {
    hide CountAfter, Extra;
    var lo := hi - P.window;
    ExtraGrows(P.limit, 0);
    NothingRemembered(Start, lo);
    match h
    case Start =>
    case Then(past, e) =>
      WindowCount(P, past, hi);
      CountAfterLater(Remembered(past), e.at - P.window, lo);
      if e.Admitted? {
        CountAfterPush(Remembered(past), e.at, lo);
      } else if e.at > lo {
        ExtraGrows(P.limit, DroppedIn(past, lo, hi));
      } else {
        NoLaterThanWeaken(past, e.at, lo);
        NothingRemembered(past, lo);
      }
  }

  lemma {:induction false} WindowBound(P: Params, h: History, hi: real)
    requires P.limit >= 1 && ValidLog(P, h)
    ensures AdmittedIn(h, hi - P.window, hi) <= P.limit + Extra(P.limit, DroppedIn(h, hi - P.window, hi))
  {
    hide CountAfter, Extra, Remembered;
    match h
    case Start =>
      WindowCount(P, h, hi);
    case Then(past, e) =>
      if e.at <= hi {
        NoLaterThanWeaken(past, e.at, hi);
        WindowCount(P, h, hi);
      } else {
        WindowBound(P, past, hi);
      }
  }

  /** Drops are a cleanup interval apart, so few fit in a window; x is the last of them. */
  lemma {:induction false} DropsAreSpaced(P: Params, h: History, lo: real, hi: real) returns (x: real)
    requires ValidLog(P, h) && DroppedIn(h, lo, hi) >= 1
    ensures lo < x <= hi && forall t: real :: DropsBy(h, Some(t)) ==> x <= t
    ensures (DroppedIn(h, lo, hi) - 1) as real * SHRINK_EVERY_S < x - lo
  {
    hide CountAfter, Remembered;
    var Then(past, e) := h;
    if DroppedIn(past, lo, hi) >= 1 {
      x := DropsAreSpaced(P, past, lo, hi);
      if e.Dropped? && lo < e.at <= hi {
        assert x <= e.at - SHRINK_EVERY_S;
        x := e.at;
      }
    } else {
      x := e.at;
    }
  }

  // ---------------------------------------------------------------- what every run keeps

  /** The deque is the remembered admissions minus a prefix that has left the window. */
  ghost predicate Tracks(P: Params, g: seq<real>, dq: seq<real>, clock: real) {
    && Sorted(g) && (forall i :: 0 <= i < |g| ==> g[i] <= clock)
    && SuffixOf(g, dq)
    && (forall i :: 0 <= i < |g| - |dq| ==> g[i] <= clock - P.window)
  }

  lemma TracksLater(P: Params, g: seq<real>, dq: seq<real>, clock: real, now: real)
    requires Tracks(P, g, dq, clock) && clock <= now
    ensures Tracks(P, g, dq, now)
  {
  }

  lemma TracksExpired(P: Params, g: seq<real>, dq: seq<real>, now: real)
    requires Tracks(P, g, dq, now)
    ensures Tracks(P, g, Expire(dq, now - P.window), now)
    ensures forall i :: |g| - |Expire(dq, now - P.window)| <= i < |g| ==> g[i] > now - P.window
  {
    ExpireSuffix(dq, now - P.window);
    hide Expire;
    var kept, k := Expire(dq, now - P.window), |g| - |dq|;
    forall i | 0 <= i < |g|
      ensures i < |g| - |kept| ==> g[i] <= now - P.window
      ensures i >= |g| - |kept| ==> g[i] > now - P.window
    {
      if k <= i < |g| - |kept| {
        assert dq[i - k] == g[i];
      } else if i >= |g| - |kept| {
        assert kept[0] == dq[|dq| - |kept|] == g[|g| - |kept|];
      }
    }
    forall i | 0 <= i < |kept|
      ensures kept[i] == g[|g| - |kept| + i]
    {
      assert dq[|dq| - |kept| + i] == g[k + (|dq| - |kept| + i)];
    }
  }

  lemma TracksCounts(P: Params, g: seq<real>, dq: seq<real>, now: real)
    requires Tracks(P, g, dq, now)
    ensures CountAfter(g, now - P.window) == |Expire(dq, now - P.window)| <= |dq|
  {
    hide CountAfter, Expire;
    TracksExpired(P, g, dq, now);
    ExpireSuffix(dq, now - P.window);
    SplitCounts(g, |g| - |Expire(dq, now - P.window)|, now - P.window);
  }

  lemma TracksPush(P: Params, g: seq<real>, dq: seq<real>, now: real)
    requires Tracks(P, g, dq, now)
    ensures Tracks(P, g + [now], dq + [now], now)
  {
  }

  /** The window's verdict is the naive one: fewer than `limit` remembered admissions in the window. */
  lemma TracksAdmit(P: Params, g: seq<real>, dq: seq<real>, now: real)
    requires Tracks(P, g, dq, now)
    ensures Allows(P.limit, P.window, dq, now) <==> CountAfter(g, now - P.window) < P.limit
    ensures Tracks(P, if Allows(P.limit, P.window, dq, now) then g + [now] else g,
                   Admit(P.limit, P.window, dq, now), now)
  {
    hide CountAfter, Expire, Tracks;
    TracksCounts(P, g, dq, now);
    TracksExpired(P, g, dq, now);
    TracksPush(P, g, Expire(dq, now - P.window), now);
  }

  lemma TracksIdle(P: Params, g: seq<real>, dq: seq<real>, now: real)
    requires Tracks(P, g, dq, now) && Idle(dq, now - P.window)
    ensures Tracks(P, g, [], now)
  {
    var k := |g| - |dq|;
    forall i | 0 <= i < |g|
      ensures g[i] <= now - P.window
    {
      if i >= k { assert g[i] == dq[i - k] <= Last(dq); }
    }
  }

  lemma EmptyTracks(P: Params, now: real)
    ensures Tracks(P, [], [], now)
  {
  }

  /** One client's side of the invariant. */
  ghost predicate ClientOk(P: Params, s: PathState, h: History, k: string, clock: real) {
    && ValidLog(P, h) && NoLaterThan(h, clock) && DropsBy(h, s.lastShrink)
    && Tracks(P, Remembered(h), Deque(s.events, k), clock)
  }

  lemma ClientLater(P: Params, s: PathState, h: History, k: string, clock: real, now: real)
    requires ClientOk(P, s, h, k, clock) && clock <= now
    ensures ClientOk(P, s, h, k, now)
  {
    hide Tracks, Remembered;
    TracksLater(P, Remembered(h), Deque(s.events, k), clock, now);
    NoLaterThanWeaken(h, clock, now);
  }

  /** What a cleanup can do to one client: drop it while open, drop it idle, or leave it alone. */
  lemma CleanupFate(P: Params, s: PathState, now: real, dropped: set<string>, s': PathState, k: string)
    requires MayShrink(P, s, now, dropped, s')
    ensures k in dropped ==> |Deque(s.events, k)| < P.limit && k !in s'.events && s'.lastShrink == Some(now)
                             && (s.lastShrink.Some? ==> now - s.lastShrink.value >= SHRINK_EVERY_S)
    ensures k !in dropped && k in s.events && k !in s'.events ==> Idle(s.events[k], now - P.window)
    ensures k in s'.events ==> k in s.events && s'.events[k] == s.events[k]
    ensures s'.lastShrink == s.lastShrink || s'.lastShrink == Some(now)
  {
  }

  function LogDrop(h: History, k: string, now: real, dropped: set<string>): History {
    if k in dropped then Then(h, Dropped(now)) else h
  }

  lemma DropIsLogged(P: Params, s: PathState, h: History, k: string, now: real)
    requires ClientOk(P, s, h, k, now) && |Deque(s.events, k)| < P.limit
    requires s.lastShrink.Some? ==> now - s.lastShrink.value >= SHRINK_EVERY_S
    ensures ValidLog(P, Then(h, Dropped(now))) && DropsBy(Then(h, Dropped(now)), Some(now))
  {
    hide Tracks, CountAfter, Expire;
    TracksCounts(P, Remembered(h), Deque(s.events, k), now);
    DropsByWeaken(h, s.lastShrink, Some(now - SHRINK_EVERY_S));
    DropsByWeaken(h, s.lastShrink, Some(now));
  }

  /** A cleanup keeps the client's side, logging a drop when the client is dropped while open. */
  lemma CleanupKeepsClient(P: Params, s: PathState, h: History, k: string, now: real, dropped: set<string>,
                           s': PathState)
    requires ClientOk(P, s, h, k, now) && MayShrink(P, s, now, dropped, s')
    requires s.lastShrink.Some? ==> s.lastShrink.value <= now
    ensures ClientOk(P, s', LogDrop(h, k, now, dropped), k, now)
    ensures s'.lastShrink.Some? ==> s'.lastShrink.value <= now
  {
    hide MayShrink, CountAfter, Tracks;
    CleanupFate(P, s, now, dropped, s', k);
    if k in dropped {
      DropIsLogged(P, s, h, k, now);
      EmptyTracks(P, now);
    } else {
      DropsByWeaken(h, s.lastShrink, s'.lastShrink);
      if k in s.events && k !in s'.events {
        TracksIdle(P, Remembered(h), Deque(s.events, k), now);
      }
    }
  }

  lemma JudgingKeepsClient(P: Params, h: History, v: Visit, k: string)
    requires ClientOk(P, v.entered, h, k, v.now)
    ensures ClientOk(P, Judged(P, v),
                     if v.key == k && Allows(P.limit, P.window, Deque(v.entered.events, v.key), v.now)
                     then Then(h, Admitted(v.now)) else h, k, v.now)
  {
    hide CountAfter, Expire, Tracks, Admit, Allows;
    if v.key == k {
      TracksAdmit(P, Remembered(h), Deque(v.entered.events, k), v.now);
    }
  }

  /** The table's side: deques sorted, current and within the limit; the hard ceiling on clients. */
  ghost predicate TableOk(P: Params, s: PathState, clock: real) {
    && (forall k :: k in s.events ==> Sorted(s.events[k]) && s.events[k] != [] && |s.events[k]| <= P.limit)
    && (forall k, i :: k in s.events && 0 <= i < |s.events[k]| ==> s.events[k][i] <= clock)
    && |s.events| <= 2 * P.maxKeys
    && (s.lastShrink.Some? ==> s.lastShrink.value <= clock)
  }

  lemma CleanupKeepsTable(P: Params, s: PathState, now: real, dropped: set<string>, s': PathState)
    requires TableOk(P, s, now) && MayShrink(P, s, now, dropped, s')
    ensures TableOk(P, s', now) && |s'.events| <= |s.events|
    ensures s'.events.Keys <= s.events.Keys && forall k :: k in s'.events ==> s'.events[k] == s.events[k]
  {
    assert s'.events.Keys <= s.events.Keys;
    SubsetSize(s'.events.Keys, s.events.Keys);
  }

  lemma AdmitKeepsDeque(limit: nat, window: real, ev: seq<real>, now: real)
    requires limit >= 1 && Sorted(ev) && |ev| <= limit && forall i :: 0 <= i < |ev| ==> ev[i] <= now
    ensures Sorted(Admit(limit, window, ev, now)) && Admit(limit, window, ev, now) != []
    ensures |Admit(limit, window, ev, now)| <= limit
    ensures forall i :: 0 <= i < |Admit(limit, window, ev, now)| ==> Admit(limit, window, ev, now)[i] <= now
  {
    ExpireSuffix(ev, now - window);
    hide Expire;
  }

  lemma JudgingKeepsTable(P: Params, v: Visit)
    requires P.limit >= 1 && TableOk(P, v.entered, v.now)
             && !(v.key !in v.entered.events && |v.entered.events| >= 2 * P.maxKeys)
    ensures TableOk(P, Judged(P, v), v.now)
  {
    hide Admit;
    AdmitKeepsDeque(P.limit, P.window, Deque(v.entered.events, v.key), v.now);
    var t := Judged(P, v).events;
    assert t.Keys == v.entered.events.Keys + {v.key};
  }

  lemma StepKeepsTable(P: Params, s: PathState, v: Visit)
    requires P.limit >= 1 && TableOk(P, s, v.now) && Step(P, s, v)
    ensures TableOk(P, v.entered, v.now) && TableOk(P, v.after, v.now)
  {
    hide TableOk, Expire, Admit, Shrinks;
    if Crowded(P, s, v.key) {
      CleanupKeepsTable(P, s, v.now, v.droppedFirst, v.entered);
    }
    if !TurnedAway(P, s, v) {
      JudgingKeepsTable(P, v);
      if |Judged(P, v).events| > P.maxKeys {
        CleanupKeepsTable(P, Judged(P, v), v.now, v.droppedLast, v.after);
      }
    }
  }

  lemma CleanupIsPast(P: Params, s: PathState, now: real)
    requires TableOk(P, s, now)
    ensures s.lastShrink.Some? ==> s.lastShrink.value <= now
  {
  }

  lemma StepKeepsClient(P: Params, s: PathState, v: Visit, h: History, k: string)
    requires P.limit >= 1 && TableOk(P, s, v.now) && ClientOk(P, s, h, k, v.now) && Step(P, s, v)
    ensures ClientOk(P, v.after, Logged(h, v, k), k, v.now)
  {
    hide TableOk, ClientOk, Expire, Admit, Shrinks;
    CleanupIsPast(P, s, v.now);
    if Crowded(P, s, v.key) {
      CleanupKeepsClient(P, s, h, k, v.now, v.droppedFirst, v.entered);
    }
    if !TurnedAway(P, s, v) {
      var h1 := LogDrop(h, k, v.now, v.droppedFirst);
      JudgingKeepsClient(P, h1, v, k);
      if |Judged(P, v).events| > P.maxKeys {
        var h2 := if v.key == k && v.reply.None? then Then(h1, Admitted(v.now)) else h1;
        CleanupKeepsClient(P, Judged(P, v), h2, k, v.now, v.droppedLast, v.after);
      }
    }
  }

  lemma TableLater(P: Params, s: PathState, clock: real, now: real)
    requires TableOk(P, s, clock) && clock <= now
    ensures TableOk(P, s, now)
  {
  }

  lemma FreshIsOk(P: Params, k: string, now: real)
    ensures TableOk(P, FRESH, now) && ClientOk(P, FRESH, Start, k, now)
  {
    EmptyTracks(P, now);
  }

  /** Both invariants hold after every run. */
  lemma {:induction false} RunKeepsInvariant(P: Params, tr: Trace, k: string, now: real)
    requires P.limit >= 1 && Run(P, tr) && EndsBy(tr, now)
    ensures TableOk(P, StateAfter(tr), now)
    ensures ClientOk(P, StateAfter(tr), Log(tr, k), k, now)
  {
    hide TableOk, ClientOk, Step, Logged;
    match tr
    case Nothing => FreshIsOk(P, k, now);
    case After(past, v) =>
      LastStep(P, past, v);
      hide Run;
      RunKeepsInvariant(P, past, k, v.now);
      StepKeepsTable(P, StateAfter(past), v);
      StepKeepsClient(P, StateAfter(past), v, Log(past, k), k);
      TableLater(P, v.after, v.now, now);
      ClientLater(P, v.after, Log(tr, k), k, v.now, now);
  }

  // ---------------------------------------------------------------- theorems about runs

  /** Requests of client k admitted in (lo, hi]. */
  function Admissions(tr: Trace, k: string, lo: real, hi: real): nat {
    match tr
    case Nothing => 0
    case After(past, v) =>
      (if v.key == k && v.reply.None? && lo < v.now <= hi then 1 else 0) + Admissions(past, k, lo, hi)
  }

  /** Times in (lo, hi] that a cleanup dropped client k while it was under its limit. */
  function Evictions(tr: Trace, k: string, lo: real, hi: real): nat {
    match tr
    case Nothing => 0
    case After(past, v) =>
      (if k in v.droppedFirst && lo < v.now <= hi then 1 else 0)
        + (if k in v.droppedLast && lo < v.now <= hi then 1 else 0)
      + Evictions(past, k, lo, hi)
  }

  lemma LoggedCounts(h: History, v: Visit, k: string, lo: real, hi: real)
    ensures AdmittedIn(Logged(h, v, k), lo, hi)
            == AdmittedIn(h, lo, hi) + (if v.key == k && v.reply.None? && lo < v.now <= hi then 1 else 0)
    ensures DroppedIn(Logged(h, v, k), lo, hi)
            == DroppedIn(h, lo, hi) + (if k in v.droppedFirst && lo < v.now <= hi then 1 else 0)
               + (if k in v.droppedLast && lo < v.now <= hi then 1 else 0)
  {
    var h1 := if k in v.droppedFirst then Then(h, Dropped(v.now)) else h;
    var h2 := if v.key == k && v.reply.None? then Then(h1, Admitted(v.now)) else h1;
    assert AdmittedIn(h2, lo, hi)
           == AdmittedIn(h1, lo, hi) + (if v.key == k && v.reply.None? && lo < v.now <= hi then 1 else 0);
    assert DroppedIn(h2, lo, hi) == DroppedIn(h1, lo, hi);
  }

  lemma {:induction false} LogCounts(tr: Trace, k: string, lo: real, hi: real)
    ensures AdmittedIn(Log(tr, k), lo, hi) == Admissions(tr, k, lo, hi)
    ensures DroppedIn(Log(tr, k), lo, hi) == Evictions(tr, k, lo, hi)
  {
    match tr
    case Nothing =>
    case After(past, v) =>
      LogCounts(past, k, lo, hi);
      LoggedCounts(Log(past, k), v, k, lo, hi);
  }

  function EndOf(tr: Trace): real {
    match tr
    case Nothing => 0.0
    case After(_, v) => v.now
  }

  lemma RunHasValidLog(P: Params, tr: Trace, k: string)
    requires P.limit >= 1 && Run(P, tr)
    ensures ValidLog(P, Log(tr, k))
  {
    RunKeepsInvariant(P, tr, k, EndOf(tr));
  }

  /** The guarantee under any traffic: in any window a client gets its limit, plus at most limit - 1
      more for each time a cleanup forgot it there. */
  lemma AdmissionBound(P: Params, tr: Trace, k: string, t: real)
    requires P.limit >= 1 && Run(P, tr)
    ensures Admissions(tr, k, t - P.window, t) <= P.limit + (P.limit - 1) * Evictions(tr, k, t - P.window, t)
  {
    hide *;
    ExtraIsProduct(P.limit, Evictions(tr, k, t - P.window, t));
    RunHasValidLog(P, tr, k);
    WindowBound(P, Log(tr, k), t);
    LogCounts(tr, k, t - P.window, t);
  }

  /** Cleanups are a second apart, so few of them fit in a window: E - 1 < window / 1 s. */
  lemma EvictionsAreRare(P: Params, tr: Trace, k: string, t: real)
    requires P.limit >= 1 && Run(P, tr) && Evictions(tr, k, t - P.window, t) >= 1
    ensures (Evictions(tr, k, t - P.window, t) - 1) as real * SHRINK_EVERY_S < P.window
  {
    hide *;
    RunHasValidLog(P, tr, k);
    LogCounts(tr, k, t - P.window, t);
    var x := DropsAreSpaced(P, Log(tr, k), t - P.window, t);
  }

  // ---------------------------------------------------------------- the bound is reached

  /** n admissions at one moment. */
  function Stamps(now: real, n: nat): (r: seq<real>)
    ensures |r| == n && forall i :: 0 <= i < n ==> r[i] == now
  {
    seq(n, _ => now)
  }

  lemma AddStep(P: Params, tr: Trace, v: Visit)
    requires Run(P, tr) && EndsBy(tr, v.now) && Step(P, StateAfter(tr), v)
    ensures Run(P, After(tr, v))
  {
    hide Step, EndsBy, StateAfter;
    forall past, w | Came(After(tr, v), past, w)
      ensures EndsBy(past, w.now) && Step(P, StateAfter(past), w)
    {
      if !(past == tr && w == v) { assert Came(tr, past, w); }
    }
  }

  /** What one client's `admitted` admissions and `dropped` evictions at this moment add to the counts. */
  ghost predicate Adds(tr: Trace, tr': Trace, k: string, now: real, admitted: nat, dropped: nat) {
    forall lo: real, hi: real :: lo < now <= hi ==>
      && Admissions(tr', k, lo, hi) == Admissions(tr, k, lo, hi) + admitted
      && Evictions(tr', k, lo, hi) == Evictions(tr, k, lo, hi) + dropped
  }

  lemma StampsStay(P: Params, now: real, n: nat)
    requires P.window > 0.0 && n < P.limit
    ensures Expire(Stamps(now, n), now - P.window) == Stamps(now, n)
    ensures Admit(P.limit, P.window, Stamps(now, n), now) == Stamps(now, n + 1)
  {
    assert Stamps(now, n) + [now] == Stamps(now, n + 1);
  }

  function OneClient(k: string, now: real, n: nat, lastShrink: Option<real>): PathState {
    PathState(if n == 0 then map[] else map[k := Stamps(now, n)], lastShrink)
  }

  /** One more request of a client that is alone in the table and under its limit. */
  lemma OneMore(P: Params, tr: Trace, k: string, now: real, n: nat, last: Option<real>) returns (tr': Trace)
    requires Run(P, tr) && EndsBy(tr, now) && P.window > 0.0 && P.maxKeys == 1 && n < P.limit
    requires StateAfter(tr) == OneClient(k, now, n, last)
    ensures Run(P, tr') && EndsBy(tr', now) && StateAfter(tr') == OneClient(k, now, n + 1, last)
    ensures Adds(tr, tr', k, now, 1, 0)
  {
    StampsStay(P, now, n);
    var s := StateAfter(tr);
    var v := Visit(k, now, {}, s, None, {}, OneClient(k, now, n + 1, last));
    assert Deque(s.events, k) == Stamps(now, n);
    assert Judged(P, v) == v.after;
    assert |v.after.events| == 1;
    assert Step(P, s, v);
    hide Step;
    AddStep(P, tr, v);
    tr' := After(tr, v);
  }

  lemma {:induction false} ManyMore(P: Params, tr: Trace, k: string, now: real, n: nat, last: Option<real>)
    returns (tr': Trace)
    requires Run(P, tr) && EndsBy(tr, now) && P.window > 0.0 && P.maxKeys == 1 && n <= P.limit
    requires StateAfter(tr) == PathState(map[], last)
    ensures Run(P, tr') && EndsBy(tr', now) && StateAfter(tr') == OneClient(k, now, n, last)
    ensures Adds(tr, tr', k, now, n, 0)
  {
    tr' := tr;
    if n > 0 {
      tr' := ManyMore(P, tr, k, now, n - 1, last);
      hide Run, EndsBy, StateAfter, OneClient, Admissions, Evictions;
      tr' := OneMore(P, tr', k, now, n - 1, last);
    }
  }

  /** A second client makes the table overflow, and the cleanup forgets both. */
  lemma Overflow(P: Params, tr: Trace, k: string, x: string, now: real, last: Option<real>) returns (tr': Trace)
    requires Run(P, tr) && EndsBy(tr, now) && P.window > 0.0 && P.maxKeys == 1 && P.limit >= 2 && k != x
    requires StateAfter(tr) == OneClient(k, now, P.limit - 1, last)
    requires last.Some? ==> now - last.value >= SHRINK_EVERY_S
    ensures Run(P, tr') && EndsBy(tr', now) && StateAfter(tr') == PathState(map[], Some(now))
    ensures Adds(tr, tr', k, now, 0, 1)
  {
    var v := Flood(StateAfter(tr), k, x, now);
    FloodIsStep(P, k, x, now, last);
    hide Step;
    AddStep(P, tr, v);
    tr' := After(tr, v);
  }

  /** The request of x that makes a cleanup forget k and x. */
  function Flood(s: PathState, k: string, x: string, now: real): Visit {
    Visit(x, now, {}, s, None, {k, x}, PathState(map[], Some(now)))
  }

  lemma FloodIsStep(P: Params, k: string, x: string, now: real, last: Option<real>)
    requires P.window > 0.0 && P.maxKeys == 1 && P.limit >= 2 && k != x
    requires last.Some? ==> now - last.value >= SHRINK_EVERY_S
    ensures var s := OneClient(k, now, P.limit - 1, last); Step(P, s, Flood(s, k, x, now))
  {
    var s := OneClient(k, now, P.limit - 1, last);
    var v := Flood(s, k, x, now);
    StampsStay(P, now, 0);
    BothAreDropped(P, k, x, now);
    hide Shrinks, Admit, Expire;
    var full := map[k := Stamps(now, P.limit - 1), x := Stamps(now, 1)];
    assert Deque(s.events, x) == Stamps(now, 0);
    assert Judged(P, v) == PathState(full, last);
    assert full.Keys == {k, x};
    assert |full| == |full.Keys| == 2;
  }

  lemma BothAreDropped(P: Params, k: string, x: string, now: real)
    requires P.window > 0.0 && P.maxKeys == 1 && P.limit >= 2 && k != x
    ensures Shrinks(P, map[k := Stamps(now, P.limit - 1), x := Stamps(now, 1)], now, {k, x}, map[])
  {
    var full := map[k := Stamps(now, P.limit - 1), x := Stamps(now, 1)];
    assert Live(full, now - P.window) == full;
    assert Open(full, P.limit) == {k, x} == full.Keys;
    assert |full| == |full.Keys| == 2;
    assert full - {k, x} == map[];
  }

  /** E rounds, a second apart: limit - 1 requests of the client, and a flood that makes it forgotten. */
  lemma {:induction false} Rounds(P: Params, k: string, x: string, drops: nat) returns (tr: Trace)
    requires P.window > 0.0 && P.maxKeys == 1 && P.limit >= 2 && k != x
    ensures Run(P, tr) && EndsBy(tr, (drops - 1) as real)
    ensures StateAfter(tr) == PathState(map[], if drops == 0 then None else Some((drops - 1) as real))
    ensures forall lo: real, hi: real :: lo < 0.0 && (drops - 1) as real <= hi ==>
              Admissions(tr, k, lo, hi) == Extra(P.limit, drops) && Evictions(tr, k, lo, hi) == drops
  {
    tr := Nothing;
    if drops > 0 {
      var now := (drops - 1) as real;
      var last := if drops == 1 then None else Some((drops - 2) as real);
      var before := Rounds(P, k, x, drops - 1);
      hide Run, StateAfter, OneClient, Admissions, Evictions;
      EndsLater(before, (drops - 2) as real, now);
      tr := ManyMore(P, before, k, now, P.limit - 1, last);
      tr := Overflow(P, tr, k, x, now, last);
    }
  }

  lemma EndsLater(tr: Trace, early: real, late: real)
    requires EndsBy(tr, early) && early <= late
    ensures EndsBy(tr, late)
  {
  }

  /** AdmissionBound cannot be improved: for every limit above 1, every window and every number of
      evictions that EvictionsAreRare allows in it, some run reaches it. */
  lemma BoundIsReached(P: Params, k: string, x: string, drops: nat) returns (tr: Trace, t: real)
    requires P.maxKeys == 1 && P.limit >= 2 && P.window > 0.0 && k != x
    requires (drops - 1) as real * SHRINK_EVERY_S < P.window
    ensures Run(P, tr) && Evictions(tr, k, t - P.window, t) == drops
    ensures Admissions(tr, k, t - P.window, t) == P.limit + (P.limit - 1) * drops
  {
    var end := (drops - 1) as real;
    t := if drops == 0 then 0.0 else end;
    var before := Rounds(P, k, x, drops);
    hide Run, StateAfter, OneClient, Admissions, Evictions;
    EndsLater(before, end, t);
    tr := ManyMore(P, before, k, t, P.limit, if drops == 0 then None else Some(end));
    ExtraIsProduct(P.limit, drops);
  }

  // ---------------------------------------------------------------- verdicts and memory

  lemma EnteredDeque(P: Params, s: PathState, v: Visit)
    requires P.limit >= 1 && TableOk(P, s, v.now) && Step(P, s, v) && !TurnedAway(P, s, v)
    ensures Deque(v.entered.events, v.key) == Deque(s.events, v.key)
    ensures v.reply.None? <==> Allows(P.limit, P.window, Deque(s.events, v.key), v.now)
  {
    if Crowded(P, s, v.key) {
      CleanupKeepsTable(P, s, v.now, v.droppedFirst, v.entered);
    }
  }

  lemma DequeTracks(P: Params, s: PathState, h: History, k: string, now: real)
    requires ClientOk(P, s, h, k, now)
    ensures Tracks(P, Remembered(h), Deque(s.events, k), now)
  {
  }

  /** Each verdict is the naive limiter's: admitted exactly when fewer than `limit` of the client's
      admissions since it was last dropped lie in the window. */
  lemma VerdictIsNaive(P: Params, past: Trace, v: Visit)
    requires P.limit >= 1 && Run(P, After(past, v)) && !TurnedAway(P, StateAfter(past), v)
    ensures v.reply.None? <==> CountAfter(Remembered(Log(past, v.key)), v.now - P.window) < P.limit
  {
    hide *;
    LastStep(P, past, v);
    RunKeepsInvariant(P, past, v.key, v.now);
    EnteredDeque(P, StateAfter(past), v);
    DequeTracks(P, StateAfter(past), Log(past, v.key), v.key, v.now);
    TracksAdmit(P, Remembered(Log(past, v.key)), Deque(StateAfter(past).events, v.key), v.now);
  }

  /** No path's table ever holds more than twice the cap. */
  lemma MemoryIsBounded(P: Params, tr: Trace)
    requires P.limit >= 1 && Run(P, tr)
    ensures |StateAfter(tr).events| <= 2 * P.maxKeys
  {
    RunKeepsInvariant(P, tr, "", EndOf(tr));
  }

  // ---------------------------------------------------------------- refusals

  /** Client k is tracked with the full deque `d`. */
  ghost predicate Full(P: Params, s: PathState, k: string, d: seq<real>) {
    k in s.events && s.events[k] == d && |d| >= P.limit
  }

  /** A full client whose oldest admission is still in the window survives every cleanup. */
  lemma CleanupKeepsFull(P: Params, s: PathState, now: real, dropped: set<string>, s': PathState, k: string,
                         d: seq<real>)
    requires P.limit >= 1 && TableOk(P, s, now) && MayShrink(P, s, now, dropped, s')
    requires Full(P, s, k, d) && now < d[0] + P.window
    ensures Full(P, s', k, d)
  {
    assert d[0] <= Last(d);
  }

  lemma UnexpiredStays(P: Params, d: seq<real>, now: real)
    requires |d| >= P.limit >= 1 && now < d[0] + P.window
    ensures Expire(d, now - P.window) == d && Admit(P.limit, P.window, d, now) == d
  {
  }

  lemma StepKeepsFull(P: Params, s: PathState, v: Visit, k: string, d: seq<real>)
    requires P.limit >= 1 && TableOk(P, s, v.now) && Step(P, s, v)
    requires Full(P, s, k, d) && v.now < d[0] + P.window
    ensures Full(P, v.after, k, d)
    ensures v.key == k ==> v.reply == Some(d[0] + P.window - v.now)
  {
    hide TableOk, Expire, Admit, Shrinks;
    UnexpiredStays(P, d, v.now);
    StepKeepsTable(P, s, v);
    if Crowded(P, s, v.key) {
      CleanupKeepsFull(P, s, v.now, v.droppedFirst, v.entered, k, d);
    }
    if !TurnedAway(P, s, v) {
      assert Full(P, Judged(P, v), k, d);
      JudgingKeepsTable(P, v);
      if |Judged(P, v).events| > P.maxKeys {
        CleanupKeepsFull(P, Judged(P, v), v.now, v.droppedLast, v.after, k, d);
      }
    }
  }

  lemma FullIsFreed(P: Params, s: PathState, v: Visit, d: seq<real>)
    requires P.limit >= 1 && TableOk(P, s, v.now) && Step(P, s, v)
    requires Full(P, s, v.key, d) && v.now >= d[0] + P.window
    ensures v.reply.None?
  {
    ExpireSuffix(d[1..], v.now - P.window);
  }

  lemma ExpiredIsPast(P: Params, s: PathState, k: string, now: real)
    requires TableOk(P, s, now)
    ensures var d := Expire(Deque(s.events, k), now - P.window); d != [] ==> now - P.window < d[0] <= now
  {
    ExpireSuffix(Deque(s.events, k), now - P.window);
  }

  lemma RefusedDeque(P: Params, s: PathState, v: Visit) returns (d: seq<real>)
    requires P.limit >= 1 && TableOk(P, v.entered, v.now) && Step(P, s, v)
    requires !TurnedAway(P, s, v) && v.reply.Some?
    ensures |d| >= P.limit && v.now - P.window < d[0] <= v.now
    ensures Full(P, Judged(P, v), v.key, d) && v.reply == Some(d[0] + P.window - v.now)
  {
    hide Expire, MayShrink, TableOk, Crowded;
    d := Expire(Deque(v.entered.events, v.key), v.now - P.window);
    ExpiredIsPast(P, v.entered, v.key, v.now);
  }

  /** A refusal of a tracked client names the exact wait, within the window, and reads the front of a
      deque that the cleanup left in place. */
  lemma RefusalIsExact(P: Params, s: PathState, v: Visit)
    requires P.limit >= 1 && TableOk(P, s, v.now) && Step(P, s, v)
    requires !TurnedAway(P, s, v) && v.reply.Some?
    ensures 0.0 < v.reply.value <= P.window
    ensures v.key in v.after.events && v.after.events[v.key] != []
    ensures v.reply == Some(v.after.events[v.key][0] + P.window - v.now)
    ensures Full(P, v.after, v.key, v.after.events[v.key])
  {
    hide TableOk, Expire, Admit, Shrinks, Judged;
    StepKeepsTable(P, s, v);
    var d := RefusedDeque(P, s, v);
    JudgingKeepsTable(P, v);
    if |Judged(P, v).events| > P.maxKeys {
      CleanupKeepsFull(P, Judged(P, v), v.now, v.droppedLast, v.after, v.key, d);
    }
  }

  /** The run goes on from `past` with requests before `end` only. */
  ghost predicate GoesOn(tr: Trace, past: Trace, end: real) {
    match tr
    case Nothing => past == Nothing
    case After(before, v) => tr == past || (GoesOn(before, past, end) && v.now < end)
  }

  lemma StepFromTable(P: Params, past: Trace, v: Visit)
    requires P.limit >= 1 && Run(P, After(past, v))
    ensures TableOk(P, StateAfter(past), v.now) && Step(P, StateAfter(past), v)
  {
    LastStep(P, past, v);
    hide TableOk, ClientOk, Step;
    RunKeepsInvariant(P, past, "", v.now);
  }

  lemma {:induction false} StaysFull(P: Params, tr: Trace, past: Trace, k: string, d: seq<real>)
    requires P.limit >= 1 && Run(P, tr) && |d| >= 1 && GoesOn(tr, past, d[0] + P.window)
    requires Full(P, StateAfter(past), k, d)
    ensures Full(P, StateAfter(tr), k, d)
  {
    hide Step, TableOk, Full, Run;
    if tr != past {
      LastStep(P, tr.past, tr.visit);
      StaysFull(P, tr.past, past, k, d);
      StepFromTable(P, tr.past, tr.visit);
      StepKeepsFull(P, StateAfter(tr.past), tr.visit, k, d);
    }
  }

  lemma {:induction false} EarlierRun(P: Params, tr: Trace, past: Trace, end: real)
    requires Run(P, tr) && GoesOn(tr, past, end)
    ensures Run(P, past)
  {
    hide Step, Run;
    if tr != past {
      LastStep(P, tr.past, tr.visit);
      EarlierRun(P, tr.past, past, end);
    }
  }

  lemma RefusalFills(P: Params, past: Trace, v: Visit) returns (d: seq<real>)
    requires P.limit >= 1 && Run(P, After(past, v)) && v.reply.Some? && !TurnedAway(P, StateAfter(past), v)
    ensures |d| >= 1 && Full(P, StateAfter(After(past, v)), v.key, d) && v.reply == Some(d[0] + P.window - v.now)
  {
    StepFromTable(P, past, v);
    RefusalIsExact(P, StateAfter(past), v);
    hide Run, Step, TableOk, TurnedAway;
    d := v.after.events[v.key];
  }

  lemma FullUntil(P: Params, s: PathState, w: Visit, d: seq<real>)
    requires P.limit >= 1 && |d| >= 1 && TableOk(P, s, w.now) && Step(P, s, w) && Full(P, s, w.key, d)
    ensures w.now < d[0] + P.window ==> w.reply == Some(d[0] + P.window - w.now)
    ensures w.now >= d[0] + P.window ==> w.reply.None?
  {
    hide *;
    if w.now < d[0] + P.window {
      StepKeepsFull(P, s, w, w.key, d);
    } else {
      FullIsFreed(P, s, w, d);
    }
  }

  /** After a refusal v the client stays refused, with the matching wait, until the moment reported,
      whatever other clients do; its first request from that moment on is admitted, if no other
      request reached the path from that moment on first. */
  lemma RefusedUntil(P: Params, past: Trace, v: Visit, tr: Trace, w: Visit)
    requires P.limit >= 1 && Run(P, After(tr, w)) && w.key == v.key
    requires v.reply.Some? && !TurnedAway(P, StateAfter(past), v)
    requires GoesOn(tr, After(past, v), v.now + v.reply.value)
    ensures w.now < v.now + v.reply.value ==> w.reply == Some(v.now + v.reply.value - w.now)
    ensures w.now >= v.now + v.reply.value ==> w.reply.None?
  {
    hide *;
    LastStep(P, tr, w);
    EarlierRun(P, tr, After(past, v), v.now + v.reply.value);
    var d := RefusalFills(P, past, v);
    StaysFull(P, tr, After(past, v), v.key, d);
    StepFromTable(P, tr, w);
    FullUntil(P, StateAfter(tr), w, d);
  }
}
