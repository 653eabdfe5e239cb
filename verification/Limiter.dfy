/** The `Limiter` object of `dealfinder/ratelimit.py`, proved against the request step of RateLimit. */
module Limiters {
  import opened Options
  import opened Compliance
  import opened Sets
  import opened Sorting
  import opened RateLimit

  lemma {:induction false} StrLeTotal(a: string, b: string)
    ensures StrLe(a, b) || StrLe(b, a)
  {
    if a != "" && b != "" { StrLeTotal(a[1..], b[1..]); }
  }

  lemma {:induction false} StrLeTrans(a: string, b: string, c: string)
    requires StrLe(a, b) && StrLe(b, c)
    ensures StrLe(a, c)
  {
    if a != "" && b != "" && c != "" && a[0] == b[0] == c[0] { StrLeTrans(a[1..], b[1..], c[1..]); }
  }

  lemma LessRecentIsTotalPreorder()
    ensures TotalPreorder(LessRecent)
  {
    forall x: Stamped, y: Stamped
      ensures LessRecent(x, y) || LessRecent(y, x)
    {
      StrLeTotal(x.key, y.key);
    }
    forall x: Stamped, y: Stamped, z: Stamped | LessRecent(x, y) && LessRecent(y, z)
      ensures LessRecent(x, z)
    {
      if x.last == y.last == z.last { StrLeTrans(x.key, y.key, z.key); }
    }
  }

  function KeysOf(xs: seq<Stamped>): set<string> { set s | s in xs :: s.key }

  lemma KeysPush(xs: seq<Stamped>, i: nat)
    requires i < |xs|
    ensures KeysOf(xs[..i + 1]) == KeysOf(xs[..i]) + {xs[i].key}
  {
    assert xs[..i + 1] == xs[..i] + [xs[i]];
    forall q
      ensures q in KeysOf(xs[..i + 1]) <==> q in KeysOf(xs[..i]) + {xs[i].key}
    {
    }
  }

  /** Distinct keys are counted once each. */
  lemma {:induction false} KeysCount(xs: seq<Stamped>, n: nat)
    requires n <= |xs| && forall i, j :: 0 <= i < j < |xs| ==> xs[i].key != xs[j].key
    ensures |KeysOf(xs[..n])| == n
  {
    if n == 0 {
      assert KeysOf(xs[..0]) == {};
    } else {
      hide KeysOf;
      KeysCount(xs, n - 1);
      KeysPush(xs, n - 1);
    }
  }

  /** `open` lists the open clients with their stamps, each once. */
  ghost predicate Lists(live: Table, limit: nat, open: seq<Stamped>) {
    && (forall s :: s in open ==> s.key in Open(live, limit) && s == Stamp(live, s.key))
    && (forall k :: k in Open(live, limit) ==> Stamp(live, k) in open)
    && NoDuplicates(open)
  }

  method ListOpen(live: Table, limit: nat) returns (open: seq<Stamped>)
    ensures Lists(live, limit, open)
  {
    open := [];
    var rest := Open(live, limit);
    while rest != {}
      invariant rest <= Open(live, limit)
      invariant forall s :: s in open ==> s.key in Open(live, limit) - rest && s == Stamp(live, s.key)
      invariant forall k :: k in Open(live, limit) - rest ==> Stamp(live, k) in open
      invariant NoDuplicates(open)
      decreases rest
    {
      var k :| k in rest;
      open := open + [Stamp(live, k)];
      rest := rest - {k};
    }
  }

  lemma ListsSorted(live: Table, limit: nat, open: seq<Stamped>)
    requires Lists(live, limit, open)
    ensures Lists(live, limit, StableSort(open, LessRecent)) && Ordered(StableSort(open, LessRecent), LessRecent)
  {
    LessRecentIsTotalPreorder();
    SortOrdered(open, LessRecent);
    SortNoDuplicates(open, LessRecent);
    forall s
      ensures s in StableSort(open, LessRecent) <==> s in open
    {
      SortMember(open, LessRecent, s);
    }
  }

  lemma OpenCount(live: Table, limit: nat, open: seq<Stamped>)
    requires Lists(live, limit, open)
    ensures |open| == |Open(live, limit)|
  {
    KeysCount(open, |open|);
    assert open[..|open|] == open;
    forall k
      ensures k in KeysOf(open) <==> k in Open(live, limit)
    {
      if k in Open(live, limit) { assert Stamp(live, k) in open; }
    }
    assert KeysOf(open) == Open(live, limit);
  }

  /** The front of the sorted list is a least-recently-seen choice. */
  lemma FrontIsLeastRecent(live: Table, limit: nat, sorted: seq<Stamped>, n: nat)
    requires Lists(live, limit, sorted) && Ordered(sorted, LessRecent) && n <= |sorted|
    ensures KeysOf(sorted[..n]) <= Open(live, limit) && LeastRecent(live, limit, KeysOf(sorted[..n]))
    ensures forall d, k :: d in KeysOf(sorted[..n]) && d in live && k in Open(live, limit) - KeysOf(sorted[..n])
                           ==> Last(live[d]) <= Last(live[k])
  {
    var front := sorted[..n];
    forall m | 0 <= m < n
      ensures sorted[m] in front
    {
      assert front[m] == sorted[m];
    }
    forall d | d in KeysOf(front)
      ensures d in Open(live, limit) && Stamp(live, d) in front
    {
      var s :| s in front && s.key == d;
      assert s in sorted;
    }
    forall d, k | d in KeysOf(front) && d in live && k in Open(live, limit) - KeysOf(front)
      ensures LessRecent(Stamp(live, d), Stamp(live, k))
    {
      var i :| 0 <= i < n && front[i] == Stamp(live, d);
      assert Stamp(live, k) in sorted && Stamp(live, k) !in front;
      var j :| 0 <= j < |sorted| && sorted[j] == Stamp(live, k);
      assert sorted[i] == front[i] && i < j;
    }
  }

  lemma NothingDropped(live: Table, limit: nat)
    ensures LeastRecent(live, limit, {}) && live - {} == live
  {
  }

  method DropIdle(table: Table, cutoff: real) returns (live: Table)
    ensures live == Live(table, cutoff)
  {
    var idle := set k | k in table && Idle(table[k], cutoff);
    live := table - idle;
  }

  method DropLeastRecent(P: Params, live: Table) returns (events: Table, ghost dropped: set<string>)
    ensures DropsFrom(P, live, dropped, events)
  {
    hide LessRecent, LeastRecent, Ordered, Lists, Open, Target;
    if |live| <= Target(P.maxKeys) {
      NothingDropped(live, P.limit);
      return live, {};
    }
    var excess := |live| - Target(P.maxKeys);
    var open := ListOpen(live, P.limit);
    ListsSorted(live, P.limit, open);
    var openKeys := StableSort(open, LessRecent);
    OpenCount(live, P.limit, openKeys);
    var count := if excess < |openKeys| then excess else |openKeys|;
    events, dropped := DeleteFirst(P, live, openKeys, count);
  }

  /** The cleanup's deletions, on one path's table. */
  method ShrinkTable(P: Params, table: Table, now: real) returns (events: Table, ghost dropped: set<string>)
    ensures Shrinks(P, table, now, dropped, events)
    ensures |events| == Min(|Live(table, now - P.window)|,
                            Max(Target(P.maxKeys), |AtLimit(Live(table, now - P.window), P.limit)|))
    ensures forall d, k :: Active(P, table, d, now) && d !in events && k in events && |events[k]| < P.limit
                           ==> k in table && Last(table[d]) <= Last(table[k])
  {
    hide DropsFrom, Live;
    var live := DropIdle(table, now - P.window);
    events, dropped := DropLeastRecent(P, live);
    ShrinkSize(P, table, now, dropped, events);
    forall d, k | Active(P, table, d, now) && d !in events && k in events && |events[k]| < P.limit
      ensures k in table && Last(table[d]) <= Last(table[k])
    {
      DroppedWasSeenEarlier(P, table, now, dropped, events, d, k);
    }
  }

  method DeleteFirst(P: Params, live: Table, openKeys: seq<Stamped>, count: nat)
    returns (events: Table, ghost dropped: set<string>)
    requires Lists(live, P.limit, openKeys) && Ordered(openKeys, LessRecent) && count <= |openKeys|
    ensures dropped <= Open(live, P.limit) && |dropped| == count && LeastRecent(live, P.limit, dropped)
    ensures events == live - dropped
  {
    dropped := KeysOf(openKeys[..count]);
    KeysCount(openKeys, count);
    FrontIsLeastRecent(live, P.limit, openKeys, count);
    hide Lists, Ordered, LeastRecent, LessRecent;
    events := live;
    for i := 0 to count
      invariant events == live - KeysOf(openKeys[..i])
    {
      KeysPush(openKeys, i);
      events := events - {openKeys[i].key};
    }
  }

  class Limiter {
    const maxKeys: nat
    var windows: map<string, SlidingWindow>
    var lastShrink: map<string, real>

    /** One window object per path. */
    ghost predicate Valid()
      reads this, windows.Values
    {
      && (forall p, q :: p in windows && q in windows && p != q ==> windows[p] != windows[q])
      && (forall p :: p in windows ==> windows[p].limit >= 1)
    }

    ghost function ParamsOf(path: string): Params
      reads this
      requires path in windows
    {
      Params(windows[path].limit, windows[path].window, maxKeys)
    }

    ghost function StateOf(path: string): PathState
      reads this, windows.Values
      requires path in windows
    {
      PathState(windows[path].events, if path in lastShrink then Some(lastShrink[path]) else None)
    }

    constructor (limits: map<string, (nat, real)>, maxKeys: nat)
      requires forall p :: p in limits ==> limits[p].0 >= 1
      ensures Valid() && windows.Keys == limits.Keys && fresh(windows.Values)
      ensures forall p :: p in windows ==>
              StateOf(p) == FRESH && ParamsOf(p) == Params(limits[p].0, limits[p].1, maxKeys)
    {
      this.maxKeys := maxKeys;
      var ws: map<string, SlidingWindow> := map[];
      var rest := limits.Keys;
      while rest != {}
        invariant rest <= limits.Keys && ws.Keys == limits.Keys - rest
        invariant forall p :: p in ws ==>
                  fresh(ws[p]) && ws[p].limit == limits[p].0 && ws[p].window == limits[p].1 && ws[p].events == map[]
        invariant forall p, q :: p in ws && q in ws && p != q ==> ws[p] != ws[q]
        decreases rest
      {
        var p :| p in rest;
        var w := new SlidingWindow(limits[p].0, limits[p].1);
        ws := ws[p := w];
        rest := rest - {p};
      }
      windows := ws;
      lastShrink := map[];
    }

    method Shrink(w: SlidingWindow, now: real) returns (ghost dropped: set<string>)
      modifies w
      ensures Shrinks(Params(w.limit, w.window, maxKeys), old(w.events), now, dropped, w.events)
    {
      w.events, dropped := ShrinkTable(Params(w.limit, w.window, maxKeys), w.events, now);
    }

    method MaybeShrink(path: string, now: real) returns (ghost dropped: set<string>)
      requires Valid() && path in windows
      modifies this`lastShrink, windows[path]
      ensures Valid()
      ensures MayShrink(ParamsOf(path), old(StateOf(path)), now, dropped, StateOf(path))
      ensures forall p :: p in windows && p != path ==> StateOf(p) == old(StateOf(p))
    {
      dropped := {};
      if path !in lastShrink || now - lastShrink[path] >= SHRINK_EVERY_S {
        lastShrink := lastShrink[path := now];
        dropped := Shrink(windows[path], now);
      }
    }

    /** The cleanup a new client triggers when the table is full. */
    method MakeRoom(path: string, key: string, now: real) returns (full: bool, ghost dropped: set<string>)
      requires Valid() && path in windows && TableOk(ParamsOf(path), StateOf(path), now)
      modifies this`lastShrink, windows[path]
      ensures Valid() && TableOk(ParamsOf(path), StateOf(path), now)
      ensures if Crowded(ParamsOf(path), old(StateOf(path)), key)
              then MayShrink(ParamsOf(path), old(StateOf(path)), now, dropped, StateOf(path))
              else StateOf(path) == old(StateOf(path)) && dropped == {}
      ensures full == (Crowded(ParamsOf(path), old(StateOf(path)), key) && |StateOf(path).events| >= 2 * maxKeys)
      ensures !full ==> !(key !in StateOf(path).events && |StateOf(path).events| >= 2 * maxKeys)
      ensures forall p :: p in windows && p != path ==> StateOf(p) == old(StateOf(p))
    {
      hide TableOk, MayShrink;
      full, dropped := false, {};
      var w := windows[path];
      ghost var s := StateOf(path);
      if key !in w.events && |w.events| >= 2 * maxKeys {
        dropped := MaybeShrink(path, now);
        CleanupKeepsTable(ParamsOf(path), s, now, dropped, StateOf(path));
        full := |w.events| >= 2 * maxKeys;
      }
    }

    /** The window's verdict, and the cleanup after it. A refusal reads the front of the client's deque. */
    method Judge(path: string, key: string, now: real, ghost v: Visit)
      returns (reply: Option<real>, ghost dropped: set<string>)
      requires Valid() && path in windows && TableOk(ParamsOf(path), StateOf(path), now)
      requires v.key == key && v.now == now && v.entered == StateOf(path)
      requires !(key !in StateOf(path).events && |StateOf(path).events| >= 2 * maxKeys)
      modifies this`lastShrink, windows[path]
      ensures Valid()
      ensures if |Judged(ParamsOf(path), v).events| > maxKeys
              then MayShrink(ParamsOf(path), Judged(ParamsOf(path), v), now, dropped, StateOf(path))
              else StateOf(path) == Judged(ParamsOf(path), v) && dropped == {}
      ensures reply == if Allows(ParamsOf(path).limit, ParamsOf(path).window, Deque(v.entered.events, key), now)
                       then None
                       else Some(Expire(Deque(v.entered.events, key), now - ParamsOf(path).window)[0]
                                 + ParamsOf(path).window - now)
      ensures forall p :: p in windows && p != path ==> StateOf(p) == old(StateOf(p))
    {
      hide TableOk, MayShrink, Expire, Admit, Allows;
      dropped := {};
      var w := windows[path];
      ghost var P := ParamsOf(path);
      var allowed := w.Allow(key, now);
      assert StateOf(path) == Judged(P, v);
      JudgingKeepsTable(P, v);
      if !allowed {
        RefusedIsFull(P, v);
      }
      if |w.events| > maxKeys {
        dropped := MaybeShrink(path, now);
        if !allowed {
          KeptWhenRefused(P, v, dropped, StateOf(path));
        }
      }
      reply := if allowed then None else Some(w.events[key][0] + w.window - now);
    }

    /** One request under a clock that has not gone back; `visit` records what it did. */
    method Check(path: string, client: string, now: real) returns (reply: Option<real>, ghost visit: Visit)
      requires Valid() && (path in windows ==> TableOk(ParamsOf(path), StateOf(path), now))
      modifies this`lastShrink, windows.Values
      ensures Valid() && windows == old(windows)
      ensures path !in windows ==> reply == None
      ensures path in windows ==> Step(ParamsOf(path), old(StateOf(path)), visit) && visit.after == StateOf(path)
                                  && visit.key == path + "|" + client && visit.now == now && visit.reply == reply
      ensures forall p :: p in windows && p != path ==> StateOf(p) == old(StateOf(p))
    {
      hide TableOk, Expire, Admit, MayShrink;
      var key := path + "|" + client;
      visit := Visit(key, now, {}, FRESH, None, {}, FRESH);
      if path !in windows {
        return None, visit;
      }
      var full, first := MakeRoom(path, key, now);
      ghost var entered := StateOf(path);
      if full {
        reply := Some(windows[path].window);
        visit := Visit(key, now, first, entered, reply, {}, entered);
        return;
      }
      visit := Visit(key, now, first, entered, None, {}, entered);
      ghost var last;
      reply, last := Judge(path, key, now, visit);
      visit := Visit(key, now, first, entered, reply, last, StateOf(path));
    }
  }

  lemma RefusedIsFull(P: Params, v: Visit)
    requires P.limit >= 1 && TableOk(P, v.entered, v.now)
    requires !Allows(P.limit, P.window, Deque(v.entered.events, v.key), v.now)
    ensures Full(P, Judged(P, v), v.key, Expire(Deque(v.entered.events, v.key), v.now - P.window))
    ensures v.now < Expire(Deque(v.entered.events, v.key), v.now - P.window)[0] + P.window
  {
    ExpiredIsPast(P, v.entered, v.key, v.now);
  }

  lemma KeptWhenRefused(P: Params, v: Visit, dropped: set<string>, after: PathState)
    requires P.limit >= 1 && TableOk(P, v.entered, v.now) && TableOk(P, Judged(P, v), v.now)
    requires !Allows(P.limit, P.window, Deque(v.entered.events, v.key), v.now)
    requires MayShrink(P, Judged(P, v), v.now, dropped, after)
    ensures Full(P, after, v.key, Expire(Deque(v.entered.events, v.key), v.now - P.window))
  {
    hide TableOk, MayShrink, Judged, Expire;
    RefusedIsFull(P, v);
    CleanupKeepsFull(P, Judged(P, v), v.now, dropped, after, v.key,
                     Expire(Deque(v.entered.events, v.key), v.now - P.window));
  }
}
