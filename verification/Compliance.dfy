/** The per-user sliding windows of `dealfinder/compliance.py`. The clock is an argument, as in
    the original, and times are exact reals. */
module Compliance {

  predicate Sorted(ev: seq<real>) {
    forall i, j :: 0 <= i < j < |ev| ==> ev[i] <= ev[j]
  }

  /** The deque once the front entries at or before the cut-off are popped. */
  function Expire(ev: seq<real>, cutoff: real): seq<real> {
    if ev != [] && ev[0] <= cutoff then Expire(ev[1..], cutoff) else ev
  }

  /** `dq` is `g` without its first entries. */
  ghost predicate SuffixOf(g: seq<real>, dq: seq<real>) {
    |dq| <= |g| && forall i :: 0 <= i < |dq| ==> dq[i] == g[|g| - |dq| + i]
  }

  /** Popping removes a prefix, all of it expired, and stops at a live front. */
  lemma {:induction false} ExpireSuffix(dq: seq<real>, cutoff: real)
    ensures SuffixOf(dq, Expire(dq, cutoff))
    ensures forall i :: 0 <= i < |dq| - |Expire(dq, cutoff)| ==> dq[i] <= cutoff
    ensures Expire(dq, cutoff) != [] ==> Expire(dq, cutoff)[0] > cutoff
  {
    if dq != [] && dq[0] <= cutoff {
      ExpireSuffix(dq[1..], cutoff);
    }
  }

  /** How many stamps lie after the cut-off. */
  function CountAfter(ev: seq<real>, cutoff: real): nat {
    if ev == [] then 0 else (if ev[|ev| - 1] > cutoff then 1 else 0) + CountAfter(ev[..|ev| - 1], cutoff)
  }

  lemma {:induction false} CountAfterConcat(a: seq<real>, b: seq<real>, cutoff: real)
    ensures CountAfter(a + b, cutoff) == CountAfter(a, cutoff) + CountAfter(b, cutoff)
    decreases |b|
  {
    if b == [] {
      assert a + b == a;
    } else {
      assert (a + b)[..|a + b| - 1] == a + b[..|b| - 1];
      CountAfterConcat(a, b[..|b| - 1], cutoff);
    }
  }

  lemma {:induction false} CountAfterBounds(ev: seq<real>, cutoff: real)
    ensures CountAfter(ev, cutoff) <= |ev|
    ensures (forall i :: 0 <= i < |ev| ==> ev[i] <= cutoff) ==> CountAfter(ev, cutoff) == 0
    ensures (forall i :: 0 <= i < |ev| ==> ev[i] > cutoff) ==> CountAfter(ev, cutoff) == |ev|
  {
    if ev != [] {
      CountAfterBounds(ev[..|ev| - 1], cutoff);
    }
  }

  lemma SplitCounts(ev: seq<real>, k: nat, cutoff: real)
    requires k <= |ev|
    requires forall i :: 0 <= i < k ==> ev[i] <= cutoff
    requires forall i :: k <= i < |ev| ==> ev[i] > cutoff
    ensures CountAfter(ev, cutoff) == |ev| - k
  {
    hide CountAfter;
    assert ev == ev[..k] + ev[k..];
    CountAfterConcat(ev[..k], ev[k..], cutoff);
    CountAfterBounds(ev[..k], cutoff);
    CountAfterBounds(ev[k..], cutoff);
  }

  /** On a sorted deque, popping the front leaves exactly the stamps in the window. */
  lemma ExpireCounts(ev: seq<real>, cutoff: real)
    requires Sorted(ev)
    ensures |Expire(ev, cutoff)| == CountAfter(ev, cutoff)
  {
    hide CountAfter, Expire;
    ExpireSuffix(ev, cutoff);
    var k := |ev| - |Expire(ev, cutoff)|;
    if k < |ev| {
      assert ev[k] == Expire(ev, cutoff)[0];
    }
    SplitCounts(ev, k, cutoff);
  }

  /** One user's deque after a call: the survivors, and the call itself when it is allowed. */
  function Admit(limit: nat, window: real, ev: seq<real>, now: real): seq<real> {
    var kept := Expire(ev, now - window);
    if |kept| < limit then kept + [now] else kept
  }

  predicate Allows(limit: nat, window: real, ev: seq<real>, now: real) {
    |Expire(ev, now - window)| < limit
  }

  /** The `popleft` loop. */
  method PopExpired(events: seq<real>, cutoff: real) returns (ev: seq<real>)
    ensures ev == Expire(events, cutoff)
  {
    ev := events;
    while ev != [] && ev[0] <= cutoff
      invariant Expire(ev, cutoff) == Expire(events, cutoff)
      decreases |ev|
    {
      ev := ev[1..];
    }
  }

  class SlidingWindow {
    const limit: nat
    const window: real
    var events: map<string, seq<real>>

    /** The original raises ValueError for a limit below 1. */
    constructor (limit: nat, window: real)
      requires limit >= 1
      ensures this.limit == limit && this.window == window && events == map[]
    {
      this.limit, this.window, events := limit, window, map[];
    }

    function Deque(user: string): seq<real>
      reads this
    {
      if user in events then events[user] else []
    }

    method Allow(user: string, now: real) returns (allowed: bool)
      modifies this`events
      ensures allowed == Allows(limit, window, old(Deque(user)), now)
      ensures events == old(events)[user := Admit(limit, window, old(Deque(user)), now)]
    {
      hide Expire;
      var ev := PopExpired(Deque(user), now - window);
      allowed := |ev| < limit;
      events := events[user := if allowed then ev + [now] else ev];
    }

    /** Asking creates the user's entry, because the original's table is a defaultdict. */
    method Remaining(user: string, now: real) returns (left: nat)
      modifies this`events
      ensures events == old(events)[user := old(Deque(user))]
      ensures left as int == if CountAfter(old(Deque(user)), now - window) < limit
                             then limit - CountAfter(old(Deque(user)), now - window) else 0
    {
      var ev := Deque(user);
      var active: nat := 0;
      for i := 0 to |ev|
        invariant active == CountAfter(ev[..i], now - window)
      {
        assert ev[..i + 1][..i] == ev[..i];
        if ev[i] > now - window { active := active + 1; }
      }
      assert ev[..|ev|] == ev;
      events := events[user := ev];
      left := if active < limit then limit - active else 0;
    }
  }

  /** `remaining` is positive exactly when `allow` would admit. */
  lemma RemainingPredictsAllow(limit: nat, window: real, ev: seq<real>, now: real)
    requires Sorted(ev)
    ensures CountAfter(ev, now - window) < limit <==> Allows(limit, window, ev, now)
  {
    hide CountAfter, Expire;
    ExpireCounts(ev, now - window);
  }

  // ---------------------------------------------------------------- abuse detection

  /** One observed request; whether its text is an injection is decided elsewhere. */
  datatype Seen = Seen(at: real, injection: bool)

  function ExpireSeen(ev: seq<Seen>, cutoff: real): seq<Seen> {
    if ev != [] && ev[0].at <= cutoff then ExpireSeen(ev[1..], cutoff) else ev
  }

  /** The observations after the cut-off, in order: what the window means. */
  function Recent(history: seq<Seen>, cutoff: real): (r: seq<Seen>)
    ensures |r| <= |history|
  {
    if history == [] then []
    else (if history[0].at > cutoff then [history[0]] else []) + Recent(history[1..], cutoff)
  }

  function Injections(ev: seq<Seen>): nat {
    if ev == [] then 0 else (if ev[|ev| - 1].injection then 1 else 0) + Injections(ev[..|ev| - 1])
  }

  predicate InOrder(history: seq<Seen>) {
    forall i, j :: 0 <= i < j < |history| ==> history[i].at <= history[j].at
  }

  /** The user's deque after the whole history. */
  function DequeAfter(history: seq<Seen>, window: real): seq<Seen> {
    if history == [] then []
    else
      var last := history[|history| - 1];
      ExpireSeen(DequeAfter(history[..|history| - 1], window) + [last], last.at - window)
  }

  class AbuseDetector {
    const window: real
    const maxEvents: int
    const maxInjections: int
    var events: map<string, seq<Seen>>

    constructor (window: real, maxEvents: int, maxInjections: int)
      ensures this.window == window && this.maxEvents == maxEvents && this.maxInjections == maxInjections
      ensures events == map[]
    {
      this.window, this.maxEvents, this.maxInjections, events := window, maxEvents, maxInjections, map[];
    }

    function Deque(user: string): seq<Seen>
      reads this
    {
      if user in events then events[user] else []
    }

    method Observe(user: string, injection: bool, now: real) returns (velocity: bool, injected: bool, flagged: bool)
      modifies this`events
      ensures events == old(events)[user := ExpireSeen(old(Deque(user)) + [Seen(now, injection)], now - window)]
      ensures velocity <==> |Deque(user)| > maxEvents
      ensures injected <==> Injections(Deque(user)) >= maxInjections
      ensures flagged <==> velocity || injected
    {
      var ev := Deque(user) + [Seen(now, injection)];
      while ev != [] && ev[0].at <= now - window
        invariant ExpireSeen(ev, now - window) == ExpireSeen(old(Deque(user)) + [Seen(now, injection)], now - window)
        decreases |ev|
      {
        ev := ev[1..];
      }
      var count: nat := 0;
      for i := 0 to |ev|
        invariant count == Injections(ev[..i])
      {
        assert ev[..i + 1][..i] == ev[..i];
        if ev[i].injection { count := count + 1; }
      }
      assert ev[..|ev|] == ev;
      events := events[user := ev];
      velocity, injected := |ev| > maxEvents, count >= maxInjections;
      flagged := velocity || injected;
    }
  }

  lemma {:induction false} ExpireIsRecent(ev: seq<Seen>, cutoff: real)
    requires InOrder(ev)
    ensures ExpireSeen(ev, cutoff) == Recent(ev, cutoff)
  {
    if ev == [] {
    } else if ev[0].at <= cutoff {
      ExpireIsRecent(ev[1..], cutoff);
    } else {
      AllRecent(ev, cutoff);
    }
  }

  lemma {:induction false} AllRecent(ev: seq<Seen>, cutoff: real)
    requires forall i :: 0 <= i < |ev| ==> ev[i].at > cutoff
    ensures Recent(ev, cutoff) == ev
  {
    if ev != [] { AllRecent(ev[1..], cutoff); }
  }

  lemma {:induction false} RecentConcat(a: seq<Seen>, b: seq<Seen>, cutoff: real)
    ensures Recent(a + b, cutoff) == Recent(a, cutoff) + Recent(b, cutoff)
  {
    if a == [] {
      assert a + b == b;
    } else {
      assert (a + b)[1..] == a[1..] + b;
      RecentConcat(a[1..], b, cutoff);
    }
  }

  lemma {:induction false} RecentTwice(ev: seq<Seen>, early: real, late: real)
    requires early <= late
    ensures Recent(Recent(ev, early), late) == Recent(ev, late)
  {
    if ev != [] {
      RecentTwice(ev[1..], early, late);
      RecentConcat(if ev[0].at > early then [ev[0]] else [], Recent(ev[1..], early), late);
    }
  }

  lemma {:induction false} RecentInOrder(ev: seq<Seen>, cutoff: real)
    requires InOrder(ev)
    ensures InOrder(Recent(ev, cutoff)) && forall s :: s in Recent(ev, cutoff) ==> s in ev
  {
    if ev != [] {
      RecentInOrder(ev[1..], cutoff);
      var r := Recent(ev[1..], cutoff);
      forall i | 0 <= i < |r|
        ensures r[i] in ev && ev[0].at <= r[i].at
      {
        assert r[i] in ev[1..];
      }
    }
  }

  lemma RecentStaysInOrder(front: seq<Seen>, cutoff: real, last: Seen)
    requires InOrder(front + [last])
    ensures InOrder(Recent(front, cutoff) + [last])
  {
    assert InOrder(front) by {
      forall i, j | 0 <= i < j < |front|
        ensures front[i].at <= front[j].at
      {
        assert (front + [last])[i].at <= (front + [last])[j].at;
      }
    }
    RecentInOrder(front, cutoff);
    hide Recent;
    var r := Recent(front, cutoff);
    forall i | 0 <= i < |r|
      ensures r[i].at <= last.at
    {
      assert r[i] in front;
      var j :| 0 <= j < |front| && front[j] == r[i];
      assert (front + [last])[j].at <= (front + [last])[|front|].at;
    }
  }

  lemma Unsnoc(history: seq<Seen>, window: real) returns (front: seq<Seen>, last: Seen)
    requires history != [] && InOrder(history)
    ensures history == front + [last] && last == history[|history| - 1] && InOrder(front) && |front| < |history|
    ensures DequeAfter(history, window) == ExpireSeen(DequeAfter(front, window) + [last], last.at - window)
    ensures front != [] ==> front[|front| - 1].at <= last.at
    ensures front == [] ==> DequeAfter(front, window) == []
  {
    front, last := history[..|history| - 1], history[|history| - 1];
  }

  /** Under a clock that never goes back, the deque is exactly the user's requests of the last
      window, so the detector's two counts are the counts of the full history. */
  lemma {:induction false} DequeIsWindow(history: seq<Seen>, window: real)
    requires history != [] && InOrder(history)
    ensures DequeAfter(history, window) == Recent(history, history[|history| - 1].at - window)
    decreases |history|
  {
    hide Recent, ExpireSeen, DequeAfter;
    var front, last := Unsnoc(history, window);
    var cutoff := last.at - window;
    var before := DequeAfter(front, window);
    if front == [] {
      assert before + [last] == history;
      ExpireIsRecent(history, cutoff);
    } else {
      var prior := front[|front| - 1].at - window;
      DequeIsWindow(front, window);
      RecentStaysInOrder(front, prior, last);
      ExpireIsRecent(before + [last], cutoff);
      RecentConcat(before, [last], cutoff);
      RecentTwice(front, prior, cutoff);
      RecentConcat(front, [last], cutoff);
    }
  }
}
