/** The signing-key cache of `dealfinder/auth.py` (class `_Jwks`) as a state machine: any number of
    `key_for` calls interleave, one attribute access or lock operation at a time; a clock reading
    is one step with the attribute access it goes with. A key set maps a `kid` to a key, as in
    sections 4.5 and 5 of RFC 7517. */
module Jwks {
  import opened Options

  const TTL_S := 600.0
  const MIN_REFRESH_S := 60.0
  const RETRY_S := 30.0

  type Kid = Option<string>
  type Key(==, !new) = string
  type KeySet = map<Kid, Key>

  /** The object's three fields; None stands for no key set, and for a time of minus infinity. */
  datatype Cache = Cache(keys: Option<KeySet>, fetchedAt: Option<real>, failedAt: Option<real>)

  function Lookup(keys: Option<KeySet>, kid: Kid): Option<Key> {
    if keys.Some? && kid in keys.value then Some(keys.value[kid]) else None
  }

  /** `now - since >= d`, a time of minus infinity being infinitely long ago. */
  predicate AgeAtLeast(now: real, since: Option<real>, d: real) {
    since.Some? ==> now - since.value >= d
  }

  predicate NeedsFetch(c: Cache, kid: Kid, now: real) {
    AgeAtLeast(now, c.fetchedAt, TTL_S) || (Lookup(c.keys, kid).None? && AgeAtLeast(now, c.fetchedAt, MIN_REFRESH_S))
  }

  datatype Result = Found(key: Key) | UnknownKid | Unavailable

  function KeyOr(key: Option<Key>, otherwise: Result): Result {
    if key.Some? then Found(key.value) else otherwise
  }

  // ---------------------------------------------------------------- one call, step by step

  /** Where a call stands. `key` is what its first lookup found. */
  datatype Stage =
    | Begun
    | Looked(key: Option<Key>)
    | Aged(key: Option<Key>, expired: bool, mature: bool)     // the age has been read: past the TTL, past the minimum
    | Stale(key: Option<Key>)                              // a fetch is needed
    | Waiting(key: Option<Key>)                            // no recent failure: wants the lock
    | Holding(key: Option<Key>)                            // has the lock: about to test again
    | Fetching(key: Option<Key>)                           // the request is in flight
    | StoringKeys(keys: KeySet, at: real)                  // about to write self.keys
    | StoringTime(at: real)                                // about to write self.fetched_at
    | Releasing(outcome: Option<Result>)                   // about to release the lock
    | Relooking                                            // the lookup after the lock
    | Done(result: Result, end: End)

  /** Where in `key_for` a call ended. */
  datatype Place = AgeTest | FailureTest | Timeout(holder: Option<nat>) | FailedFetch | Relook

  /** How many refreshes had completed when it ended, and how long the log was. */
  datatype End = End(sets: nat, entries: nat, place: Place)

  predicate InLock(st: Stage) {
    st.Holding? || st.Fetching? || st.StoringKeys? || st.StoringTime? || st.Releasing?
  }

  /** A call, with what the theorems need to remember: how many key sets had been installed when it
      began (`since`) and at its first lookup (`looked`), how long the log was when it began
      (`begun`) and at its failure test (`tested`, at time `testedAt`), the last time it judged the
      set's age (`judgedAt`), and its age test: how long the log was (`aged`), when it was (`agedAt`), and
      whether it found the set past its TTL (`expired`). */
  datatype Call = Call(kid: Kid, since: nat, looked: nat, begun: nat, tested: nat, testedAt: real, judgedAt: real,
                       aged: nat, agedAt: real, expired: bool, stage: Stage)

  datatype Install = Install(keys: KeySet, at: real)

  datatype Entry = Started(at: real, begun: nat, tested: nat) | Succeeded(at: real) | Failed(at: real, id: nat)

  /** The cache, its lock, the clock and the calls; `sets` and `log` record the past. */
  datatype System = System(cache: Cache, lock: Option<nat>, clock: real, calls: map<nat, Call>,
                           sets: seq<Install>, log: seq<Entry>)

  const INITIAL := System(Cache(None, None, None), None, 0.0, map[], [], [])

  datatype Event = Tick(dt: real) | Begin(id: nat, kid: Kid) | Advance(id: nat) | LockTimeout(id: nat)
                 | Response(id: nat, keys: Option<KeySet>)

  ghost predicate Enabled(s: System, e: Event) {
    match e
    case Tick(dt) => dt >= 0.0
    case Begin(id, _) => id !in s.calls
    case Advance(id) =>
      id in s.calls && !s.calls[id].stage.Fetching? && !s.calls[id].stage.Done?
        && (s.calls[id].stage.Waiting? ==> s.lock.None?)
    case LockTimeout(id) => id in s.calls && s.calls[id].stage.Waiting? && s.lock.Some?
    case Response(id, _) => id in s.calls && s.calls[id].stage.Fetching?
  }

  function At(s: System, id: nat, call: Call, stage: Stage): System {
    s.(calls := s.calls[id := call.(stage := stage)])
  }

  function EndAt(s: System, place: Place): End { End(|s.sets|, |s.log|, place) }

  /** The next atomic step of a call that is not waiting for the network. */
  function Advanced(s: System, id: nat, call: Call): System {
    match call.stage
    case Begun => At(s, id, call.(looked := |s.sets|), Looked(Lookup(s.cache.keys, call.kid)))
    case Looked(key) =>
      var expired := AgeAtLeast(s.clock, s.cache.fetchedAt, TTL_S);
      At(s, id, call.(judgedAt := s.clock, aged := |s.log|, agedAt := s.clock, expired := expired),
         Aged(key, expired, AgeAtLeast(s.clock, s.cache.fetchedAt, MIN_REFRESH_S)))
    case Aged(key, expired, mature) =>
      if expired || (Lookup(s.cache.keys, call.kid).None? && mature) then At(s, id, call, Stale(key))
      else At(s, id, call, Done(KeyOr(key, UnknownKid), EndAt(s, AgeTest)))
    case Stale(key) =>
      At(s, id, call.(tested := |s.log|, testedAt := s.clock),
         if AgeAtLeast(s.clock, s.cache.failedAt, RETRY_S) then Waiting(key)
         else Done(KeyOr(key, Unavailable), EndAt(s, FailureTest)))
    case Waiting(key) => At(s, id, call, Holding(key)).(lock := Some(id))
    case Holding(key) =>
      if NeedsFetch(s.cache, call.kid, s.clock)
      then At(s, id, call, Fetching(key)).(log := s.log + [Started(s.clock, call.begun, call.tested)])
      else At(s, id, call.(judgedAt := s.clock), Releasing(None))
    case StoringKeys(keys, at) =>
      At(s, id, call, StoringTime(at)).(cache := s.cache.(keys := Some(keys)), sets := s.sets + [Install(keys, at)])
    case StoringTime(at) =>
      At(s, id, call, Releasing(None)).(cache := s.cache.(fetchedAt := Some(at)), log := s.log + [Succeeded(at)])
    case Releasing(result) =>
      At(s, id, call, if result.Some? then Done(result.value, EndAt(s, FailedFetch)) else Relooking).(lock := None)
    case Relooking => At(s, id, call, Done(KeyOr(Lookup(s.cache.keys, call.kid), UnknownKid), EndAt(s, Relook)))
    case Fetching(_) => s
    case Done(_, _) => s
  }

  function Next(s: System, e: Event): System {
    match e
    case Tick(dt) => s.(clock := s.clock + dt)
    case Begin(id, kid) =>
      s.(calls := s.calls[id := Call(kid, |s.sets|, |s.sets|, |s.log|, 0, s.clock, s.clock, 0, s.clock, false, Begun)])
    case Advance(id) => if id in s.calls then Advanced(s, id, s.calls[id]) else s
    case LockTimeout(id) =>
      if id in s.calls && s.calls[id].stage.Waiting? then
        At(s, id, s.calls[id], Done(KeyOr(s.calls[id].stage.key, Unavailable), EndAt(s, Timeout(s.lock))))
      else s
    case Response(id, keys) =>
      if id in s.calls && s.calls[id].stage.Fetching? then
        var call := s.calls[id];
        match keys
        case Some(ks) => At(s, id, call, StoringKeys(ks, s.clock))
        case None =>
          At(s, id, call, Releasing(Some(KeyOr(call.stage.key, Unavailable))))
            .(cache := s.cache.(failedAt := Some(s.clock)), log := s.log + [Failed(s.clock, id)])
      else s
  }

  /** Any interleaving, any responses, any timing. */
  datatype Trace = Initially | Then(before: Trace, e: Event)

  function StateOf(tr: Trace): System {
    match tr
    case Initially => INITIAL
    case Then(before, e) => Next(StateOf(before), e)
  }

  ghost predicate Possible(tr: Trace) {
    match tr
    case Initially => true
    case Then(before, e) => Possible(before) && Enabled(StateOf(before), e)
  }

  // ---------------------------------------------------------------- the invariant

  /** The kid had this key in a set that was current when `since` sets had been installed, or that
      was installed from then on, before there were `until`. */
  ghost predicate WasCurrent(sets: seq<Install>, since: nat, until: nat, kid: Kid, key: Key)
    requires until <= |sets|
  {
    exists j :: since - 1 <= j < until && 0 <= j && Lookup(Some(sets[j].keys), kid) == Some(key)
  }

  /** When there were `until` sets, the last was installed after the call's first lookup, or was
      younger than the minimum refresh age when the call last judged its age. */
  ghost predicate Recent(sets: seq<Install>, until: nat, call: Call)
    requires until <= |sets|
  {
    0 < until && (call.looked < until || call.judgedAt - sets[until - 1].at < MIN_REFRESH_S)
  }

  /** A report of an unknown kid: the set then in force is recent. It lacks the kid, except that a set
      which overtook the call between its first lookup and its age test may have it. */
  ghost predicate MissIsBacked(sets: seq<Install>, until: nat, place: Place, call: Call)
    requires until <= |sets|
  {
    && Recent(sets, until, call) && (place.AgeTest? || place.Relook?)
    && ((place.AgeTest? && call.looked < until) || call.kid !in sets[until - 1].keys)
  }

  ghost predicate KeyOk(s: System, call: Call, key: Option<Key>) {
    && (key.Some? ==> WasCurrent(s.sets, call.since, |s.sets|, call.kid, key.value))
    && (key.None? ==> |s.sets| > call.looked || Lookup(s.cache.keys, call.kid).None?)
  }

  ghost predicate ResultOk(s: System, call: Call, r: Result, until: nat, place: Place)
    requires until <= |s.sets|
  {
    match r
    case Found(key) => WasCurrent(s.sets, call.since, until, call.kid, key)
    case UnknownKid => MissIsBacked(s.sets, until, place, call)
    case Unavailable => true
  }

  /** Every failure logged before the call's failure test was RETRY_S old by then. */
  ghost predicate TestOk(s: System, call: Call) {
    && call.begun <= call.tested <= |s.log| && call.testedAt <= s.clock
    && (forall i :: 0 <= i < call.tested && s.log[i].Failed? ==> call.testedAt - s.log[i].at >= RETRY_S)
  }

  ghost predicate CallOk(s: System, id: nat, call: Call) {
    && call.since <= call.looked <= |s.sets| && call.begun <= |s.log| && (InLock(call.stage) <==> s.lock == Some(id))
    && match call.stage
       case Begun => true
       case Looked(key) => KeyOk(s, call, key)
       case Aged(key, _, mature) => KeyOk(s, call, key) && (mature || Recent(s.sets, |s.sets|, call))
       case Stale(key) => KeyOk(s, call, key)
       case Waiting(key) => KeyOk(s, call, key) && TestOk(s, call)
       case Holding(key) => KeyOk(s, call, key) && TestOk(s, call)
       case Fetching(key) => KeyOk(s, call, key)
       case StoringKeys(_, at) => at <= s.clock && NoLaterInstall(s, at)
       case StoringTime(at) => |s.sets| > call.looked && s.sets[|s.sets| - 1].at == at <= s.clock
       case Releasing(None) => RelookOk(s, call)
       case Releasing(Some(r)) => !r.UnknownKid? && ResultOk(s, call, r, |s.sets|, FailedFetch)
       case Relooking => RelookOk(s, call)
       case Done(r, end) => end.sets <= |s.sets| && ResultOk(s, call, r, end.sets, end.place)
  }

  ghost predicate RelookOk(s: System, call: Call) {
    s.sets != [] && (Lookup(s.cache.keys, call.kid).Some? || Recent(s.sets, |s.sets|, call))
  }

  ghost predicate NoLaterInstall(s: System, at: real) {
    s.sets != [] ==> s.sets[|s.sets| - 1].at <= at
  }

  /** The fields agree with the record. */
  ghost predicate CacheOk(s: System) {
    && s.cache.keys == (if s.sets == [] then None else Some(s.sets[|s.sets| - 1].keys))
    && (s.cache.fetchedAt.Some? ==> s.sets != [] && s.cache.fetchedAt.value <= s.sets[|s.sets| - 1].at)
    && (s.sets != [] ==> s.sets[|s.sets| - 1].at <= s.clock)
    && (forall i :: 0 <= i < |s.log| && s.log[i].Succeeded? ==>
        s.cache.fetchedAt.Some? && s.log[i].at <= s.cache.fetchedAt.value)
    && (forall i :: 0 <= i < |s.log| && s.log[i].Failed? ==>
        s.cache.failedAt.Some? && s.log[i].at <= s.cache.failedAt.value)
    && (s.cache.failedAt.Some? ==> s.cache.failedAt.value <= s.clock)
  }

  /** Entry j, when it is a fetch start, keeps both distances. */
  ghost predicate StartPaced(log: seq<Entry>, j: int)
    requires 0 <= j < |log|
  {
    log[j].Started? ==>
      && log[j].begun <= log[j].tested <= j
      && (forall i :: 0 <= i < j && log[i].Succeeded? ==> log[j].at - log[i].at >= MIN_REFRESH_S)
      && (forall i :: 0 <= i < log[j].tested && log[i].Failed? ==> log[j].at - log[i].at >= RETRY_S)
  }

  ghost predicate Paced(log: seq<Entry>) { forall j :: 0 <= j < |log| ==> StartPaced(log, j) }

  ghost predicate Inv(s: System) {
    && CacheOk(s) && Paced(s.log)
    && (forall id :: id in s.calls ==> CallOk(s, id, s.calls[id]))
    && (s.lock.Some? ==> s.lock.value in s.calls)
  }

  // ---------------------------------------------------------------- preservation

  /** What every step leaves of the past. */
  ghost predicate Extends(s: System, s': System) {
    && s.sets <= s'.sets && s.log <= s'.log && s.clock <= s'.clock
    && (s'.sets == s.sets ==> s'.cache.keys == s.cache.keys)
  }

  /** A call that takes no step stays as it was judged, the lock-holder apart. */
  lemma CallStable(s: System, s': System, id: nat, call: Call)
    requires CallOk(s, id, call) && CacheOk(s) && Extends(s, s')
    requires InLock(call.stage) ==> s'.sets == s.sets
    requires s'.lock == Some(id) <==> s.lock == Some(id)
    ensures CallOk(s', id, call)
  {
    if s'.sets != s.sets {
      assert |s'.sets| > |s.sets|;
    }
    assert forall i :: 0 <= i < |s.sets| ==> s'.sets[i] == s.sets[i];
    assert forall i :: 0 <= i < |s.log| ==> s'.log[i] == s.log[i];
  }

  lemma LookupsAgree(s: System, call: Call)
    requires CacheOk(s) && call.since <= |s.sets|
    ensures Lookup(s.cache.keys, call.kid).Some?
            ==> WasCurrent(s.sets, call.since, |s.sets|, call.kid, Lookup(s.cache.keys, call.kid).value)
    ensures s.sets != [] ==> (Lookup(s.cache.keys, call.kid).None? <==> call.kid !in s.sets[|s.sets| - 1].keys)
  {
    if s.sets != [] {
      var j := |s.sets| - 1;
      assert Lookup(Some(s.sets[j].keys), call.kid) == Lookup(s.cache.keys, call.kid);
    }
  }

  ghost predicate Quiet(s: System, id: nat)
    requires id in s.calls
  {
    var st := s.calls[id].stage;
    !st.StoringKeys? && !st.StoringTime? && !(st.Holding? && NeedsFetch(s.cache, s.calls[id].kid, s.clock))
  }

  /** The steps that touch neither the fields nor the record. */
  lemma QuietFields(s: System, id: nat)
    requires Enabled(s, Advance(id)) && Quiet(s, id)
    ensures var s' := Advanced(s, id, s.calls[id]);
            s'.cache == s.cache && s'.sets == s.sets && s'.log == s.log && s'.clock == s.clock && id in s'.calls
  {
  }

  lemma AgeJudged(s: System, id: nat)
    requires Inv(s) && Enabled(s, Advance(id)) && Quiet(s, id)
             && (s.calls[id].stage.Looked? || s.calls[id].stage.Holding?)
    ensures CallOk(Advanced(s, id, s.calls[id]), id, Advanced(s, id, s.calls[id]).calls[id])
  {
    hide Paced, WasCurrent;
    JudgedNow(s, s.calls[id]);
  }

  lemma TestPassed(s: System, id: nat)
    requires Inv(s) && Enabled(s, Advance(id)) && Quiet(s, id) && (s.calls[id].stage.Stale? || s.calls[id].stage.Aged?)
    ensures CallOk(Advanced(s, id, s.calls[id]), id, Advanced(s, id, s.calls[id]).calls[id])
  {
    hide Paced, WasCurrent;
    LookupsAgree(s, s.calls[id]);
    TestedNow(s, s.calls[id]);
  }

  lemma LookedUp(s: System, id: nat)
    requires Inv(s) && Enabled(s, Advance(id)) && Quiet(s, id)
             && (s.calls[id].stage.Begun? || s.calls[id].stage.Relooking?)
    ensures CallOk(Advanced(s, id, s.calls[id]), id, Advanced(s, id, s.calls[id]).calls[id])
  {
    LookupsAgree(s, s.calls[id]);
    hide CacheOk, Paced, WasCurrent;
  }

  lemma LockMoved(s: System, id: nat)
    requires Inv(s) && Enabled(s, Advance(id)) && Quiet(s, id)
             && (s.calls[id].stage.Waiting? || s.calls[id].stage.Releasing?)
    ensures CallOk(Advanced(s, id, s.calls[id]), id, Advanced(s, id, s.calls[id]).calls[id])
  {
    hide CacheOk, Paced, WasCurrent;
  }

  lemma QuietAdvance(s: System, id: nat)
    requires Inv(s) && Enabled(s, Advance(id)) && Quiet(s, id)
    ensures CallOk(Advanced(s, id, s.calls[id]), id, Advanced(s, id, s.calls[id]).calls[id])
  {
    hide Inv, CallOk, Advanced;
    match s.calls[id].stage
    case Looked(_) => AgeJudged(s, id);
    case Holding(_) => AgeJudged(s, id);
    case Stale(_) => TestPassed(s, id);
    case Aged(_, _, _) => TestPassed(s, id);
    case Begun => LookedUp(s, id);
    case Relooking => LookedUp(s, id);
    case Waiting(_) => LockMoved(s, id);
    case Releasing(_) => LockMoved(s, id);
  }

  /** A set judged young now was installed within the minimum refresh age. */
  lemma JudgedNow(s: System, call: Call)
    requires CacheOk(s)
    ensures !AgeAtLeast(s.clock, s.cache.fetchedAt, MIN_REFRESH_S)
            ==> forall c: Call :: c.looked == call.looked && c.judgedAt == s.clock ==> Recent(s.sets, |s.sets|, c)
  {
  }

  lemma TestedNow(s: System, call: Call)
    requires CacheOk(s) && call.begun <= |s.log|
    ensures AgeAtLeast(s.clock, s.cache.failedAt, RETRY_S) ==> TestOk(s, call.(tested := |s.log|, testedAt := s.clock))
  {
  }

  lemma PacedPush(log: seq<Entry>, e: Entry)
    requires Paced(log) && StartPaced(log + [e], |log|)
    ensures Paced(log + [e])
  {
    forall j | 0 <= j < |log| + 1
      ensures StartPaced(log + [e], j)
    {
      if j < |log| { assert StartPaced(log, j); }
    }
  }

  /** A fetch starts: the record stays paced. */
  lemma FetchStart(s: System, id: nat)
    requires Inv(s) && Enabled(s, Advance(id)) && s.calls[id].stage.Holding?
             && NeedsFetch(s.cache, s.calls[id].kid, s.clock)
    ensures var s' := Advanced(s, id, s.calls[id]);
            CacheOk(s') && Paced(s'.log) && CallOk(s', id, s'.calls[id]) && Extends(s, s')
  {
    var call := s.calls[id];
    hide Paced, WasCurrent;
    PacedPush(s.log, Started(s.clock, call.begun, call.tested));
  }

  lemma Storing(s: System, id: nat)
    requires Inv(s) && Enabled(s, Advance(id)) && (s.calls[id].stage.StoringKeys? || s.calls[id].stage.StoringTime?)
    ensures var s' := Advanced(s, id, s.calls[id]);
            CacheOk(s') && Paced(s'.log) && CallOk(s', id, s'.calls[id]) && Extends(s, s')
  {
    hide Paced, WasCurrent;
    if s.calls[id].stage.StoringTime? {
      PacedPush(s.log, Succeeded(s.calls[id].stage.at));
    }
  }

  lemma Responded(s: System, e: Event)
    requires Inv(s) && e.Response? && Enabled(s, e)
    ensures var s' := Next(s, e); CacheOk(s') && Paced(s'.log) && CallOk(s', e.id, s'.calls[e.id]) && Extends(s, s')
  {
    hide Paced, WasCurrent;
    if e.keys.None? {
      PacedPush(s.log, Failed(s.clock, e.id));
    }
  }

  /** The step's own call, and the shared fields. */
  lemma ActorOk(s: System, e: Event)
    requires Inv(s) && Enabled(s, e)
    ensures var s' := Next(s, e); CacheOk(s') && Paced(s'.log) && Extends(s, s')
    ensures !e.Tick? ==> e.id in Next(s, e).calls && CallOk(Next(s, e), e.id, Next(s, e).calls[e.id])
  {
    hide CacheOk, Paced, CallOk;
    match e
    case Tick(_) => assert CacheOk(Next(s, e)) by { TickKeepsCache(s, e); }
    case Begin(id, _) => BeginOk(s, e);
    case Advance(id) =>
      var st := s.calls[id].stage;
      if st.StoringKeys? || st.StoringTime? {
        Storing(s, id);
      } else if st.Holding? && NeedsFetch(s.cache, s.calls[id].kid, s.clock) {
        FetchStart(s, id);
      } else {
        QuietAdvance(s, id);
        QuietFields(s, id);
        SameFields(s, Next(s, e));
      }
    case LockTimeout(id) => TimeoutOk(s, e); SameFields(s, Next(s, e));
    case Response(_, _) => Responded(s, e);
  }

  lemma SameFields(s: System, s': System)
    requires CacheOk(s) && s'.cache == s.cache && s'.sets == s.sets && s'.log == s.log && s'.clock == s.clock
    ensures CacheOk(s') && Extends(s, s')
  {
  }

  lemma TickKeepsCache(s: System, e: Event)
    requires CacheOk(s) && e.Tick? && Enabled(s, e)
    ensures CacheOk(Next(s, e))
  {
  }

  lemma BeginOk(s: System, e: Event)
    requires Inv(s) && e.Begin? && Enabled(s, e)
    ensures CacheOk(Next(s, e)) && CallOk(Next(s, e), e.id, Next(s, e).calls[e.id])
  {
  }

  lemma TimeoutOk(s: System, e: Event)
    requires Inv(s) && e.LockTimeout? && Enabled(s, e)
    ensures CallOk(Next(s, e), e.id, Next(s, e).calls[e.id])
  {
    hide WasCurrent;
  }

  /** Another call's view is untouched, because only the lock's holder writes. */
  lemma OthersOk(s: System, e: Event, id: nat)
    requires Inv(s) && Enabled(s, e) && Extends(s, Next(s, e))
    requires id in s.calls && (!e.Tick? ==> id != e.id)
    ensures id in Next(s, e).calls && Next(s, e).calls[id] == s.calls[id] && CallOk(Next(s, e), id, s.calls[id])
  {
    assert CallOk(s, id, s.calls[id]) && (!e.Tick? && !e.Begin? ==> CallOk(s, e.id, s.calls[e.id]));
    hide CacheOk, Paced, KeyOk, ResultOk, TestOk, RelookOk, Recent, NoLaterInstall;
    CallStable(s, Next(s, e), id, s.calls[id]);
  }

  lemma InvKept(s: System, e: Event)
    requires Inv(s) && Enabled(s, e)
    ensures Inv(Next(s, e)) && Extends(s, Next(s, e))
  {
    hide CacheOk, Paced;
    var s' := Next(s, e);
    ActorOk(s, e);
    forall id | id in s'.calls
      ensures CallOk(s', id, s'.calls[id])
    {
      if e.Tick? || id != e.id { OthersOk(s, e, id); }
    }
    hide CallOk;
  }

  lemma {:induction false} PossibleInv(tr: Trace)
    requires Possible(tr)
    ensures Inv(StateOf(tr))
  {
    hide Inv, Enabled, Next;
    match tr
    case Initially => InitialInv();
    case Then(before, e) =>
      PossibleInv(before);
      InvKept(StateOf(before), e);
  }

  lemma InitialInv()
    ensures Inv(INITIAL)
  {
  }

  // ---------------------------------------------------------------- theorems

  ghost predicate Ended(tr: Trace, id: nat) { id in StateOf(tr).calls && StateOf(tr).calls[id].stage.Done? }

  function CallOf(tr: Trace, id: nat): Call
    requires Ended(tr, id)
  {
    StateOf(tr).calls[id]
  }

  function ResultOf(tr: Trace, id: nat): Result
    requires Ended(tr, id)
  {
    CallOf(tr, id).stage.result
  }

  function EndOf(tr: Trace, id: nat): End
    requires Ended(tr, id)
  {
    CallOf(tr, id).stage.end
  }

  lemma EndedCallOk(tr: Trace, id: nat)
    requires Possible(tr) && Ended(tr, id)
    ensures var s, end := StateOf(tr), EndOf(tr, id);
            end.sets <= |s.sets| && ResultOk(s, CallOf(tr, id), ResultOf(tr, id), end.sets, end.place)
  {
    PossibleInv(tr);
    assert CallOk(StateOf(tr), id, StateOf(tr).calls[id]);
    hide Inv, Possible, StateOf;
  }

  /** Whatever the interleaving, a returned key belongs to a set that was current when the call began
      or was installed while it ran. */
  lemma ReturnedKeyWasCurrent(tr: Trace, id: nat, key: Key)
    requires Possible(tr) && Ended(tr, id) && ResultOf(tr, id) == Found(key)
    ensures EndOf(tr, id).sets <= |StateOf(tr).sets|
    ensures WasCurrent(StateOf(tr).sets, CallOf(tr, id).since, EndOf(tr, id).sets, CallOf(tr, id).kid, key)
  {
    EndedCallOk(tr, id);
    hide WasCurrent;
  }

  /** A key rotated out by a refresh is never returned to a call that begins after it. */
  lemma RotatedOutKeyIsNotReturned(tr: Trace, id: nat, key: Key)
    requires Possible(tr) && Ended(tr, id)
    requires 0 < CallOf(tr, id).since && EndOf(tr, id).sets <= |StateOf(tr).sets|
    requires forall j :: CallOf(tr, id).since - 1 <= j < EndOf(tr, id).sets
                         ==> Lookup(Some(StateOf(tr).sets[j].keys), CallOf(tr, id).kid) != Some(key)
    ensures ResultOf(tr, id) != Found(key)
  {
    if ResultOf(tr, id) == Found(key) {
      ReturnedKeyWasCurrent(tr, id, key);
    }
  }

  /** Some set was installed after the call's first lookup, and the last one before it ended has the
      kid. */
  ghost predicate OvertakenByTheKey(sets: seq<Install>, call: Call, until: nat)
    requires until <= |sets|
  {
    call.looked < until && call.kid in sets[until - 1].keys
  }

  /** "Unknown kid", exactly. The set in force when it is reported was installed after the call's
      first lookup, or was younger than MIN_REFRESH_S when the call judged it. A report by the lookup
      after the lock is always right. A report by the age test is wrong exactly when a set with the
      kid was installed since the first lookup and is in force. */
  lemma UnknownKidIsExact(tr: Trace, id: nat)
    requires Possible(tr) && Ended(tr, id) && ResultOf(tr, id) == UnknownKid
    ensures var sets, call, end := StateOf(tr).sets, CallOf(tr, id), EndOf(tr, id);
            && 0 < end.sets <= |sets| && (end.place.AgeTest? || end.place.Relook?)
            && (call.looked < end.sets || call.judgedAt - sets[end.sets - 1].at < 60.0)
            && (call.kid in sets[end.sets - 1].keys <==> end.place.AgeTest? && OvertakenByTheKey(sets, call, end.sets))
  {
    EndedCallOk(tr, id);
    hide StateOf, Possible;
  }

  /** Every fetch starts at least MIN_REFRESH_S after every earlier success, and at least RETRY_S
      after every failure recorded before its own failure test, in particular after every failure
      recorded before its call began. */
  lemma FetchesArePaced(tr: Trace, i: nat, j: nat)
    requires Possible(tr) && i < j < |StateOf(tr).log| && StateOf(tr).log[j].Started?
    ensures StateOf(tr).log[i].Succeeded? ==> StateOf(tr).log[j].at - StateOf(tr).log[i].at >= 60.0
    ensures StateOf(tr).log[i].Failed? && (i < StateOf(tr).log[j].tested || i < StateOf(tr).log[j].begun)
            ==> StateOf(tr).log[j].at - StateOf(tr).log[i].at >= 30.0
  {
    PossibleInv(tr);
    assert StartPaced(StateOf(tr).log, j);
  }

  /** No step discards a good set: the keys change only to a newly fetched set. */
  lemma GoodSetIsKept(tr: Trace, e: Event)
    requires Possible(Then(tr, e))
    ensures StateOf(tr).cache.keys.Some? ==> StateOf(Then(tr, e)).cache.keys.Some?
    ensures StateOf(Then(tr, e)).cache.keys != StateOf(tr).cache.keys
            ==> e.Advance? && e.id in StateOf(tr).calls && StateOf(tr).calls[e.id].stage.StoringKeys?
                && StateOf(Then(tr, e)).cache.keys == Some(StateOf(tr).calls[e.id].stage.keys)
    ensures e.Response? && e.keys.None? ==> StateOf(Then(tr, e)).cache.keys == StateOf(tr).cache.keys
                                            && StateOf(Then(tr, e)).cache.fetchedAt == StateOf(tr).cache.fetchedAt
  {
  }

  // ---------------------------------------------------------------- what an outage rests on

  /** A fetch by call `id` failed, recorded from entry `from` on and before entry `until`. */
  ghost predicate FailedItself(log: seq<Entry>, id: nat, from: nat, until: nat)
    requires until <= |log|
  {
    exists i :: from <= i < until && log[i].Failed? && log[i].id == id
  }

  /** A failure recorded before entry `until` was less than RETRY_S old at `now`. */
  ghost predicate FailedLately(log: seq<Entry>, until: nat, now: real)
    requires until <= |log|
  {
    exists i :: 0 <= i < until && log[i].Failed? && now - log[i].at < 30.0
  }

  /** A refresh completed, recorded from entry `from` on and before entry `until`. */
  ghost predicate Refreshed(log: seq<Entry>, from: nat, until: nat)
    requires until <= |log|
  {
    exists i :: from <= i < until && log[i].Succeeded?
  }

  /** Why the call could end here without a key of its kid from a set that was young at its age test:
      a recent failure at its failure test, the lock in another call's hands, or its own fetch failing.
      A call that looks up again after the lock saw a refresh complete. */
  ghost predicate OutageIsBacked(s: System, id: nat, call: Call, end: End) {
    && end.entries <= |s.log|
    && match end.place
       case AgeTest => false
       case FailureTest => call.tested == end.entries && FailedLately(s.log, end.entries, call.testedAt)
       case Timeout(holder) => holder.Some? && holder.value != id && holder.value in s.calls
       case FailedFetch => FailedItself(s.log, id, call.begun, end.entries)
       case Relook => Refreshed(s.log, call.begun, end.entries)
  }

  ghost predicate OldUnlessRefreshed(s: System, call: Call) {
    call.expired ==> AgeAtLeast(s.clock, s.cache.fetchedAt, TTL_S) || Refreshed(s.log, call.begun, |s.log|)
  }

  ghost predicate Accounted(s: System, id: nat, call: Call) {
    match call.stage
    case Begun => !call.expired
    case Looked(_) => !call.expired
    case Aged(_, expired, _) => call.expired == expired && OldUnlessRefreshed(s, call)
    case Stale(_) => OldUnlessRefreshed(s, call)
    case Waiting(_) => OldUnlessRefreshed(s, call)
    case Holding(_) => OldUnlessRefreshed(s, call)
    case Fetching(_) => true
    case StoringKeys(_, _) => true
    case StoringTime(_) => true
    case Releasing(None) => call.expired ==> Refreshed(s.log, call.begun, |s.log|)
    case Releasing(Some(_)) => FailedItself(s.log, id, call.begun, |s.log|)
    case Relooking => call.expired ==> Refreshed(s.log, call.begun, |s.log|)
    case Done(r, end) =>
      && (r.Unavailable? || call.expired ==> OutageIsBacked(s, id, call, end))
      && (r.Unavailable? ==> !end.place.Relook?)
  }

  ghost predicate FailureIsLogged(s: System) {
    s.cache.failedAt.Some? ==> exists i :: 0 <= i < |s.log| && s.log[i].Failed? && s.log[i].at == s.cache.failedAt.value
  }

  ghost predicate AllAccounted(s: System) {
    FailureIsLogged(s) && forall id :: id in s.calls ==> Accounted(s, id, s.calls[id])
  }

  /** What the record gains in a step: at most one entry, and a success when the set's time changes. */
  ghost predicate Records(s: System, s': System) {
    && s.log <= s'.log && s.clock <= s'.clock && s.calls.Keys <= s'.calls.Keys
    && (s'.cache.fetchedAt == s.cache.fetchedAt || (|s.log| < |s'.log| && s'.log[|s.log|].Succeeded?))
  }

  lemma StepRecords(s: System, e: Event)
    requires Enabled(s, e)
    ensures Records(s, Next(s, e))
  {
  }

  lemma RefreshedLater(s: System, s': System, from: nat)
    requires Records(s, s')
    ensures Refreshed(s.log, from, |s.log|) ==> Refreshed(s'.log, from, |s'.log|)
    ensures from <= |s.log| && s'.cache.fetchedAt != s.cache.fetchedAt ==> Refreshed(s'.log, from, |s'.log|)
  {
    if i :| from <= i < |s.log| && s.log[i].Succeeded? { assert s'.log[i] == s.log[i]; }
  }

  lemma OldLater(s: System, s': System, call: Call)
    requires Records(s, s') && call.begun <= |s.log| && OldUnlessRefreshed(s, call)
    ensures OldUnlessRefreshed(s', call)
  {
    RefreshedLater(s, s', call.begun);
  }

  lemma OutageStaysBacked(s: System, s': System, id: nat, call: Call, end: End)
    requires Records(s, s') && OutageIsBacked(s, id, call, end)
    ensures OutageIsBacked(s', id, call, end)
  {
    assert forall i :: 0 <= i < |s.log| ==> s'.log[i] == s.log[i];
  }

  lemma FailedItselfLater(s: System, s': System, id: nat, from: nat)
    requires Records(s, s') && FailedItself(s.log, id, from, |s.log|)
    ensures FailedItself(s'.log, id, from, |s'.log|)
  {
    var i :| from <= i < |s.log| && s.log[i].Failed? && s.log[i].id == id;
    assert s'.log[i] == s.log[i];
  }

  /** A call that takes no step stays accounted for. */
  lemma AccountedLater(s: System, s': System, id: nat, call: Call)
    requires Records(s, s') && call.begun <= |s.log| && Accounted(s, id, call)
    ensures Accounted(s', id, call)
  {
    hide OldUnlessRefreshed, Refreshed, FailedItself, OutageIsBacked, Records;
    match call.stage
    case Done(r, end) =>
      if r.Unavailable? || call.expired { OutageStaysBacked(s, s', id, call, end); }
    case Releasing(None) => RefreshedLater(s, s', call.begun);
    case Relooking => RefreshedLater(s, s', call.begun);
    case Releasing(Some(_)) => FailedItselfLater(s, s', id, call.begun);
    case Aged(_, _, _) => OldLater(s, s', call);
    case Stale(_) => OldLater(s, s', call);
    case Waiting(_) => OldLater(s, s', call);
    case Holding(_) => OldLater(s, s', call);
    case _ =>
  }

  lemma FailureStaysLogged(s: System, e: Event)
    requires Enabled(s, e) && FailureIsLogged(s)
    ensures FailureIsLogged(Next(s, e))
  {
    var s' := Next(s, e);
    assert forall i :: 0 <= i < |s.log| ==> s'.log[i] == s.log[i];
    if e.Response? && e.keys.None? { assert s'.log[|s.log|] == Failed(s.clock, e.id); }
  }

  /** A test that finds a recent failure finds it in the log. */
  lemma FailureTestIsBacked(s: System, id: nat)
    requires Enabled(s, Advance(id)) && s.calls[id].stage.Stale? && AllAccounted(s)
    ensures Accounted(Advanced(s, id, s.calls[id]), id, Advanced(s, id, s.calls[id]).calls[id])
  {
    assert Accounted(s, id, s.calls[id]);
    hide Refreshed;
  }

  lemma AgeTestIsBacked(s: System, id: nat)
    requires Inv(s) && Enabled(s, Advance(id)) && AllAccounted(s)
    requires s.calls[id].stage.Looked? || s.calls[id].stage.Aged? || s.calls[id].stage.Holding?
    ensures Accounted(Advanced(s, id, s.calls[id]), id, Advanced(s, id, s.calls[id]).calls[id])
  {
    assert Accounted(s, id, s.calls[id]);
    hide Refreshed, Inv;
  }

  lemma StoredIsBacked(s: System, id: nat)
    requires Inv(s) && Enabled(s, Advance(id)) && (s.calls[id].stage.StoringKeys? || s.calls[id].stage.StoringTime?)
    ensures Accounted(Advanced(s, id, s.calls[id]), id, Advanced(s, id, s.calls[id]).calls[id])
  {
    assert CallOk(s, id, s.calls[id]);
    hide Inv;
    var s' := Advanced(s, id, s.calls[id]);
    if s.calls[id].stage.StoringTime? { assert s'.log[|s.log|].Succeeded?; }
  }

  lemma OtherStepsAreBacked(s: System, id: nat)
    requires Enabled(s, Advance(id)) && AllAccounted(s)
    requires var st := s.calls[id].stage; st.Begun? || st.Waiting? || st.Releasing? || st.Relooking?
    ensures Accounted(Advanced(s, id, s.calls[id]), id, Advanced(s, id, s.calls[id]).calls[id])
  {
    assert Accounted(s, id, s.calls[id]);
    hide Refreshed, FailedItself, FailedLately;
  }

  /** The step's own call is accounted for. */
  lemma ActorAccounted(s: System, e: Event)
    requires Inv(s) && AllAccounted(s) && Enabled(s, e) && !e.Tick?
    ensures e.id in Next(s, e).calls && Accounted(Next(s, e), e.id, Next(s, e).calls[e.id])
  {
    match e
    case Begin(_, _) =>
    case Advance(id) =>
      hide Inv, AllAccounted, Accounted, Advanced;
      match s.calls[id].stage {
        case Looked(_) => AgeTestIsBacked(s, id);
        case Aged(_, _, _) => AgeTestIsBacked(s, id);
        case Holding(_) => AgeTestIsBacked(s, id);
        case Stale(_) => FailureTestIsBacked(s, id);
        case StoringKeys(_, _) => StoredIsBacked(s, id);
        case StoringTime(_) => StoredIsBacked(s, id);
        case _ => OtherStepsAreBacked(s, id);
      }
      AdvancedKeepsCall(s, id);
    case LockTimeout(id) => assert CallOk(s, id, s.calls[id]);
    case Response(id, keys) =>
      assert CallOk(s, id, s.calls[id]);
      if keys.None? { assert Next(s, e).log[|s.log|] == Failed(s.clock, id); }
  }

  lemma AdvancedKeepsCall(s: System, id: nat)
    requires id in s.calls
    ensures id in Advanced(s, id, s.calls[id]).calls
  {
  }

  lemma {:induction false} PossibleIsAccounted(tr: Trace)
    requires Possible(tr)
    ensures AllAccounted(StateOf(tr))
  {
    match tr
    case Initially =>
    case Then(before, e) =>
      PossibleIsAccounted(before);
      PossibleInv(before);
      StepAccounted(StateOf(before), e);
  }

  lemma StepAccounted(s: System, e: Event)
    requires Inv(s) && AllAccounted(s) && Enabled(s, e)
    ensures AllAccounted(Next(s, e))
  {
    var s' := Next(s, e);
    StepRecords(s, e);
    FailureStaysLogged(s, e);
    hide FailureIsLogged;
    if !e.Tick? { ActorAccounted(s, e); }
    forall id | id in s'.calls
      ensures Accounted(s', id, s'.calls[id])
    {
      if e.Tick? || id != e.id {
        OtherCallKept(s, e, id);
        assert CallOk(s, id, s.calls[id]);
        hide Accounted, Records;
        AccountedLater(s, s', id, s.calls[id]);
      }
    }
  }

  lemma OtherCallKept(s: System, e: Event, id: nat)
    requires Enabled(s, e) && id in Next(s, e).calls && (!e.Tick? ==> id != e.id)
    ensures id in s.calls && Next(s, e).calls[id] == s.calls[id]
  {
  }

  /** The outage error is never a guess: a failure less than RETRY_S old was on record when the call
      tested for one, or another call held the lock when this one gave up waiting, or this call's own
      fetch failed. */
  lemma UnavailableIsBacked(tr: Trace, id: nat)
    requires Possible(tr) && Ended(tr, id) && ResultOf(tr, id) == Unavailable
    ensures var end := EndOf(tr, id);
            OutageIsBacked(StateOf(tr), id, CallOf(tr, id), end) && !end.place.Relook?
  {
    PossibleIsAccounted(tr);
    assert Accounted(StateOf(tr), id, StateOf(tr).calls[id]);
    hide StateOf, Possible, OutageIsBacked;
  }

  /** A call whose age test found the set past its TTL ends, whatever it returns, only for one of those
      reasons, or because a refresh completed while it ran. */
  lemma ExpiredSetServesOnlyInAnOutage(tr: Trace, id: nat)
    requires Possible(tr) && Ended(tr, id) && CallOf(tr, id).expired
    ensures OutageIsBacked(StateOf(tr), id, CallOf(tr, id), EndOf(tr, id))
  {
    PossibleIsAccounted(tr);
    assert Accounted(StateOf(tr), id, StateOf(tr).calls[id]);
    hide StateOf, Possible, OutageIsBacked;
  }

  // ---------------------------------------------------------------- what a call returns

  /** What the set in force when there were n sets holds for this kid. */
  function KeyAt(sets: seq<Install>, n: nat, kid: Kid): Option<Key>
    requires n <= |sets|
  {
    if n > 0 && kid in sets[n - 1].keys then Some(sets[n - 1].keys[kid]) else None
  }

  /** The key found at the first lookup decides, except after the lock: there the set then in force does. */
  ghost predicate Returns(sets: seq<Install>, call: Call, r: Result, end: End)
    requires call.looked <= |sets| && end.sets <= |sets|
  {
    var first, last := KeyAt(sets, call.looked, call.kid), KeyAt(sets, end.sets, call.kid);
    match end.place
    case AgeTest => r == if first.Some? then Found(first.value) else UnknownKid
    case FailureTest => r == if first.Some? then Found(first.value) else Unavailable
    case Timeout(_) => r == if first.Some? then Found(first.value) else Unavailable
    case FailedFetch => r == if first.Some? then Found(first.value) else Unavailable
    case Relook => r == if last.Some? then Found(last.value) else UnknownKid
  }

  ghost predicate CarriesKey(sets: seq<Install>, call: Call) {
    && call.looked <= |sets|
    && var first := KeyAt(sets, call.looked, call.kid);
       match call.stage
       case Begun => true
       case Looked(key) => key == first
       case Aged(key, _, _) => key == first
       case Stale(key) => key == first
       case Waiting(key) => key == first
       case Holding(key) => key == first
       case Fetching(key) => key == first
       case StoringKeys(_, _) => true
       case StoringTime(_) => true
       case Releasing(r) => r.Some? ==> r.value == if first.Some? then Found(first.value) else Unavailable
       case Relooking => true
       case Done(r, end) => end.sets <= |sets| && Returns(sets, call, r, end)
  }

  lemma KeyAtLater(sets: seq<Install>, sets': seq<Install>, n: nat, kid: Kid)
    requires n <= |sets| && sets <= sets'
    ensures KeyAt(sets', n, kid) == KeyAt(sets, n, kid)
  {
  }

  lemma KeyIsCarried(sets: seq<Install>, sets': seq<Install>, call: Call)
    requires CarriesKey(sets, call) && sets <= sets'
    ensures CarriesKey(sets', call)
  {
    KeyAtLater(sets, sets', call.looked, call.kid);
    if call.stage.Done? { KeyAtLater(sets, sets', call.stage.end.sets, call.kid); }
    hide KeyAt;
  }

  /** The fields' own lookup is the one in the set last installed. */
  lemma LookupIsKeyAt(s: System, kid: Kid)
    requires CacheOk(s)
    ensures Lookup(s.cache.keys, kid) == KeyAt(s.sets, |s.sets|, kid)
  {
  }

  /** The two lookups read the last set. */
  lemma LookupCarriesKey(s: System, id: nat)
    requires CacheOk(s) && Enabled(s, Advance(id)) && CarriesKey(s.sets, s.calls[id])
    requires s.calls[id].stage.Begun? || s.calls[id].stage.Relooking?
    ensures var s' := Advanced(s, id, s.calls[id]); id in s'.calls && CarriesKey(s'.sets, s'.calls[id])
  {
    LookupIsKeyAt(s, s.calls[id].kid);
    hide CacheOk, KeyAt, Lookup;
  }

  /** The tests either pass the key on or end with it. */
  lemma TestCarriesKey(s: System, id: nat)
    requires Enabled(s, Advance(id)) && CarriesKey(s.sets, s.calls[id])
    requires var st := s.calls[id].stage; st.Looked? || st.Aged? || st.Stale?
    ensures var s' := Advanced(s, id, s.calls[id]); id in s'.calls && CarriesKey(s'.sets, s'.calls[id])
  {
    hide KeyAt, Lookup, AgeAtLeast;
  }

  lemma LockCarriesKey(s: System, id: nat)
    requires Enabled(s, Advance(id)) && CarriesKey(s.sets, s.calls[id])
    requires var st := s.calls[id].stage; st.Waiting? || st.Holding? || st.StoringTime? || st.Releasing?
    ensures var s' := Advanced(s, id, s.calls[id]); id in s'.calls && CarriesKey(s'.sets, s'.calls[id])
  {
    hide KeyAt, NeedsFetch;
  }

  lemma ActorCarriesKey(s: System, e: Event)
    requires CacheOk(s) && Enabled(s, e) && !e.Tick? && (!e.Begin? ==> CarriesKey(s.sets, s.calls[e.id]))
    ensures e.id in Next(s, e).calls && CarriesKey(Next(s, e).sets, Next(s, e).calls[e.id])
  {
    if e.Advance? && !s.calls[e.id].stage.StoringKeys? {
      hide CarriesKey, CacheOk, Advanced;
      match s.calls[e.id].stage {
        case Begun => LookupCarriesKey(s, e.id);
        case Relooking => LookupCarriesKey(s, e.id);
        case Looked(_) => TestCarriesKey(s, e.id);
        case Aged(_, _, _) => TestCarriesKey(s, e.id);
        case Stale(_) => TestCarriesKey(s, e.id);
        case Waiting(_) => LockCarriesKey(s, e.id);
        case Holding(_) => LockCarriesKey(s, e.id);
        case StoringTime(_) => LockCarriesKey(s, e.id);
        case Releasing(_) => LockCarriesKey(s, e.id);
      }
    } else {
      hide CacheOk, KeyAt, Lookup;
    }
  }

  lemma StepCarriesKeys(s: System, e: Event)
    requires Inv(s) && Enabled(s, e) && forall id :: id in s.calls ==> CarriesKey(s.sets, s.calls[id])
    ensures forall id :: id in Next(s, e).calls ==> CarriesKey(Next(s, e).sets, Next(s, e).calls[id])
  {
    var s' := Next(s, e);
    InvKept(s, e);
    if !e.Tick? { ActorCarriesKey(s, e); }
    forall id | id in s'.calls
      ensures CarriesKey(s'.sets, s'.calls[id])
    {
      if e.Tick? || id != e.id {
        OtherCallKept(s, e, id);
        KeyIsCarried(s.sets, s'.sets, s.calls[id]);
      }
    }
  }

  lemma {:induction false} PossibleCarriesKeys(tr: Trace)
    requires Possible(tr)
    ensures forall id :: id in StateOf(tr).calls ==> CarriesKey(StateOf(tr).sets, StateOf(tr).calls[id])
  {
    match tr
    case Initially =>
    case Then(before, e) =>
      PossibleCarriesKeys(before);
      PossibleInv(before);
      hide CarriesKey, Inv, Enabled, Next;
      StepCarriesKeys(StateOf(before), e);
  }

  /** Under any interleaving, what a call returns. At its age test, its failure test, when it gives up
      waiting and when its own fetch fails: the key its kid had in the set in force at its first lookup,
      if there was one, and only else an error, "unknown kid" at the age test and the outage error at the
      other three. After the lock: what the set then in force holds. */
  lemma ResultIsExact(tr: Trace, id: nat)
    requires Possible(tr) && Ended(tr, id)
    ensures CallOf(tr, id).looked <= |StateOf(tr).sets| && EndOf(tr, id).sets <= |StateOf(tr).sets|
    ensures Returns(StateOf(tr).sets, CallOf(tr, id), ResultOf(tr, id), EndOf(tr, id))
  {
    PossibleCarriesKeys(tr);
    assert CarriesKey(StateOf(tr).sets, StateOf(tr).calls[id]);
    hide StateOf, Possible, Returns;
  }

  /** A call that had a last good key never answers with the outage error. */
  lemma GoodKeyOutlastsAnOutage(tr: Trace, id: nat)
    requires Possible(tr) && Ended(tr, id) && ResultOf(tr, id) == Unavailable
    ensures CallOf(tr, id).looked <= |StateOf(tr).sets|
    ensures var sets, call := StateOf(tr).sets, CallOf(tr, id);
            call.looked == 0 || call.kid !in sets[call.looked - 1].keys
  {
    ResultIsExact(tr, id);
    hide StateOf, Possible;
  }

  // ---------------------------------------------------------------- what the age test found

  /** Every refresh recorded before the call's age test was past its TTL by then. */
  ghost predicate AllPastTtl(log: seq<Entry>, call: Call)
    requires call.aged <= |log|
  {
    forall i :: 0 <= i < call.aged && log[i].Succeeded? ==> call.agedAt - log[i].at >= 600.0
  }

  ghost predicate AgeIsRead(s: System, call: Call) {
    && call.aged <= |s.log|
    && (!call.stage.Begun? && !call.stage.Looked? ==> (call.expired <==> AllPastTtl(s.log, call)))
  }

  ghost predicate SuccessIsLogged(s: System) {
    s.cache.fetchedAt.Some? ==>
      exists i :: 0 <= i < |s.log| && s.log[i].Succeeded? && s.log[i].at == s.cache.fetchedAt.value
  }

  lemma StepLogsSuccess(s: System, e: Event)
    requires Enabled(s, e) && SuccessIsLogged(s)
    ensures SuccessIsLogged(Next(s, e))
  {
    var s' := Next(s, e);
    assert forall i :: 0 <= i < |s.log| ==> s'.log[i] == s.log[i];
    if s'.cache.fetchedAt != s.cache.fetchedAt { assert s'.log[|s.log|].Succeeded?; }
  }

  lemma AgeStaysRead(s: System, s': System, call: Call, call': Call)
    requires s.log <= s'.log && AgeIsRead(s, call)
    requires call'.aged == call.aged && call'.agedAt == call.agedAt && call'.expired == call.expired
    requires call'.stage.Begun? || call'.stage.Looked? ==> call.stage.Begun? || call.stage.Looked?
    requires call.stage.Begun? || call.stage.Looked? ==> call'.stage.Begun? || call'.stage.Looked?
    ensures AgeIsRead(s', call')
  {
    assert forall i :: 0 <= i < |s.log| ==> s'.log[i] == s.log[i];
  }

  lemma AgeRead(s: System, id: nat)
    requires CacheOk(s) && SuccessIsLogged(s) && Enabled(s, Advance(id)) && s.calls[id].stage.Looked?
    ensures AgeIsRead(Next(s, Advance(id)), Next(s, Advance(id)).calls[id])
  {
  }

  lemma ActorReadsAge(s: System, e: Event)
    requires CacheOk(s) && SuccessIsLogged(s) && Enabled(s, e) && !e.Tick? && s.log <= Next(s, e).log
    requires !e.Begin? ==> AgeIsRead(s, s.calls[e.id])
    ensures e.id in Next(s, e).calls && AgeIsRead(Next(s, e), Next(s, e).calls[e.id])
  {
    if e.Advance? && s.calls[e.id].stage.Looked? {
      AgeRead(s, e.id);
    } else if !e.Begin? {
      hide CacheOk, SuccessIsLogged, AgeIsRead;
      AgeStaysRead(s, Next(s, e), s.calls[e.id], Next(s, e).calls[e.id]);
    }
  }

  lemma {:induction false} PossibleReadsAge(tr: Trace)
    requires Possible(tr)
    ensures SuccessIsLogged(StateOf(tr))
    ensures forall id :: id in StateOf(tr).calls ==> AgeIsRead(StateOf(tr), StateOf(tr).calls[id])
  {
    match tr
    case Initially =>
    case Then(before, e) =>
      PossibleReadsAge(before);
      PossibleInv(before);
      StepReadsAge(StateOf(before), e);
  }

  lemma StepReadsAge(s: System, e: Event)
    requires Inv(s) && Enabled(s, e) && SuccessIsLogged(s) && forall id :: id in s.calls ==> AgeIsRead(s, s.calls[id])
    ensures SuccessIsLogged(Next(s, e))
    ensures forall id :: id in Next(s, e).calls ==> AgeIsRead(Next(s, e), Next(s, e).calls[id])
  {
    var s' := Next(s, e);
    StepLogsSuccess(s, e);
    StepRecords(s, e);
    if !e.Tick? { ActorReadsAge(s, e); }
    forall id | id in s'.calls
      ensures AgeIsRead(s', s'.calls[id])
    {
      if e.Tick? || id != e.id {
        OtherCallKept(s, e, id);
        AgeStaysRead(s, s', s.calls[id], s.calls[id]);
      }
    }
  }

  /** A call's age test finds the set past its TTL exactly when every refresh on record by then was at
      least 600 seconds old, none at all included; and then the call does not end there. */
  lemma AgeTestIsExact(tr: Trace, id: nat)
    requires Possible(tr) && Ended(tr, id)
    ensures CallOf(tr, id).aged <= |StateOf(tr).log|
    ensures CallOf(tr, id).expired <==> AllPastTtl(StateOf(tr).log, CallOf(tr, id))
    ensures CallOf(tr, id).expired ==> !EndOf(tr, id).place.AgeTest?
  {
    PossibleReadsAge(tr);
    PossibleIsAccounted(tr);
    assert AgeIsRead(StateOf(tr), StateOf(tr).calls[id]);
    hide StateOf, Possible;
    if CallOf(tr, id).expired { ExpiredSetServesOnlyInAnOutage(tr, id); }
  }

  // ---------------------------------------------------------------- what interleaving costs

  lemma Go(tr: Trace, e: Event) returns (tr': Trace)
    requires Possible(tr) && Enabled(StateOf(tr), e)
    ensures Possible(tr') && StateOf(tr') == Next(StateOf(tr), e)
  {
    tr' := Then(tr, e);
  }

  /** A fresh call runs up to wanting the lock. */
  lemma GoToLock(tr: Trace, id: nat, kid: Kid) returns (tr': Trace)
    requires Possible(tr)
    requires var s := StateOf(tr);
             id !in s.calls && NeedsFetch(s.cache, kid, s.clock) && AgeAtLeast(s.clock, s.cache.failedAt, RETRY_S)
    ensures Possible(tr')
    ensures var s, s' := StateOf(tr), StateOf(tr');
            s'.calls.Keys == s.calls.Keys + {id} && s' == s.(calls := s'.calls)
            && s'.calls[id].kid == kid && s'.calls[id].stage == Waiting(Lookup(s.cache.keys, kid))
            && (forall other :: other in s.calls ==> s'.calls[other] == s.calls[other])
  {
    hide StateOf, Possible;
    tr' := Go(tr, Begin(id, kid));
    tr' := Go(tr', Advance(id));
    tr' := Go(tr', Advance(id));
    tr' := Go(tr', Advance(id));
    tr' := Go(tr', Advance(id));
  }

  /** A call that starts while a fetch is due and allowed, and runs with no other call in its way,
      installs the set it is sent. Every other call stays where it is. */
  lemma Refresh(tr: Trace, id: nat, kid: Kid, ks: KeySet) returns (tr': Trace)
    requires Possible(tr)
    requires var s := StateOf(tr);
             id !in s.calls && s.lock.None? && NeedsFetch(s.cache, kid, s.clock)
               && AgeAtLeast(s.clock, s.cache.failedAt, RETRY_S)
    ensures Possible(tr')
    ensures var s, s' := StateOf(tr), StateOf(tr');
            && s'.cache == Cache(Some(ks), Some(s.clock), s.cache.failedAt) && s'.lock.None? && s'.clock == s.clock
            && s'.calls.Keys == s.calls.Keys + {id}
                 && (forall other :: other in s.calls ==> s'.calls[other] == s.calls[other])
  {
    hide StateOf, Possible;
    tr' := GoToLock(tr, id, kid);
    tr' := Go(tr', Advance(id));
    tr' := Go(tr', Advance(id));
    tr' := Go(tr', Response(id, Some(ks)));
    tr' := Go(tr', Advance(id));
    tr' := Go(tr', Advance(id));
    tr' := Go(tr', Advance(id));
  }

  /** A second call looks the kid up, and a third call's refresh overtakes it. */
  lemma Overtaken(tr: Trace, kid: Kid, ks1: KeySet) returns (tr': Trace)
    requires Possible(tr) && 1 !in StateOf(tr).calls && 2 !in StateOf(tr).calls && StateOf(tr).lock.None?
    requires Lookup(StateOf(tr).cache.keys, kid).None?
             && AgeAtLeast(StateOf(tr).clock, StateOf(tr).cache.fetchedAt, MIN_REFRESH_S)
    requires AgeAtLeast(StateOf(tr).clock, StateOf(tr).cache.failedAt, RETRY_S)
    ensures Possible(tr') && 1 in StateOf(tr').calls && StateOf(tr').calls[1].kid == kid
    ensures StateOf(tr').calls[1].stage == Looked(None)
    ensures StateOf(tr').cache.keys == Some(ks1) && StateOf(tr').cache.fetchedAt == Some(StateOf(tr').clock)
  {
    hide StateOf, Possible;
    tr' := Go(tr, Begin(1, kid));
    tr' := Go(tr', Advance(1));
    tr' := Refresh(tr', 2, kid, ks1);
  }

  /** The wrong report of UnknownKidIsExact happens, whatever the sets: when the keys at a call's
      first lookup, if any, lack the kid and a refresh that installs it completes before the call's age
      test, the call reports "unknown kid" although the set then in force has the key. */
  lemma UnknownKidCanBeWrong(kid: Kid, first: Option<KeySet>, second: KeySet) returns (tr: Trace)
    requires Lookup(first, kid).None? && kid in second
    ensures Possible(tr) && Ended(tr, 1) && CallOf(tr, 1).kid == kid
    ensures ResultOf(tr, 1) == UnknownKid && StateOf(tr).cache.keys == Some(second)
  {
    assert StateOf(Initially) == INITIAL && Possible(Initially);
    hide StateOf, Possible;
    tr := Initially;
    if first.Some? {
      tr := Refresh(tr, 0, kid, first.value);
      tr := Go(tr, Tick(MIN_REFRESH_S));
    }
    tr := Overtaken(tr, kid, second);
    tr := MissReported(tr);
  }

  lemma MissReported(tr: Trace) returns (tr': Trace)
    requires Possible(tr) && 1 in StateOf(tr).calls && StateOf(tr).calls[1].stage == Looked(None)
    requires StateOf(tr).cache.fetchedAt == Some(StateOf(tr).clock)
    ensures Possible(tr') && Ended(tr', 1) && ResultOf(tr', 1) == UnknownKid
    ensures StateOf(tr').cache == StateOf(tr).cache && CallOf(tr', 1).kid == StateOf(tr).calls[1].kid
  {
    hide StateOf, Possible;
    tr' := Go(tr, Advance(1));
    tr' := Go(tr', Advance(1));
  }

  /** The limit of FetchesArePaced, in general: in every reachable state, a call that has passed its
      failure test and waits for the lock can start a fetch at the very moment another call's fetch
      fails, if its set still needs one. */
  lemma WaitingCallSkipsRetryDelay(tr: Trace, a: nat, b: nat) returns (tr': Trace)
    requires Possible(tr) && a in StateOf(tr).calls && b in StateOf(tr).calls && a != b
    requires StateOf(tr).calls[a].stage.Fetching? && StateOf(tr).calls[b].stage.Waiting?
    requires NeedsFetch(StateOf(tr).cache, StateOf(tr).calls[b].kid, StateOf(tr).clock)
    ensures Possible(tr')
    ensures var s := StateOf(tr);
            StateOf(tr').log
            == s.log + [Failed(s.clock, a), Started(s.clock, s.calls[b].begun, s.calls[b].tested)]
  {
    PossibleInv(tr);
    assert CallOk(StateOf(tr), a, StateOf(tr).calls[a]);
    hide StateOf, Possible, Inv, CallOk, Enabled, Next;
    tr' := FetchFails(tr, a);
    tr' := WaiterStarts(tr', b);
  }

  /** A fetch fails and its call leaves the lock. */
  lemma FetchFails(tr: Trace, a: nat) returns (tr': Trace)
    requires Possible(tr) && a in StateOf(tr).calls && StateOf(tr).calls[a].stage.Fetching?
    ensures Possible(tr')
    ensures var s, s' := StateOf(tr), StateOf(tr');
            && s'.cache == s.cache.(failedAt := Some(s.clock)) && s'.lock.None? && s'.clock == s.clock
            && s'.log == s.log + [Failed(s.clock, a)]
            && (forall other :: other in s.calls && other != a ==>
                other in s'.calls && s'.calls[other] == s.calls[other])
  {
    hide StateOf, Possible;
    tr' := Go(tr, Response(a, None));
    tr' := Go(tr', Advance(a));
  }

  /** A call that waits for a free lock and still needs a fetch starts one. */
  lemma WaiterStarts(tr: Trace, b: nat) returns (tr': Trace)
    requires Possible(tr) && b in StateOf(tr).calls && StateOf(tr).calls[b].stage.Waiting? && StateOf(tr).lock.None?
    requires NeedsFetch(StateOf(tr).cache, StateOf(tr).calls[b].kid, StateOf(tr).clock)
    ensures Possible(tr')
    ensures var s := StateOf(tr);
            StateOf(tr').log == s.log + [Started(s.clock, s.calls[b].begun, s.calls[b].tested)]
  {
    hide StateOf, Possible;
    tr' := Go(tr, Advance(b));
    tr' := Go(tr', Advance(b));
  }

  /** And only so: a fetch that starts too soon after a failure belongs to a call that had passed its
      failure test before the failure was recorded. */
  lemma EarlyFetchHadPassedItsTest(tr: Trace, i: nat, j: nat)
    requires Possible(tr) && i < j < |StateOf(tr).log| && StateOf(tr).log[i].Failed? && StateOf(tr).log[j].Started?
    requires StateOf(tr).log[j].at - StateOf(tr).log[i].at < 30.0
    ensures StateOf(tr).log[j].begun <= StateOf(tr).log[j].tested <= i
  {
    FetchesArePaced(tr, i, j);
    PossibleInv(tr);
    hide StateOf, Possible;
    assert StartPaced(StateOf(tr).log, j);
  }

  /** From the start, with no key set yet: two calls for one kid overlap, and the second fetches at the
      moment the first fetch fails. */
  lemma OverlapCanSkipRetryDelay(kid: Kid) returns (tr: Trace)
    ensures Possible(tr) && |StateOf(tr).log| == 3
    ensures StateOf(tr).log[1].Failed? && StateOf(tr).log[2].Started? && StateOf(tr).log[2].at == StateOf(tr).log[1].at
  {
    assert StateOf(Initially) == INITIAL && Possible(Initially);
    hide StateOf, Possible;
    tr := GoToLock(Initially, 0, kid);
    tr := GoToLock(tr, 1, kid);
    tr := Go(tr, Advance(0));
    tr := Go(tr, Advance(0));
    tr := WaitingCallSkipsRetryDelay(tr, 0, 1);
  }

  // ---------------------------------------------------------------- one call at a time

  /** The clock readings of an undisturbed call, in order: judging the set's age, testing for a
      recent failure, judging again under the lock, and when the fetch answers. */
  datatype Readings = Readings(judged: real, tested: real, again: real, answered: real)

  ghost predicate Ordered(t: Readings) { t.judged <= t.tested <= t.again <= t.answered }

  /** What an undisturbed call leaves and returns. */
  function Alone(c: Cache, kid: Kid, t: Readings, response: Option<KeySet>): (Cache, Result) {
    var key := Lookup(c.keys, kid);
    if !NeedsFetch(c, kid, t.judged) then (c, KeyOr(key, UnknownKid))
    else if !AgeAtLeast(t.tested, c.failedAt, RETRY_S) then (c, KeyOr(key, Unavailable))
    else if !NeedsFetch(c, kid, t.again) then (c, KeyOr(key, UnknownKid))
    else
      match response
      case None => (c.(failedAt := Some(t.answered)), KeyOr(key, Unavailable))
      case Some(ks) => (Cache(Some(ks), Some(t.answered), c.failedAt), KeyOr(Lookup(Some(ks), kid), UnknownKid))
  }

  class SigningKeys {
    var keys: Option<KeySet>
    var fetchedAt: Option<real>
    var failedAt: Option<real>

    function State(): Cache
      reads this
    {
      Cache(keys, fetchedAt, failedAt)
    }

    constructor ()
      ensures State() == INITIAL.cache
    {
      keys, fetchedAt, failedAt := None, None, None;
    }

    method Fetch(response: Option<KeySet>, answered: real) returns (ok: bool)
      modifies this
      ensures ok == response.Some?
      ensures State() == if ok then Cache(response, Some(answered), old(failedAt))
              else old(State()).(failedAt := Some(answered))
    {
      if response.None? {
        failedAt := Some(answered);
        return false;
      }
      keys, fetchedAt := response, Some(answered);
      return true;
    }

    /** `key_for`, undisturbed: the lock is free. */
    method KeyFor(kid: Kid, t: Readings, response: Option<KeySet>) returns (r: Result)
      modifies this
      ensures (State(), r) == Alone(old(State()), kid, t, response)
    {
      var key := Lookup(keys, kid);
      if !NeedsFetch(State(), kid, t.judged) {
        return if key.None? then UnknownKid else Found(key.value);
      }
      if !AgeAtLeast(t.tested, failedAt, RETRY_S) {
        return if key.Some? then Found(key.value) else Unavailable;
      }
      if NeedsFetch(State(), kid, t.again) {
        var ok := Fetch(response, t.answered);
        if !ok {
          return if key.Some? then Found(key.value) else Unavailable;
        }
      }
      key := Lookup(keys, kid);
      return if key.None? then UnknownKid else Found(key.value);
    }
  }

  /** With calls that do not overlap: a key from a set past its TTL is returned only while the
      endpoint is failing, "unknown kid" only for a kid missing from a set younger than the minimum
      refresh age or fetched by this call, and fetches keep both distances. */
  lemma AloneIsExact(c: Cache, kid: Kid, t: Readings, response: Option<KeySet>)
    requires Ordered(t)
    ensures var (c', r) := Alone(c, kid, t, response);
            var fetched := c' != c;
            && (r.Found? && Lookup(c.keys, kid) == Some(r.key) && Lookup(c'.keys, kid) == Lookup(c.keys, kid)
                && AgeAtLeast(t.judged, c.fetchedAt, TTL_S)
                ==> (!AgeAtLeast(t.tested, c.failedAt, RETRY_S) || c'.failedAt == Some(t.answered)
                     || c'.fetchedAt == Some(t.answered)))
            && (r.UnknownKid? ==> Lookup(c'.keys, kid).None?
                                  && (c'.fetchedAt == Some(t.answered)
                                      || !AgeAtLeast(t.judged, c.fetchedAt, MIN_REFRESH_S)))
            && (r.Unavailable? ==> Lookup(c.keys, kid).None? && AgeAtLeast(t.judged, c.fetchedAt, MIN_REFRESH_S)
                                   && (!AgeAtLeast(t.tested, c.failedAt, RETRY_S) || c'.failedAt == Some(t.answered)))
            && (fetched ==> AgeAtLeast(t.again, c.fetchedAt, MIN_REFRESH_S) && AgeAtLeast(t.again, c.failedAt, RETRY_S))
            && (response.None? ==> c'.keys == c.keys && c'.fetchedAt == c.fetchedAt)
  {
  }

  lemma GoTo(tr: Trace, now: real) returns (tr': Trace)
    requires Possible(tr) && StateOf(tr).clock <= now
    ensures Possible(tr') && StateOf(tr') == StateOf(tr).(clock := now)
  {
    tr' := Go(tr, Tick(now - StateOf(tr).clock));
  }

  /** The undisturbed call is one of the machine's interleavings: from any reachable state with the
      lock free, a fresh call stepped with these readings ends with `Alone`'s cache and result. */
  lemma AloneIsReachable(tr: Trace, id: nat, kid: Kid, t: Readings, response: Option<KeySet>) returns (tr': Trace)
    requires Possible(tr) && Ordered(t) && StateOf(tr).clock <= t.judged
    requires id !in StateOf(tr).calls && StateOf(tr).lock.None?
    ensures Possible(tr') && Ended(tr', id) && StateOf(tr').lock.None?
    ensures (StateOf(tr').cache, ResultOf(tr', id)) == Alone(StateOf(tr).cache, kid, t, response)
  {
    hide StateOf, Possible;
    var c := StateOf(tr).cache;
    tr' := GoTo(tr, t.judged);
    tr' := Go(tr', Begin(id, kid));
    tr' := Go(tr', Advance(id));
    tr' := Go(tr', Advance(id));
    tr' := Go(tr', Advance(id));
    if NeedsFetch(c, kid, t.judged) {
      tr' := GoTo(tr', t.tested);
      tr' := Go(tr', Advance(id));
      if AgeAtLeast(t.tested, c.failedAt, RETRY_S) {
        tr' := HeldPart(tr', id, Lookup(c.keys, kid), t, response);
      }
    }
  }

  lemma HeldPart(tr: Trace, id: nat, key: Option<Key>, t: Readings, response: Option<KeySet>) returns (tr': Trace)
    requires Possible(tr) && Ordered(t) && StateOf(tr).clock == t.tested && StateOf(tr).lock.None?
    requires id in StateOf(tr).calls && StateOf(tr).calls[id].stage == Waiting(key)
    requires key == Lookup(StateOf(tr).cache.keys, StateOf(tr).calls[id].kid)
    requires NeedsFetch(StateOf(tr).cache, StateOf(tr).calls[id].kid, t.judged)
    requires AgeAtLeast(t.tested, StateOf(tr).cache.failedAt, RETRY_S)
    ensures Possible(tr') && Ended(tr', id) && StateOf(tr').lock.None?
    ensures (StateOf(tr').cache, ResultOf(tr', id)) == Alone(StateOf(tr).cache, StateOf(tr).calls[id].kid, t, response)
  {
    hide StateOf, Possible;
    tr' := GoTo(tr, t.again);
    tr' := Go(tr', Advance(id));
    tr' := Go(tr', Advance(id));
    tr' := GoTo(tr', t.answered);
    tr' := FetchPart(tr', id, key, response);
  }

  lemma FetchPart(tr: Trace, id: nat, key: Option<Key>, response: Option<KeySet>) returns (tr': Trace)
    requires Possible(tr) && id in StateOf(tr).calls && StateOf(tr).calls[id].stage == Fetching(key)
    ensures Possible(tr') && Ended(tr', id) && StateOf(tr').lock.None?
    ensures var s := StateOf(tr);
            (StateOf(tr').cache, ResultOf(tr', id))
            == match response
               case None => (s.cache.(failedAt := Some(s.clock)), KeyOr(key, Unavailable))
               case Some(ks) =>
                 (Cache(Some(ks), Some(s.clock), s.cache.failedAt),
                  KeyOr(Lookup(Some(ks), s.calls[id].kid), UnknownKid))
  {
    hide StateOf, Possible;
    tr' := Go(tr, Response(id, response));
    tr' := Go(tr', Advance(id));
    if response.Some? {
      tr' := Go(tr', Advance(id));
      tr' := Go(tr', Advance(id));
      tr' := Go(tr', Advance(id));
    }
  }
}
