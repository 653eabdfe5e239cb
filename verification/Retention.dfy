/** Timed retention: the purge of `dealfinder/retention.py` against the two guarded writers,
    `pgstore.upsert` and `userstore.add_watch`. Each scoped call is one atomic step. */
module Retention {
  import opened Options
  import opened Licensing

  const RETENTION_MARGIN_S := 25.0 * HOUR
  const WATCH_LIMIT := 200

  type Vec = seq<real>

  /** A row to store. `fetchedAt` is missing when the caller does not say when its source answered. */
  datatype Row = Row(id: string, title: string, source: string, price: real, fetchedAt: Option<real>)

  datatype Offer = Offer(title: string, source: string, price: real, fetchedAt: real, embedding: Option<Vec>)

  datatype Watch = Watch(tenant: string, title: string, source: string, target: Option<real>, lastPrice: real,
                         lastCheckedAt: real)

  /** Offers by tenant and id; watches by user and offer id. */
  datatype Db = Db(offers: map<(string, string), Offer>, watchlist: map<(string, string), Watch>)

  // ---------------------------------------------------------------- the writers and the purge

  function UpsertRow(db: Db, tenant: string, p: Row, emb: Option<Vec>, now: real): Db {
    if !MayStore(p.source) then db
    else
      var key := (tenant, p.id);
      var vec := if MayEmbed(p.source) then emb else None;
      var kept := if vec.None? && key in db.offers then db.offers[key].embedding else vec;
      var at := if p.fetchedAt.Some? then p.fetchedAt.value else now;
      db.(offers := db.offers[key := Offer(p.title, p.source, p.price, at, kept)])
  }

  function UpsertAll(db: Db, tenant: string, rows: seq<(Row, Option<Vec>)>, now: real): Db {
    if rows == [] then db
    else UpsertRow(UpsertAll(db, tenant, rows[..|rows| - 1], now), tenant, rows[|rows| - 1].0, rows[|rows| - 1].1, now)
  }

  function Written(rows: seq<(Row, Option<Vec>)>): nat {
    if rows == [] then 0
    else Written(rows[..|rows| - 1]) + (if MayStore(rows[|rows| - 1].0.source) then 1 else 0)
  }

  datatype AddResult = Added(watch: Watch) | LookupError | LimitExceeded

  function WatchesOf(db: Db, user: string): set<(string, string)> {
    set k | k in db.watchlist && k.0 == user
  }

  function WatchResult(db: Db, user: string, tenant: string, offerId: string, target: Option<real>): AddResult {
    if (tenant, offerId) !in db.offers then LookupError
    else
      var o := db.offers[(tenant, offerId)];
      if !MayStore(o.source) then LookupError
      else if (user, offerId) !in db.watchlist && |WatchesOf(db, user)| >= WATCH_LIMIT then LimitExceeded
      else
        var first := if (user, offerId) in db.watchlist then db.watchlist[(user, offerId)].tenant else tenant;
        Added(Watch(first, o.title, o.source, target, o.price, o.fetchedAt))
  }

  function Watched(db: Db, user: string, tenant: string, offerId: string, target: Option<real>): Db {
    match WatchResult(db, user, tenant, offerId, target)
    case Added(w) => db.(watchlist := db.watchlist[(user, offerId) := w])
    case LookupError => db
    case LimitExceeded => db
  }

  /** The purge keeps a row of a storable source until it is older than the cut-off. */
  predicate Keeps(source: string, stamp: real, now: real) {
    MayStore(source) && stamp >= now - (MaxAge(source) - RETENTION_MARGIN_S)
  }

  function Purged(db: Db, now: real): Db {
    Db(map k | k in db.offers && Keeps(db.offers[k].source, db.offers[k].fetchedAt, now) :: db.offers[k],
       map k | k in db.watchlist && Keeps(db.watchlist[k].source, db.watchlist[k].lastCheckedAt, now) ::
         db.watchlist[k])
  }

  /** The text before the first ':' names a source that may be stored. */
  ghost predicate Storable(source: string) {
    SourceKey(source) in {"BestBuy", "RapidAPI", "Apify", "Amazon", "Shopify", "Firecrawl", "iTunes"}
  }

  class Store {
    var offers: map<(string, string), Offer>
    var watchlist: map<(string, string), Watch>

    function Contents(): Db
      reads this
    {
      Db(offers, watchlist)
    }

    constructor (db: Db)
      ensures Contents() == db
    {
      offers, watchlist := db.offers, db.watchlist;
    }

    /** `pgstore.upsert`; `rows` pairs each product with its embedding, if any. */
    method Upsert(rows: seq<(Row, Option<Vec>)>, tenant: string, now: real) returns (written: nat)
      modifies this
      ensures Contents() == UpsertAll(old(Contents()), tenant, rows, now)
      ensures written == Written(rows)
    {
      written := 0;
      for i := 0 to |rows|
        invariant Contents() == UpsertAll(old(Contents()), tenant, rows[..i], now)
        invariant written == Written(rows[..i])
      {
        assert rows[..i + 1][..i] == rows[..i];
        var (p, emb) := rows[i];
        if MayStore(p.source) {
          var vec := if MayEmbed(p.source) then emb else None;
          var key := (tenant, p.id);
          var kept := if vec.None? && key in offers then offers[key].embedding else vec;
          var at := if p.fetchedAt.Some? then p.fetchedAt.value else now;
          offers := offers[key := Offer(p.title, p.source, p.price, at, kept)];
          written := written + 1;
        }
      }
      assert rows[..|rows|] == rows;
    }

    /** `userstore.add_watch`: a copy of the offer, its stamp included. Watching again keeps the tenant the
        offer was first watched from. */
    method AddWatch(user: string, tenant: string, offerId: string, target: Option<real>) returns (r: AddResult)
      modifies this
      ensures r == WatchResult(old(Contents()), user, tenant, offerId, target)
      ensures Contents() == Watched(old(Contents()), user, tenant, offerId, target)
    {
      if (tenant, offerId) !in offers {
        return LookupError;
      }
      var offer := offers[(tenant, offerId)];
      if !MayStore(offer.source) {
        return LookupError;
      }
      if (user, offerId) !in watchlist {
        var mine := set k | k in watchlist && k.0 == user;
        if |mine| >= WATCH_LIMIT {
          return LimitExceeded;
        }
      }
      var first := if (user, offerId) in watchlist then watchlist[(user, offerId)].tenant else tenant;
      var w := Watch(first, offer.title, offer.source, target, offer.price, offer.fetchedAt);
      watchlist := watchlist[(user, offerId) := w];
      return Added(w);
    }

    method RemoveWatch(user: string, offerId: string) returns (removed: nat)
      modifies this
      ensures Contents() == old(Contents()).(watchlist := old(watchlist) - {(user, offerId)})
      ensures removed == if (user, offerId) in old(watchlist) then 1 else 0
    {
      removed := if (user, offerId) in watchlist then 1 else 0;
      watchlist := watchlist - {(user, offerId)};
    }

    /** `purge_expired`: both tables in one transaction, with the deleted counts. */
    method PurgeExpired(now: real) returns (offersGone: nat, watchesGone: nat)
      modifies this
      ensures Contents() == Purged(old(Contents()), now)
      ensures offersGone == |old(offers)| - |offers| && watchesGone == |old(watchlist)| - |watchlist|
    {
      var goneOffers := set k | k in offers && !Keeps(offers[k].source, offers[k].fetchedAt, now);
      var goneWatches := set k | k in watchlist && !Keeps(watchlist[k].source, watchlist[k].lastCheckedAt, now);
      DeletingPurges(Contents(), now, goneOffers, goneWatches);
      hide Purged, Keeps;
      offersGone, watchesGone := |goneOffers|, |goneWatches|;
      offers, watchlist := offers - goneOffers, watchlist - goneWatches;
    }
  }

  lemma DeletingPurges(db: Db, now: real, goneOffers: set<(string, string)>, goneWatches: set<(string, string)>)
    requires goneOffers == set k | k in db.offers && !Keeps(db.offers[k].source, db.offers[k].fetchedAt, now)
    requires goneWatches
             == set k | k in db.watchlist && !Keeps(db.watchlist[k].source, db.watchlist[k].lastCheckedAt, now)
    ensures Db(db.offers - goneOffers, db.watchlist - goneWatches) == Purged(db, now)
  {
    hide Keeps;
    assert db.offers - goneOffers == Purged(db, now).offers;
    assert db.watchlist - goneWatches == Purged(db, now).watchlist;
  }

  /** One row of an upsert: skipped if its source may not be stored; else the offer is as the row says, a
      missing stamp being now, with the row's vector or, without one, the stored one. */
  lemma UpsertedRowIsExact(db: Db, tenant: string, p: Row, emb: Option<Vec>, now: real)
    ensures !Storable(p.source) ==> UpsertRow(db, tenant, p, emb, now) == db
    ensures Storable(p.source) ==>
              var db' := UpsertRow(db, tenant, p, emb, now);
              && (tenant, p.id) in db'.offers
              && var o := db'.offers[(tenant, p.id)];
                 && db' == db.(offers := db.offers[(tenant, p.id) := o])
                 && o.title == p.title && o.source == p.source && o.price == p.price
                 && o.fetchedAt == (if p.fetchedAt.Some? then p.fetchedAt.value else now)
                 && (emb.Some? ==> o.embedding == emb)
                 && (emb.None? && (tenant, p.id) in db.offers ==> o.embedding == db.offers[(tenant, p.id)].embedding)
                 && (emb.None? && (tenant, p.id) !in db.offers ==> o.embedding == None)
  {
    hide SourceKey;
  }

  /** When a watch is refused, and what is stored else: no such offer, or not of a storable source; then the
      user's 200 watches, unless this one is among them; else the offer as it stands, its stamp included. */
  lemma WatchIsExact(db: Db, user: string, tenant: string, offerId: string, target: Option<real>)
    ensures var r, db' := WatchResult(db, user, tenant, offerId, target), Watched(db, user, tenant, offerId, target);
            var missing := (tenant, offerId) !in db.offers || !Storable(db.offers[(tenant, offerId)].source);
            var full := (user, offerId) !in db.watchlist && |set k | k in db.watchlist && k.0 == user| >= 200;
            && (r.LookupError? <==> missing) && (r.LimitExceeded? <==> !missing && full)
            && (r.Added? || db' == db)
            && (r.Added? ==>
                  var o := db.offers[(tenant, offerId)];
                  && db'.offers == db.offers && db'.watchlist == db.watchlist[(user, offerId) := r.watch]
                  && r.watch.title == o.title && r.watch.source == o.source && r.watch.target == target
                  && r.watch.lastPrice == o.price && r.watch.lastCheckedAt == o.fetchedAt
                  && ((user, offerId) !in db.watchlist ==> r.watch.tenant == tenant)
                  && ((user, offerId) in db.watchlist ==> r.watch.tenant == db.watchlist[(user, offerId)].tenant))
  {
    hide SourceKey;
  }

  /** The watch limit holds across every call. */
  lemma WatchLimitHolds(db: Db, user: string, tenant: string, offerId: string, target: Option<real>, other: string)
    requires |WatchesOf(db, other)| <= 200
    ensures |WatchesOf(Watched(db, user, tenant, offerId, target), other)| <= 200
  {
    var db' := Watched(db, user, tenant, offerId, target);
    if other != user {
      assert WatchesOf(db', other) == WatchesOf(db, other);
    } else {
      assert WatchesOf(db', other) == WatchesOf(db, other)
             || WatchesOf(db', other) == WatchesOf(db, other) + {(user, offerId)};
    }
  }

  // ---------------------------------------------------------------- runs

  datatype Event =
    | Upserted(tenant: string, rows: seq<(Row, Option<Vec>)>)
    | WatchAdded(user: string, tenant: string, offerId: string, target: Option<real>)
    | WatchRemoved(user: string, offerId: string)
    | PurgeRan
    | PurgeFailed

  /** A run after a first successful purge of any database, rows stored before the rules included. */
  datatype Trace = FirstPurge(db: Db, at: real) | Then(before: Trace, at: real, e: Event)

  function After(db: Db, at: real, e: Event): Db {
    match e
    case Upserted(tenant, rows) => UpsertAll(db, tenant, rows, at)
    case WatchAdded(user, tenant, offerId, target) => Watched(db, user, tenant, offerId, target)
    case WatchRemoved(user, offerId) => db.(watchlist := db.watchlist - {(user, offerId)})
    case PurgeRan => Purged(db, at)
    case PurgeFailed => db
  }

  function DbOf(tr: Trace): Db {
    match tr
    case FirstPurge(db, at) => Purged(db, at)
    case Then(before, at, e) => After(DbOf(before), at, e)
  }

  function LastSuccess(tr: Trace): real {
    match tr
    case FirstPurge(_, at) => at
    case Then(before, at, e) => if e.PurgeRan? then at else LastSuccess(before)
  }

  function LastAttempt(tr: Trace): real {
    match tr
    case FirstPurge(_, at) => at
    case Then(before, at, e) => if e.PurgeRan? || e.PurgeFailed? then at else LastAttempt(before)
  }

  function LastFailed(tr: Trace): bool {
    match tr
    case FirstPurge(_, _) => false
    case Then(before, _, e) => if e.PurgeRan? then false else if e.PurgeFailed? then true else LastFailed(before)
  }

  /** Time goes forward, a purge is attempted within 12 hours of the last attempt, and no two
      attempts in a row fail. */
  ghost predicate Scheduled(tr: Trace) {
    match tr
    case FirstPurge(_, _) => true
    case Then(before, at, e) =>
      && Scheduled(before) && before.at <= at <= LastAttempt(before) + 12.0 * HOUR
      && (e.PurgeFailed? ==> !LastFailed(before))
  }

  /** The moment `now` comes before the next attempt is overdue. */
  ghost predicate InTime(tr: Trace, now: real) { tr.at <= now <= LastAttempt(tr) + 12.0 * HOUR }

  /** The row, if it may be stored, arrives more than two purge intervals short of its age limit. */
  ghost predicate ArrivesYoung(p: Row, at: real) {
    MayStore(p.source) && p.fetchedAt.Some? ==> at - p.fetchedAt.value < MaxAge(p.source) - 24.0 * HOUR
  }

  ghost predicate ArrivalsAreYoung(tr: Trace) {
    match tr
    case FirstPurge(_, _) => true
    case Then(before, at, e) =>
      ArrivalsAreYoung(before) && (e.Upserted? ==> forall i :: 0 <= i < |e.rows| ==> ArrivesYoung(e.rows[i].0, at))
  }

  /** Two purge intervals after `since`, the row is still short of its limit. */
  predicate Safe(source: string, stamp: real, since: real) {
    MayStore(source) && since + 24.0 * HOUR - stamp < MaxAge(source)
  }

  ghost predicate AllSafe(db: Db, since: real) {
    && (forall k :: k in db.offers ==> Safe(db.offers[k].source, db.offers[k].fetchedAt, since))
    && (forall k :: k in db.watchlist ==> Safe(db.watchlist[k].source, db.watchlist[k].lastCheckedAt, since))
  }

  lemma PurgeMakesSafe(db: Db, now: real)
    ensures AllSafe(Purged(db, now), now)
  {
  }

  lemma {:induction false} UpsertKeepsSafe(db: Db, tenant: string, rows: seq<(Row, Option<Vec>)>, at: real, since: real)
    requires AllSafe(db, since) && since <= at && forall i :: 0 <= i < |rows| ==> ArrivesYoung(rows[i].0, at)
    ensures AllSafe(UpsertAll(db, tenant, rows, at), since)
  {
    if rows != [] {
      var n := |rows| - 1;
      UpsertKeepsSafe(db, tenant, rows[..n], at, since);
    }
  }

  lemma {:induction false} RunIsSafe(tr: Trace)
    requires Scheduled(tr) && ArrivalsAreYoung(tr)
    ensures AllSafe(DbOf(tr), LastSuccess(tr))
    ensures LastSuccess(tr) <= tr.at && LastAttempt(tr) <= tr.at
    ensures if LastFailed(tr) then LastAttempt(tr) <= LastSuccess(tr) + 12.0 * HOUR
            else LastAttempt(tr) == LastSuccess(tr)
  {
    hide Safe, Keeps;
    match tr
    case FirstPurge(db, at) => PurgeMakesSafe(db, at);
    case Then(before, at, e) =>
      RunIsSafe(before);
      match e
      case Upserted(tenant, rows) => UpsertKeepsSafe(DbOf(before), tenant, rows, at, LastSuccess(before));
      case WatchAdded(user, tenant, offerId, target) =>
      case WatchRemoved(_, _) =>
      case PurgeRan => PurgeMakesSafe(DbOf(before), at);
      case PurgeFailed =>
  }

  /** With the purge on schedule and no two failures in a row, no stored row of either table ever
      reaches its source's age limit, and none is from a source that may not be stored. */
  lemma NoRowReachesItsLimit(tr: Trace, now: real)
    requires Scheduled(tr) && ArrivalsAreYoung(tr) && InTime(tr, now)
    ensures forall k :: k in DbOf(tr).offers ==>
              MayStore(DbOf(tr).offers[k].source)
                && now - DbOf(tr).offers[k].fetchedAt < MaxAge(DbOf(tr).offers[k].source)
    ensures forall k :: k in DbOf(tr).watchlist ==>
              MayStore(DbOf(tr).watchlist[k].source)
                && now - DbOf(tr).watchlist[k].lastCheckedAt < MaxAge(DbOf(tr).watchlist[k].source)
  {
    RunIsSafe(tr);
    hide MayStore, MaxAge, DbOf, LastAttempt, LastSuccess, LastFailed, Scheduled, ArrivalsAreYoung;
    var db := DbOf(tr);
    forall k | k in db.offers
      ensures MayStore(db.offers[k].source) && now - db.offers[k].fetchedAt < MaxAge(db.offers[k].source)
    {
      assert Safe(db.offers[k].source, db.offers[k].fetchedAt, LastSuccess(tr));
    }
    forall k | k in db.watchlist
      ensures MayStore(db.watchlist[k].source) && now - db.watchlist[k].lastCheckedAt < MaxAge(db.watchlist[k].source)
    {
      assert Safe(db.watchlist[k].source, db.watchlist[k].lastCheckedAt, LastSuccess(tr));
    }
  }

  /** The arrival condition is needed: any storable row that arrives older than that can reach its
      limit on schedule, when the one purge attempt after its arrival fails. */
  lemma OldArrivalCanReachItsLimit(p: Row, at: real) returns (tr: Trace, now: real)
    requires MayStore(p.source) && !ArrivesYoung(p, at)
    ensures Scheduled(tr) && InTime(tr, now)
    ensures ("public", p.id) in DbOf(tr).offers && DbOf(tr).offers[("public", p.id)].source == p.source
    ensures now - DbOf(tr).offers[("public", p.id)].fetchedAt >= MaxAge(p.source)
  {
    hide MayStore, MaxAge, MayEmbed;
    var rows := [(p, None)];
    var t1 := Then(FirstPurge(Db(map[], map[]), at), at, Upserted("public", rows));
    assert rows[..0] == [];
    assert UpsertAll(DbOf(FirstPurge(Db(map[], map[]), at)), "public", [], at)
           == DbOf(FirstPurge(Db(map[], map[]), at));
    assert Scheduled(t1) && LastAttempt(t1) == at && !LastFailed(t1);
    tr := Then(t1, at + 12.0 * HOUR, PurgeFailed);
    now := at + 24.0 * HOUR;
  }

  /** No unguarded source survives a purge, whatever was there before. */
  lemma PurgeLeavesOnlyStorable(db: Db, now: real)
    ensures forall k :: k in Purged(db, now).offers ==> MayStore(Purged(db, now).offers[k].source)
    ensures forall k :: k in Purged(db, now).watchlist ==> MayStore(Purged(db, now).watchlist[k].source)
    ensures Purged(Purged(db, now), now) == Purged(db, now)
  {
  }

  /** A purge keeps a row of either table, unchanged, if and only if its source may be stored and its stamp
      is at most 47 hours old. */
  lemma PurgeIsExact(db: Db, now: real)
    ensures forall k :: k in Purged(db, now).offers
                        <==> k in db.offers && Storable(db.offers[k].source)
                             && now - db.offers[k].fetchedAt <= 47.0 * 3600.0
    ensures forall k :: k in Purged(db, now).watchlist
                        <==> k in db.watchlist && Storable(db.watchlist[k].source)
                             && now - db.watchlist[k].lastCheckedAt <= 47.0 * 3600.0
    ensures forall k :: k in Purged(db, now).offers ==> Purged(db, now).offers[k] == db.offers[k]
    ensures forall k :: k in Purged(db, now).watchlist ==> Purged(db, now).watchlist[k] == db.watchlist[k]
  {
    hide SourceKey;
  }

  /** Nothing after `past` writes this offer, and no purge succeeds once it is over 47 hours old. */
  ghost predicate OfferIsLeft(tr: Trace, past: Trace, k: (string, string), fetchedAt: real) {
    tr == past
    || (tr.Then? && OfferIsLeft(tr.before, past, k, fetchedAt)
        && (tr.e.Upserted? && tr.e.tenant == k.0 ==> forall i :: 0 <= i < |tr.e.rows| ==> tr.e.rows[i].0.id != k.1)
        && (tr.e.PurgeRan? ==> tr.at - fetchedAt <= 47.0 * 3600.0))
  }

  lemma {:induction false} UpsertLeavesOthers(db: Db, tenant: string, rows: seq<(Row, Option<Vec>)>, now: real,
                                              k: (string, string))
    requires tenant == k.0 ==> forall i :: 0 <= i < |rows| ==> rows[i].0.id != k.1
    ensures var db' := UpsertAll(db, tenant, rows, now);
            (k in db'.offers <==> k in db.offers) && (k in db.offers ==> db'.offers[k] == db.offers[k])
  {
    hide MayStore, MayEmbed;
    if rows != [] { UpsertLeavesOthers(db, tenant, rows[..|rows| - 1], now, k); }
  }

  /** Nothing is deleted early: over any run, a stored offer of a storable source that is not written again
      stays, unchanged, until a purge succeeds when it is over 47 hours old. */
  lemma {:induction false} YoungOfferStays(tr: Trace, past: Trace, k: (string, string))
    requires k in DbOf(past).offers && Storable(DbOf(past).offers[k].source)
    requires OfferIsLeft(tr, past, k, DbOf(past).offers[k].fetchedAt)
    ensures k in DbOf(tr).offers && DbOf(tr).offers[k] == DbOf(past).offers[k]
  {
    if tr != past {
      YoungOfferStays(tr.before, past, k);
      hide Storable;
      match tr.e
      case Upserted(tenant, rows) => UpsertLeavesOthers(DbOf(tr.before), tenant, rows, tr.at, k);
      case PurgeRan => PurgeIsExact(DbOf(tr.before), tr.at);
      case WatchAdded(_, _, _, _) =>
      case WatchRemoved(_, _) =>
      case PurgeFailed =>
    }
  }

  /** Nothing after `past` writes or removes this watch, and no purge succeeds once it is too old. */
  ghost predicate WatchIsLeft(tr: Trace, past: Trace, k: (string, string), stamp: real) {
    tr == past
    || (tr.Then? && WatchIsLeft(tr.before, past, k, stamp)
        && (tr.e.WatchAdded? ==> (tr.e.user, tr.e.offerId) != k)
        && (tr.e.WatchRemoved? ==> (tr.e.user, tr.e.offerId) != k)
        && (tr.e.PurgeRan? ==> tr.at - stamp <= 47.0 * 3600.0))
  }

  lemma {:induction false} UpsertLeavesWatches(db: Db, tenant: string, rows: seq<(Row, Option<Vec>)>, now: real)
    ensures UpsertAll(db, tenant, rows, now).watchlist == db.watchlist
  {
    if rows != [] { UpsertLeavesWatches(db, tenant, rows[..|rows| - 1], now); }
  }

  /** The same for a watch. */
  lemma {:induction false} YoungWatchStays(tr: Trace, past: Trace, k: (string, string))
    requires k in DbOf(past).watchlist && Storable(DbOf(past).watchlist[k].source)
    requires WatchIsLeft(tr, past, k, DbOf(past).watchlist[k].lastCheckedAt)
    ensures k in DbOf(tr).watchlist && DbOf(tr).watchlist[k] == DbOf(past).watchlist[k]
  {
    if tr != past {
      YoungWatchStays(tr.before, past, k);
      hide Storable;
      match tr.e
      case Upserted(tenant, rows) => UpsertLeavesWatches(DbOf(tr.before), tenant, rows, tr.at);
      case PurgeRan => PurgeIsExact(DbOf(tr.before), tr.at);
      case WatchAdded(_, _, _, _) =>
      case WatchRemoved(_, _) =>
      case PurgeFailed =>
    }
  }

  /** A row of the new table is of a storable source, or stood there unchanged. */
  ghost predicate OffersStorable(before: Db, after: Db) {
    forall k :: k in after.offers ==>
      MayStore(after.offers[k].source) || (k in before.offers && after.offers[k] == before.offers[k])
  }

  ghost predicate WatchesStorable(before: Db, after: Db) {
    forall k :: k in after.watchlist ==>
      MayStore(after.watchlist[k].source) || (k in before.watchlist && after.watchlist[k] == before.watchlist[k])
  }

  /** The guarded writers, on any database: neither adds or changes a row of a source that may not be
      stored, and neither touches the other table. */
  lemma {:induction false} WritersAddOnlyStorable(db: Db, tenant: string, rows: seq<(Row, Option<Vec>)>, now: real,
                                                  user: string, offerId: string, target: Option<real>)
    ensures OffersStorable(db, UpsertAll(db, tenant, rows, now))
    ensures UpsertAll(db, tenant, rows, now).watchlist == db.watchlist
    ensures WatchesStorable(db, Watched(db, user, tenant, offerId, target))
    ensures Watched(db, user, tenant, offerId, target).offers == db.offers
    decreases |rows|
  {
    hide MayStore, MayEmbed, WatchesOf;
    if rows != [] {
      WritersAddOnlyStorable(db, tenant, rows[..|rows| - 1], now, user, offerId, target);
    }
  }
}
