/** The saved-search job of `dealfinder/worker.py`: search, diff against what the user was already
    told, notify only the new deals, hand on the new state. */
module Worker {
  import opened Sets
  import Fusion

  type Key = (string, string)

  /** What each (user, query) has been notified of. */
  type Cursor = map<Key, set<string>>

  datatype SavedSearch = SavedSearch(user: string, query: string, k: nat)

  datatype Item = Item(id: string, title: string, price: real)

  /** The snapshot searched: its products, their deal scores, and the two rankings of a query. */
  datatype Catalog = Catalog(
    products: seq<Item>, deal: Fusion.Scores, semantic: string -> seq<int>, keyword: string -> seq<int>)

  datatype Deal = Deal(item: Item, score: real)

  datatype Notification = Notification(
    user: string, query: string, itemId: string, title: string, price: real, score: real)

  const DEAL_SCORE_THRESHOLD := 0.30

  function KeyOf(s: SavedSearch): Key { (s.user, s.query) }

  function SeenAt(c: Cursor, k: Key): set<string> { if k in c then c[k] else {} }

  // ---------------------------------------------------------------- find_deals

  /** The rankings hold indices of products. */
  ghost predicate ValidCatalog(c: Catalog) {
    forall query: string, i: int ::
      (i in c.semantic(query) ==> 0 <= i < |c.products|) && (i in c.keyword(query) ==> 0 <= i < |c.products|)
  }

  ghost predicate UniqueIds(c: Catalog) {
    forall i, j :: 0 <= i < j < |c.products| ==> c.products[i].id != c.products[j].id
  }

  ghost predicate InRange(c: Catalog, results: seq<int>) {
    forall i :: 0 <= i < |results| ==> 0 <= results[i] < |c.products|
  }

  /** The triples of `search_catalog` that clear the threshold. */
  function Clearing(c: Catalog, results: seq<int>): seq<Deal>
    requires InRange(c, results)
  {
    if results == [] then []
    else
      var n := |results| - 1;
      var score := Fusion.At(c.deal, results[n]);
      Clearing(c, results[..n])
      + (if score >= DEAL_SCORE_THRESHOLD then [Deal(c.products[results[n]], score)] else [])
  }

  function Results(c: Catalog, s: SavedSearch): seq<int> {
    Fusion.SearchCatalog(c.semantic(s.query), c.keyword(s.query), c.deal, s.k, 0.5)
  }

  lemma ResultsAreProducts(c: Catalog, s: SavedSearch)
    requires ValidCatalog(c)
    ensures NoDuplicates(Results(c, s)) && InRange(c, Results(c, s))
  {
    Fusion.SearchResultsAreDistinct(c.semantic(s.query), c.keyword(s.query), c.deal, s.k, 0.5);
    hide Fusion.SearchCatalog;
    forall i | 0 <= i < |Results(c, s)|
      ensures 0 <= Results(c, s)[i] < |c.products|
    {
      assert Results(c, s)[i] in Results(c, s);
    }
  }

  function FindDeals(c: Catalog, s: SavedSearch): seq<Deal>
    requires ValidCatalog(c)
  {
    ResultsAreProducts(c, s);
    Clearing(c, Results(c, s))
  }

  predicate DistinctIds(deals: seq<Deal>) {
    forall i, j :: 0 <= i < j < |deals| ==> deals[i].item.id != deals[j].item.id
  }

  lemma {:induction false} ClearingHolds(c: Catalog, results: seq<int>, d: Deal)
    requires InRange(c, results)
    ensures d in Clearing(c, results) <==>
            d.score >= DEAL_SCORE_THRESHOLD
            && exists i :: 0 <= i < |results| && d == Deal(c.products[results[i]], Fusion.At(c.deal, results[i]))
  {
    if results != [] {
      var n := |results| - 1;
      ClearingHolds(c, results[..n], d);
      hide Fusion.At;
      if i :| 0 <= i < n && d == Deal(c.products[results[..n][i]], Fusion.At(c.deal, results[..n][i])) {
        assert d == Deal(c.products[results[i]], Fusion.At(c.deal, results[i]));
      }
      if i :| 0 <= i < n && d == Deal(c.products[results[i]], Fusion.At(c.deal, results[i])) {
        assert results[..n][i] == results[i];
      }
    }
  }

  lemma {:induction false} ClearingIsDistinct(c: Catalog, results: seq<int>)
    requires InRange(c, results)
    requires NoDuplicates(results) && UniqueIds(c)
    ensures DistinctIds(Clearing(c, results))
  {
    if results != [] {
      var n := |results| - 1;
      ClearingIsDistinct(c, results[..n]);
      forall d | d in Clearing(c, results[..n])
        ensures d.item.id != c.products[results[n]].id
      {
        ClearingHolds(c, results[..n], d);
        var i :| 0 <= i < n && d == Deal(c.products[results[..n][i]], Fusion.At(c.deal, results[..n][i]));
        assert results[i] != results[n];
      }
    }
  }

  /** One search never returns a product id twice, when no two products share one. */
  lemma DealsAreDistinct(c: Catalog, s: SavedSearch)
    requires ValidCatalog(c) && UniqueIds(c)
    ensures DistinctIds(FindDeals(c, s))
  {
    ResultsAreProducts(c, s);
    ClearingIsDistinct(c, Results(c, s));
  }

  // ---------------------------------------------------------------- what one run does

  function NoteFor(s: SavedSearch, d: Deal): Notification {
    Notification(s.user, s.query, d.item.id, d.item.title, d.item.price, d.score)
  }

  function NewNotes(s: SavedSearch, deals: seq<Deal>, seen: set<string>): seq<Notification> {
    if deals == [] then []
    else
      var d := deals[|deals| - 1];
      NewNotes(s, deals[..|deals| - 1], seen) + (if d.item.id in seen then [] else [NoteFor(s, d)])
  }

  function IdsOf(notes: seq<Notification>): set<string> { set n | n in notes :: n.itemId }

  function Mark(c: Cursor, k: Key, ids: set<string>): Cursor {
    if ids == {} then c else c[k := SeenAt(c, k) + ids]
  }

  datatype Outcome = Outcome(notes: seq<Notification>, cursor: Cursor)

  function Serve(c: Catalog, s: SavedSearch, o: Outcome): Outcome
    requires ValidCatalog(c)
  {
    var notes := NewNotes(s, FindDeals(c, s), SeenAt(o.cursor, KeyOf(s)));
    Outcome(o.notes + notes, Mark(o.cursor, KeyOf(s), IdsOf(notes)))
  }

  /** One run over the saved searches in order. */
  function Run(c: Catalog, saved: seq<SavedSearch>, cursor: Cursor): Outcome
    requires ValidCatalog(c)
  {
    if saved == [] then Outcome([], cursor)
    else Serve(c, saved[|saved| - 1], Run(c, saved[..|saved| - 1], cursor))
  }

  datatype Job = Job(catalog: Catalog, saved: seq<SavedSearch>)

  ghost predicate ValidJobs(jobs: seq<Job>) {
    forall i :: 0 <= i < |jobs| ==> ValidCatalog(jobs[i].catalog)
  }

  /** Run after run, each fed the state the one before returned: everything notified, and the state. */
  function Runs(jobs: seq<Job>, cursor: Cursor): Outcome
    requires ValidJobs(jobs)
  {
    if jobs == [] then Outcome([], cursor)
    else
      var before := Runs(jobs[..|jobs| - 1], cursor);
      var last := Run(jobs[|jobs| - 1].catalog, jobs[|jobs| - 1].saved, before.cursor);
      Outcome(before.notes + last.notes, last.cursor)
  }

  // ---------------------------------------------------------------- the objects

  class IdSet {
    var ids: set<string>

    constructor (ids: set<string>)
      ensures this.ids == ids
    {
      this.ids := ids;
    }

    method Update(more: set<string>)
      modifies this
      ensures ids == old(ids) + more
    {
      ids := ids + more;
    }
  }

  class SuggestionState {
    var seen: map<Key, IdSet>

    /** No two keys share a set object. */
    ghost predicate Valid() reads this {
      forall k, l :: k in seen && l in seen && k != l ==> seen[k] != seen[l]
    }

    ghost function View(): (c: Cursor) reads this, seen.Values {
      map k | k in seen :: seen[k].ids
    }

    constructor ()
      ensures Valid() && seen == map[]
    {
      seen := map[];
    }

    method AlreadySeen(s: SavedSearch) returns (ids: set<string>)
      ensures ids == SeenAt(View(), KeyOf(s))
    {
      ids := if KeyOf(s) in seen then seen[KeyOf(s)].ids else {};
    }

    method MarkSeen(s: SavedSearch, ids: set<string>)
      requires Valid()
      modifies this, seen.Values
      ensures Valid() && View() == old(View())[KeyOf(s) := SeenAt(old(View()), KeyOf(s)) + ids]
      ensures fresh(seen.Values - old(seen.Values))
    {
      if KeyOf(s) !in seen {
        var none := new IdSet({});
        seen := seen[KeyOf(s) := none];
      }
      seen[KeyOf(s)].Update(ids);
    }

    /** A deep copy: no set object is shared with this state. */
    method Copy() returns (c: SuggestionState)
      ensures fresh(c) && c.Valid() && fresh(c.seen.Values)
      ensures c.View() == View()
    {
      c := new SuggestionState();
      var rest := seen.Keys;
      while rest != {}
        invariant c.Valid() && fresh(c) && forall k :: k in c.seen ==> fresh(c.seen[k])
        invariant rest <= seen.Keys && c.seen.Keys == seen.Keys - rest
        invariant forall k :: k in c.seen ==> c.seen[k].ids == seen[k].ids
        decreases rest
      {
        var k :| k in rest;
        var ids := new IdSet(seen[k].ids);
        c.seen := c.seen[k := ids];
        rest := rest - {k};
      }
    }
  }

  /** The job: exactly the pure run, on a state of its own; the state passed in is left as it was. */
  method RunSuggestions(saved: seq<SavedSearch>, state: SuggestionState, catalog: Catalog)
    returns (notes: seq<Notification>, newState: SuggestionState)
    requires ValidCatalog(catalog) && state.Valid()
    ensures fresh(newState) && newState.Valid() && fresh(newState.seen.Values)
    ensures state.View() == old(state.View()) && Outcome(notes, newState.View()) == Run(catalog, saved, state.View())
  {
    hide Serve, ValidCatalog, SuggestionState.Valid, SuggestionState.View;
    newState := state.Copy();
    notes := [];
    for i := 0 to |saved|
      invariant fresh(newState) && newState.Valid() && fresh(newState.seen.Values)
      invariant Outcome(notes, newState.View()) == Run(catalog, saved[..i], state.View())
    {
      assert saved[..i + 1][..i] == saved[..i];
      notes := ServeOne(catalog, saved[i], newState, notes);
    }
    assert saved[..|saved|] == saved;
  }

  method ServeOne(catalog: Catalog, s: SavedSearch, state: SuggestionState, sent: seq<Notification>)
    returns (notes: seq<Notification>)
    requires ValidCatalog(catalog) && state.Valid()
    modifies state, state.seen.Values
    ensures state.Valid() && fresh(state.seen.Values - old(state.seen.Values))
    ensures Outcome(notes, state.View()) == Serve(catalog, s, Outcome(sent, old(state.View())))
  {
    hide ValidCatalog, NewNotes, IdsOf, SeenAt, SuggestionState.Valid, SuggestionState.View;
    ghost var was := state.View();
    var seen := state.AlreadySeen(s);
    var deals := FindDeals(catalog, s);
    var newIds;
    notes, newIds := NotifyNew(s, deals, seen, sent);
    assert Serve(catalog, s, Outcome(sent, was)) == Outcome(notes, Mark(was, KeyOf(s), newIds));
    hide FindDeals, Serve;
    if newIds != {} {
      state.MarkSeen(s, newIds);
    }
  }

  /** The inner loop: send and collect what is not in `seen`, which is not updated meanwhile. */
  method NotifyNew(s: SavedSearch, deals: seq<Deal>, seen: set<string>, sent: seq<Notification>)
    returns (notes: seq<Notification>, newIds: set<string>)
    ensures notes == sent + NewNotes(s, deals, seen) && newIds == IdsOf(NewNotes(s, deals, seen))
  {
    notes, newIds := sent, {};
    for j := 0 to |deals|
      invariant notes == sent + NewNotes(s, deals[..j], seen)
      invariant newIds == IdsOf(NewNotes(s, deals[..j], seen))
    {
      assert deals[..j + 1][..j] == deals[..j];
      var d := deals[j];
      if d.item.id !in seen {
        notes := notes + [NoteFor(s, d)];
        newIds := newIds + {d.item.id};
      }
    }
    assert deals[..|deals|] == deals;
  }

  // ---------------------------------------------------------------- never twice

  ghost predicate Notified(notes: seq<Notification>, k: Key, id: string) {
    exists i :: 0 <= i < |notes| && IsAbout(notes[i], k, id)
  }

  predicate IsAbout(n: Notification, k: Key, id: string) { (n.user, n.query) == k && n.itemId == id }

  predicate SameSubject(m: Notification, n: Notification) {
    m.user == n.user && m.query == n.query && m.itemId == n.itemId
  }

  ghost predicate NeverTwice(notes: seq<Notification>) {
    forall i, j :: 0 <= i < j < |notes| ==> !SameSubject(notes[i], notes[j])
  }

  /** From one state to the next: what is remembered is what was remembered and what was notified,
      and nothing remembered was notified. */
  ghost predicate Recorded(c: Cursor, notes: seq<Notification>, c': Cursor) {
    && (forall k, id :: id in SeenAt(c', k) <==> id in SeenAt(c, k) || Notified(notes, k, id))
    && (forall k, id :: Notified(notes, k, id) ==> id !in SeenAt(c, k))
  }

  lemma NotifiedOne(n: Notification, k: Key, id: string)
    ensures Notified([n], k, id) <==> IsAbout(n, k, id)
  {
    assert [n][0] == n;
  }

  lemma NotifiedConcat(m: seq<Notification>, n: seq<Notification>, k: Key, id: string)
    ensures Notified(m + n, k, id) <==> Notified(m, k, id) || Notified(n, k, id)
  {
    if i :| 0 <= i < |m| && IsAbout(m[i], k, id) { assert IsAbout((m + n)[i], k, id); }
    if i :| 0 <= i < |n| && IsAbout(n[i], k, id) { assert IsAbout((m + n)[|m| + i], k, id); }
    hide IsAbout;
  }

  lemma RecordedCompose(c: Cursor, m: seq<Notification>, c': Cursor, n: seq<Notification>, c'': Cursor)
    requires Recorded(c, m, c') && Recorded(c', n, c'')
    ensures Recorded(c, m + n, c'')
    ensures NeverTwice(m) && NeverTwice(n) ==> NeverTwice(m + n)
  {
    forall k: Key, id: string
      ensures Notified(m + n, k, id) <==> Notified(m, k, id) || Notified(n, k, id)
    {
      NotifiedConcat(m, n, k, id);
    }
    forall i, j | 0 <= i < |m| && 0 <= j < |n|
      ensures !SameSubject(m[i], n[j])
    {
      var k, id := (n[j].user, n[j].query), n[j].itemId;
      assert IsAbout(n[j], k, id) && Notified(n, k, id);
    }
    hide Notified, SeenAt, SameSubject;
  }

  /** The notes of one search are about its own key and are exactly its unseen deals. */
  lemma {:induction false} NewNotesExact(s: SavedSearch, deals: seq<Deal>, seen: set<string>, k: Key, id: string)
    ensures Notified(NewNotes(s, deals, seen), k, id) <==>
            k == KeyOf(s) && id !in seen && exists j :: 0 <= j < |deals| && deals[j].item.id == id
  {
    if deals != [] {
      var n := |deals| - 1;
      var d := deals[n];
      NewNotesExact(s, deals[..n], seen, k, id);
      var last := if d.item.id in seen then [] else [NoteFor(s, d)];
      NotifiedConcat(NewNotes(s, deals[..n], seen), last, k, id);
      NotifiedOne(NoteFor(s, d), k, id);
      if j :| 0 <= j < n && deals[..n][j].item.id == id { assert deals[j].item.id == id; }
    }
  }

  lemma ServeIsRecorded(s: SavedSearch, deals: seq<Deal>, c: Cursor)
    ensures var notes := NewNotes(s, deals, SeenAt(c, KeyOf(s)));
            Recorded(c, notes, Mark(c, KeyOf(s), IdsOf(notes)))
  {
    var seen := SeenAt(c, KeyOf(s));
    var notes := NewNotes(s, deals, seen);
    forall k: Key, id: string
      ensures Notified(notes, k, id) ==> k == KeyOf(s) && id !in seen
      ensures k == KeyOf(s) ==> (id in IdsOf(notes) <==> Notified(notes, k, id))
    {
      NewNotesExact(s, deals, seen, k, id);
      if k == KeyOf(s) { IdsAreNotified(s, deals, seen, id); }
    }
    hide NewNotes, Notified, IdsOf;
  }

  lemma {:induction false} IdsAreNotified(s: SavedSearch, deals: seq<Deal>, seen: set<string>, id: string)
    ensures id in IdsOf(NewNotes(s, deals, seen)) <==> Notified(NewNotes(s, deals, seen), KeyOf(s), id)
  {
    if deals != [] {
      var n := |deals| - 1;
      var front, d := NewNotes(s, deals[..n], seen), deals[n];
      IdsAreNotified(s, deals[..n], seen, id);
      if d.item.id !in seen {
        NotifiedConcat(front, [NoteFor(s, d)], KeyOf(s), id);
        NotifiedOne(NoteFor(s, d), KeyOf(s), id);
      } else {
        assert NewNotes(s, deals, seen) == front;
      }
    }
  }

  /** The unseen deals of a list, in order. */
  function Unseen(deals: seq<Deal>, seen: set<string>): seq<Deal> {
    if deals == [] then []
    else
      var d := deals[|deals| - 1];
      Unseen(deals[..|deals| - 1], seen) + (if d.item.id in seen then [] else [d])
  }

  lemma {:induction false} NotesFollowUnseen(s: SavedSearch, deals: seq<Deal>, seen: set<string>)
    ensures |NewNotes(s, deals, seen)| == |Unseen(deals, seen)|
    ensures forall i :: 0 <= i < |Unseen(deals, seen)| ==>
            NewNotes(s, deals, seen)[i] == NoteFor(s, Unseen(deals, seen)[i])
  {
    if deals != [] { NotesFollowUnseen(s, deals[..|deals| - 1], seen); }
  }

  /** One search tells its user of an id twice exactly when its unseen deals repeat an id: the state is
      only consulted as it stood before the search. */
  lemma TwiceExactlyOnRepeatedId(s: SavedSearch, deals: seq<Deal>, seen: set<string>)
    ensures NeverTwice(NewNotes(s, deals, seen)) <==> DistinctIds(Unseen(deals, seen))
  {
    NotesFollowUnseen(s, deals, seen);
    var notes, unseen := NewNotes(s, deals, seen), Unseen(deals, seen);
    hide NewNotes, Unseen;
    forall i, j | 0 <= i < j < |notes|
      ensures SameSubject(notes[i], notes[j]) <==> unseen[i].item.id == unseen[j].item.id
    {
    }
    hide SameSubject;
  }

  lemma {:induction false} UnseenIsDistinct(deals: seq<Deal>, seen: set<string>)
    requires DistinctIds(deals)
    ensures DistinctIds(Unseen(deals, seen))
    ensures forall d :: d in Unseen(deals, seen) ==> d in deals
  {
    if deals != [] {
      var n := |deals| - 1;
      UnseenIsDistinct(deals[..n], seen);
      forall d | d in Unseen(deals[..n], seen)
        ensures d.item.id != deals[n].item.id
      {
        assert d in deals[..n];
      }
    }
  }

  lemma {:induction false} RunIsRecorded(c: Catalog, saved: seq<SavedSearch>, cursor: Cursor)
    requires ValidCatalog(c)
    ensures var o := Run(c, saved, cursor); Recorded(cursor, o.notes, o.cursor)
    ensures UniqueIds(c) ==> NeverTwice(Run(c, saved, cursor).notes)
  {
    if saved != [] {
      var n := |saved| - 1;
      var s, o := saved[n], Run(c, saved[..n], cursor);
      RunIsRecorded(c, saved[..n], cursor);
      var deals, seen := FindDeals(c, s), SeenAt(o.cursor, KeyOf(s));
      var notes := NewNotes(s, deals, seen);
      ServeIsRecorded(s, deals, o.cursor);
      if UniqueIds(c) {
        DealsAreDistinct(c, s);
        UnseenIsDistinct(deals, seen);
        TwiceExactlyOnRepeatedId(s, deals, seen);
      }
      hide Recorded, NeverTwice, UniqueIds, ValidCatalog, FindDeals, NewNotes;
      RecordedCompose(cursor, o.notes, o.cursor, notes, Mark(o.cursor, KeyOf(s), IdsOf(notes)));
    }
  }

  /** Over any sequence of runs that feed the state forward, whatever the catalogs and however often a
      search is saved: what is remembered at the end is what was at the start and what was notified;
      and nobody is told of the same item twice for the same query. */
  lemma {:induction false} RunsNeverNotifyTwice(jobs: seq<Job>, cursor: Cursor)
    requires ValidJobs(jobs)
    ensures var o := Runs(jobs, cursor); Recorded(cursor, o.notes, o.cursor)
    ensures (forall i :: 0 <= i < |jobs| ==> UniqueIds(jobs[i].catalog)) ==> NeverTwice(Runs(jobs, cursor).notes)
  {
    if jobs != [] {
      var n := |jobs| - 1;
      var before, job := Runs(jobs[..n], cursor), jobs[n];
      RunsNeverNotifyTwice(jobs[..n], cursor);
      RunIsRecorded(job.catalog, job.saved, before.cursor);
      hide Recorded, NeverTwice, UniqueIds, ValidCatalog;
      var last := Run(job.catalog, job.saved, before.cursor);
      RecordedCompose(cursor, before.notes, before.cursor, last.notes, last.cursor);
    }
  }

  /** The state only grows. */
  lemma StateOnlyGrows(jobs: seq<Job>, cursor: Cursor, k: Key)
    requires ValidJobs(jobs)
    ensures SeenAt(cursor, k) <= SeenAt(Runs(jobs, cursor).cursor, k)
  {
    RunsNeverNotifyTwice(jobs, cursor);
    hide Runs;
  }

  // ---------------------------------------------------------------- exactly the new deals

  /** A current deal of one of the searches saved under this key. */
  ghost predicate Offered(c: Catalog, saved: seq<SavedSearch>, k: Key, id: string)
    requires ValidCatalog(c)
  {
    exists i :: 0 <= i < |saved| && KeyOf(saved[i]) == k && HasDeal(c, saved[i], id)
  }

  ghost predicate HasDeal(c: Catalog, s: SavedSearch, id: string)
    requires ValidCatalog(c)
  {
    exists j :: 0 <= j < |FindDeals(c, s)| && FindDeals(c, s)[j].item.id == id
  }

  /** A run notifies of exactly the current deals not yet seen. */
  lemma {:induction false} RunNotifiesTheNew(c: Catalog, saved: seq<SavedSearch>, cursor: Cursor, k: Key, id: string)
    requires ValidCatalog(c)
    ensures Notified(Run(c, saved, cursor).notes, k, id) <==> id !in SeenAt(cursor, k) && Offered(c, saved, k, id)
  {
    if saved != [] {
      var n := |saved| - 1;
      var s, o := saved[n], Run(c, saved[..n], cursor);
      RunNotifiesTheNew(c, saved[..n], cursor, k, id);
      RunIsRecorded(c, saved[..n], cursor);
      var seen := SeenAt(o.cursor, KeyOf(s));
      NewNotesExact(s, FindDeals(c, s), seen, k, id);
      NotifiedConcat(o.notes, NewNotes(s, FindDeals(c, s), seen), k, id);
      OfferedPush(c, saved, k, id);
      hide Notified, Offered, ValidCatalog, FindDeals, NewNotes, NeverTwice;
    }
  }

  lemma OfferedPush(c: Catalog, saved: seq<SavedSearch>, k: Key, id: string)
    requires ValidCatalog(c) && saved != []
    ensures Offered(c, saved, k, id) <==>
            Offered(c, saved[..|saved| - 1], k, id)
            || (KeyOf(saved[|saved| - 1]) == k && HasDeal(c, saved[|saved| - 1], id))
  {
    hide HasDeal;
    var front := saved[..|saved| - 1];
    if i :| 0 <= i < |front| && KeyOf(front[i]) == k && HasDeal(c, front[i], id) {
      assert KeyOf(saved[i]) == k && HasDeal(c, saved[i], id);
    }
    if i :| 0 <= i < |saved| && KeyOf(saved[i]) == k && HasDeal(c, saved[i], id) && i < |front| {
      assert front[i] == saved[i];
    }
  }

  // ---------------------------------------------------------------- when somebody is told twice

  /** Two results that clear the threshold show one id, which was not seen. */
  ghost predicate RepeatsUnseen(c: Catalog, results: seq<int>, seen: set<string>) {
    && InRange(c, results)
    && exists a, b :: 0 <= a < b < |results| && Clears(c, results[a]) && Clears(c, results[b])
                      && c.products[results[a]].id == c.products[results[b]].id && c.products[results[a]].id !in seen
  }

  predicate Clears(c: Catalog, i: int) { Fusion.At(c.deal, i) >= DEAL_SCORE_THRESHOLD }

  /** Some result before the last clears the threshold under this id. */
  ghost predicate ShowsId(c: Catalog, results: seq<int>, id: string)
    requires InRange(c, results)
  {
    exists a :: 0 <= a < |results| && Clears(c, results[a]) && c.products[results[a]].id == id
  }

  lemma {:induction false} UnseenHasId(c: Catalog, results: seq<int>, seen: set<string>, id: string)
    requires InRange(c, results) && id !in seen
    ensures ShowsId(c, results, id) <==> exists d :: d in Unseen(Clearing(c, results), seen) && d.item.id == id
  {
    if results != [] {
      var n := |results| - 1;
      var front := results[..n];
      UnseenHasId(c, front, seen, id);
      UnseenPush(c, results, seen);
      if ShowsId(c, front, id) {
        var a :| 0 <= a < n && Clears(c, front[a]) && c.products[front[a]].id == id;
        assert Clears(c, results[a]) && c.products[results[a]].id == id;
      }
      if a :| 0 <= a < |results| && Clears(c, results[a]) && c.products[results[a]].id == id && a < n {
        assert Clears(c, front[a]) && c.products[front[a]].id == id;
      }
      hide Unseen, Clearing;
    }
  }

  lemma UnseenPush(c: Catalog, results: seq<int>, seen: set<string>)
    requires InRange(c, results) && results != []
    ensures var n := |results| - 1;
            var item := c.products[results[n]];
            Unseen(Clearing(c, results), seen)
            == Unseen(Clearing(c, results[..n]), seen)
               + (if Clears(c, results[n]) && item.id !in seen then [Deal(item, Fusion.At(c.deal, results[n]))] else [])
  {
    var n := |results| - 1;
    var front := Clearing(c, results[..n]);
    if !Clears(c, results[n]) {
      assert front + [] == front;
    }
  }

  lemma RepeatsPush(c: Catalog, results: seq<int>, seen: set<string>)
    requires InRange(c, results) && results != []
    ensures var n := |results| - 1;
            var id := c.products[results[n]].id;
            RepeatsUnseen(c, results, seen)
            <==> RepeatsUnseen(c, results[..n], seen)
                 || (Clears(c, results[n]) && id !in seen && ShowsId(c, results[..n], id))
  {
    var n := |results| - 1;
    var front := results[..n];
    assert forall a :: 0 <= a < n ==> front[a] == results[a];
    hide Clears;
    if RepeatsUnseen(c, front, seen) {
      var a, b :| 0 <= a < b < n && Clears(c, front[a]) && Clears(c, front[b])
                  && c.products[front[a]].id == c.products[front[b]].id && c.products[front[a]].id !in seen;
      assert Clears(c, results[a]) && Clears(c, results[b]);
    }
    if ShowsId(c, front, c.products[results[n]].id) {
      var a :| 0 <= a < n && Clears(c, front[a]) && c.products[front[a]].id == c.products[results[n]].id;
      assert Clears(c, results[a]);
    }
  }

  lemma {:induction false} UnseenRepeats(c: Catalog, results: seq<int>, seen: set<string>)
    requires InRange(c, results)
    ensures DistinctIds(Unseen(Clearing(c, results), seen)) <==> !RepeatsUnseen(c, results, seen)
  {
    if results != [] {
      var n := |results| - 1;
      var id := c.products[results[n]].id;
      UnseenRepeats(c, results[..n], seen);
      UnseenPush(c, results, seen);
      RepeatsPush(c, results, seen);
      hide Clearing, Unseen, RepeatsUnseen, Clears;
      var front := Unseen(Clearing(c, results[..n]), seen);
      assert front + [] == front;
      if id !in seen {
        UnseenHasId(c, results[..n], seen, id);
        DistinctPush(front, Deal(c.products[results[n]], Fusion.At(c.deal, results[n])));
      }
    }
  }

  lemma DistinctPush(deals: seq<Deal>, d: Deal)
    ensures DistinctIds(deals + [d]) <==> DistinctIds(deals) && forall e :: e in deals ==> e.item.id != d.item.id
  {
    var more := deals + [d];
    assert forall i :: 0 <= i < |deals| ==> more[i] == deals[i];
    if DistinctIds(more) {
      forall e | e in deals
        ensures e.item.id != d.item.id
      {
        var i :| 0 <= i < |deals| && deals[i] == e;
        assert more[i].item.id != more[|deals|].item.id;
      }
    }
  }

  /** Search number i repeats an id that neither the state nor an earlier search of its user and query
      had shown. */
  ghost predicate SearchRepeats(c: Catalog, saved: seq<SavedSearch>, cursor: Cursor, i: int)
    requires ValidCatalog(c) && 0 <= i < |saved|
  {
    var results := Results(c, saved[i]);
    ResultsAreProducts(c, saved[i]);
    exists a, b :: 0 <= a < b < |results| && Clears(c, results[a]) && Clears(c, results[b])
                   && c.products[results[a]].id == c.products[results[b]].id
                   && c.products[results[a]].id !in SeenAt(cursor, KeyOf(saved[i]))
                   && !Offered(c, saved[..i], KeyOf(saved[i]), c.products[results[a]].id)
  }

  lemma SeenSoFar(c: Catalog, saved: seq<SavedSearch>, cursor: Cursor, k: Key, id: string)
    requires ValidCatalog(c)
    ensures id in SeenAt(Run(c, saved, cursor).cursor, k) <==> id in SeenAt(cursor, k) || Offered(c, saved, k, id)
  {
    RunIsRecorded(c, saved, cursor);
    RunNotifiesTheNew(c, saved, cursor, k, id);
    hide Run, Offered, Notified, NeverTwice;
  }

  lemma LastSearchRepeats(c: Catalog, saved: seq<SavedSearch>, cursor: Cursor)
    requires ValidCatalog(c) && saved != []
    ensures InRange(c, Results(c, saved[|saved| - 1]))
    ensures var n := |saved| - 1;
            SearchRepeats(c, saved, cursor, n)
            <==> RepeatsUnseen(c, Results(c, saved[n]), SeenAt(Run(c, saved[..n], cursor).cursor, KeyOf(saved[n])))
  {
    var n := |saved| - 1;
    ResultsAreProducts(c, saved[n]);
    forall id: string
      ensures id in SeenAt(Run(c, saved[..n], cursor).cursor, KeyOf(saved[n]))
              <==> id in SeenAt(cursor, KeyOf(saved[n])) || Offered(c, saved[..n], KeyOf(saved[n]), id)
    {
      SeenSoFar(c, saved[..n], cursor, KeyOf(saved[n]), id);
    }
    hide Run, Offered, Results, SeenAt, Clears;
  }

  lemma EarlierSearchRepeats(c: Catalog, saved: seq<SavedSearch>, cursor: Cursor, i: nat)
    requires ValidCatalog(c) && i < |saved| - 1
    ensures SearchRepeats(c, saved, cursor, i) <==> SearchRepeats(c, saved[..|saved| - 1], cursor, i)
  {
    var front := saved[..|saved| - 1];
    assert front[i] == saved[i] && front[..i] == saved[..i];
    hide Offered, Results, SeenAt, Clears;
  }

  lemma NeverTwiceSplit(m: seq<Notification>, n: seq<Notification>)
    requires NeverTwice(m + n)
    ensures NeverTwice(m) && NeverTwice(n)
  {
    hide SameSubject;
    forall i, j | 0 <= i < j < |m|
      ensures !SameSubject(m[i], m[j])
    {
      assert (m + n)[i] == m[i] && (m + n)[j] == m[j];
    }
    forall i, j | 0 <= i < j < |n|
      ensures !SameSubject(n[i], n[j])
    {
      assert (m + n)[|m| + i] == n[i] && (m + n)[|m| + j] == n[j];
    }
  }

  /** The notes of the run's last search repeat nothing exactly when it repeats no unseen id. */
  lemma LastServedTwice(c: Catalog, saved: seq<SavedSearch>, cursor: Cursor)
    requires ValidCatalog(c) && saved != []
    ensures var n := |saved| - 1;
            var o := Run(c, saved[..n], cursor);
            NeverTwice(Run(c, saved, cursor).notes) <==> NeverTwice(o.notes) && !SearchRepeats(c, saved, cursor, n)
  {
    var n := |saved| - 1;
    var s, o := saved[n], Run(c, saved[..n], cursor);
    var deals, seen := FindDeals(c, s), SeenAt(o.cursor, KeyOf(s));
    var notes := NewNotes(s, deals, seen);
    assert Run(c, saved, cursor).notes == o.notes + notes;
    RunIsRecorded(c, saved[..n], cursor);
    ServeIsRecorded(s, deals, o.cursor);
    TwiceExactlyOnRepeatedId(s, deals, seen);
    LastSearchRepeats(c, saved, cursor);
    UnseenRepeats(c, Results(c, s), seen);
    hide Run, Recorded, NeverTwice, FindDeals, NewNotes, SearchRepeats, RepeatsUnseen, DistinctIds, Unseen, Clearing,
      Results, Mark, IdsOf;
    RecordedCompose(cursor, o.notes, o.cursor, notes, Mark(o.cursor, KeyOf(s), IdsOf(notes)));
    if NeverTwice(o.notes + notes) { NeverTwiceSplit(o.notes, notes); }
  }

  ghost predicate SomeSearchRepeats(c: Catalog, saved: seq<SavedSearch>, cursor: Cursor)
    requires ValidCatalog(c)
  {
    exists i :: 0 <= i < |saved| && SearchRepeats(c, saved, cursor, i)
  }

  lemma SomeSearchRepeatsPush(c: Catalog, saved: seq<SavedSearch>, cursor: Cursor)
    requires ValidCatalog(c) && saved != []
    ensures SomeSearchRepeats(c, saved, cursor)
            <==> SomeSearchRepeats(c, saved[..|saved| - 1], cursor) || SearchRepeats(c, saved, cursor, |saved| - 1)
  {
    hide SearchRepeats, ValidCatalog;
    var front := saved[..|saved| - 1];
    if SomeSearchRepeats(c, front, cursor) {
      var i :| 0 <= i < |front| && SearchRepeats(c, front, cursor, i);
      EarlierSearchRepeats(c, saved, cursor, i);
    }
    if SomeSearchRepeats(c, saved, cursor) {
      var i :| 0 <= i < |saved| && SearchRepeats(c, saved, cursor, i);
      if i < |front| { EarlierSearchRepeats(c, saved, cursor, i); }
    }
  }

  /** A run tells somebody twice of an item for one query if and only if one of its searches has two
      results at or above the threshold under one id that was new to it: not in the state, and not a
      deal of an earlier search saved under the same user and query. */
  lemma {:induction false} RunNotifiesTwiceExactly(c: Catalog, saved: seq<SavedSearch>, cursor: Cursor)
    requires ValidCatalog(c)
    ensures NeverTwice(Run(c, saved, cursor).notes) <==> !SomeSearchRepeats(c, saved, cursor)
  {
    if saved == [] {
      assert Run(c, saved, cursor).notes == [];
    } else {
      hide *;
      RunNotifiesTwiceExactly(c, saved[..|saved| - 1], cursor);
      LastServedTwice(c, saved, cursor);
      SomeSearchRepeatsPush(c, saved, cursor);
    }
  }

  /** With room for the whole catalog, everything ranked is a result. */
  lemma RankedIsResult(c: Catalog, s: SavedSearch, d: int)
    requires ValidCatalog(c) && s.k >= |c.products| && (d in c.semantic(s.query) || d in c.keyword(s.query))
    ensures d in Results(c, s)
  {
    Fusion.RankedIsResult(c.semantic(s.query), c.keyword(s.query), c.deal, s.k, 0.5, |c.products|, d);
  }

  /** Whenever a catalog holds two products of one id, both ranked for a query and both deals, a user
      who saved that query with room for them is told twice in the first run. */
  lemma SharedIdIsNotifiedTwice(c: Catalog, s: SavedSearch, i: nat, j: nat)
    requires ValidCatalog(c) && s.k >= |c.products| && i < j < |c.products| && c.products[i].id == c.products[j].id
    requires forall d :: d == i || d == j ==> Clears(c, d) && (d in c.semantic(s.query) || d in c.keyword(s.query))
    ensures !NeverTwice(Run(c, [s], map[]).notes)
  {
    RankedIsResult(c, s, i);
    RankedIsResult(c, s, j);
    ResultsAreProducts(c, s);
    hide Results, Run, NeverTwice;
    var results := Results(c, s);
    var x :| 0 <= x < |results| && results[x] == i;
    var y :| 0 <= y < |results| && results[y] == j;
    var a, b := if x < y then x else y, if x < y then y else x;
    assert !Offered(c, [s][..0], KeyOf(s), c.products[i].id);
    assert Clears(c, results[a]) && Clears(c, results[b]);
    assert SearchRepeats(c, [s], map[], 0);
    RunNotifiesTwiceExactly(c, [s], map[]);
  }

  /** A catalog with two listings under one id, both ranked for every query, both deals. */
  function TwoListings(id: string, a: real, b: real): Catalog {
    Catalog([Item(id, "new", a), Item(id, "used", b)], map[0 := 0.5, 1 := 0.4],
            (_: string) => [0, 1], (_: string) => [])
  }

  /** Such a catalog: the first run over one saved search tells its user twice. */
  lemma RepeatedIdIsNotifiedTwice(user: string, query: string, id: string, a: real, b: real)
    ensures ValidCatalog(TwoListings(id, a, b))
    ensures !NeverTwice(Run(TwoListings(id, a, b), [SavedSearch(user, query, 5)], map[]).notes)
  {
    SharedIdIsNotifiedTwice(TwoListings(id, a, b), SavedSearch(user, query, 5), 0, 1);
  }

  /** Every notification shows one of the deals of a saved search, as the catalog has it. */
  lemma {:induction false} NotesShowDeals(c: Catalog, saved: seq<SavedSearch>, cursor: Cursor, note: Notification)
    requires ValidCatalog(c) && note in Run(c, saved, cursor).notes
    ensures exists i, d :: 0 <= i < |saved| && d in FindDeals(c, saved[i]) && note == NoteFor(saved[i], d)
    ensures exists i, p :: 0 <= i < |saved| && p in Results(c, saved[i]) && ShowsProduct(c, saved[i], p, note)
  {
    var n := |saved| - 1;
    var s, o := saved[n], Run(c, saved[..n], cursor);
    if note in o.notes {
      NotesShowDeals(c, saved[..n], cursor, note);
      var i, d :| 0 <= i < n && d in FindDeals(c, saved[..n][i]) && note == NoteFor(saved[..n][i], d);
      assert saved[i] == saved[..n][i];
      var j, p :| 0 <= j < n && p in Results(c, saved[..n][j]) && ShowsProduct(c, saved[..n][j], p, note);
      assert saved[j] == saved[..n][j];
    } else {
      var d := NoteShowsDeal(s, FindDeals(c, s), SeenAt(o.cursor, KeyOf(s)), note);
      ResultsAreProducts(c, s);
      ClearingHolds(c, Results(c, s), d);
      assert saved[n] == s && d in FindDeals(c, saved[n]);
      var r := Results(c, s);
      var j :| 0 <= j < |r| && d == Deal(c.products[r[j]], Fusion.At(c.deal, r[j]));
      assert r[j] in Results(c, saved[n]) && ShowsProduct(c, saved[n], r[j], note);
    }
  }

  /** The notification is for this search and this product, field by field, at no less than 0.30. */
  ghost predicate ShowsProduct(c: Catalog, s: SavedSearch, p: int, note: Notification) {
    && note.user == s.user && note.query == s.query && 0 <= p < |c.products|
    && note.itemId == c.products[p].id && note.title == c.products[p].title && note.price == c.products[p].price
    && note.score == (if p in c.deal then c.deal[p] else 0.0) && note.score >= 0.30
  }

  /** What a search looks at: the best of the two rankings, by relevance and deal score in equal parts. */
  lemma ResultsAreTheBest(c: Catalog, s: SavedSearch)
    requires s.k > 0
    ensures var fused := Fusion.Fused([c.semantic(s.query), c.keyword(s.query)], 60);
            Fusion.TheBest(if |fused| > 3 * s.k then fused[..3 * s.k] else fused, c.deal, 0.5, s.k, Results(c, s))
  {
    hide Fusion.Fused, Fusion.SearchCatalog, Fusion.TheBest;
    Fusion.SearchTakesTheBest(c.semantic(s.query), c.keyword(s.query), c.deal, s.k, 0.5);
  }

  /** No deal is missed: whatever a saved search returns with a deal score of 0.30 or more is notified in
      the run, to that user and for that query, unless the state had it. */
  lemma EveryDealIsNotified(c: Catalog, saved: seq<SavedSearch>, cursor: Cursor, i: nat, p: int)
    returns (note: Notification)
    requires ValidCatalog(c) && i < |saved| && p in Results(c, saved[i]) && p in c.deal && c.deal[p] >= 0.30
    requires var key := (saved[i].user, saved[i].query);
             0 <= p < |c.products| && (key in cursor ==> c.products[p].id !in cursor[key])
    ensures note in Run(c, saved, cursor).notes
    ensures note.user == saved[i].user && note.query == saved[i].query && note.itemId == c.products[p].id
  {
    var s, id := saved[i], c.products[p].id;
    ResultsAreProducts(c, s);
    DealIsFound(c, s, p);
    assert Offered(c, saved, KeyOf(s), id);
    RunNotifiesTheNew(c, saved, cursor, KeyOf(s), id);
    hide Run, Offered;
    var n :| 0 <= n < |Run(c, saved, cursor).notes| && IsAbout(Run(c, saved, cursor).notes[n], KeyOf(s), id);
    note := Run(c, saved, cursor).notes[n];
  }

  lemma DealIsFound(c: Catalog, s: SavedSearch, p: int)
    requires ValidCatalog(c) && p in Results(c, s) && p in c.deal && c.deal[p] >= 0.30 && 0 <= p < |c.products|
    ensures HasDeal(c, s, c.products[p].id)
  {
    ResultsAreProducts(c, s);
    var d := Deal(c.products[p], c.deal[p]);
    ClearingHolds(c, Results(c, s), d);
    hide Results, Clearing;
    var j :| 0 <= j < |Results(c, s)| && Results(c, s)[j] == p;
    assert d == Deal(c.products[Results(c, s)[j]], Fusion.At(c.deal, Results(c, s)[j]));
    assert d in FindDeals(c, s);
  }

  lemma {:induction false} NoteShowsDeal(s: SavedSearch, deals: seq<Deal>, seen: set<string>, note: Notification)
    returns (d: Deal)
    requires note in NewNotes(s, deals, seen)
    ensures d in deals && note == NoteFor(s, d)
  {
    var n := |deals| - 1;
    if note in NewNotes(s, deals[..n], seen) {
      d := NoteShowsDeal(s, deals[..n], seen, note);
    } else {
      d := deals[n];
    }
  }

  /** Handing the new state back with the same catalog and searches sends nothing. */
  lemma RerunIsSilent(c: Catalog, saved: seq<SavedSearch>, cursor: Cursor)
    requires ValidCatalog(c)
    ensures Run(c, saved, Run(c, saved, cursor).cursor).notes == []
  {
    var o := Run(c, saved, cursor);
    var again := Run(c, saved, o.cursor).notes;
    if again != [] {
      var k, id := (again[0].user, again[0].query), again[0].itemId;
      assert IsAbout(again[0], k, id) && Notified(again, k, id);
      RunIsRecorded(c, saved, cursor);
      RunNotifiesTheNew(c, saved, cursor, k, id);
      RunNotifiesTheNew(c, saved, o.cursor, k, id);
      hide Run, Offered, Notified;
      assert false;
    }
  }
}
