# DealFinder: verified models

DealFinder is a Python service that searches shops, merges their offers, ranks and explains them, and
tells users about new deals. This project models its algorithms that hold real state and proves what
they are for. Code that works step by step is imperative Dafny (classes with the same fields, loops
with invariants) proved against functions; the promises are then proved about those functions, and
about whole runs or all interleavings where the source is shared between requests.

| file | models |
|---|---|
| `EditDistance.dfy` | the typosquat check: a two-row Levenshtein loop |
| `Dedup.dfy` (over `Text.dfy`, `Products.dfy`) | semantic dedup: union-find with path halving, cheapest of every cluster |
| `Compliance.dfy` | per-user sliding windows and the abuse detector |
| `RateLimit.dfy`, `Limiter.dfy` | the limiter with bounded memory: the guarantee over whole runs, and the object |
| `Jwks.dfy` | the signing-key cache as a state machine of interleaved calls, and the object |
| `EmbedCache.dfy`, `EbayBox.dfy` (over `OrderedDicts.dfy`) | two caches with a time to live and a least-recently-used bound |
| `Grounding.dfy` | the check that an answer names only given prices and products, and the answer that must pass it |
| `Retention.dfy`, `Licensing.dfy` | how long licensed rows live |
| `Ingest.dfy`, `Aggregate.dfy`, `Breaker.dfy` | the tiered search with a circuit breaker, both dedup passes, and the breaker shared by calls that overlap |
| `Fusion.dfy`, `Ranking.dfy`, `Worker.dfy` | rank fusion and value rerank, NDCG, the saved-search job |
| `Sorting.dfy`, `Options.dfy`, `Sets.dfy` | Python's stable `sorted`; a value or None; lists without duplicates |

Assumptions: the clock never goes backwards; floats are exact reals; source names and product ids are
unique where a theorem says so; the embedding is a fixed function of the text, and similarity is
symmetric where a theorem says so; SHA-256 is free of collisions; text is ASCII for case folding, white
space, letters and digits. A call under a lock, or one scoped database call, is one atomic step. In
`Jwks.dfy` every attribute access and lock operation is a step of its own, a clock reading being one step
with the attribute it is compared with or written to.

## Where the code does less than its documentation says

- Signing keys: "unknown kid" can be reported for a kid that the set in force has: exactly when the age
  test reports it and a set with the kid was installed since the call's first lookup and is in force
  (`Jwks.UnknownKidIsExact`). It happens for every first set without the kid, no set at all included, and
  every second set with it (`Jwks.UnknownKidCanBeWrong`). The retry delay after a failed fetch is skipped
  exactly by calls that had passed their failure test before the failure was recorded: a fetch too soon
  after a failure belongs to such a call (`Jwks.EarlyFetchHadPassedItsTest`), and in every reachable state
  such a call, waiting for the lock and still in need of a fetch, can start one at the moment another's
  fetch fails (`Jwks.WaitingCallSkipsRetryDelay`).
- Rate limiter: a path's table stays above max_keys after a cleanup when more than max_keys clients are at
  their limit (`RateLimit.ShrinkSize`); the ceiling of twice max_keys always holds.
- Retention: the age limit holds when rows arrive young enough. The margin leaves 24 h of unpurged age
  in the worst case, so a row that arrives less than 24 h short of its limit can reach it; the bound
  is exact (`Retention.NoRowReachesItsLimit`, `Retention.OldArrivalCanReachItsLimit`).
- eBay box: rows are cached as cut by the first call's limit, so a later call with a larger limit can
  get fewer rows than a plain search (`EbayBox.ReplyEqualsPlainSearch` gives the exact condition for every
  reply, `EbayBox.LargerRequestIsCutShort` the run).
- Deterministic answer: with nothing retrieved it is marked grounded, while the check itself says no
  (`Grounding.DeterministicAnswer`).
- Saved searches: a run tells a user twice of an item exactly when one of its searches has two results at
  or above the threshold under one id that is new to it (`Worker.RunNotifiesTwiceExactly`); every catalog
  with two ranked deals under one id does it (`Worker.SharedIdIsNotifiedTwice`), and with unique product
  ids it cannot happen.
- Value rerank: a list that repeats a document gives it its last rank, so the document can fall behind one
  it was ahead of (`Fusion.RepeatedDocumentFallsBehind`).
- `rrf_fuse(top=0)` keeps everything, as `top=None` does.

## Model

| member | source | states |
|---|---|---|
| EditDistance.EditDistance | dealfinder/tool_trust.py:90-100 | the two-row loop, early return included, yields the Levenshtein recurrence's value |
| EditDistance.LevIsLeastNumberOfEdits | dealfinder/tool_trust.py:90-100 | that value is the length of some sequence of single-character insertions, deletions and replacements from a to b, and no sequence is shorter |
| EditDistance.LevZero | dealfinder/tool_trust.py:90-100 | distance zero only between equal strings |
| EditDistance.LevSymmetric | dealfinder/tool_trust.py:90-100 | the distance is symmetric |
| EditDistance.LevTriangle | dealfinder/tool_trust.py:90-100 | the triangle inequality |
| EditDistance.LevLength | dealfinder/tool_trust.py:113-114 | the distance is at least the difference in length, so the length filter loses nothing |
| EditDistance.DistanceOneIsOneEdit | dealfinder/tool_trust.py:113-114 | distance one is exactly one single-character edit |
| EditDistance.CheckDependency | dealfinder/tool_trust.py:103-115 | warns if and only if the name is unknown and one edit away from some known name, and names such a name |
| Text.WordsAreMaximalRuns | dealfinder/dedup.py:38-55 | a word is found if and only if it is a maximal run of letters and digits |
| Text.WordsAreTheRunsInOrder | dealfinder/dedup.py:38-55 | the words are all the maximal runs, each once for every place it stands, from left to right; the first word is the leftmost run |
| Text.LowerReads | dealfinder/dedup.py:38-55 | lower-casing, character by character |
| Products.StripIsExact | dealfinder/ingest.py:18 | stripping takes the white space at both ends and all of it |
| Products.KeyIsExact | dealfinder/ingest.py:9-18 | products that agree in brand and title, but for case and outer blanks, have one key; products of one key agree so unless one of the brands has a bar |
| Dedup.RootIsReached | dealfinder/dedup.py:93-97 | in every parent array kept by the loops, following parents from any item reaches its root; the invariant that halving keeps therefore keeps every root |
| Dedup.Find | dealfinder/dedup.py:93-97 | `find` terminates on every such array, returns the item's root, and changes no root while halving paths |
| Dedup.Union | dealfinder/dedup.py:99-100 | joins exactly the two classes of its arguments and no others |
| Dedup.BuildForest | dealfinder/dedup.py:90-114 | after the pair loop, items share a root only if linked, and every same-product pair shares one |
| Dedup.RootsAreClusters | dealfinder/dedup.py:90-119 | find(i) == find(j) if and only if a chain of same-product pairs links i and j |
| Dedup.GroupByRoot | dealfinder/dedup.py:116-119 | the dict holds, in order of first appearance, every cluster with exactly its members in list order, whatever the finds did to the parents meanwhile |
| Dedup.MinByPrice | dealfinder/dedup.py:122-124 | the first cheapest member of a cluster |
| Dedup.DedupByEmbedding | dealfinder/dedup.py:58-127 | the pass keeps, cluster by cluster in order of first appearance, the first cheapest item of each chain-connected cluster |
| Dedup.ClusterIsPure | dealfinder/dedup.py:102-109 | however long the chain, two items of a cluster have the same leading token and the same model tokens (what each step of the chain has besides is Dedup.ChainStepsLookAlike) |
| Dedup.SameProductLooksAlike | dealfinder/dedup.py:102-109 | two titles are taken for one product if and only if their first words agree and either both have a word with a digit, the same such words, and similarity at the model threshold, or neither has one and similarity is at the higher threshold |
| Dedup.ChainStepsLookAlike | dealfinder/dedup.py:102-114 | neighbours on every chain meet that test themselves, on their titles, in list order |
| Dedup.LookalikesShareASurvivor | dealfinder/dedup.py:111-127 | two items that meet it end under one survivor, which costs no more than either |
| Dedup.UnlikeOffersAreKept | dealfinder/dedup.py:111-127 | if no two items meet it, the pass returns the list as it was |
| Dedup.NoCheaperOfferLost | dealfinder/dedup.py:116-127 | every item has a survivor in its own cluster that costs no more |
| Dedup.SurvivorsUnlinked | dealfinder/dedup.py:116-127 | no two survivors are of one cluster |
| Dedup.DedupIsDeterminate | dealfinder/dedup.py:58-127 | what DedupByEmbedding promises leaves one possible list |
| Dedup.DedupIdempotent | dealfinder/dedup.py:58-127 | with symmetric similarity, the pass run on its own output returns it unchanged |
| Compliance.SlidingWindow.Allow | dealfinder/compliance.py:50-59 | the verdict and the whole table after it: the user's expired stamps go, an admitted request's stamp joins, no other user changes |
| Compliance.SlidingWindow.Remaining | dealfinder/compliance.py:61-66 | limit less the live stamps, never below zero; asking creates the user's entry |
| Compliance.ExpireCounts | dealfinder/compliance.py:53-56 | on a deque in time order, popping the front leaves exactly as many stamps as the window holds |
| Compliance.RemainingPredictsAllow | dealfinder/compliance.py:50-66 | `remaining` is positive if and only if `allow` would admit |
| Compliance.AbuseDetector.Observe | dealfinder/compliance.py:141-158 | flags on more than the allowed requests, or enough injections, in the deque it leaves |
| Compliance.DequeIsWindow | dealfinder/compliance.py:141-150 | after any history in time order that deque is exactly the requests of the last window, so the counts are those of the full history |
| RateLimit.AdmissionBound | dealfinder/ratelimit.py:58-99 | under any traffic, a client is admitted in any window (t - W, t] at most limit + (limit - 1) * E times, E the times a cleanup dropped it as least recently seen in that window; with E = 0 the bound is limit |
| RateLimit.EvictionsAreRare | dealfinder/ratelimit.py:77-80 | E - 1 is less than the window over the one-second cleanup interval |
| RateLimit.BoundIsReached | dealfinder/ratelimit.py:58-99 | the bound cannot be improved: for every limit above 1, every window and every E that EvictionsAreRare allows, a run in which the client is admitted exactly limit + (limit - 1) * E times in a window with E evictions |
| RateLimit.VerdictIsNaive | dealfinder/ratelimit.py:58-75 | after any run, a tracked client is admitted if and only if fewer than limit of all its admissions since it was last dropped lie in the window: the deques refine the limiter that keeps everything |
| RateLimit.RunKeepsInvariant | dealfinder/ratelimit.py:58-99 | what every table and every client's record keep at every point of every run |
| RateLimit.MemoryIsBounded | dealfinder/ratelimit.py:64-69 | no reachable table exceeds 2 * max_keys |
| RateLimit.ShrinkSize | dealfinder/ratelimit.py:82-99 | after a cleanup the size is min(n, max(int(0.9 * max_keys), clients at their limit)), n counted after the idle are gone; no client at its limit is dropped |
| RateLimit.CleanupIsExact | dealfinder/ratelimit.py:82-99 | a cleanup adds and changes nothing; every client without a stamp in the window goes, every client at its limit stays, and the size left is min(active, max(9 * max_keys / 10, clients at their limit)) |
| RateLimit.DroppedWasSeenEarlier | dealfinder/ratelimit.py:97-99 | an active client that a cleanup drops has a last stamp no later than that of any client under its limit that stays, and where the two are equal its name comes first in string order |
| RateLimit.RefusalIsExact | dealfinder/ratelimit.py:70-75 | a tracked client's refusal names a wait in (0, W], read from the front of a deque that the cleanup left in place and non-empty |
| RateLimit.RefusedUntil | dealfinder/ratelimit.py:58-99 | after it the client stays refused, with the matching wait, until that moment whatever other clients do, and its first request from then on is admitted if no other request comes to the path in between from then on |
| Limiters.Limiter.constructor | dealfinder/ratelimit.py:48-53 | one empty window a path |
| Limiters.Limiter.Check | dealfinder/ratelimit.py:58-75 | a request is one step of the run model on its path, with the reply of that step; other paths' tables do not change; an unlimited path is always allowed |
| Limiters.Limiter.MakeRoom | dealfinder/ratelimit.py:66-69 | a new client at a table twice the cap triggers the cleanup first, and is turned away exactly if that freed nothing below the ceiling |
| Limiters.Limiter.Judge | dealfinder/ratelimit.py:70-75 | the window's verdict, the cleanup after it, and the wait taken from the table as the cleanup left it |
| Limiters.Limiter.MaybeShrink | dealfinder/ratelimit.py:77-80 | cleans up at most once a second a path, and records when |
| Limiters.ShrinkTable | dealfinder/ratelimit.py:82-99 | the deletion loops carry out such a cleanup: the idle, then exactly the needed number of open clients with the size that leaves; no active client that goes has a later last stamp than an open one that stays |
| Limiters.FrontIsLeastRecent | dealfinder/ratelimit.py:97-99 | the front of the sorted list is a set of open clients none of which has a later last stamp than an open client that is kept, nor the same stamp and a later name |
| Jwks.PossibleInv | dealfinder/auth.py:59-122 | the invariant of the fields, the lock and every call at every point of every interleaving |
| Jwks.ReturnedKeyWasCurrent | dealfinder/auth.py:95-122 | under any interleaving, a returned key belongs, under its kid, to a set that was current when the call began or was installed before it ended |
| Jwks.RotatedOutKeyIsNotReturned | dealfinder/auth.py:95-122 | a call that begins after a refresh never returns a key which neither the set then current nor any installed before the call ends holds |
| Jwks.UnavailableIsBacked | dealfinder/auth.py:101-116 | under any interleaving, the outage error means that a failure less than 30 s old was on record at the call's failure test, or another call had the lock when this one gave up waiting, or this call's own fetch failed |
| Jwks.ResultIsExact | dealfinder/auth.py:95-122 | under any interleaving, what a call returns: at the age test, at the failure test, when it gives up waiting and when its own fetch fails, the key its kid had in the set in force at its first lookup if there was one, and only else "unknown kid" (age test) or the outage error (the other three); after the lock, what the set then in force holds |
| Jwks.GoodKeyOutlastsAnOutage | dealfinder/auth.py:101-116 | under any interleaving, a call ends with the outage error only if at its first lookup no set was in force or the set in force lacked its kid |
| Jwks.AgeTestIsExact | dealfinder/auth.py:90-93 | the age test finds the set expired if and only if every refresh on record by then was at least 600 s old, none at all included; the call then does not end there |
| Jwks.ExpiredSetServesOnlyInAnOutage | dealfinder/auth.py:90-122 | under any interleaving, a call whose age test found the set past its TTL ends, with whatever result, only for one of those reasons or after a refresh that completed while it ran |
| Jwks.UnknownKidIsExact | dealfinder/auth.py:95-122 | the set in force when "unknown kid" is reported was installed since the call's first lookup (its own fetch included) or was less than 60 s old when the call judged it; it has the kid if and only if the report is the age test's and a set with the kid, installed since the first lookup, is the one in force; a report by the lookup after the lock is always right |
| Jwks.UnknownKidCanBeWrong | dealfinder/auth.py:96-99 | for every first set without the kid, or none, and every second set with it, an interleaving in which the call reports "unknown kid" while the second is in force |
| Jwks.FetchesArePaced | dealfinder/auth.py:90-118 | any callers: a fetch starts at least 60 s after every earlier success, and at least 30 s after every failure recorded before its call began or before its own failure test |
| Jwks.EarlyFetchHadPassedItsTest | dealfinder/auth.py:101-118 | under any interleaving, a fetch that starts less than 30 s after a failure belongs to a call whose failure test came before that failure was recorded |
| Jwks.WaitingCallSkipsRetryDelay | dealfinder/auth.py:101-118 | in every reachable state with one call's fetch in flight and another call past its failure test and waiting, whose kid or set still needs a fetch, a continuation in which the first fetch fails and the other starts at that moment |
| Jwks.OverlapCanSkipRetryDelay | dealfinder/auth.py:101-118 | such a run from the start, with no key set yet, for every kid |
| Jwks.GoodSetIsKept | dealfinder/auth.py:74-82 | no step discards a key set: the keys change only to a newly fetched set, and a failed fetch changes neither keys nor their age |
| Jwks.SigningKeys.Fetch | dealfinder/auth.py:74-82 | success replaces keys and their time, failure sets only the failure time |
| Jwks.SigningKeys.KeyFor | dealfinder/auth.py:95-122 | the object's call, undisturbed, is the function `Alone` of the fields, the clock readings and the response |
| Jwks.AloneIsReachable | dealfinder/auth.py:95-122 | from every reachable state with the lock free, that call is one of the machine's interleavings, with the same cache and result |
| Jwks.AloneIsExact | dealfinder/auth.py:90-122 | calls that do not overlap: a key of an expired set is returned only while fetching fails; "unknown kid" only for a kid missing from a set that is young or was fetched by this call; the outage error only for a kid the cached set lacks, when a failure is recent or this fetch failed; a fetch keeps both distances |
| OrderedDicts.TrimKeepsLast | dealfinder/embed.py:105-106 | popping the front keeps exactly the most recently used entries, values untouched |
| OrderedDicts.TouchAllKeepsCover | dealfinder/embed.py:92-104 | moving keys to the end keeps a bounded order the recent end of the unbounded one |
| OrderedDicts.LaterUseIsLater | dealfinder/embed.py:92-104 | the order is by last use: of two keys the one whose last use is later stands later |
| EmbedCache.VectorCache.LookUp | dealfinder/embed.py:91-96 | the first region finds exactly the fresh entries and moves them to the recent end |
| EmbedCache.VectorCache.Store | dealfinder/embed.py:100-106 | the second region stores the missing vectors and trims to the bound |
| EmbedCache.VectorCache.EmbedTextsCached | dealfinder/embed.py:84-107 | returns the texts' embeddings in order, duplicates included, and leaves the most recently used keys |
| EmbedCache.UsesAreTheTexts | dealfinder/embed.py:84-107 | what a call marks as used is exactly the keys of its texts |
| EmbedCache.OnlyMissesAreEmbedded | dealfinder/embed.py:91-99 | a call embeds exactly those of its texts with no vector in the cache or one at least six hours old |
| EmbedCache.InterleavedCallsAreCorrect | dealfinder/embed.py:84-107 | under any interleaving of the locked regions, clock readings and failing batches, every call returns exactly its texts' embeddings; the cache holds at most 4096 entries, always the most recently used |
| EmbedCache.CacheHoldsTheRecent | dealfinder/embed.py:91-106 | under any interleaving the cache holds the 4096 keys most recently found on entry or embedded, the least recent first |
| EmbedCache.ReturnedVectorsAreYoung | dealfinder/embed.py:84-107 | under any interleaving, every vector in every result had been embedded from its own text, by the time the call returned, by a call whose clock reading was less than six hours before this call's: none is served at or past its time to live |
| EmbedCache.LogIsExact | dealfinder/embed.py:97-99 | the record that theorem refers to holds only what the model gave |
| EbayBox.Box.Ask | dealfinder/shop.py:227-254 | eBay is asked only without a live entry; the reply and the whole cache after it |
| EbayBox.RepliesAreRecent | dealfinder/shop.py:232-254 | under any interleaving every reply comes from a search, made for its key, that is younger than that entry's own time to live, and the cache keeps its bound |
| EbayBox.LiveRowsAreReused | dealfinder/shop.py:232-238 | in every reachable state a request is answered at once if and only if its key has rows from a search less than 900 s before it, or 60 s if that search failed |
| EbayBox.StoredKeepsTheRecent | dealfinder/shop.py:249-253 | new rows go to the recent end, and only the 256 most recently used keys stay |
| EbayBox.CacheHoldsTheRecent | dealfinder/shop.py:232-253 | under any interleaving the box holds the 256 keys most recently answered, from the cache or by eBay, the least recent first |
| EbayBox.ReplyEqualsPlainSearch | dealfinder/shop.py:236-254 | under any interleaving, each reply comes from a live search of its key, and equals what a plain search of the same stock shows if and only if it asks for no more than that search did, or there was no more |
| EbayBox.LargerRequestIsCutShort | dealfinder/shop.py:236-247 | for every stock and every smaller and larger limit, a run in which the later, larger request gets only the earlier rows and eBay is not asked |
| Grounding.PricesIn | dealfinder/rag.py:211-219 | the set of amounts the pattern finds in a text, in comparable form |
| Grounding.AmountsSplit | dealfinder/rag.py:203-219 | text whose second part cannot extend an amount names the amounts of its two parts |
| Grounding.AmountIsLongest | dealfinder/rag.py:203 | what is read after a dollar sign and at most one blank is the longest text of the form digit, digits and commas, at most one point with one or two digits; and nothing is read only if no such text is there |
| Grounding.AmountsAreFound | dealfinder/rag.py:211-219 | the amounts of a text are exactly those read after its dollar signs |
| Grounding.BuildContext | dealfinder/rag.py:185-197 | the numbered lines, joined by newlines |
| Grounding.ContextAmounts | dealfinder/rag.py:185-197 | the context names exactly the amounts of its items, whatever their number and order |
| Grounding.LineReads | dealfinder/rag.py:192-196 | a context line as it reads, from its number, title, price, source, verdict and reason |
| Grounding.FindCodesExact | dealfinder/rag.py:249-251 | the code pattern finds exactly the words that mix letters and digits |
| Grounding.CodesRead | dealfinder/rag.py:249-251 | a code is a word of the lower-cased text that has a digit and a letter |
| Grounding.NormKeepsWords | dealfinder/rag.py:206-208 | normalising changes no word and leaves letters, digits and single blanks, with no blank at either end |
| Grounding.PaddedSearchIsWord | dealfinder/rag.py:246-255 | the padded substring search finds a token if and only if it is a word of the text |
| Grounding.CodesNamed | dealfinder/rag.py:246-256 | accepts if and only if every code of three or more characters is a word of some retrieved title |
| Grounding.IsGrounded | dealfinder/rag.py:222-256 | true if and only if something was retrieved, every amount is one the context names, and every long enough code is a word of some title |
| Grounding.ListingPriceIsAccepted | dealfinder/rag.py:236-256 | a text is accepted if every amount in it is the price of some retrieved item, in comparable form, and every long enough code a word of some retrieved title |
| Grounding.ListingPriceIsGrounded | dealfinder/rag.py:236-244 | the price of every retrieved item, written with a dollar sign, is accepted |
| Grounding.MoreEvidenceKeepsGrounded | dealfinder/rag.py:222-256 | a grounded text stays grounded for every list that still holds the items, wherever new ones are put |
| Grounding.Choose | dealfinder/rag.py:275-296 | the first deal, else the first item; the first other item that is not suspicious; the first suspicious item |
| Grounding.ChoiceReads | dealfinder/rag.py:275-296 | which items are cited, on the list: the first with verdict deal or else the first; the first of another id not suspicious, if any; the first suspicious, if any; `sources` are their ids in that order |
| Grounding.AnswerReads | dealfinder/rag.py:286-304 | the answer as it reads: the hero's title, price and percentage, the runner-up's title and price, the trap's title, price and percentage |
| Grounding.WordingIsWithin | dealfinder/rag.py:286-304 | for all titles, sources and prices, the generated text names no amount and no code from outside the retrieved items |
| Grounding.DeterministicAnswer | dealfinder/rag.py:262-306 | the answer passes the check if and only if something was retrieved; which items it cites, in which order |
| Licensing.DetailKeepsPolicy | dealfinder/licensing.py:65-72 | a detail after the first colon never changes a source's policy |
| Licensing.KeyIgnoresDetail | dealfinder/licensing.py:65-67 | the key is the text before the first colon |
| Retention.Store.Upsert | dealfinder/pgstore.py:38-73 | the offers after all rows in order: unstorable rows skipped and not counted, an existing vector kept, a missing stamp set to now; nothing else changes |
| Retention.UpsertedRowIsExact | dealfinder/pgstore.py:48-72 | one row: skipped if its source may not be stored, else the offer is as the row says, with its stamp or now, its vector or the stored one; no other row changes |
| Retention.Store.AddWatch | dealfinder/userstore.py:40-76 | error cases in the order tested; otherwise the offer is copied with its stamp, a repeated watch keeping its first tenant |
| Retention.WatchIsExact | dealfinder/userstore.py:47-76 | when a watch is refused, in plain terms (offer missing or unstorable, then 200 other watches), and the row written else: the offer's title, source, price and stamp, the new target, the first tenant |
| Retention.Store.RemoveWatch | dealfinder/userstore.py:87-90 | removes the user's watch of the offer and counts it |
| Retention.Store.PurgeExpired | dealfinder/retention.py:37-49 | deletes exactly the expired and the unstorable rows of both tables, and returns both counts |
| Retention.PurgeIsExact | dealfinder/retention.py:26-34 | a row of either table is there after a purge, unchanged, if and only if its source may be stored and its stamp is at most 47 h old (the limit of 72 h less the margin of 25 h) |
| Retention.YoungOfferStays | dealfinder/retention.py:26-49 | nothing is deleted early: over any run of upserts, watches, removals and purges, an offer of a storable source that is not written again stays, unchanged, as long as no purge succeeds when it is over 47 h old |
| Retention.YoungWatchStays | dealfinder/retention.py:26-49 | the same for a watch that is neither written again nor removed |
| Retention.WatchLimitHolds | dealfinder/userstore.py:56-61 | no call takes any user past the watch limit |
| Retention.NoRowReachesItsLimit | dealfinder/retention.py:26-49 | with a purge attempted every 12 hours and never failing twice in a row, across any upserts, copies, removals and purges, no stored row reaches its policy's age limit or is of an unstorable source, if rows arrive more than 24 h short of the limit |
| Retention.OldArrivalCanReachItsLimit | dealfinder/retention.py:26-49 | that condition is needed: every storable row that arrives older than that can reach its limit on such a schedule |
| Retention.PurgeLeavesOnlyStorable | dealfinder/retention.py:28-49 | after a purge of any database no row is of an unstorable source, and a second purge at that moment deletes nothing |
| Retention.WritersAddOnlyStorable | dealfinder/pgstore.py:48-72 | on any database, every row that an upsert, or the watch copy of userstore.py, adds or changes is of a storable source, and neither touches the other's table |
| Ingest.KeepsFirstCheapest | dealfinder/ingest.py:21-29 | the keys kept are exactly those fetched, each with its first cheapest product |
| Ingest.IngestSources | dealfinder/ingest.py:21-29 | the loop over sources keeps what one pass over everything fetched keeps, keys in order of first appearance |
| Aggregate.Aggregator.RunSources | dealfinder/aggregate.py:79-103 | the batch's lists, and the breaker it leaves |
| Aggregate.Aggregator.Climb | dealfinder/aggregate.py:106-109 | the loop stops after the first tier with which the target is met, or after the last |
| Aggregate.Aggregator.Search | dealfinder/aggregate.py:63-113 | the whole search: benched sources skipped, tiers in order, then the fallback if nothing was found |
| Aggregate.SearchIsSound | dealfinder/aggregate.py:67-113 | each source is searched at most once and never while benched; the sources searched are exactly those of the tiers that ran, and the fallbacks exactly if those found nothing; the report's lists and the breaker record exactly who failed or was late |
| Aggregate.SearchIsExact | dealfinder/aggregate.py:67-113 | on the call's inputs: a source that is no fallback is searched if and only if its cooldown is over and no such source of a lower tier exists or those of lower tiers find fewer than target keys; a fallback if and only if its cooldown is over and the others searched found nothing |
| Aggregate.EscalatesExactlyWhenShort | dealfinder/aggregate.py:105-109 | an available source that is no fallback is searched if and only if its tier is the lowest, or all such sources of the lower tiers together find fewer than target distinct keys |
| Aggregate.ReportIsConsistent | dealfinder/aggregate.py:87-103 | after any search, timed_out is within throttled, throttled is disjoint from sources_live, and every product comes from a live source |
| Aggregate.BenchedSourceRests | dealfinder/aggregate.py:36-47 | over any calls that do not overlap, a source that failed or was late is not searched by a call that starts before its cooldown ends |
| Breaker.BenchedSourceIsNotSearched | dealfinder/aggregate.py:36-47 | however calls overlap, no call whose bench test of a source comes after a benching of it and before that cooldown ends ever searches the source |
| Breaker.RestedSourceMayBeSearched | dealfinder/aggregate.py:36-47 | however calls overlap, a call that tests a source 90 s or more after every benching recorded by then may search it |
| Aggregate.Rank | dealfinder/aggregate.py:115-124 | what is shown is the kept offers of both passes, stably sorted by price and cut to the limit: as many as there are up to the limit, ascending in price, beginning with the lowest price fetched |
| Aggregate.NoCheaperOfferLost | dealfinder/aggregate.py:115-122 | for every product fetched, a kept one of the same exact key and then the same semantic cluster costs no more |
| Aggregate.KeptWasFetched | dealfinder/aggregate.py:115-122 | nothing is kept that no source returned |
| Aggregate.ResultsAreCheapestFirst | dealfinder/aggregate.py:115-124 | results ascend in price, and with a limit of at least one the first carries the lowest price of everything fetched |
| Aggregate.ShowsTheCheapest | dealfinder/aggregate.py:124 | of the kept offers all are shown if there is room, else as many as there is room for; none left out is cheaper than one shown |
| Ranking.HitsFirstIsBest | dealfinder/ranking.py:26-29 | h hits gain at most the first h discounts, and exactly that if and only if they come first, for any positive, strictly falling discount |
| Ranking.HitsAreRelevant | dealfinder/ranking.py:32-34 | a list without duplicates has no more hits than there are relevant items |
| Ranking.NdcgIsAFraction | dealfinder/ranking.py:32-37 | NDCG lies in [0, 1] for every list without duplicates and every k, negative ones included |
| Ranking.NdcgIsOneWhenPerfect | dealfinder/ranking.py:32-37 | for k >= 1 and something relevant, NDCG is 1 if and only if the first min(relevant, k) recommendations exist and are all relevant |
| Ranking.NdcgOfNothing | dealfinder/ranking.py:32-37 | with nothing relevant, or k at most 0, NDCG is 0 |
| Fusion.RrfFuse | dealfinder/search.py:64-71 | the counting loops and the sort give the fused list the theorems are about, cut to `top` |
| Fusion.ScoresAreTotals | dealfinder/search.py:66-69 | a document's score is the sum over the rankings of what its ranks give, and exactly the documents seen are scored |
| Fusion.GivenIsReciprocal | dealfinder/search.py:68-69 | a ranking without duplicates gives 1 / (k + place) to the document in that place, counted from 1, and nothing to others |
| Fusion.FusedByTotal | dealfinder/search.py:70 | of two documents seen, the one whose sum over the rankings is larger comes first |
| Fusion.CutReads | dealfinder/search.py:71 | the cut is the first `top` documents, or all if there are fewer or `top` is 0 |
| Fusion.FusedHoldsTheSeen | dealfinder/search.py:64-71 | the fused list holds exactly the documents seen, each once |
| Fusion.FusionRespectsDominance | dealfinder/search.py:64-71 | over rankings without duplicates, a document never below another and above it somewhere comes first in the fused list |
| Fusion.RerankPermutes | dealfinder/search.py:74-82 | the rerank of any list is a permutation of it |
| Fusion.RerankByBlend | dealfinder/search.py:74-82 | of two documents in the list, the one with the larger (1 - alpha) * (1 - i / max(1, n - 1)) + alpha * max(0, deal), i its last place, comes first |
| Fusion.RerankTakesTheBest | dealfinder/search.py:74-82 | the first k of a rerank are as many as there are, all from the list, and none left out has a larger blend |
| Fusion.RerankKeepsBetterDeals | dealfinder/search.py:74-82 | for alpha in [0, 1] the rerank never moves a document behind one it was ahead of, by first and by last place, whose deal score is no higher |
| Fusion.AheadByLastPlace | dealfinder/search.py:77 | in a list without duplicates, ahead is ahead by last place |
| Fusion.RepeatedDocumentFallsBehind | dealfinder/search.py:77-82 | the last place is needed: for every a and b, the list a, b, a with equal deals puts b first |
| Fusion.SearchResultsAreDistinct | dealfinder/search.py:129-132 | at most k results, all different, each from one of the rankings |
| Fusion.SearchTakesTheBest | dealfinder/search.py:129-132 | the results are, of the first 3k of the fused list, as many as asked for, none left out having a larger blend than one returned |
| Fusion.RankedIsResult | dealfinder/search.py:129-132 | with k at least the number of documents, every document in either ranking is a result |
| Fusion.SearchRespectsDominance | dealfinder/search.py:129-132 | end to end: a result is preceded by every document that dominates it in both rankings at no worse a deal |
| Worker.SuggestionState.AlreadySeen | dealfinder/worker.py:63-64 | the ids remembered for the search's user and query, none for a new one |
| Worker.SuggestionState.MarkSeen | dealfinder/worker.py:66-67 | adds the ids to that key's own set and to no other key's |
| Worker.SuggestionState.Copy | dealfinder/worker.py:69-70 | an equal state that shares no set object with the original |
| Worker.RunSuggestions | dealfinder/worker.py:160-199 | the nested loops notify and remember what the function `Run` says, on a new state; the state passed in, down to its sets, is unchanged |
| Worker.DealsAreDistinct | dealfinder/worker.py:143-154 | with unique product ids, one search's deals never repeat an id |
| Worker.RunNotifiesTheNew | dealfinder/worker.py:173-199 | a run notifies a user of an id for a query if and only if it is a current deal of one of the user's searches with that query and was not yet seen |
| Worker.NotesShowDeals | dealfinder/worker.py:143-192 | every notification names the user and query of a saved search, and shows the id, title, price and deal score of one product that search returned, the score at least 0.30 |
| Worker.EveryDealIsNotified | dealfinder/worker.py:143-199 | no deal is missed: a product that a saved search returns with a deal score of 0.30 or more is notified to that user for that query, unless the state had its id |
| Worker.ResultsAreTheBest | dealfinder/worker.py:151-153 | what a saved search looks at: of the first 3k of the fused list, the k with the best blend in equal parts |
| Worker.RunsNeverNotifyTwice | dealfinder/worker.py:160-199 | over any sequence of runs feeding the state forward, with changing catalogs and repeated saved searches, the state remembers exactly what it did and what was notified, and no (user, query, item) is notified twice |
| Worker.StateOnlyGrows | dealfinder/worker.py:66-67 | nothing remembered is ever forgotten |
| Worker.RerunIsSilent | dealfinder/worker.py:167-171 | running again with the returned state sends nothing |
| Worker.RunNotifiesTwiceExactly | dealfinder/worker.py:173-199 | a run tells somebody twice of an item for one query if and only if one of its searches has two results at or above the threshold under one id that neither the state held nor an earlier search of the same user and query had shown |
| Worker.SharedIdIsNotifiedTwice | dealfinder/worker.py:173-199 | whatever the catalog, two products of one id that are both ranked and both deals are notified twice in the first run of a search with room for them |
| Worker.RepeatedIdIsNotifiedTwice | dealfinder/worker.py:173-199 | a catalog with two such listings, and the run over it that tells the user twice |
| Sorting.SortStable | dealfinder/search.py:82 | Python's `sorted`: pairs already in order keep their order, ties included |
| Sorting.SortOrdered | dealfinder/aggregate.py:124 | Python's `sorted`: the result is in order |

## Left out

- Dedup.DedupIdempotent: needs symmetric similarity, which cosine gives and float rounding might not.
- Jwks.UnknownKidIsExact: "only against a young set or this call's own fetch" is false of the code; what is stated is the exact condition, with any set installed since the first lookup in place of the call's own.
- RateLimit.RefusedUntil: says nothing of a client turned away at the full table, which is not tracked.
- Aggregate.BenchedSourceRests: calls that do not overlap; a source may be searched by a call that tested it before another benched it, and Breaker.BenchedSourceIsNotSearched says what holds when calls overlap.
- Retention.NoRowReachesItsLimit: runs start from a database after one successful purge, whatever rows it held before.
- EditDistance.CheckDependency: which of several close known names is reported depends on set order, so it is not stated.
- Grounding.WordingIsWithin: two-decimal money and whole percentages are abstract functions whose text is digits, '.' and '-'; the value compared is an abstract function of the matched text.
- Worker.RunSuggestions: the state is only read through values while a search runs; the source's alias to the live set is not updated meanwhile either.
- HTTP routes, front end, store connectors, model calls, migrations and row-level security: I/O; a scoped database call is one atomic step.
- JWT signature checks, the per-project table of caches and the length of a lock wait: a wait may time out whenever another call holds the lock.
- Thread-pool scheduling in the tiered search: each source's outcome (found, error, late) and the moment it is judged are given.
- Embedding model, cosine and BM25 rankings, deal scores and medians: given functions or inputs.
- The language-model answer path and retrieval from the database: calls into other services.
- Negative limits and slices of the eBay box and of the tiered search, and a negative k of the searches: the model takes natural numbers.
- Float rounding in int(0.9 * max_keys), scores and sums: exact arithmetic.
- The daily re-price job's refresh of watch stamps, saved-search limits and listing calls: not part of this model.
- Precision and recall, the search statistics (median, percentages, timestamps), notices' delivery: simple or presentation.
