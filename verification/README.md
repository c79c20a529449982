# Verified model of the travel backend's stateful services

This project models, in Dafny, the parts of the backend that hold state, loop or compute, and proves what they
are for. Each module covers one part:

| module | part of the system |
|---|---|
| `TourApi` | the Tour API client: error classification, key rotation, exponential backoff |
| `PlaceSync` | ingestion: the paging loops of the full and the incremental run, the change detector, saving a record |
| `SyncConvergence` | what histories of failing and aborted runs, closed by a clean one, leave in the database |
| `SyncContents` | what a clean run leaves in each row, column by column |
| `SyncAccounts`, `SyncCounts`, `SyncTimes` | what a run's counters and modification times say |
| `Patterns`, `InfoText`, `InfoWords`, `InfoBackfill` | regular-expression cleaning of info texts, what it keeps, and the pass that cleans stored ones |
| `PhoneNumbers` | the phone extractor and the hyphenation of bare numbers |
| `VectorRanking` | paging over a vector ranking through an over-fetched tag join |
| `CacheKey`, `HybridSearch` | the hybrid keyword search, its score, its cache and the cache key |
| `EvalMetrics` | recall and NDCG |
| `ContentVector` | the behaviour vector: incremental renormalisation and decayed batch |
| `ActionTasks` | the tasks that count actions and refresh the vector under duplicated deliveries, and the feed stage |
| `KakaoLogin` | concurrent Kakao logins over unique e-mails and provider ids |
| `AccountLifecycle` | withdrawal, recovery at login, purge |
| `RefreshTokens` | refresh-token rotation and logout against an expiring blacklist |
| `Ratings` | reviews and the rating stored with a place |
| `ConcurrentRatings` | the same requests in interleaved transactions, and what the lock on the place row is for |
| `StableSort`, `Common` | Python's stable sort, and small shared facts |

Code that computes a value is a function; code that changes state is a class or a method whose contract equates the
new state with a function of the old one, and the properties are lemmas about those functions and about runs of them.
The database is a map per table with its unique keys; external calls, clocks and schedules are arbitrary inputs.

What turned out to hold only under a condition is proved in the form "exactly when":

- Sync runs of several kinds may be mixed freely exactly when, on the row of every item, a run of one kind leaves the
  row as good as before for a run of the other. Resuming full runs and incremental runs, which read two different list
  operations, may be so exactly when both treat the row of every item on either list alike. When the full list is the
  visible part of the list of changes, that is: no stored row of a hidden item is active and no stored row of a visible
  item with an image is out of date. So it holds on an empty database, and one withdrawn or one outdated place breaks
  it. With refreshing full runs as well, no stored row may differ from what saving it again gives. Histories of one
  kind always converge.
- A page from the four-fold over-fetch is right exactly when the fetched rows hold enough places, which four tags
  guarantee; with five tags a place can be lost.
- Re-cleaning an info text gives the same text exactly when no line-break tag is left in it, and re-cleaning a phone
  number exactly when the match had hyphens or its length is usual for its prefix: 9 or 10 digits after 02, 11 or 12
  after a four-digit prefix, 10 or 11 otherwise.
- NDCG is at most 1 for every discount exactly when the first k recommendations hold no more hits, repeats counted,
  than there are relevant items; lists without repeats always do.
- A used-up refresh token gets through again exactly when it is decoded before its expiry and looked up in the
  blacklist only after its entry has gone, however often it was refused before.
- A log delivered only after a batch has read it and saved its user enters the user's vector twice, until the next
  batch, exactly when it is within the look-back window of that batch; the action count takes it once. A delivery
  between the batch's reading and its saving is overwritten: its log enters as the batch has read it, and not at all
  until the next batch when it was recorded in that gap.
- A first login whose e-mail differs from its normalised spelling fails when a user already holds the normalised one,
  because the look-up by e-mail uses the spelling Kakao gave.

Where code and documentation disagree, the model follows the code: the repository's README (lines 88 and 198) names an
endpoint for recovering withdrawn accounts, but recovery happens inside the login; and the pass over stored info
texts is documented as idempotent (`place_sync.py`, line 704), which it is only under the condition above.

## Model

| member | source | states |
|---|---|---|
| `TourApi.TourApiClient.constructor` | apps/place/services/tour_api.py:77-98 | which keys are used: a given list without its empty keys, else a single key, else the configured list or key as they are; never none, and the first one to start with |
| `TourApi.NonEmptyInOrder` | apps/place/services/tour_api.py:91-92 | of the keys given the non-empty ones are kept in order: filtering one list after another is filtering both |
| `TourApi.NonEmptySingle` | apps/place/services/tour_api.py:91-92 | and a single key is kept unless it is empty |
| `TourApi.TourApiClient.RotateKey` | apps/place/services/tour_api.py:124-130 | moves to the next key and tells so, or stays on the last one |
| `TourApi.TourApiClient.RequestOnce` | apps/place/services/tour_api.py:190-213 | sends exactly one request, with the key at hand |
| `TourApi.TourApiClient.Attempt` | apps/place/services/tour_api.py:139-188 | one turn of the loop: stop, next key or retry, as decided from key, attempt number and response |
| `TourApi.TourApiClient.Get` | apps/place/services/tour_api.py:132-188 | terminates on every script of responses; result, key, requests and sleeps are those of `Call` |
| `TourApi.DecisionMeaning` | apps/place/services/tour_api.py:43-56 | what each decision says about the response, by its form and code alone: fatal responses stop with their code, quota errors rotate at once while keys are left, and a result holds the response's rows |
| `TourApi.CallKeyInRange` | apps/place/services/tour_api.py:124-188 | the key index never decreases and stays in range |
| `TourApi.CallSends` | apps/place/services/tour_api.py:139-188 | every call sends at least one request, and the position in the script counts the requests of its trace |
| `TourApi.CallWellBehaved` | apps/place/services/tour_api.py:139-188 | in every call no request follows a response that is no JSON or a payload with a code other than 0000, 22 and 429, whose code is reported as not retryable; with several keys a quota error is followed at once, without sleep, by a request with the next key; all keys are reported exhausted exactly when the last key returns a quota error |
| `TourApi.FineResponse` | apps/place/services/tour_api.py:59-74 | a payload with code 0000 ends the call with its rows: none, the one object, or exactly the objects of the list in order |
| `TourApi.FatalResponse` | apps/place/services/tour_api.py:43-56 | no JSON, or any code but 0000, 22 and 429, ends the call after this one request, without sleep, with that code and not retryable |
| `TourApi.QuotaResponse` | apps/place/services/tour_api.py:155-168 | code 22 or 429, in a payload or as HTTP status, with several keys: the next key at once with a fresh budget, or all keys exhausted |
| `TourApi.RetriedResponse` | apps/place/services/tour_api.py:169-188 | any other failed request, and with one key also code 22 and HTTP 429: retried while attempts are left, after backoff_base * 2^attempt seconds, after a quota error at least 8 * backoff_base |
| `TourApi.QuotaPayloadOfOneKey` | apps/place/services/tour_api.py:43-56 | a payload with code 429 is not retried when there is one key |
| `TourApi.TimeoutsSleep` | apps/place/services/tour_api.py:171-188 | a call that only times out sleeps backoff_base * (2^max_retries - 1) seconds in all |
| `TourApi.CallBound` | apps/place/services/tour_api.py:139-188 | a call sends at most max_retries + 1 requests for each key it uses |
| `TourApi.AmortisedRequestBound` | apps/place/services/tour_api.py:124-188 | N calls of one client with K keys send at most (N + K - 1) * (max_retries + 1) requests in all |
| `TourApi.TimeoutsSpendTheBudget` | apps/place/services/tour_api.py:139-188 | a server that times out from some request on makes a call spend exactly the rest of its key's budget, on that key |
| `TourApi.AmortisedBoundIsAttained` | apps/place/services/tour_api.py:124-188 | for any number of keys and N >= 1 calls some script takes exactly as many requests as the bound allows |
| `PlaceSync.Synchroniser.constructor` | apps/place/services/place_sync.py:319-336 | a run starts with empty summaries on the stored rows |
| `PlaceSync.Synchroniser.SaveRecord` | apps/place/services/place_sync.py:441-465 | one record is saved whole: the row holds what `SaveHolds` lists, and created or updated, images and info are counted |
| `PlaceSync.SaveHolds` | apps/place/services/place_sync.py:217-268 | what a saved row holds: columns, type and time of the source, active, the details' info or else the former, every offered image URL with the thumbnail and position of its last row, all other images and the counters as before |
| `PlaceSync.Synchroniser.ProcessListItem` | apps/place/services/place_sync.py:398-465 | the item handler: image filter, skip of stored ids, details, save, each with its counter; exhausted keys abort |
| `PlaceSync.Synchroniser.ProcessSyncItem` | apps/place/services/place_sync.py:539-567 | soft delete of hidden items, save of new and of newer ones, skip of the rest |
| `PlaceSync.Synchroniser.ProcessPage` | apps/place/services/place_sync.py:368-389 | the items of a page in order, until an abort |
| `PlaceSync.Synchroniser.SyncType` | apps/place/services/place_sync.py:337-395 | the paging loop of one content type: state and number of list calls |
| `PlaceSync.Synchroniser.SyncAllTypes` | apps/place/services/place_sync.py:485-537 | the passes over all types, adding up the summaries, until an abort |
| `SyncConvergence.EffectIdempotent` | apps/place/services/place_sync.py:398-465 | doing a clean run's work on a row twice is doing it once |
| `SyncConvergence.PagesAreItems` | apps/place/services/place_sync.py:337-395 | the paging loop does the same work as handling, in one go, the listed items up to where it stops |
| `SyncConvergence.RunTouches` | apps/place/services/place_sync.py:319-395 | whatever fails, a run of any of the three kinds leaves the row of each item on its list as it was or as a clean run makes it; a clean run does the latter everywhere |
| `SyncConvergence.RunEffect` | apps/place/services/place_sync.py:485-537 | the same for items either list may hold: a run has no effect on those its own list lacks |
| `SyncConvergence.OneKindConverges` | apps/place/services/place_sync.py:319-395 | any history of runs of one kind, resuming, refreshing or incremental, with any failures and aborts, then one clean run, leaves exactly the database of a single clean run |
| `SyncConvergence.ConvergesExactlyWhenAbsorbing` | apps/place/services/place_sync.py:319-567 | for any set of kinds: every history of such runs closed by a clean one converges if and only if, on the row of every item of either list, work of one kind before work of another makes no difference |
| `SyncConvergence.AgreeIsSameEffect` | apps/place/services/place_sync.py:485-567 | for resuming full and incremental runs the condition is that both save the row or neither and none hides it, which is exactly that both have the same effect on it |
| `SyncConvergence.MixedConvergesIfAgree` | apps/place/services/place_sync.py:485-567 | with that condition on the items of both lists, which need not be the same, any history mixing resuming full runs and incremental runs converges |
| `SyncConvergence.MixedConvergesExactlyWhenAgree` | apps/place/services/place_sync.py:485-567 | such mixed histories converge from a database if and only if the condition holds for every item on either list |
| `SyncConvergence.AllKindsConvergeExactly` | apps/place/services/place_sync.py:319-567 | with refreshing full runs in the mix: if and only if, besides, no stored row of an item on the full list would change by being saved again |
| `SyncConvergence.EmptyDatabaseConverges` | apps/place/services/place_sync.py:485-567 | from an empty database: if and only if, of the items with an image, the full list serves exactly the visible ones of the list of changes |
| `SyncConvergence.MatchingListsConverge` | apps/place/services/place_sync.py:485-567 | for lists that match in this way, from any database: if and only if no stored row of a hidden item is active and none of a visible item with an image is out of date |
| `SyncConvergence.HiddenItemBreaksMixing` | apps/place/services/place_sync.py:551-556 | matching lists and a stored active row that the list of changes hides: mixed histories do not converge, as no full run deactivates |
| `SyncConvergence.StaleRowBreaksMixing` | apps/place/services/place_sync.py:419-421 | matching lists and a stored row older than its item: neither do they, as full runs skip stored rows |
| `SyncContents.BeforeIsLexicographic` | apps/place/services/place_sync.py:564-567 | the comparison of times is the dictionary order of texts |
| `SyncContents.CleanRunLeaves` | apps/place/services/place_sync.py:398-465 | a clean run saves, whole, exactly the items with an image that are new, later than their row in an incremental run, or met by a refreshing run; an incremental run deactivates stored hidden items; every other listed row is untouched |
| `SyncContents.UnlistedStays` | apps/place/services/place_sync.py:319-395 | rows of ids not on the list are untouched, whatever fails |
| `SyncContents.HistoryLeaves` | apps/place/services/place_sync.py:319-567 | the same at the end of any history closed by a clean run, and by the row before the history when all runs are of one kind |
| `SyncContents.DryRunWritesNothing` | apps/place/services/place_sync.py:422-423 | a dry run of any kind leaves the database alone |
| `SyncAccounts.PassPagesExactly` | apps/place/services/place_sync.py:337-395 | without list failures a pass over L items makes floor(L/n) + 1 list calls, or as many as the page cap allows, and handles exactly the items of those pages, each once and in order |
| `SyncAccounts.ItemConserves` | apps/place/services/place_sync.py:398-465 | after each item, fetched is the sum of the skip, created and updated counters, and rows minus created is unchanged |
| `SyncAccounts.RunConserves` | apps/place/services/place_sync.py:271-288 | the same for the totals of a completed run over all types: rows grow by exactly `created` |
| `SyncCounts.PassCounts` | apps/place/services/place_sync.py:337-395 | whatever fails: the items handled are a stretch of the listing from its start, and each counter of the pass is the sum over them of what its row, kind and failures make it count |
| `SyncCounts.RunCounts` | apps/place/services/place_sync.py:271-288 | the summary of a run is, counter by counter, the sum of the passes it completes |
| `SyncTimes.EffectAdvances` | apps/place/services/place_sync.py:539-567 | an incremental run's work on a row keeps its modification time or strictly raises it, and changes nothing but activity unless it does |
| `SyncTimes.RunAdvances` | apps/place/services/place_sync.py:539-567 | the same for every row over a whole run with any failures |
| `SyncTimes.HistoryAdvances` | apps/place/services/place_sync.py:539-567 | the same over any number of incremental runs, each over its own source |
| `SyncTimes.SecondRunIsQuiet` | apps/place/services/place_sync.py:539-567 | after a failure-free incremental run, a second one over the same source creates and updates nothing |
| `InfoText.CleanIsNormal` | apps/place/services/place_sync.py:73-88 | a cleaned text has no tag, no blank line, no space or tab beside a newline, no run of spaces or tabs, and tidy ends |
| `InfoText.BreakMatcherExact` | apps/place/services/place_sync.py:59-59 | the line-break matcher matches exactly where the pattern does, takes a prefix the pattern matches, and the pattern matches no longer one |
| `InfoText.TagMatcherExact` | apps/place/services/place_sync.py:60-60 | so does the tag matcher for its pattern, which matches a prefix of one length only |
| `InfoText.CleanAgain` | apps/place/services/place_sync.py:73-88 | cleaning a cleaned text gives it back if and only if no line-break tag is found in it |
| `InfoText.CleanAgainWithoutAngle` | apps/place/services/place_sync.py:73-88 | in particular when it contains no `<` |
| `InfoText.CleanTwiceCanDiffer` | apps/place/services/place_sync.py:73-88 | `<<br>br` cleans to a text that then cleans to nothing |
| `InfoWords.CleanKeepsWords` | apps/place/services/place_sync.py:73-88 | cleaning keeps every word, in order: between two of them a line-break tag or white with a line end becomes a line break, several blanks become one, another tag goes |
| `InfoBackfill.CleanRow` | apps/place/services/place_sync.py:714-722 | one stored row: the cleaned fields and the number that changed |
| `InfoBackfill.PlaceInfoTable.Collect` | apps/place/services/place_sync.py:710-724 | counts rows and changed fields and collects an update for each changed row, and only for those |
| `InfoBackfill.PlaceInfoTable.WriteBatches` | apps/place/services/place_sync.py:726-728 | writing in batches of any positive size applies every update |
| `InfoBackfill.PlaceInfoTable.CleanExisting` | apps/place/services/place_sync.py:703-737 | for any cleaner: every row cleaned, or none in a dry run, with the same summary |
| `InfoBackfill.PlaceInfoTable.CleanExistingPlaceInfo` | apps/place/services/place_sync.py:703-737 | the pass with the info-text cleaner |
| `InfoBackfill.SummaryIsExact` | apps/place/services/place_sync.py:710-724 | the summary counts the rows, the rows cleaning changes and the fields it changes |
| `InfoBackfill.SecondRunChangesNothing` | apps/place/services/place_sync.py:703-737 | a second pass finds nothing to change if and only if no cleaned text still has a line-break tag |
| `PhoneNumbers.PhoneAtSound` | apps/place/services/place_sync.py:52-52 | what the matcher returns is at the start of the text and has one of the three shapes of the pattern |
| `PhoneNumbers.PhoneAtComplete` | apps/place/services/place_sync.py:52-52 | any text starting with one of those shapes is matched |
| `PhoneNumbers.PhoneAtPrefers` | apps/place/services/place_sync.py:52-52 | and by the first alternative that fits: three groups before two, two before a bare number, of which the longest run is taken |
| `PhoneNumbers.FirstPhoneIsLeftmost` | apps/place/services/place_sync.py:134-150 | a match found stands in the text, not after a digit, and no phone stands further left |
| `PhoneNumbers.NoPhoneMeansNoMatch` | apps/place/services/place_sync.py:134-150 | without a match no phone stands anywhere in the text |
| `PhoneNumbers.TokenIsPlain` | apps/place/services/place_sync.py:116-150 | the text made of a match is itself a phone with plain hyphens and the same digits, a bare run being cut by its prefix |
| `PhoneNumbers.CleanBareNumber` | apps/place/services/place_sync.py:116-131 | a bare number comes out cut before its last four digits and after two for the prefix 02, four for 0303 and 0502 to 0508, three otherwise |
| `PhoneNumbers.CleanTelKeepsDigits` | apps/place/services/place_sync.py:134-150 | every result has a hyphen, and without its hyphens it is the digits of the leftmost match in order |
| `PhoneNumbers.CleanTelAgain` | apps/place/services/place_sync.py:116-150 | re-cleaning a result gives it back if and only if the match had a hyphen or the usual length for its prefix (9 or 10 digits for 02, 11 or 12 for a four-digit prefix, 10 or 11 otherwise); otherwise it gives nothing |
| `PhoneNumbers.TelTwiceCanDiffer` | apps/place/services/place_sync.py:116-150 | `02123456789` cleans to a text that then cleans to nothing |
| `VectorRanking.RemoveRepeats` | apps/place/services/sort_algorithm_service.py:16-30 | keeps each place at its first row |
| `VectorRanking.CollectVectorIds` | apps/place/services/sort_algorithm_service.py:16-30 | the places of the first 4 * limit rows, or of all rows |
| `VectorRanking.PlaceIdsSortedByVector` | apps/place/services/sort_algorithm_service.py:33-80 | the page cut from the over-fetched rows, and the number of places |
| `VectorRanking.PlacesSortedByVector` | apps/place/services/sort_algorithm_service.py:83-117 | the loaded places in ranking order, whatever order the database returned them in |
| `VectorRanking.DedupFacts` | apps/place/services/sort_algorithm_service.py:16-30 | removing repeats keeps every place, once |
| `VectorRanking.DedupFollowsFirstRows` | apps/place/services/sort_algorithm_service.py:16-30 | and orders places by their nearest row |
| `VectorRanking.RestoreOrderCorrect` | apps/place/services/sort_algorithm_service.py:107-117 | sorting loaded places by their position in the candidate list restores that list |
| `VectorRanking.OverFetchFindsEnough` | apps/place/services/sort_algorithm_service.py:61-80 | with at most four rows a place, 4 * w rows hold w places or are all rows |
| `VectorRanking.PageRightExactlyWhenEnough` | apps/place/services/sort_algorithm_service.py:61-80 | for all rows: the page equals that of the full ranking if and only if the fetched rows hold enough places |
| `VectorRanking.PageAgreesWithFullRanking` | apps/place/services/sort_algorithm_service.py:61-80 | with at most four rows a place, every page equals that slice of the fully deduplicated ranking |
| `VectorRanking.LimitAgreesWithFullRanking` | apps/place/services/sort_algorithm_service.py:16-30 | the same for the first `limit` places |
| `VectorRanking.PagesPartitionTheRanking` | apps/place/services/sort_algorithm_service.py:61-80 | successive pages put together are the ranking: `total` places, none missing, none twice |
| `VectorRanking.OneRowPerTag` | apps/place/services/sort_algorithm_service.py:61-70 | the tag join has at most one row per place and tag |
| `VectorRanking.FourTagsAreSafe` | apps/place/services/sort_algorithm_service.py:61-80 | up to four tags every page is right |
| `VectorRanking.FiveTagsLoseAPlace` | apps/place/services/sort_algorithm_service.py:61-80 | five tags: a page comes back empty although a place belongs on it |
| `StableSort.SortedIsStable` | apps/place/services/place_services.py:222-222 | the sort gives an ordered rearrangement that keeps ties in order |
| `StableSort.UniqueStableSort` | apps/place/services/place_services.py:222-222 | there is only one such rearrangement, so no property depends on the algorithm |
| `CacheKey.DigitsRoundTrip` | apps/place/services/place_services.py:116-116 | reading the decimal text of a number gives the number |
| `CacheKey.RoundTo4Near` | apps/place/services/place_services.py:115-115 | four decimals are the nearest ones, ties to even, and keep the sign |
| `CacheKey.FixedInjective` | apps/place/services/place_services.py:115-115 | equal four-decimal texts come from equal signs and ten-thousandths |
| `CacheKey.JoinInjective` | apps/place/services/place_services.py:115-116 | a comma-joined text determines its parts |
| `CacheKey.SortedTagsEqual` | apps/place/services/place_services.py:116-116 | two tag lists sort alike exactly when they hold the same tags, as often |
| `CacheKey.PayloadInjective` | apps/place/services/place_services.py:114-118 | payloads are equal if and only if keyword, tags up to order and every component to four decimals are, bars in keywords included |
| `HybridSearch.ScoreInUnit` | apps/place/services/place_services.py:210-220 | every score is in [0, 1], and at least 0.09 for a place matched by name, tag or address |
| `HybridSearch.StagesInOrder` | apps/place/services/place_services.py:147-184 | every candidate is active with all tags and fits the one stage that applies: address only without a name match, similarity only without either; at most 200 |
| `HybridSearch.NothingMissed` | apps/place/services/place_services.py:147-184 | below that limit, the stage that applies misses no place |
| `HybridSearch.LimitTakesTheBest` | apps/place/services/place_services.py:152-174 | above the limit, a match left out comes after 200 better rated matches that are taken |
| `HybridSearch.LimitTakesTheMostSimilar` | apps/place/services/place_services.py:176-184 | and a place left out of the similarity stage is no more similar than any taken |
| `HybridSearch.RankingIsStable` | apps/place/services/place_services.py:209-222 | the result rearranges the candidates by non-increasing score in [0, 1], ties in the database's order |
| `HybridSearch.RankingTrades` | apps/place/services/place_services.py:209-222 | of two candidates the one stands first whose lead in distance, times 0.35, outweighs the other's lead in similarity, times 0.3, and none that stands first is outweighed; no vector counts as distance 1, and similarities up to 0.3 are alike when anything matches by name, tag or address |
| `HybridSearch.NearerOrMoreSimilarFirst` | apps/place/services/place_services.py:209-222 | so at equal similarity the nearer comes first, at equal distance the more similar one, and 0.1 of distance outweighs similarity exactly when 0.035 > 0.3 times the difference |
| `HybridSearch.TagOrderIrrelevant` | apps/place/services/place_services.py:147-150 | order and repetition of the tags do not matter to the ranking |
| `HybridSearch.SameKey` | apps/place/services/place_services.py:114-145 | queries with one cache key agree to four decimals and have the same ranking for the same vector, although the key leaves the vector field out |
| `HybridSearch.HybridService.Rank` | apps/place/services/place_services.py:147-222 | the three stages and the sort compute the ranking |
| `HybridSearch.HybridService.GetPlacesHybrid` | apps/place/services/place_services.py:121-232 | on an unchanged catalog a miss returns and stores the query's ranking, nothing being stored for an empty one; a hit returns what a computation with the vector of the query that filled the entry gives, which is the query's own ranking when the vectors are the same |
| `EvalMetrics.NdcgBoundedExactly` | apps/place/services/eval_service.py:14-26 | for all lists, relevant sets and k: NDCG is at most 1 for every positive strictly decreasing discount if and only if the top k hold no more hits than there are relevant items (or there are none, or k is not positive) |
| `EvalMetrics.NdcgWithinUnit` | apps/place/services/eval_service.py:14-26 | under that condition NDCG is in [0, 1] |
| `EvalMetrics.NoRepeatsFit` | apps/place/management/commands/eval_feed_baseline.py:40-41 | lists without repeats meet it |
| `EvalMetrics.NdcgIsOneExactlyWhenIdeal` | apps/place/services/eval_service.py:14-26 | under the same condition it is 1 if and only if the first min(relevant, k) recommendations exist and are all relevant |
| `EvalMetrics.PromotionRaisesNdcg` | apps/place/services/eval_service.py:14-26 | moving a relevant item up past an adjacent irrelevant one within the top k strictly raises it |
| `EvalMetrics.RepeatsBreakTheBound` | apps/place/services/eval_service.py:14-26 | the list [7, 7] with 7 alone relevant exceeds 1 under every discount |
| `EvalMetrics.RecallIsOneExactlyWhenCovered` | apps/place/services/eval_service.py:6-11 | recall is 1 if and only if every relevant item is among the first k |
| `EvalMetrics.RecallIsShareFound` | apps/place/services/eval_service.py:6-11 | recall is the number of relevant items among the first k, each once, over the number of relevant items; one more found raises it by one share |
| `ContentVector.IncrementalClosedForm` | apps/user/services/user_content_vector_service.py:77-99 | after any history, a vector present is, in each component, the sum of w_i * p_i / (n_i * ... * n_k) over the actions since it was last absent |
| `ContentVector.IncrementalIsUnit` | apps/user/services/user_content_vector_service.py:77-99 | and it is a unit vector |
| `ContentVector.CoefficientKeepsSign` | apps/user/services/user_content_vector_service.py:84-88 | the product of norms is positive, so dilution never flips a weight's sign |
| `ContentVector.UpdateIsNormalisedSum` | apps/user/services/user_content_vector_service.py:91-99 | one update adds the weighted vector and divides by the norm of the sum, or gives none when the norm is below 1e-8 |
| `ContentVector.ComputeUserContentVector` | apps/user/services/user_content_vector_service.py:37-74 | the loop computes the normalised decayed sum; used and skipped logs add up to all logs |
| `ContentVector.BatchIgnoresOrder` | apps/user/services/user_content_vector_service.py:37-74 | the batch vector is the same for every order of the logs |
| `ContentVector.DecayFades` | apps/user/services/user_content_vector_service.py:32-34 | when the clock advances, the decay of every past action changes by one common factor, exp(-lambda * days), which is less than 1 for a positive rate |
| `ContentVector.OlderWeighsLess` | apps/user/services/user_content_vector_service.py:30-32 | with a positive rate an action of now or later has weight factor 1, a past one less than 1 and more than 0, and of two actions the older past one strictly less |
| `ContentVector.BatchFavoursRecent` | apps/user/services/user_content_vector_service.py:37-74 | two past logs, each alone in a component of the batch vector: the components stand in the ratio of the logs' strengths, the older one's times exp(-lambda * days between them) |
| `ContentVector.BatchIgnoresClock` | apps/user/services/user_content_vector_service.py:30-74 | so for past logs the batch vector stays the same as the clock advances, until the faded norm falls below epsilon, and then there is none |
| `ActionTasks.ActionStore.RecordAction` | apps/user/services/action_log_service.py:14-31 | a new unprocessed log with a fresh id, and its message |
| `ActionTasks.ActionStore.UpdateIncremental` | apps/user/tasks.py:27-51 | one atomic delivery: nothing for a missing or processed log, otherwise count, vector from the tenth action on, processed mark |
| `ActionTasks.ActionStore.ReadVector` | apps/user/tasks.py:65-66 | the first half of the batch for a user: the vector of the logs read, not yet saved |
| `ActionTasks.ActionStore.WriteVector` | apps/user/tasks.py:67-68 | the second half: a vector read earlier replaces the stored one, whatever the store has become |
| `ActionTasks.ActionStore.SaveVector` | apps/user/tasks.py:65-68 | both with nothing in between: one user of the batch gets the vector of their recent logs |
| `ActionTasks.ActionStore.RecomputeBatch` | apps/user/tasks.py:57-73 | the batch does so for exactly the users above the threshold |
| `ActionTasks.StepConsistent` | apps/user/tasks.py:26-72 | every step keeps: count = number of processed logs, vector present only from ten on and then a unit vector |
| `ActionTasks.StageIsVector` | apps/place/services/feed_stage_service.py:10-28 | after any run of records, deliveries, failures, batch reads and batch writes: the stage is S3 exactly when there is a vector, S2 exactly when there is none but a quiz result |
| `ActionTasks.TenthActionLearns` | apps/user/tasks.py:36-48 | a delivery counts one action more, and applies the vector of the place, if it has one, from the tenth action on |
| `ActionTasks.BatchTakesTheActive` | apps/user/tasks.py:60-62 | the batch takes exactly the users with ten processed actions or more |
| `ActionTasks.RecentLogsExactly` | apps/user/services/user_content_vector_service.py:107-109 | and reads exactly the user's logs that are at most 90 days old, each once |
| `ActionTasks.RunProcesses` | apps/user/tasks.py:30-51 | a run processes a log exactly when one of its deliveries succeeds |
| `ActionTasks.CountsIgnoreOrder` | apps/user/tasks.py:26-51 | counts depend only on which messages got through, not on order, repetition, failures or batches |
| `ActionTasks.WriteForgets` | apps/user/tasks.py:65-68 | a batch writes the vector of the logs it has read, whatever comes between its two halves: a delivery in between is overwritten while its action stays counted |
| `ActionTasks.RedeliveryIgnored` | apps/user/tasks.py:30-34 | delivering a message again, however much later, changes nothing |
| `ActionTasks.SavedOneMore` | apps/user/tasks.py:63-68 | a batch save does not depend on which users were saved before |
| `ActionTasks.VectorIsLearned` | apps/user/tasks.py:39-46 | away from the batch a user's vector is the incremental vector of the actions delivered from the tenth on |
| `ActionTasks.TotalWithout` | apps/user/services/user_content_vector_service.py:107-109 | a log takes part in a batch sum exactly when it is recent, processed or not |
| `ActionTasks.LogCountsTwice` | apps/user/tasks.py:39-46 | a log delivered after a batch save has weight decay / norm + 1 instead of 1 in the vector, so it enters twice exactly when it was recent at the batch; the count takes it once |
| `ActionTasks.NextSaveForgets` | apps/user/tasks.py:65-68 | the user's next batch vector is the same as without that save and delivery |
| `KakaoLogin.NormalizeIdempotent` | apps/user/models.py:33-33 | normalising an e-mail twice is normalising it once |
| `KakaoLogin.StepInv` | apps/user/services/auth_service.py:129-196 | every step of every interleaving keeps e-mails and links unique and every login's position justified |
| `KakaoLogin.LoginsAgree` | apps/user/services/auth_service.py:129-196 | for any schedule and any number of logins: a login that has returned names the user its provider id is linked to, all logins of one account name the same user, at most one login of an e-mail reports a new user |
| `KakaoLogin.SoloIsLogin` | apps/user/services/auth_service.py:129-196 | a login that meets no other does, step by step, what the short description `Login` says |
| `KakaoLogin.LinkingGoesTo` | apps/user/services/auth_service.py:176-194 | linking an existing user: when the provider id has just been linked, a login that was to recover the user fails and any other returns the user; otherwise link and recovery are left to the commit |
| `KakaoLogin.LoginRaisesExactly` | apps/user/services/auth_service.py:170-194 | such a login fails if and only if its user's window is over, or there is no link and only the normalised spelling of the e-mail is in use |
| `KakaoLogin.MixedCaseLoginFails` | apps/user/services/auth_service.py:170-175 | a database of one user and an account on which it does |
| `AccountLifecycle.AccountService.RecoverOrRaise` | apps/user/services/auth_service.py:201-211 | recovers up to and including 14 days after the withdrawal, and fails afterwards |
| `AccountLifecycle.AccountService.GetOrCreateUser` | apps/user/services/auth_service.py:129-196 | the database and the result of an uncontended login |
| `AccountLifecycle.AccountService.LinkByEmail` | apps/user/services/auth_service.py:170-194 | its branch for an e-mail already in use |
| `AccountLifecycle.AccountService.WithdrawUser` | apps/user/services/auth_service.py:213-226 | rejects an unlisted reason first and a withdrawn user next, otherwise deactivates and dates |
| `AccountLifecycle.AccountService.PurgeWithdrawnUsers` | apps/user/tasks.py:77-85 | removes exactly the users withdrawn more than 14 days ago and their links, and returns how many of both |
| `AccountLifecycle.LivesConsistent` | apps/user/services/auth_service.py:201-226 | over every run of logins, withdrawals, purges and clock ticks a user is active exactly when there is no withdrawal date |
| `AccountLifecycle.RecoverableOrPurgeable` | apps/user/tasks.py:77-85 | a withdrawn user is at each instant exactly one of recoverable and purgeable |
| `AccountLifecycle.LoginRestores` | apps/user/services/auth_service.py:201-211 | within 14 days of a withdrawal a login restores the same user, whatever purges, logins and withdrawals came in between |
| `AccountLifecycle.NeverReactivated` | apps/user/services/auth_service.py:201-211 | after 14 days no run changes the row until it is purged, its id is never reused, and no login returns it |
| `AccountLifecycle.PurgeRemoves` | apps/user/tasks.py:77-85 | the first purge after the window removes the user and exactly the links to purged users |
| `RefreshTokens.TokenViews.BlacklistAccessTokenJti` | apps/user/services/auth_service.py:236-244 | lists the id for the whole seconds left, if any, and never an empty id |
| `RefreshTokens.TokenViews.BlacklistToken` | apps/user/services/auth_service.py:246-262 | does so for a refresh token that still verifies |
| `RefreshTokens.TokenViews.IsJtiBlacklisted` | apps/user/services/auth_service.py:264-268 | an entry counts until its lifetime is over |
| `RefreshTokens.TokenViews.Refresh` | apps/user/views/auth_views.py:158-190 | response and blacklist of a refresh request, in all its branches |
| `RefreshTokens.TokenViews.LogOut` | apps/user/views/auth_views.py:130-150 | the same for a logout |
| `RefreshTokens.RefreshGets` | apps/user/views/auth_views.py:158-190 | a refresh is refused, changing nothing, unless it presents an unexpired refresh token that is not on the blacklist; then it gets a new pair, or an error when the user is gone |
| `RefreshTokens.AccessStaysRevoked` | apps/user/views/auth_views.py:136-142 | after a logout its access token is on the blacklist at every moment up to its expiry, whatever follows |
| `RefreshTokens.UsesUpBurns` | apps/user/views/auth_views.py:135-190 | after a refresh that was not refused, or a logout presenting it, a token is expired or listed at least until it expires |
| `RefreshTokens.AcceptedAtMostOnce` | apps/user/views/auth_views.py:135-190 | in every sequential run such a token is refused by every later refresh that looks it up before it expires |
| `RefreshTokens.ReplayExactly` | apps/user/views/auth_views.py:168-184 | presented again, any refused attempts in between included, it gets through if and only if it is decoded before its expiry and looked up after its entry is gone |
| `RefreshTokens.LateLookUpIsAccepted` | apps/user/views/auth_views.py:168-184 | a run in which that happens |
| `RefreshTokens.EmptyIdIsNeverUsedUp` | apps/user/services/auth_service.py:246-262 | a token with an empty id would be accepted every time |
| `Ratings.ReviewService.UpdateRating` | apps/review/services/review_services.py:48-58 | overwrites the stored rating of an existing place with the aggregate of its reviews |
| `Ratings.ReviewService.GetReviewRoute` | apps/review/services/review_services.py:31-40 | a named route must be the user's own and include the place |
| `Ratings.ReviewService.AddReview` | apps/review/services/review_services.py:74-85 | the new review, the rating of its place, and an action unless the rating is 3 |
| `Ratings.ReviewService.CreateReview` | apps/review/services/review_services.py:61-85 | errors in order, new review, rating, and an action unless the rating is 3; no change on error |
| `Ratings.ReviewService.UpdateReview` | apps/review/services/review_services.py:91-114 | errors in order, only the fields asked for, rating; no change on error |
| `Ratings.ReviewService.DeleteReview` | apps/review/services/review_services.py:117-127 | only by its author; the rating follows |
| `Ratings.ReviewService.AdminDeleteReview` | apps/review/services/admin_review_service.py:30-38 | by anyone the view admits; the rating follows |
| `Ratings.NearestInRange` | apps/review/services/review_services.py:54-56 | the nearest tenth of ratings between 1 and 5 is between 1.0 and 5.0 |
| `Ratings.HandleConsistent` | apps/review/services/review_services.py:48-127 | every request keeps the stored ratings of all places in agreement with the reviews, and one review per user and place |
| `Ratings.CreationAdds` | apps/review/services/review_services.py:61-85 | a creation is accepted if and only if the place exists, the user has not reviewed it and a named route is the user's own and includes it; it adds this one review, and an action unless the rating is 3 |
| `Ratings.AuthorUpdates` | apps/review/services/review_services.py:91-114 | an author's change is accepted if and only if it names no route or a fitting one; it sets exactly the fields asked for |
| `Ratings.DeletionRemoves` | apps/review/services/review_services.py:117-127 | a deletion by the author, or by an administrator, removes exactly this review |
| `Ratings.ReviewStays` | apps/review/services/review_services.py:92-127 | anyone else who asks to change or delete a review is refused, and nothing changes |
| `Ratings.ReviewsStay` | apps/review/services/review_services.py:91-127 | so over every run a review stays as it is unless its author or an administrator acts on it |
| `Ratings.StoredRatings` | apps/review/services/review_services.py:48-127 | after every run: count = number of reviews, average within 0.05 of their mean and in [1, 5], 0.0 with none |
| `Ratings.CreateThenDelete` | apps/review/services/review_services.py:61-127 | deleting a review just created restores reviews and ratings |
| `ConcurrentRatings.CommitKeepsRow` | apps/review/services/review_services.py:51-58 | a rating computed under the lock stays right for its transaction while others commit at other places |
| `ConcurrentRatings.StepInv` | apps/review/services/review_services.py:48-127 | every step of every interleaving keeps committed ratings in agreement and every open transaction justified |
| `ConcurrentRatings.CommittedAlwaysConsistent` | apps/review/services/review_services.py:48-127 | for any schedule, failures and any number of concurrent requests, at every moment the committed ratings agree with the committed reviews, one per user and place |
| `ConcurrentRatings.AbortLeavesNoTrace` | apps/review/services/review_services.py:61-61 | a transaction that has not committed can be rolled back at any moment and leaves no trace |
| `ConcurrentRatings.WithoutLockARatingIsLost` | apps/review/services/review_services.py:51-51 | without the lock, two new reviews of one place taken in turns end with a stored count one short |

## Left out

- HTTP, Kakao, S3, Gemini, Ollama, the Celery transport, serializers, schemas, admin pages, settings, migrations: I/O and library plumbing; their outcomes are inputs.
- `SyncConvergence.OneKindConverges`: a source with repeated content ids is not part of the histories.
- Field mapping (`build_place_defaults`, `build_place_info_defaults`): the details of a content id are one value of the source, the same at every call.
- `PlaceSync.Synchroniser.ProcessListItem`: a record with an id that is not a number, which raises before any write, is not modelled.
- Tag assignment, `sync_area`, `backfill_details`, dump and load, route, bookmark and follow services, quiz scoring: set algebra, single upserts or a finite table.
- `InfoText.CleanIsNormal`: values that are not text are turned into text by `str()` before cleaning; the model starts from text.
- `InfoBackfill.PlaceInfoTable.WriteBatches`: a batch size of 0 or less, which the database layer rejects, is not modelled.
- Throttling, logging and real sleeping; the client's sleeps are recorded, not timed.
- Distances, trigram similarities and the database's order among equal ratings or similarities are inputs that stay the same while the data does.
- Collisions of md5 digests: the cache key is the payload text itself.
- Negative zero: the reals have none, so a vector component of -0.0 formats as 0.0.
- Rounding error of floating-point numbers: arithmetic is over the reals; `log`, `exp` and square roots enter as functions with stated laws.
- `ActionTasks.ActionStore.UpdateIncremental`: the log is read before the preference row is locked; the model takes a delivery as one step, so two overlapping deliveries of one message are not modelled. Deleting places or users, which takes their logs along, is left out of the counts.
- `KakaoLogin.NormalizeIdempotent`: the domain is lower-cased for ASCII letters, as domains are spelled; `str.lower()` covers other alphabets too.
- `AccountLifecycle.AccountService.PurgeWithdrawnUsers`: the number the database layer returns also counts the rows of other tables that go with a user (logs, reviews, routes and so on), which are not part of this model.
- `SyncConvergence.MixedConvergesExactlyWhenAgree`: a content id on both lists is the same item on both; the lists themselves are arbitrary.
- `KakaoLogin.LoginsAgree`: no purge while the logins run; stored e-mails are normalised, as `create_user` leaves them.
- `RefreshTokens.AcceptedAtMostOnce`: the blacklist look-up must precede the expiry, which the code does not ensure; `RefreshTokens.ReplayExactly` has the exact condition. Simultaneous refreshes of one token and the branch that lets requests pass when the cache is down are left out, and ids are unique as RFC 7519, section 4.1.7, asks.
- `ConcurrentRatings.CommittedAlwaysConsistent`: a request's checks and its write are one step; in the code another commit may come between them, and the unique constraint or an update of no row then fails the request.
- `Ratings.HandleConsistent`: reviews removed by deleting their author do not refresh the rating and are left out; the rating values are those the serializers admit, 1 to 5.
