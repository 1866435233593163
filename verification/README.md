# SourceRudder, verified

A Dafny model of the parts of SourceRudder (a Go search-and-fetch server for MCP clients) whose
correctness is not visible from one function body: the fetch engine with its retry and redirect
loops, the pool that checks links, the TTL cache alone and under concurrency, the connector that
reads through it, the ranking pipelines, the search history, stream shutdown, theme grouping, and
the asset script's line wrap.

`dafny verify dfyconfig.toml` checks the whole project.

## How it is built

Code that updates state in place is a class or a method with loops (`FetchEngine`, `Cache`,
`History`, `ReadThrough`, `Ranking.DedupInPlace`, ...). Its contracts tie it to functions, and the
theorems are lemmas about those functions. Code whose correctness is about interleavings
(`LinkPool`, `CacheSteps`, `WebRuns`, `Sse`) is a labelled step system: a run is any sequence of
enabled labels, and theorems quantify over all of them.

The outside world is a parameter. The fetch engine meets a `World`: one answer per (attempt, hop),
and an arbitrary answer every time it consults its context. That allows more behaviours than a real
context has (which stays done once done, and lets either branch of a race win), so what holds for
every `World` holds for every real run. Times are integers in nanoseconds passed to the operation
that reads the clock; the cache asks only that they do not go backwards. Strings are sequences of
characters, one per rune; a fetched body is one character per byte. Library text functions (case
folding, splitting on Unicode classes, `url.Parse` outside the Reddit connector) are total functions
the caller supplies, so the theorems hold for any.

Files, bottom up: `Options`, `Seqs`, `SearchTypes`, `TextRuns` (shared vocabulary); `Backoff`,
`FetchModel`, `FetchEngine`, `FetchFacts`, `FetchRuns`, `FetchTheorems`, `FetchChains`,
`FetchRetries`, `FetchEndings`, `FetchWarnings`, `LinkPool`, `LinkAnswers`, `PublicIp`
(internal/fetch); `CacheLog`, `Cache`, `CacheSteps`, `CacheRuns`, `History` (internal/cache);
`ReadThrough`, `WebRuns`, `Ranking`, `Snippet`, `Images`, `TitleWeight`, `LocalIndex`, `Reddit`
(internal/connectors); `Sse` (internal/mcp); `Themes` (internal/synthesis); `WrapText` (scripts).

## Where the code and its documentation disagree

The model follows the code.

- `pkg/types/types.go:72-74` says Status is zero when a target is blocked or times out. Status is
  never reset between attempts: `BlockedKeepsOldStatus` is a run that ends blocked with status 200,
  and `StatusIsLastReceived` says what Status is in every run.
- `pkg/types/types.go:76-79` says RedirectChain records every Location followed and excludes the
  initial URL. It holds the initial URL exactly when any reply was a redirect
  (`InitialUrlIsChainedIff`), and leaves out the last Location followed unless that one redirected
  too: `http://a` redirecting to `http://b`, which answers 200, leaves the chain `["http://a"]`
  (`ChainHoldsInitialUrlOnly`). `ChainIsShifted` says for every pass what is recorded, and exactly
  when that is the documented list.
- `pkg/types/types.go:81-83` says Attempts counts the tries made. It counts one that was never made
  exactly when the context stops an attempt that was due (`AttemptsCountIff`): a context done before
  the first leaves Attempts 1 and nothing tried (`UntriedAttemptIsCounted`).
- `internal/fetch/fetcher.go:7-10` says only 429 and 502-504 are retried, then that other 5xx
  statuses may be retried too. Of error statuses only the four are (`ErrorStatusIsRetriedIff`); a 500
  ends the fetch on its first attempt (`ServerErrorIsNotRetried`). But timeouts are retried as well,
  even of a lookup, which is filed as blocked (`LookupTimeoutIsRetried`), and so is a target blocked
  without a timeout, exactly when an earlier pass left such a status and the blocked one sent nothing
  (`BlockedIsRetriedIff`, with a run in `BlockAfterTransientIsRetried`). `RetriedByAnswers` is the
  rule for every pass.
- `pkg/types/types.go:64-69` lists `blocked-redirect` among the outcomes. No run has it
  (`OutcomeFollowsTaxonomy`).

Not disagreements, but easily missed:

- A 3xx reply without Location is asked for again until the redirect budget runs out, and then the
  fetch fails without adding a warning. `FailuresAreExplainedUnlessSilent` proves this is the only
  failure its last warning does not explain.
- `DeleteIfPresent` reports entries, as documented, not live entries: what it says about an expired
  one depends on sweeps nobody can observe (`ExpiredPresenceDependsOnSweeps`).
- A better image title wins over any content exactly when no ten distinct query words fit together
  into the 320 characters of content that count (`TitleWinsIff`); for "a b c d e f g h i j" it does
  not (`TenWordsLose`, `TenLettersLose`).
- An image's page URL that would be shown alone disappears when a preview URL is added, exactly when
  the two lines together take 597 to 600 characters (`UrlsShownWithDescription`).

## Model

| member | source | states |
|---|---|---|
| Backoff.Delay64 | internal/fetch/fetcher.go:275-289 | the delay as 64-bit arithmetic gives it, wrap-around included, lies between the base and the int64 range |
| Backoff.BackoffDelay | internal/fetch/fetcher.go:275-289 | the in-place computation returns that delay |
| Backoff.DelayIsWrappedSchedule | internal/fetch/fetcher.go:275-289 | overflow in intermediate steps never matters: the delay is the unbounded schedule wrapped once, then clamped |
| Backoff.DelayMatchesScheduleIff | internal/fetch/fetcher.go:275-289 | a retry sleeps its scheduled delay if and only if the schedule fits an int64 |
| Backoff.ScheduleStrictlyIncreases | internal/fetch/fetcher.go:275-289 | scheduled delays strictly increase from any retry to any later one |
| Backoff.DefaultBaseHorizon | internal/fetch/fetcher.go:109-111 | at the default 200 ms attempts 2 to 36 sleep as scheduled, no later attempt does, and attempt 37 collapses to the base |
| Backoff.TotalBackoff | internal/fetch/fetcher.go:471-482 | the sleeps of n attempts sum to (2^n - 2) bases, plus half a base for even n, while the last fits an int64 |
| FetchEngine.FetcherService.constructor | internal/fetch/fetcher.go:96-111 | non-positive settings become the defaults, others are kept, no slot is in use |
| FetchEngine.FetcherService.ManualRedirectFetch | internal/fetch/fetcher.go:526-639 | the redirect loop leaves on the shared response exactly the record, error and requests of Walk |
| FetchEngine.FetcherService.RetryLoop | internal/fetch/fetcher.go:456-521 | the retry loop leaves exactly the record, error, passes and sleeps of Retry |
| FetchEngine.FetcherService.DoFetchWithRetries | internal/fetch/fetcher.go:446-521 | one call computes Fetched and gives back the slot it took on every path |
| FetchEngine.FetcherService.Fetch | internal/fetch/fetcher.go:301-309 | a URL rejected as text is reported blocked with one warning and no attempt; any other is fetched |
| FetchFacts.WalkIsOk | internal/fetch/fetcher.go:526-639 | every pass of the redirect loop is a legal path of requests, with status, chain, outcome and content told from the exchanges alone |
| FetchRuns.RetryIsOk | internal/fetch/fetcher.go:456-521 | every run is a chain of legal passes, all but the last retried, with its ending, attempts and sleeps determined by them |
| FetchTheorems.OutcomeFollowsTaxonomy | internal/fetch/fetcher.go:47-59 | in every run the outcome is a function of the returned error and status, never empty and never blocked-redirect |
| FetchTheorems.SuccessMeansBody | internal/fetch/fetcher.go:493-495 | a nil error if and only if success, and then the status is 2xx and the content is the last reply's body of at most 4 MiB |
| FetchTheorems.FailureMeanings | internal/fetch/fetcher.go:245-256 | http-error means a non-transient status of at least 400; exhausted means all attempts ran and the status is transient; too-many-redirects means 3xx after exactly MaxRedirects+1 requests; timeout if and only if the error is the context's or a timeout |
| FetchTheorems.StatusIsLastReceived | pkg/types/types.go:72-74 | Status is the last status received in any attempt; it is zero if and only if no attempt received one |
| FetchTheorems.WorkIsBounded | internal/fetch/fetcher.go:456-528 | at most MaxAttempts*(MaxRedirects+1) requests and MaxAttempts*MaxRedirects+1 chain entries; passes run are Attempts or Attempts-1 |
| FetchTheorems.HistoryIsBounded | internal/fetch/fetcher.go:592-598 | retried passes record at most MaxRedirects redirects each |
| FetchChains.SegmentsAreLinked | internal/fetch/fetcher.go:592-607 | the chain is the passes' segments end to end; each starts at the fetched URL and each entry is the resolution of a Location the one before answered with |
| FetchChains.InitialUrlIsChainedIff | pkg/types/types.go:76-79 | the fetched URL is in the chain if and only if some reply of the run redirected, which is when the chain is not empty |
| FetchChains.ChainIsShifted | pkg/types/types.go:76-79 | a pass records the fetched URL and the Locations followed, without the last unless it redirected too; that is the documented list if and only if it ended on no redirect and every Location led back |
| FetchChains.ChainHoldsInitialUrlOnly | pkg/types/types.go:76-79 | a run whose chain holds the fetched URL and not the one Location followed |
| FetchRetries.RetriedExactlyWhenDue | internal/fetch/fetcher.go:456-508 | a pass is followed by another if and only if attempts remain, it timed out or the last status received in the run is transient, and the context lets it |
| FetchRetries.BlockedIsRetriedIff | internal/fetch/fetcher.go:498-507 | a blocked pass is retried if and only if it sent nothing and an earlier pass left a transient status, attempts and context allowing; a first one never |
| FetchRetries.ErrorStatusIsRetriedIff | internal/fetch/fetcher.go:7-10 | an error status is retried if and only if it is transient, attempts and context allowing; any other ends the run there as http-error unless the caller canceled |
| FetchRetries.ServerErrorIsNotRetried | internal/fetch/fetcher.go:7-10 | a run on a 500 reply that ends as http-error at attempt 1 of 3 |
| FetchRetries.AttemptsCountIff | pkg/types/types.go:81-83 | Attempts exceeds the passes made, by one, if and only if the context stops an attempt that was due: the first, or one after a pass calling for a retry with attempts left |
| FetchRetries.UntriedAttemptIsCounted | pkg/types/types.go:81-83 | a run that reports one attempt and made none |
| FetchTheorems.ContentOnlyFromSuccess | internal/fetch/fetcher.go:486-495 | content without success means the context was canceled right after a successful pass |
| FetchTheorems.TotalSleep | internal/fetch/fetcher.go:471-482 | a run of n passes sleeps exactly the closed form |
| FetchTheorems.BlockedKeepsOldStatus | pkg/types/types.go:72-74 | a run that ends blocked with the status 200 of an earlier attempt |
| FetchRetries.BlockAfterTransientIsRetried | internal/fetch/fetcher.go:498-507 | a run in which a blocked pass after a 503 is retried and succeeds |
| FetchWarnings.FailuresAreExplainedUnlessSilent | internal/fetch/fetcher.go:498-639 | a failing run's last warning explains its error if and only if it did not run out of redirects on a reply without Location; an exhausted one's names the attempts and the returned error, after a warning explaining it |
| FetchWarnings.SilentFailureExists | internal/fetch/fetcher.go:630-638 | a fetch that fails with no warning at all |
| FetchEndings.PassIsTold | internal/fetch/fetcher.go:526-639 | error, outcome, warnings, content and requests of every pass follow from the network's answers alone, with statuses and sizes written out |
| FetchEndings.PassEndsAsAnswered | internal/fetch/fetcher.go:568-636 | a pass succeeds if and only if its last answer is a 2xx reply of at most 4 MiB, with that body; each other error if and only if its own kind of answer came |
| FetchEndings.RetriedByAnswers | internal/fetch/fetcher.go:245-268 | a pass is followed by another if and only if attempts and context allow and it ended on a timed-out lookup, send or read, or the last status received in the run is 429, 502, 503 or 504 |
| FetchEndings.RunIsReported | internal/fetch/fetcher.go:446-521 | record, error and warnings of every run are told by its passes and the context |
| FetchEndings.RunSucceedsIff | internal/fetch/fetcher.go:493-495 | a run succeeds if and only if its last pass ended on a 2xx reply of at most 4 MiB and it was not canceled right then; it reports that status and body |
| FetchEndings.LookupTimeoutIsRetried | internal/fetch/fetcher.go:258-268 | a run whose first lookup times out, is filed as blocked, is retried and succeeds |
| LinkPool.Start | internal/fetch/fetcher.go:388-405 | more than 100 URLs are refused; otherwise the call starts in a state satisfying the invariant |
| LinkPool.StepKeepsInv | internal/fetch/fetcher.go:406-438 | every step of any thread keeps: each index unsent, held by one worker, or stored; at most eight slots in use, each accounted for; no more fetches than ticks |
| LinkPool.StepWritesOnce | internal/fetch/fetcher.go:429 | a step writes at most one answer, only where there was none |
| LinkPool.RunFacts | internal/fetch/fetcher.go:406-438 | over any run answers never change once stored and the call's own steps are bounded by the measure |
| LinkPool.ReturnedIsComplete | internal/fetch/fetcher.go:433-438 | on return every URL has one answer naming it, stored exactly once, valid if and only if no error and then 2xx; every slot taken is back; at most 5n+10 steps were taken |
| LinkPool.NeverStuck | internal/fetch/fetcher.go:410-430 | no reachable deadlock: until it returns the call can move now, after a tick, or after another slot user lets go |
| LinkPool.EachWorkerGoesOn | internal/fetch/fetcher.go:410-430 | each worker can go on by itself: exactly on a job, a tick or cancel, a free slot or cancel, or the end of its fetch |
| LinkPool.CanceledNeverWaits | internal/fetch/fetcher.go:410-430 | once canceled the call can always move without a tick and without another user's slot |
| LinkPool.NothingNewSucceedsAfterCancel | internal/fetch/fetcher.go:410-430 | after a cancel, whatever happens, every URL not yet sent, and every other whose fetch had not begun, gets an error |
| LinkPool.CanAlwaysReturn | internal/fetch/fetcher.go:433-438 | from every reachable state some schedule of bounded length returns |
| LinkAnswers.AnswersAreMade | internal/fetch/fetcher.go:410-430 | over every run each answer was made for its index by a step: the end of a fetch of that URL, with its status, valid if and only if it returned no error, or a refusal by text or context |
| LinkAnswers.UndisturbedAnswersAreFetches | internal/fetch/fetcher.go:419-426 | in a run never canceled, over URLs whose text is allowed, every answer is that of a fetch |
| PublicIp.IsPublicIPv4 | internal/fetch/fetcher.go:197-211 | the loop over the blocks decides membership in none of them |
| PublicIp.PublicIsOutsideIntervals | internal/fetch/fetcher.go:198-203 | over all 2^32 addresses the mask tests equal being outside fourteen numeric intervals |
| PublicIp.IntervalsAreDisjoint | internal/fetch/fetcher.go:198-203 | those intervals are pairwise disjoint |
| PublicIp.NamedChecksAreRedundant | internal/fetch/fetcher.go:180-195 | for IPv4 and IPv4-mapped addresses the named checks add nothing to the block list |
| PublicIp.MappedRange | internal/fetch/fetcher.go:191-194 | exactly the addresses of ::ffff:0:0/96 are judged as the IPv4 address they carry |
| PublicIp.PublicV6IsOutsideIntervals | internal/fetch/fetcher.go:180-195 | any other IPv6 address is public if and only if it is outside five numeric ranges: unspecified, loopback, unique local, link-local and multicast |
| CacheLog.LastSetMeaning | internal/cache/cache.go:40-136 | the reference map holds an entry if and only if some store of the key has nothing deciding the key after it |
| CacheLog.RemainingMeaning | internal/cache/cache.go:102-136 | what the swept map still holds, exactly: that store, not yet met expired by a sweep |
| CacheLog.SweepsAreInvisible | internal/cache/cache.go:129-136 | the lazily swept map agrees with the never-purged one on everything live |
| CacheLog.ExpiredPresenceDependsOnSweeps | internal/cache/cache.go:95-110 | two histories no Get can tell apart in which DeleteIfPresent answers differently |
| Cache.Service.Get | internal/cache/cache.go:40-63 | hits exactly when the last operation deciding the key stored an entry still live, and returns that entry |
| Cache.Service.SetWithMaxTTL | internal/cache/cache.go:71-87 | stores with the configured lifetime, shortened by a positive smaller cap, after a sweep |
| Cache.Service.DeleteExpiredLocked | internal/cache/cache.go:130-136 | in any visiting order drops exactly the expired entries |
| Cache.Service.DeleteIfPresent | internal/cache/cache.go:102-110 | true if and only if an entry remained: for every live key, and never when nothing was stored since the last removal |
| Cache.Service.Keys | internal/cache/cache.go:118-127 | lists exactly the keys a Get would hit, once each |
| CacheSteps.StepKeepsInv | internal/cache/cache.go:40-136 | every critical section, in any interleaving, keeps the map equal to what its log says remains |
| CacheSteps.ReadsAreLinearized | internal/cache/cache.go:40-63 | in every reachable state a Get returns what the never-purged map holds at that moment |
| CacheSteps.LiveEntriesSurvive | internal/cache/cache.go:47-53 | no step takes a live entry except a removal or replacement of that key |
| CacheSteps.ReplacementSurvivesGap | internal/cache/cache.go:47-53 | a replacement committed between an expired read and its sweep survives the sweep exactly when it is live then |
| CacheSteps.RemovalsArePaidFor | internal/cache/cache.go:95-110 | over any run true answers of DeleteIfPresent on a key never exceed the stores of it, plus one for an entry present at the start |
| CacheRuns.RunsAreTold | internal/cache/cache.go:40-136 | clock, log and pending stores of every interleaving follow from its labels alone: each commit stores exactly what its own thread stamped |
| CacheRuns.ReadsAreLastCommits | internal/cache/cache.go:40-63 | in every interleaving a read returns an entry if and only if the last label deciding its key commits that entry and it is still live |
| CacheRuns.StoredCanBeRead | internal/cache/cache.go:71-87 | a first store can be read back exactly until its lifetime is over |
| History.HistoryService.Append | internal/cache/history.go:50-65 | the buffer stays the newest-first log cut at the bound |
| History.HistoryService.List | internal/cache/history.go:72-91 | the prefix of the matching entries, filtered before the limit |
| History.MatchingPrefix | internal/cache/history.go:72-91 | limiting first could only drop matches from the end of what List returns |
| History.MatchingConcat | internal/cache/history.go:72-91 | filtering keeps order and repetition |
| History.ExpectedLogHoldsExactlyRecorded | internal/mcp/tools.go:640-654 | an entry is expected if and only if some call with a non-empty query, not both partial and empty, produced it |
| History.ExpectedLogConcat | internal/mcp/tools.go:640-654 | what a sequence of calls records is what its parts record, in call order |
| History.FilterCommutesWithGate | internal/mcp/tools.go:640-654 | a query's matches in the history are what the calls with matching queries alone would leave |
| History.Server.RecordSearch | internal/mcp/tools.go:640-654 | over every sequence of calls the history is the newest recorded ones up to the bound |
| ReadThrough.SameKeyIff | internal/cache/cache.go:140-150 | two requests share an entry if and only if they agree up to query padding and the spelling of the limit |
| SearchTypes.MaxResults | internal/connectors/github.go:279-287 | the effective limit is the request's from 1 to 100, the default below and 100 above |
| ReadThrough.CollectHits | internal/connectors/web.go:131-147 | the first hits in upstream order, scored strictly down from the limit to at least one |
| ReadThrough.SearchSearxng | internal/connectors/web.go:82-154 | results never exceed the limit and an error is returned exactly on failure or unresponsive engines |
| ReadThrough.ServedIsYoungAndSmall | internal/connectors/degradation.go:18-31 | a served entry was stored for that key less than the TTL ago, thirty seconds if degraded, and fits the key's limit |
| ReadThrough.WebConnector.RecordError | internal/connectors/degradation.go:69-82 | unresponsive engines degrade any answer, another failure an empty one, with one warning appended |
| ReadThrough.WebConnector.CacheResponse | internal/connectors/degradation.go:18-31 | a degraded response is stored for at most thirty seconds |
| ReadThrough.WebConnector.LookUp | internal/connectors/web.go:44-52 | a lookup is a hit exactly on the last stored response for the key still live, marked cached and within the request's limit |
| ReadThrough.WebConnector.Answer | internal/connectors/web.go:54-77 | after a miss, whatever happened to the cache since, a fresh response within the limit is stored under the key; with an upstream configured, partial exactly when it degraded |
| ReadThrough.WebConnector.Search | internal/connectors/web.go:34-80 | an undisturbed search is one lookup and, after a miss, one answer: the first n hits in order, scored n down, n being the request's own limit from 1 to 100, else 10 or 100; a hit is within n too |
| ReadThrough.WebConnector.constructor | internal/connectors/web.go:24-30 | on a new cache the connector's invariant holds |
| WebRuns.HitsAreLatestAnswers | internal/connectors/web.go:34-80 | in every run on a new shared cache, searches overlapping in any way and others doing anything between a lookup and its answer, a lookup hits if and only if some answer for its key is still live and undisturbed; the hit is that answer, the latest for the key, younger than the TTL, thirty seconds if degraded, within its own request's limit |
| WebRuns.WholeRunsAreRuns | internal/connectors/web.go:34-80 | runs of undivided searches are among those runs |
| Ranking.DedupInPlace | internal/connectors/images.go:265-276 | deduplication through a slice sharing the array's storage computes Dedup of the original contents |
| Ranking.PipelineSelects | internal/connectors/images.go:175-184 | stable sort, dedup and limit together yield the best candidate of each URL, best first, and leave out nothing better |
| Ranking.SelectionIsUnique | internal/connectors/images.go:175-184 | there is only one such selection |
| Images.ImageTerms | internal/connectors/images.go:288-300 | the distinct query words in order of first appearance |
| Images.ImageTermMatches | internal/connectors/images.go:302-314 | counts the terms that are words of the text |
| Images.MatchesCountsShared | internal/connectors/images.go:302-314 | over distinct terms that count is the size of an intersection |
| Seqs.DistinctKeepsOrder | internal/connectors/images.go:288-300 | distinct words stand in the order of their first appearances |
| TitleWeight.TitleWinsIff | internal/connectors/images.go:278-286 | more title matches mean more relevance, whatever the contents, if and only if no ten distinct query words fit together into the content looked at |
| TitleWeight.FewWordsPutTitlesFirst | internal/connectors/images.go:160-181 | with fewer than ten distinct query words a candidate with more title matches is ranked first |
| TitleWeight.TenWordsLose | internal/connectors/images.go:160-181 | two images for a ten-word query of which the one with the better title comes second |
| Images.CandidatesMeaning | internal/connectors/images.go:160-174 | the candidates are exactly the results whose first usable address, of source, thumbnail and page in that order, has a canonical form, with highlights stripped |
| Images.SelectImages | internal/connectors/images.go:160-200 | the results label the selection from the candidates, with distinct URLs and scores falling strictly to at least one |
| Snippet.ContextWholeOrNothing | internal/connectors/images.go:355-364 | context is at most 600 runes, every URL whole, and empty exactly when there is none or the first alone is too long |
| Snippet.UrlsShownWithDescription | internal/connectors/images.go:320-353 | which of the page and preview URLs a described image shows, by their lengths alone; adding the preview loses the page if and only if both lines take 597 to 600 runes |
| Snippet.UrlsShownWithoutDescription | internal/connectors/images.go:320-353 | without a description both URLs, the page's alone, or none, exactly by whether they fit 600 runes |
| Snippet.SnippetBoundIff | internal/connectors/images.go:329-353 | at most 600 runes if and only if there is a description, a first context line that fits, or a short fallback |
| LocalIndex.LocalIndexTerms | internal/connectors/local_index.go:88-105 | the first at most 32 distinct fields of at most 64 runes |
| LocalIndex.TermsMeaning | internal/connectors/local_index.go:88-105 | a further field joins the terms if and only if it is at most 64 runes, new, and fewer than 32 are there |
| LocalIndex.ScoreDocument | internal/connectors/local_index.go:107-144 | a score exactly when every term occurs somewhere |
| LocalIndex.ScoreByFace | internal/connectors/local_index.go:115-143 | a score is four per term in the title, three in the tags, two in the id, one in the snippet, plus eight for the phrase in the title or two for it in the snippet only |
| LocalIndex.ScoreBounds | internal/connectors/local_index.go:115-143 | n matched terms score between n and 10n+8 |
| LocalIndex.MoreTermsMatchFewer | internal/connectors/local_index.go:134-136 | a superset of terms never adds matches |
| LocalIndex.AllMatchesMeaning | internal/connectors/local_index.go:45-54 | the ranked documents are exactly those in which all terms occur |
| LocalIndex.PrefixOfSortIsTopK | internal/connectors/local_index.go:55-63 | the cut of any such sort is a top-k: sorted, and nothing left out strictly ahead |
| LocalIndex.TopKIsBestFirst | internal/connectors/local_index.go:55-63 | scores never rise, equal scores stand in title order, nothing left out scores higher |
| LocalIndex.LessMeaning | internal/connectors/local_index.go:55-60 | titles compare by their first differing character, prefixes first |
| LocalIndex.Search | internal/connectors/local_index.go:31-86 | returns a top-k of all matches for the effective limit, or nothing if and only if cancellation is seen before some document |
| LocalIndex.LoadCorpus | internal/connectors/local_index_corpus.go:104-148 | accepts exactly the corpora whose documents all pass with distinct trimmed ids, and leaves them cleaned |
| LocalIndex.CleanedIff | internal/connectors/local_index_corpus.go:112-141 | a document is kept if and only if its trimmed fields are within the written limits and its URL is safe |
| LocalIndex.CitationsAreDistinct | internal/connectors/local_index.go:76 | over a loaded corpus no citation repeats within an answer |
| Reddit.ReadsIffAddress | internal/connectors/reddit.go:182-204 | a URL is taken for a thread if and only if it is one of its addresses: either scheme, any host alias, empty port, letter case, extra slashes, slug, query and fragment |
| Reddit.PrintThenRead | internal/connectors/reddit.go:182-204 | writing a thread and reading it back is the identity |
| Reddit.CanonicalIdentifiesThreads | internal/connectors/reddit.go:182-204 | canonical URLs are fixpoints, and two URLs share one if and only if they address the same post |
| Reddit.CollectPosts | internal/connectors/reddit.go:144-174 | at most the limit of distinct threads, in order of first appearance, each labelled from its first hit, scored strictly down to at least one |
| Sse.StepKeepsInv | internal/mcp/server.go:523-574 | every step keeps: one channel at most, one close at most, one runner per Once, every stream on the one channel |
| Sse.ReachableIsSafe | internal/mcp/server.go:523-532 | along every run no panic, at most one channel, at most one close, and a close is never undone |
| Sse.NewServerIsSafe | internal/mcp/server.go:523-574 | so in every state reachable from a new server, with every stream on the one channel |
| Sse.ClosedMeansExitsOpen | internal/mcp/server.go:559-564 | after a close, after any further steps, every waiting stream old or new can leave |
| Sse.ExitOpensWithClose | internal/mcp/server.go:559-564 | a waiting stream can leave on shutdown if and only if the channel was closed, and with its client at any time |
| Sse.ThreadsGoTheirWay | internal/mcp/server.go:534-574 | a stream stays on the one channel until its client goes, a write fails or the shutdown is seen; a closer ends only with the channel closed |
| Sse.ThreadsGoOn | internal/mcp/server.go:523-574 | every thread can go on by itself, waiting at most for the one inside a Once |
| Sse.ClosesAreCounted | internal/mcp/server.go:523-532 | along every run the closes are the closing steps taken, at most one |
| Sse.FinishedCloserClosed | internal/mcp/server.go:792-793 | a closer that finishes leaves the channel closed, whoever closed it |
| Sse.CanDrain | internal/mcp/server.go:534-574 | after a close some bounded schedule finishes every stream and closer |
| Themes.CategorizeByTitle | internal/synthesis/synthesizer.go:356-380 | for any walk order the theme has a keyword in the item, or is General when none has |
| Themes.ThemeIsDeterminedIff | internal/synthesis/synthesizer.go:371-379 | the theme is independent of the walk if and only if at most one category has a keyword in the item |
| Themes.PartitionIsComplete | internal/synthesis/synthesizer.go:331-353 | label classes together hold every result exactly once |
| Themes.GroupByTheme | internal/synthesis/synthesizer.go:331-354 | for any walk orders: distinct names, non-empty groups in input order, union equal to the input, larger groups first |
| WrapText.Wrap | scripts/build-campaign-assets.py:82-97 | words in order, lines that fit unless a single word, and no wrapping with fewer lines when width is monotone |
| WrapText.GreedyStaysAhead | scripts/build-campaign-assets.py:87-95 | after any number of lines the greedy wrapping has placed at least as many words as any other |

## Left out

- HTTP transport, DNS, TLS and dialing: one oracle answer per hop stands for them; pinning the dial to the checked address is not modelled.
- FetchAndExtract, ExtractStructured, ValidateURL and the extractor: regular-expression heuristics over the same fetch.
- validateURLText: its verdict is a parameter of Fetch, and of each job in LinkPool.
- ReadThrough.SearchKey: SHA-256 and its 16-digit truncation are taken as collision-free, and JSON encoding as the identity.
- GenerateCacheKey connectors: their keys carry no limit, so the limit property is not claimed for them; the other SearXNG connectors are represented by the web connector.
- ReadThrough.SearchSearxng: the text of the unresponsive-engines error is abbreviated; request building and decoding are the upstream's answer.
- Images.SelectImages: the citation is the canonical URL rather than its SHA-256 digest.
- Reddit.ReadsIffAddress: URLs with bytes `url.Parse` rejects in the fragment, and non-ASCII host letters that lower-case to ASCII, are not modelled.
- LocalIndex.LoadCorpus: opening, sizing and decoding the corpus file are left out, and URL validation is a parameter.
- Select fairness and wall-clock latency: LinkPool and Sse prove that steps are enabled, bounded and sufficient, not that a scheduler takes them.
- Data races on the server's httpSrv and httpLn fields, HTTP shutdown itself, authentication, metrics, tracing, tool schemas and planner tables.
- Theme summaries, key findings, comparison maps and confidence scores of the synthesizer.
- Image drawing, cropping and file output of the asset script.
