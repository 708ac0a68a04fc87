# AIM: a Dafny model of its stateful algorithms and ranking kernels

AIM answers questions over a knowledge graph.  Its graph queries, model calls and HTTP traffic rest on
a small set of stateful algorithms, which this project models.  The properties it proves are about all
inputs and all runs of each model; what a model does not interleave or does not cover is under
"Left out".

- **Overload and failure control.** `SlidingWindow` (a Redis sorted set, an atomic pipeline and a
  separate undo), `RateLimiter` (the token bucket, the bucket table, and the switch between the two
  limiters), `CircuitBreaker` (locked entry and completion sections around calls in flight),
  `CallLimiter` (a semaphore per process and one shared counter).  Each is a step system whose steps
  are the code between two awaits; a class with the source's fields runs each step in place and its
  contract ties the new state to the step.
- **Caching.** `MemoryLru` (an ordered dict with a time-to-live per entry, measured against a cache that
  never evicts), `ResponseCache` (two tiers, tenants, legacy dual-read, arbitrary Redis failures, calls one
  after the other) and `CacheInterleaving` (the same cache one Redis command at a time, calls overlapping at
  every await and commands running late).
- **Evaluation arithmetic.** `PathAccuracy` (longest common subsequence by table) and `Ndcg`.
- **Entity resolution.** `Extraction` (parsing and the append-once passes) and `Deduplicator`.
- **Ranking and joins.** `StableSort`, `Fusion`, `PathScoring`, `BranchSelector`, `Reducers`,
  `RelatedEntities`.
- **Recovery and framing.** `Migrations` (crashable steps) and `SseFraming` (framing against the
  WHATWG HTML Living Standard, sections 9.2.5 and 9.2.6, and the session around it).

`Sets`, `Reals` and `Wrappers` hold what several of these share.  Scores and times are reals.  UUIDs are
fresh values.  Python's `sort(reverse=True)` is the stable descending sort, shown to be the only one.
`dfyconfig.toml` checks the whole project.

## Where the code departs from its documentation

The model follows the code.  The lemmas named give the exact condition under which the documented
behaviour holds or, for a remark that promises nothing definite, what happens instead.

- The breaker stores OPEN when it admits a probe, to block other callers, but leaves the timer where it
  was, so the next caller is a probe too (`ManyProbesAtOnce`, `ProbeBlocksExactly`).
- A lost undo is described as a minor over-count; under steady traffic it starves the caller for good
  (`LostUndosStarve`).  The documentation evicts scores strictly below the cutoff, the code evicts the
  cutoff itself too; the half-open window in `NeverMoreThanLimit` is the code's.
- The limit is documented per window; a call samples the time before it awaits its pipeline, so it holds
  per window less the longest such delay (`LimitKeptExactly`).
- The in-memory tier stores encrypted bytes and reads them without decrypting
  (`MemoryRoundTripExactly`).
- The key's ten-second expiry, meant for stale counters, also forgets slots that are held
  (`TimeoutHarmlessExactly`, `TimeoutsBreakLimit`).
- Repeated gold ids take NDCG above 1 (`BoundExactly`, `DuplicatesOverflow`).
- `score_candidate` is documented as lying in [0, 1]; the sub-query share is not clamped
  (`UnitScoreExactly`).
- `score_edge` clamps its result, not its inputs as documented (`ClampsInputsExactly`).
- A tenanted read consults two keys one after the other, and a write in between can make it miss
  (`DualReadIsOneMapExactly`, `MissThoughNeverEmpty`).
- A path score of 0 is read as the floor 0.4 when reranking (`StructuralFollowsScoreExactly`).
- The number 0 is documented as empty for `_prefer_populated` and is not (`ZeroIgnoredExactly`,
  `PreferPopulatedAssociativeExactly`).

## Model

| member | source | states |
|---|---|---|
| SlidingWindow.NeverMoreThanLimit | aim/utils/cache.py:312-360 | In every interleaving of pipelines that run out of order by up to `delay`, late or lost undos, lost replies and key expiries, every half-open interval of length window minus `delay` holds at most `limit` allowed requests; with pipelines in order that is the whole window. |
| SlidingWindow.LimitKeptExactly | aim/utils/cache.py:312-360 | For every positive limit and window and every longest delay: all intervals of a given length hold at most `limit` allowed requests in all runs if and only if the length is at most the window less the delay (zero if the delay is longer). Time is sampled before the pipeline is awaited, so a full window is safe only when pipelines are never delayed. |
| SlidingWindow.DelayCosts | aim/utils/cache.py:334-354 | One run for each configuration exceeds the limit by one in every interval that is longer than that, however little, and ends with its last call. |
| SlidingWindow.ExactWhenSettled | aim/utils/cache.py:334-360 | If every undo has arrived, no reply was lost and delays stay within the key's extra second, a delivered call is allowed if and only if fewer than `limit` allowed calls lie in the window that ends with the latest time seen, its own if pipelines run in order. |
| SlidingWindow.AllowedExactly | aim/utils/cache.py:342-357 | In every reachable state, with such delays, a delivered call is allowed exactly when fewer than `limit` calls are counted: their pipeline ran, they were neither undone nor evicted by a later pipeline, they are younger than the window. |
| SlidingWindow.DecidesExactly | aim/utils/cache.py:334-360 | Over every run and whatever the delays, a delivered call is allowed exactly when fewer than `limit` members are counted: of pipelines that ran since the key last expired, neither undone nor evicted, younger than the window. |
| SlidingWindow.RunStores | aim/utils/cache.py:336-354 | Over every run the sorted set holds exactly the members of pipelines that ran since the key last expired and that nobody undid or evicted. |
| SlidingWindow.RunRecordsCalls | aim/utils/cache.py:329-360 | Over every run the log records exactly the calls that happened, with their times, a call being undecided if and only if its reply did not arrive, and the key expires a window and a second after the last pipeline that ran. |
| SlidingWindow.LostUndosStarve | aim/utils/cache.py:350-355 | If no undo gets through and calls keep coming faster than `limit` a window, the first `limit` are allowed and none ever after: the over-count the code calls minor never goes away. |
| SlidingWindow.RunKeepsInv | aim/utils/cache.py:336-347 | Over every run the sorted set holds only members of calls whose pipeline ran and that nobody undid or evicted, with their times, every one younger than the window among them, and when an allowed call's pipeline ran at most `limit` allowed calls were no older than a window. |
| SlidingWindow.SortedSetKey.Check | aim/utils/cache.py:329-360 | One call up to its verdict takes the sorted set to the state the step system gives; delivered, it answers by the count of earlier counted calls. |
| SlidingWindow.SortedSetKey.Undo | aim/utils/cache.py:350-354 | The separate removal takes out the rejected member, whenever it arrives, and keeps the invariant. |
| TokenBuckets.GrantsBounded | aim/api/deps.py:94-102 | For every sequence of demands, what is granted plus what is left never exceeds what the bucket held plus what flowed in since its last refill. |
| TokenBuckets.GrantsInInterval | aim/api/deps.py:94-102 | Over a closed interval [a, b] a bucket in any state within bounds grants at most capacity + rate * (b - a). |
| TokenBuckets.DrawInBounds | aim/api/deps.py:94-102 | Tokens stay in [0, capacity] through every consume, and a grant comes out of tokens that were there. |
| TokenBuckets.GrantedExactly | aim/api/deps.py:94-102 | Over every sequence of demands the next is granted if and only if it fits the capacity, what there was at the beginning with all that flowed in, and the capacity from each earlier demand on with what flowed in since, each less what was granted: a refusal costs nothing. |
| TokenBuckets.TokensAreRoom | aim/api/deps.py:96-102 | What the bucket holds, after grants and refusals alike, is exactly how much more would fit those accounts. |
| TokenBuckets.TokenBucket.Consume | aim/api/deps.py:94-102 | The in-place consume moves the bucket to the drawn state, of which `GrantedExactly` says when it grants and what a refusal leaves, and keeps tokens within bounds. |
| TokenBuckets.BucketTable.GetBucket | aim/api/deps.py:109-113 | A bucket is replaced by a full one when it is missing or its capacity differs, otherwise it is kept; no other key changes. |
| TokenBuckets.BucketTable.InProcessAllow | aim/api/deps.py:109-118 | The fallback decides by one token from the caller's bucket, as the table that `TableDecidesExactly` is about, and only that bucket changes. |
| TokenBuckets.TableDecidesExactly | aim/api/deps.py:109-118 | Over every sequence of calls, whatever other keys do, a key is granted a call if and only if one more token fits a bucket of `rpm` tokens that was full when the key was first asked for under its present limit and has served what was granted to it since. |
| TokenBuckets.BucketServedSpell | aim/api/deps.py:109-118 | The bucket that serves a key is that full bucket after the key's own calls under the present limit, and nothing else. |
| CombinedLimiter.AdmitsFewerThanThreeTimesLimit | aim/api/deps.py:148-156 | For a fixed rpm of at least 1, however calls switch between Redis and the in-process bucket, including pipelines that ran and then raised, and whatever runs between a call's pipeline and its fallback, every window of 60 seconds minus the longest delay of a decision admits fewer than 3 * rpm requests of a key. |
| CombinedLimiter.ThreeTimesLimitIsReached | aim/api/deps.py:148-156 | That bound cannot be lowered: for every rpm and every delay up to 60 - 60 / rpm seconds there is a run with such a window that admits 3 * rpm - 1. |
| CombinedLimiter.BucketShare | aim/api/deps.py:94-118 | In any half-open interval the bucket's grants number strictly less than its capacity plus a refill of that length. |
| CombinedLimiter.RunKeepsInv | aim/api/deps.py:133-156 | Over every run the sorted set keeps its invariant, every draw is made by a call Redis left undecided, within the delay, and the bucket's balance covers all its grants. |
| CombinedLimiter.FallBacksGrantedExactly | aim/api/deps.py:151-153 | Over every run of both deciders a call that falls back is granted if and only if one more token fits the bucket, full at the first fallback, after what was granted since. |
| CombinedLimiter.RateLimiter.Admit | aim/api/deps.py:133-156 | A whole call passes if and only if Redis allowed it or, Redis being unavailable, the bucket granted it; it draws on the bucket only then. |
| CombinedLimiter.RateLimiter.AskRedis | aim/api/deps.py:148-149 | The first section moves the sorted set as one step of the combined system and leaves the bucket alone. |
| CombinedLimiter.RateLimiter.AskBucket | aim/api/deps.py:151-153 | The second section, at any later moment, draws one token for the undecided call as one step of the combined system. |
| CircuitBreakers.RunRefines | aim/utils/circuit_breaker.py:54-130 | Over every run with any number of calls in flight: the failure counter is the trailing run of failure completions, OPEN is stored iff that run is at least 1 and reaches the threshold, HALF_OPEN is never stored, and each entry was rejected iff OPEN and the latest failure was more recent than the reset timeout. |
| CircuitBreakers.RunFollowsEvents | aim/utils/circuit_breaker.py:54-130 | Over every run, from the events alone and without the log: the counter is the number of failures since the last success or reset, OPEN is stored iff that is at least 1 and reaches the threshold, the timer is the time of the latest failure, each entry is admitted, probed or rejected accordingly, and the log records each event as what it was. |
| CircuitBreakers.ProbeBlocksExactly | aim/utils/circuit_breaker.py:73-84 | After a probe is admitted, whatever happens next, a later entry is rejected if and only if the circuit is still OPEN and some call has failed since, less than the reset timeout ago: storing OPEN on admission blocks nobody. |
| CircuitBreakers.ManyProbesAtOnce | aim/utils/circuit_breaker.py:73-84 | The intended single probe fails: for every configuration and every n there is a run with n calls in flight at once, all admitted as probes; a reset timeout below zero counts as zero. |
| CircuitBreakers.CircuitBreaker.State | aim/utils/circuit_breaker.py:54-59 | The property reads HALF_OPEN iff the history has tripped the circuit and the timer has run out, CLOSED iff it has not tripped it. |
| CircuitBreakers.CircuitBreaker.Enter | aim/utils/circuit_breaker.py:67-84 | The locked entry section decides and updates as the step system does and logs its decision. |
| CircuitBreakers.CircuitBreaker.OnSuccess | aim/utils/circuit_breaker.py:99-104 | A success closes the circuit, clears the counter, not the timer, and is recorded as one, as the step system of `RunFollowsEvents` has it. |
| CircuitBreakers.CircuitBreaker.OnFailure | aim/utils/circuit_breaker.py:106-125 | A failure counts, moves the timer, and opens a closed circuit at the threshold. |
| CircuitBreakers.CircuitBreaker.OnNestedOpen | aim/utils/circuit_breaker.py:88-89 | A nested circuit-open error counts as neither success nor failure. |
| CircuitBreakers.CircuitBreaker.Reset | aim/utils/circuit_breaker.py:127-130 | A manual reset closes the circuit and clears the counter. |
| MemoryLru.HitIsLatestWrite | aim/utils/cache.py:74-95 | Over every run a hit returns the latest value set for that key and not deleted since, no older than its time-to-live. |
| MemoryLru.RetainedUnlessCrowdedOut | aim/utils/cache.py:74-91 | A written, undeleted, unexpired key is found if fewer than `maxsize` distinct other keys were set or hit since its last set or hit. |
| MemoryLru.SparedEntryStays | aim/utils/cache.py:74-112 | From any state on, an entry survives operations that neither overwrite, delete nor outlive it if fewer than `maxsize` distinct other keys were touched since it was. |
| MemoryLru.NeverOverfull | aim/utils/cache.py:85-91 | Over every run the size never exceeds `maxsize`. |
| MemoryLru.FullIsHistory | aim/utils/cache.py:74-112 | The never-evicting cache that the LRU is compared with holds exactly the latest writes that have not been seen expired. |
| MemoryLru.PurgeInvisible | aim/utils/cache.py:101-112 | Purging expired entries changes the result of no get before the next set. |
| MemoryLru.PurgeSpec | aim/utils/cache.py:101-112 | A purge removes exactly the expired entries. |
| MemoryLru.SetValid | aim/utils/cache.py:85-91 | A set evicts at most one key, the least recently touched, and restores the size bound. |
| MemoryLru.MemoryLRU.Get | aim/utils/cache.py:74-83 | A get returns and moves to the end a live entry, deletes an expired one, and keeps keys and order consistent. |
| MemoryLru.MemoryLRU.Set | aim/utils/cache.py:85-91 | A set with its eviction loop ends in the stored-and-trimmed state. |
| MemoryLru.MemoryLRU.Delete | aim/utils/cache.py:93-95 | A delete drops the key if it is there and nothing else. |
| MemoryLru.MemoryLRU.PurgeExpired | aim/utils/cache.py:101-112 | The purge loop removes every expired key and returns how many. |
| ResponseCaches.ReadsOnlyOwnWrites | aim/utils/cache.py:154-294 | For calls one after the other, under any schedule of failed or lost Redis commands and reconnects, a read returns only a value written to that very tenant and key, or to the legacy key it also consults, and within the time-to-live it was written with. |
| ResponseCaches.HealthyCacheIsOneMap | aim/utils/cache.py:168-294 | For calls one after the other and Redis answering throughout, every read replies as one map of places with time-to-live and legacy fallback would. |
| ResponseCaches.ReadExactly | aim/utils/cache.py:168-251 | Every read, tenanted or plain: what Redis gives, if it gives a value, and in every other case (not in use, miss, failed command, bytes that do not decrypt) what memory holds, the tenant's place first, then the legacy one. |
| ResponseCaches.OutageWritesReadable | aim/utils/cache.py:154-294 | A value whose write landed in memory because Redis was down or failed is read back, through any later reconnects, unless since then it was overwritten, erased, expired, or `maxsize` other keys were used, or Redis gives a value; with encryption on the read raises instead. |
| ResponseCaches.MemoryCacheIsOneMap | aim/utils/cache.py:168-294 | Without Redis, and with no more than `maxsize` keys in use, every read replies as one map of places with time-to-live and legacy fallback would. |
| ResponseCaches.FlagExactly | aim/utils/cache.py:154-294 | After any operation Redis is in use if and only if it was before, or a due ping was answered, and none of the operation's commands failed; the time of the last attempt changes exactly when a ping was sent. |
| ResponseCaches.PingsSpaced | aim/utils/cache.py:154-166 | Over every run any two pings are at least 30 seconds apart. |
| ResponseCaches.NoClientNoRedis | aim/utils/cache.py:168-294 | Without a client every operation touches memory alone. |
| CacheInterleaving.HitsAreOwnWrites | aim/utils/cache.py:154-294 | Command by command, in every interleaving of calls, with commands that fail, are lost or run after their caller gave up: a read that hits found, at a time between its beginning and its reply, a value that a write had by then stored to that very tenant and key, or to the legacy key it also consults, no longer before than that write's time-to-live, counted from when it was stored; and it was stored after the write began, within the longest delay of a command. |
| CacheInterleaving.RunKeepsInv | aim/utils/cache.py:154-294 | In every interleaving each entry in either tier, each SETEX still under way and each answer a read awaits stems from a write that began before, under that write's key, with its bytes and time-to-live. |
| CacheInterleaving.RunTimely | aim/utils/cache.py:154-294 | In every interleaving nothing is stored in the future, and what a read found and the moments of its GETs lie between its beginning and its reply, in the order of the GETs. |
| CacheInterleaving.UninterruptedIsAtomic | aim/utils/cache.py:154-294 | In every system that is reached, a call that nothing interrupts, its commands meeting any fate, does to both tiers exactly what the whole operation of `ResponseCaches` does at once, and a read replies the same. |
| CacheInterleaving.ReadsAreDualReads | aim/utils/cache.py:231-251 | With Redis answering throughout and calls interleaving command by command, every read replies as one map of places would, asked for the tenant's place at the moment of the first GET and, on a miss, for the legacy place at the moment of the last, both between its beginning and its reply. |
| CacheInterleaving.DualReadIsOneMapExactly | aim/utils/cache.py:231-251 | A first GET that hits gives the map's reply at that moment; after one that misses the reply is the map's at the last GET if and only if no write of the place landed in between, or the legacy place is alive then and happens to hold the same value. |
| CacheInterleaving.MissThoughNeverEmpty | aim/utils/cache.py:231-282 | A run in which nothing fails, for every codec, lag and size: such a write makes a read miss although at every moment from its beginning to its reply the map held a value for it. |
| CacheInterleaving.LiveAfter | aim/utils/cache.py:264-276 | A place is alive after more commands if and only if a write of it landed among them, or it was alive and none of them touched it. |
| ResponseCaches.KeysCollideExactly | aim/utils/cache.py:220-229 | With tenant ids free of colons, two places share a key if and only if they are the same or a legacy key spells out the other's tenant prefix. |
| ResponseCaches.SaneKeysInjective | aim/utils/cache.py:220-229 | With colon-free tenants and no legacy key starting with a tenant prefix, both key encodings are injective. |
| ResponseCaches.RedisRoundTrip | aim/utils/cache.py:175-199 | On Redis a value written is read back within its time-to-live, encrypted or not. |
| ResponseCaches.MemoryRoundTripExactly | aim/utils/cache.py:180-199 | On the in-memory tier the round trip holds if and only if encryption is off; with encryption on the read hands ciphertext to the JSON parser, which raises. |
| ResponseCaches.ResponseCache.Connect | aim/utils/cache.py:136-152 | Connecting marks Redis usable only if the client was created and answered a ping. |
| ResponseCaches.ResponseCache.TryReconnect | aim/utils/cache.py:154-166 | A reconnect attempt happens at most once an interval and marks Redis usable only if the ping succeeds. |
| ResponseCaches.ResponseCache.Get | aim/utils/cache.py:168-181 | A plain read goes to Redis if usable, falls through to memory on a miss or a failure, flips the flag on a failure, and replies as `ReadExactly` says. |
| ResponseCaches.ResponseCache.GetTenanted | aim/utils/cache.py:231-251 | A tenanted read consults the tenant's place and then the legacy one, in Redis and then in memory, and replies as `ReadExactly` says. |
| ResponseCaches.ResponseCache.SetWithTtl | aim/utils/cache.py:186-199 | A plain write reaches Redis or, failing that, memory, with the given time-to-live. |
| ResponseCaches.ResponseCache.SetTenantedWithTtl | aim/utils/cache.py:258-282 | A tenanted write also retires the legacy copy of the tier it wrote to, a failure to retire it being ignored. |
| ResponseCaches.ResponseCache.Delete | aim/utils/cache.py:201-207 | A delete clears memory always and Redis if it answers. |
| ResponseCaches.ResponseCache.DeleteTenanted | aim/utils/cache.py:284-294 | A tenanted delete clears both places in memory always and in Redis if it answers. |
| PathAccuracy.LongestCommon | aim/eval/metrics.py:111-121 | After the nested loops dp[m][n] is the length of a longest common subsequence: one of that length exists and none is longer. |
| PathAccuracy.MultiHopPathAccuracy | aim/eval/metrics.py:90-124 | The score lies in [0, 1] and is 1 if and only if a non-empty gold path is a subsequence of the retrieved path. |
| PathAccuracy.EntryAttained | aim/eval/metrics.py:114-119 | Every table entry is attained by a common subsequence of its two prefixes. |
| PathAccuracy.EntryBounds | aim/eval/metrics.py:114-119 | No common subsequence of two prefixes is longer than their entry. |
| PathAccuracy.EntryIsLongest | aim/eval/metrics.py:113-121 | The last entry is the length of a longest common subsequence of the whole paths. |
| PathAccuracy.ScoreInUnit | aim/eval/metrics.py:108-124 | The score lies in [0, 1] for all inputs. |
| PathAccuracy.PerfectExactly | aim/eval/metrics.py:95-124 | The score is 1 if and only if the gold path is non-empty and visited in order, detours allowed. |
| PathAccuracy.ScoreExactly | aim/eval/metrics.py:108-124 | The score times the length of the gold path is the length of a longest common subsequence, whatever that length is. |
| PathAccuracy.DetoursNeverLower | aim/eval/metrics.py:99-102 | Inserting detour nodes anywhere into the retrieved path never lowers the score. |
| Ndcg.ScoreInUnit | aim/eval/metrics.py:44-59 | The score lies in [0, 1] if no gold id is retrieved twice within the first k, or if k is at most the number of gold ids. |
| Ndcg.PerfectExactly | aim/eval/metrics.py:44-59 | For non-empty inputs and k >= 1, without repeated gold ids, the score is 1 if and only if the first min(gold ids, k) ranks are filled and all gold. |
| Ndcg.ScoreAdds | aim/eval/metrics.py:48-59 | The score is linear in the hits: if the hits of one ranking split into those of two others, its score is the sum of theirs. |
| Ndcg.HitsInProportion | aim/eval/metrics.py:48-59 | Single hits at two ranks score in the proportion of the two ranks' discounts. |
| Ndcg.BoundExactly | aim/eval/metrics.py:48-59 | The upper bound 1 holds of every retrieved list if and only if k is at most the number of distinct gold ids. |
| Ndcg.DuplicatesOverflow | aim/eval/metrics.py:48-52 | With k above the number of gold ids, a list whose first ranks hold one gold entry more than there are gold ids scores above 1. |
| Ndcg.DcgAtMostIdeal | aim/eval/metrics.py:48-56 | h hits are worth at most the ideal of h, and equally much only if they fill the first h ranks. |
| Ndcg.DominatingNeverLower | aim/eval/metrics.py:48-59 | A ranking with at least as many gold ids in every prefix never scores lower. |
| Ndcg.MovingGoldUpNeverLowers | aim/eval/metrics.py:48-59 | Moving a gold id up past any others never lowers the score. |
| StableSort.OrderIsOrder | aim/agents/hybrid_retriever.py:79 | The stable descending order exists: it lists every index once, greater keys first, equal keys in input order. |
| StableSort.OrderUnique | aim/agents/hybrid_retriever.py:79 | There is only one such order, so any stable descending sort gives it. |
| StableSort.SortPlaces | aim/agents/hybrid_retriever.py:79 | Sorting puts each element at its rank, the number of elements with a greater key or with an equal key and an earlier place. |
| StableSort.SortPermutes | aim/agents/hybrid_retriever.py:79 | Sorting loses and invents nothing. |
| StableSort.SortDescends | aim/agents/hybrid_retriever.py:79 | Keys never increase along the result. |
| Fusion.FusionMovesOnlyMatchedUp | aim/agents/hybrid_retriever.py:68-80 | With boost >= 0 no graph-matched snippet loses rank, no unmatched one gains rank, and the order within each group is kept, relative to the ranking by raw score. |
| Fusion.OvertakesExactly | aim/agents/hybrid_retriever.py:68-80 | A matched snippet stands before an unmatched one if and only if its raw score plus the boost is greater, or equal and it came first. |
| Fusion.FusedExactly | aim/agents/hybrid_retriever.py:68-80 | At its rank stands the snippet itself, matched if and only if its non-empty id is in the graph, scored with the boost once if matched and else as it came. |
| Fusion.SortedRank | aim/agents/hybrid_retriever.py:57-59 | On an input already sorted by score, that ranking is the input order. |
| Fusion.FusedOrderSpec | aim/agents/hybrid_retriever.py:64-80 | The output is a stable descending permutation of the fused snippets. |
| Fusion.FuseByGraphRerank | aim/agents/hybrid_retriever.py:68-80 | The loop and the in-place sort give the fused snippets in that order; empty graph ids match nothing. |
| Fusion.DeriveSeedEntityIds | aim/agents/hybrid_retriever.py:99-115 | The loop returns the first top_k of the distinct non-empty ids in stable descending score order. |
| Fusion.FirstIdsSpec | aim/agents/hybrid_retriever.py:99-114 | That list holds each non-empty id of the snippets exactly once. |
| Fusion.FirstIdsInOrder | aim/agents/hybrid_retriever.py:99-114 | The ids stand in the order in which they first occur. |
| Fusion.TakeSpec | aim/agents/hybrid_retriever.py:99-115 | Of the list exactly the first top_k are taken, or all there are, or none if top_k is not positive. |
| PathScoring.EdgeBetweenInputs | aim/agents/graph_scoring.py:164-182 | With accepted weights and any inputs whatever, an edge scores in [0, 1] and between its least and its greatest input clamped, up to the weight tolerance. |
| PathScoring.ClampsInputsExactly | aim/agents/graph_scoring.py:173-182 | Clamping the result equals clamping the inputs, as documented, for all accepted weights if and only if all three inputs lie in [0, 1] or none is positive. |
| PathScoring.EdgeIsWeightedSum | aim/agents/graph_scoring.py:164-182 | On unit inputs the score is the weighted sum capped at one, each input counting by its own weight alone where the others are zero. |
| PathScoring.ProductMinMean | aim/agents/graph_scoring.py:204-224 | On non-empty unit edge scores, product <= weakest edge <= mean. |
| PathScoring.MeanOfJoined | aim/agents/graph_scoring.py:217-218 | The mean of two unit paths joined is the mean of theirs weighted by their lengths. |
| PathScoring.ProductOfJoined | aim/agents/graph_scoring.py:219-223 | The product of two unit paths joined is the product of theirs. |
| PathScoring.ShortPaths | aim/agents/graph_scoring.py:213-223 | A path of one edge scores as the edge clamped, one of none scores 0.4; with joining this fixes both aggregations on unit scores. |
| PathScoring.ClampedWhere | aim/agents/graph_scoring.py:217-223 | A product clamps edge by edge; a mean depends on the edges only by their sum. |
| PathScoring.ScorePath | aim/agents/graph_scoring.py:204-224 | A path score is in [0, 1]; it fails if and only if there are edges and the aggregation is unknown. |
| PathScoring.RankPaths | aim/agents/graph_scoring.py:227-248 | The result is descending and, with what was dropped, a permutation of the scored paths; no dropped path outscores a kept one. |
| PathScoring.SliceSpec | aim/agents/graph_scoring.py:246-248 | Python's slice to top_k keeps that many in front, all but so many for a negative one, and never more than there are. |
| PathScoring.ScorePaths | aim/agents/graph_scoring.py:239-244 | The scoring loop attaches to every path its own score, or fails if one fails. |
| PathScoring.RerankRespects | aim/agents/graph_scoring.py:251-284 | For non-negative weights and any monotone rounding, a path at least as good in structural score, affinity, path score and hops comes first unless the keys tie and it came later. |
| PathScoring.RerankDecides | aim/agents/graph_scoring.py:276-284 | A path goes before another if and only if its blended score is greater, on a tie its path score, on a further tie its hop count smaller. |
| PathScoring.StructuralFollowsScoreExactly | aim/agents/graph_scoring.py:268 | A higher path score gives at least the same structural score, except exactly when a score of 0, read as the floor 0.4, meets a positive score below the floor. |
| BranchSelector.WinnerWithinThreshold | aim/agents/branch_selector.py:149-227 | For every judge, failing or naming an unknown id included, the winner is a candidate whose score is within the positive threshold of the maximum, the scoreboard is the plain one, and the flag is set only if the judge, shown exactly the ranked candidates within the threshold, voted for the winner. |
| BranchSelector.NoThresholdIsSelectBest | aim/agents/branch_selector.py:159-163 | A threshold of zero or less gives what select_best gives, without a vote. |
| BranchSelector.JudgeDecidesNearTies | aim/agents/branch_selector.py:193-227 | On a near-tie the judge is shown exactly the ranked candidates less than the threshold from the top, at least two; its vote for one of them is the result, and any other outcome leaves the top of the ranking the winner. |
| BranchSelector.SelectBestIsMaximal | aim/agents/branch_selector.py:106-126 | The winner scores highest and is the first in input order that does. |
| BranchSelector.RankingSpec | aim/agents/branch_selector.py:119-125 | The ranking is a permutation of the scored candidates in descending order. |
| BranchSelector.ScoreboardSpec | aim/agents/branch_selector.py:119-126 | The scoreboard lists the ranking, branch by branch with its score. |
| BranchSelector.UnitScoreExactly | aim/agents/branch_selector.py:78-103 | Given the two sub-query counts, the documented range [0, 1] holds of every candidate if and only if the total is not positive or the covered count lies between 0 and the total. |
| BranchSelector.CitationsCount | aim/agents/branch_selector.py:85-99 | Distinct citations add 0.30 times their share of the sources, at most 0.30, and nothing where there are no sources. |
| BranchSelector.CoverageCounts | aim/agents/branch_selector.py:90-100 | Covered sub-queries count 0.30 times their share, unclamped; where there are none, all are covered. |
| BranchSelector.ConfidenceCounts | aim/agents/branch_selector.py:95-101 | Confidence counts a quarter within [0, 1] and nothing beyond. |
| BranchSelector.LengthCounts | aim/agents/branch_selector.py:96-102 | Length counts in proportion up to 120 characters, 0.15 in all, and nothing beyond. |
| BranchSelector.NothingScoresZero | aim/agents/branch_selector.py:78-103 | An answer with nothing to its credit scores zero, so the four laws fix the score. |
| Reducers.PreferPopulatedAssociativeExactly | aim/agents/state.py:45-63 | The reducer is associative up to Python equality except exactly when False and then the number 0 follow a value that does not equal 0. |
| Reducers.KeepFirstAssociative | aim/agents/state.py:31-42 | The first-write reducer is associative on all values. |
| Reducers.KeepFirstFold | aim/agents/state.py:31-42 | A fold of it is the first non-zero write, if there is one. |
| Reducers.UnsetExactly | aim/agents/state.py:31-42 | A first write takes whatever follows it, whatever that is, if and only if it is None, False or an empty container. |
| Reducers.PreferPopulatedFold | aim/agents/state.py:45-63 | Within one channel type a fold is the last non-zero write, if there is one. |
| Reducers.JoinOrderIrrelevant | aim/agents/state.py:31-63 | When a channel and its parallel writes hold at most one non-zero value, any order of joining gives that value, or a zero value if there is none. |
| Reducers.ZeroCounterOverwrites | aim/agents/state.py:52-63 | The number 0 is not treated as empty, against the documentation: it overwrites a counter and is kept as a first write. |
| Reducers.ZeroIgnoredExactly | aim/agents/state.py:52-63 | A write of 0 leaves the channel as it was, as documented, if and only if the channel already holds something equal to 0. |
| Reducers.FlagReset | aim/agents/state.py:45-74 | Whatever was written before, a final False takes effect under `_latest_value` and none under `_prefer_populated`, which is why control flags need the former. |
| RelatedEntities.RelatedSpec | aim/graph/neo4j_client.py:54-74 | Ids are unique, the original rows come first (the last of rows with one id), every named endpoint is present, nothing else is added, and what is added comes from the first row that mentions it. |
| RelatedEntities.AddedExactly | aim/graph/neo4j_client.py:61-73 | After the raw rows come exactly the first mentions of ids not among them, in order, each with its end's own labels and properties and its row's score. |
| RelatedEntities.NothingDangles | aim/graph/neo4j_client.py:61-73 | Every non-empty id at either end of a relationship is among the entities. |
| RelatedEntities.EndsSpec | aim/graph/neo4j_client.py:60-62 | Each row is visited source first, then target, both with the row's score. |
| RelatedEntities.CollapseSpec | aim/graph/neo4j_client.py:59 | The dictionary of the raw rows has their ids, each once, and of rows with one id the last. |
| RelatedEntities.CollapseInOrder | aim/graph/neo4j_client.py:59 | An id keeps the place where it first came. |
| RelatedEntities.FailsExactly | aim/graph/neo4j_client.py:65-73 | It raises if and only if some entity to be added has a score that is no number; a bad score on a row that adds nothing is never read. |
| RelatedEntities.CloseTwice | aim/graph/neo4j_client.py:54-74 | Closing an answer under its relationships a second time changes nothing. |
| RelatedEntities.AppendRelatedEntities | aim/graph/neo4j_client.py:54-74 | The nested loops over a growing dictionary compute that closure. |
| SseFraming.RoundTripExactly | aim/mcp/sse_transport.py:38-45 | Parsing a concatenation of formatted events by sections 9.2.5 and 9.2.6 of the WHATWG HTML Living Standard gives back the very events if and only if every name is non-empty and free of CR and LF and all data is free of CR. |
| SseFraming.ParsedFramable | aim/mcp/sse_transport.py:38-45 | No stream whatever makes a reader see an event outside that condition. |
| SseFraming.EventRead | aim/mcp/sse_transport.py:38-45 | One framed event is read off the front of any stream and leaves the reader's buffers clear. |
| SseFraming.FormatSseEvent | aim/mcp/sse_transport.py:38-45 | The loop that builds the text yields the framing that is parsed back. |
| SseSessions.ClientReceivesPrefix | aim/mcp/sse_transport.py:62-84 | End to end over every run, a client that parses the bytes and drops the endpoint notice and pings has received a prefix of the accepted events, in order, and the rest is exactly the queue. |
| SseSessions.RunFollowsActions | aim/mcp/sse_transport.py:62-84 | Over every run, from the actions alone: every event sent before closing is accepted and none after, each delivery yields one message, each wait that times out one keepalive, and the generator stands where the actions put it. |
| SseSessions.RunKeepsInv | aim/mcp/sse_transport.py:62-84 | The endpoint is yielded first and once, accepted events are yielded or queued in order with none lost or repeated, and after closing at most one more chunk is yielded. |
| SseSessions.SseSession.SendEvent | aim/mcp/sse_transport.py:62-65 | An event is queued, formatted, unless the session is closed. |
| SseSessions.SseSession.Start | aim/mcp/sse_transport.py:67-70 | The generator's first chunk is the endpoint event. |
| SseSessions.SseSession.Resume | aim/mcp/sse_transport.py:72 | After a yield the generator ends if the session has been closed meanwhile. |
| SseSessions.SseSession.Await | aim/mcp/sse_transport.py:73-80 | The wait yields the head of the queue, or a keepalive on a timeout, even if the session was closed during the wait. |
| SseSessions.SseSession.CloseSession | aim/mcp/sse_transport.py:82-84 | Closing refuses later events and changes nothing already queued. |
| Migrations.RunKeepsInv | aim/graph/migrations.py:88-144 | At every step of every run, with overlapping processes, crashes between effect and record and failed version reads, every recorded version has its effect in place and only registry effects and versions are added. |
| Migrations.CompletionRecovers | aim/graph/migrations.py:88-144 | Once any process completes, the database is what one undisturbed run leaves, and a following run that can read the versions applies nothing. |
| Migrations.UndisturbedProgress | aim/graph/migrations.py:103-130 | A run that nothing disturbs completes, and the count it returns is exactly the number of pending migrations. |
| Migrations.PendingSpec | aim/graph/migrations.py:103 | A migration is pending if and only if it is in the registry and its version is not recorded. |
| Migrations.PendingInOrder | aim/graph/migrations.py:103 | Pending migrations stand in the order of the registry. |
| Migrations.SchemaDatabase.RunMigrations | aim/graph/migrations.py:88-144 | The loop, whatever the fate of each statement, is a run of the step system; if it returns, every statement worked, the count is that of the pending migrations, and all registry effects and versions are in place; if it raises, what is new in the database is the pending migrations before the failed statement's and, of its own, what ran before it raised, and recorded versions still have their effects. |
| CallLimiter.NeverMoreInside | aim/llm/factory.py:121-138 | In every interleaving no process has more than max_concurrent calls in the delegate at once. |
| CallLimiter.RunFollowsEvents | aim/llm/factory.py:85-141 | Over every run, from the events alone: the counter is the increments less the decrements that ran since the key timed out, a call obtains a slot if and only if it found room and both its commands worked, and the limiter fails open, every other call going on to the delegate without one. |
| CallLimiter.EverySlotReleasedOnce | aim/llm/factory.py:121-141 | Every obtained distributed slot is released exactly once, when its call ends, however it ends. |
| CallLimiter.CounterConserved | aim/llm/factory.py:94-119 | Unless the key has timed out while it counted a call, and whatever commands fail, the counter equals held slots plus increments not yet rolled back plus those lost to failed commands since its last timeout, and at most max_concurrent calls hold a slot over all processes. |
| CallLimiter.TimeoutHarmlessExactly | aim/llm/factory.py:85-107 | From any reachable state with the counter intact, a timeout of the key keeps the limit in every continuation without another one if and only if no call holds a slot, is about to, or is yet to roll back at that moment. |
| CallLimiter.NothingLostWhenAllWorks | aim/llm/factory.py:94-119 | If every command succeeds nothing is lost: the counter is exactly held slots plus attempts not yet rolled back. |
| CallLimiter.TimeoutsBreakLimit | aim/llm/factory.py:85-107 | Timeouts of the key break the distributed limit: for every limit of at least 1 and every n there is a run in which n calls hold a slot at once. |
| CallLimiter.RunKeepsInv | aim/llm/factory.py:94-141 | In every interleaving permits and calls inside make up the limit in each process, the counter is accounted for unless forgotten, and each call's slot history is consistent with where it stands. |
| CallLimiter.SharedLimiter.IncrementCounter | aim/llm/factory.py:94-105 | INCR gives the call the count it then compares with the limit; without a client or on an error it goes on without a slot. |
| CallLimiter.SharedLimiter.SetKeyExpiry | aim/llm/factory.py:106-113 | After EXPIRE a call within the limit obtains a slot and one over it goes to roll back; an error loses the increment. |
| CallLimiter.SharedLimiter.RollBackIncrement | aim/llm/factory.py:107-109 | The roll-back decrements once and the call goes on without a slot. |
| CallLimiter.SharedLimiter.Enter | aim/llm/factory.py:124-125 | Entering the delegate takes one of the process's permits. |
| CallLimiter.SharedLimiter.StopWaiting | aim/llm/factory.py:121-128 | A call cancelled before it got a permit takes none back, and still releases a slot it holds. |
| CallLimiter.SharedLimiter.Exit | aim/llm/factory.py:124-128 | Leaving it, by return, exception or cancellation, gives the permit back; only a slot holder goes on to release. |
| CallLimiter.SharedLimiter.ReleaseSlot | aim/llm/factory.py:114-119 | The release decrements once, or not at all if the command fails, and ends the call. |
| Extraction.AugmentIdempotent | aim/extraction/llm_extractor.py:313-455 | Augmenting an extraction a second time with the same message changes nothing. |
| Extraction.AugmentKeepsSound | aim/extraction/llm_extractor.py:313-455 | Augmentation keeps (type, lower-stripped name) unique and leaves no relationship dangling. |
| Extraction.FactsGrounded | aim/extraction/llm_extractor.py:359-453 | Every appended relationship joins entities appended before it, and every appended entity has confidence at least 0.86. |
| Extraction.FactsDescribed | aim/extraction/llm_extractor.py:313-455 | There are facts if and only if an incident id matched and incidents are allowed; all are about the first id, each of its type, direction, properties and confidence, a service giving three facts, or four with a cause, a team and a lead two each. |
| Extraction.IncidentSays | aim/extraction/llm_extractor.py:325-357 | The incident carries its id, the stripped text, the source, and what cause, symptom and rollback say, key by key, and no other key. |
| Extraction.CauseSays | aim/extraction/llm_extractor.py:332-351 | The cause is the one matched, or the mechanism made of the symptom if none was or it was blank. |
| Extraction.SymptomSays | aim/extraction/llm_extractor.py:336-342 | The symptom gives the status code and, if one matched, the deployment; without a symptom neither is set. |
| Extraction.RollbackSays | aim/extraction/llm_extractor.py:353-357 | A rollback gives the action and, unless it is empty, the time. |
| Extraction.MechanismSays | aim/extraction/llm_extractor.py:343-351 | The mechanism names the service, the component unless blank, the status and then the deployment if there is one. |
| Extraction.FactsDistinct | aim/extraction/llm_extractor.py:359-453 | One message never yields two facts with the same key. |
| Extraction.ExtractionSound | aim/extraction/llm_extractor.py:458-544 | What parsing and augmentation return, for every JSON the model gave that parses, has unique entity keys and no dangling relationship. |
| Extraction.ParsedEntitiesSound | aim/extraction/llm_extractor.py:474-498 | Parsed entities have allowed types, confidences in [0, 1] and unique keys, and no wanted entity is lost. |
| Extraction.ParsedEntitiesExactly | aim/extraction/llm_extractor.py:474-498 | What is parsed are exactly the first usable items of each key, in order, each as its item has it. |
| Extraction.ParsingRaisesExactly | aim/extraction/llm_extractor.py:474-498 | Parsing raises if and only if some usable item has a confidence that is no number, a repeated one included. |
| Extraction.ParsedRelationshipsSound | aim/extraction/llm_extractor.py:500-530 | Parsed relationships have known types after aliasing, confidences in [0, 1] and extracted endpoints. |
| Extraction.ParsedRelationshipsExactly | aim/extraction/llm_extractor.py:500-530 | Exactly the usable relationships are parsed, each once, in order and in its own direction. |
| Extraction.ParseEntities | aim/extraction/llm_extractor.py:474-498 | The loop with its set of seen fingerprints parses as specified, raising exactly where a wanted item's confidence is no number. |
| Extraction.ParseRelationships | aim/extraction/llm_extractor.py:500-530 | The loop keeps the relationships that the specification keeps, raising where it does. |
| Extraction.ExtractionResult.AppendEntityOnce | aim/extraction/llm_extractor.py:263-284 | The search loop updates the first entity with the key, the greater confidence winning, or appends. |
| Extraction.ExtractionResult.AppendRelationshipOnce | aim/extraction/llm_extractor.py:287-310 | The same for a relationship, keyed by both endpoints and the type. |
| Extraction.ExtractionResult.AugmentIncident | aim/extraction/llm_extractor.py:313-455 | The statement sequence appends exactly the facts of the message, in order. |
| Deduplicators.RunKeepsIdentity | aim/extraction/deduplicator.py:71-211 | Over every run of deliveries no (type, normalised name) changes its id, no two share an id, and no stored confidence falls. |
| Deduplicators.StoredIsHeard | aim/extraction/deduplicator.py:71-155 | Over every run and for every type and name: the stored confidence is the greatest heard, name and source_uri are the latest, and any other property has the value of the last extraction that had the key and either exceeded every earlier confidence or was the first to bring the key. |
| Deduplicators.DeduplicateKeeps | aim/extraction/deduplicator.py:71-211 | One call keeps the index sound and emits relationships for exactly those extracted ones whose two endpoints are indexed, each once and in order, between ids indexed under their names. |
| Deduplicators.RedeliveryCreatesNothing | aim/extraction/deduplicator.py:104-130 | However much else is delivered in between, delivering an extraction again, with a threshold not lower than before, creates no entry and changes no stored id, confidence or property except name and source_uri; it draws ids for its relationships only. |
| Deduplicators.LoadedIndexSound | aim/extraction/deduplicator.py:52-66 | Loading a graph with distinct entity ids gives a sound index that knows every named entity. |
| Deduplicators.LoadedExactly | aim/extraction/deduplicator.py:52-66 | After loading, an entry is the last graph entity of its type and name, with its id, properties and score, and there is no other. |
| Deduplicators.TypeOfSpec | aim/extraction/deduplicator.py:60 | An entity is typed by its first label other than Entity, or by its first if it has no other. |
| Deduplicators.LoadedTypesInOrder | aim/extraction/deduplicator.py:65 | Types stand in the order in which loading first met them. |
| Deduplicators.ResolveExactly | aim/extraction/deduplicator.py:161-178 | A name resolves if and only if it is indexed under some type, and then to an id indexed under it. |
| Deduplicators.ResolvesInOrder | aim/extraction/deduplicator.py:161-178 | A name of the batch resolves to the batch's id, any other to that of the first type in the index's order that knows it. |
| Deduplicators.NamesAreLast | aim/extraction/deduplicator.py:88-151 | A name belongs to the batch if and only if a confident extraction had it, and stands for the entry of the last that did. |
| Deduplicators.TypesInOrder | aim/extraction/deduplicator.py:149 | Types keep their place in the index for good: a later extraction only adds behind. |
| Deduplicators.ResolveAllSpec | aim/extraction/deduplicator.py:160-202 | Resolution emits exactly the relationships with two indexed endpoints, each once and in order. |
| Deduplicators.RelationshipsEmitted | aim/extraction/deduplicator.py:160-202 | Each emitted relationship has its own fresh id, its type, source and target in their direction, and the relationship's own properties over the three standard ones. |
| Deduplicators.EntitiesEmitted | aim/extraction/deduplicator.py:91-155 | Exactly the entities extracted with enough confidence are emitted, each once and in order, under the id the index has for them and with a score between the extracted and the stored confidence. |
| Deduplicators.EmittedAsStored | aim/extraction/deduplicator.py:91-155 | Each confident extraction emits its entry exactly as the index has it right after. |
| Deduplicators.IncidentFactsEmitted | aim/extraction/deduplicator.py:91-202 | For any threshold up to 0.86, whatever was extracted or indexed before, every relationship the incident pass appends is still emitted. |
| Deduplicators.Deduplicator.LoadFromGraphEntities | aim/extraction/deduplicator.py:52-66 | The loading loop fills the nested index; from an empty one with distinct ids the index is sound. |
| Deduplicators.Deduplicator.MergeProps | aim/extraction/deduplicator.py:107-113 | In whatever order properties come, new keys are added and existing ones change only for a higher confidence. |
| Deduplicators.Deduplicator.ProcessEntity | aim/extraction/deduplicator.py:91-155 | Skipping, merging or creating one entity moves index, name map and output as the specification that `StoredIsHeard` is about. |
| Deduplicators.Deduplicator.LookUp | aim/extraction/deduplicator.py:168-178 | The search loop returns the first type's entry in insertion order. |
| Deduplicators.Deduplicator.Deduplicate | aim/extraction/deduplicator.py:71-211 | The two loops give the new index and both output lists as specified: what `StoredIsHeard`, `EmittedAsStored` and `RelationshipsEmitted` are about. |
| Deduplicators.Deduplicator.Clear | aim/extraction/deduplicator.py:213-215 | Clearing empties the index; ids already drawn are not drawn again. |

## Left out

- Cypher, Neo4j, Qdrant, HTTP and the model and embedding vendors; Redis is a map with expiry, a sorted set
  and a counter, Neo4j a set of schema effects and a set of recorded versions.
- Regular expressions, Fernet, JSON and `log2` are not modelled: a match is an optional value, encryption
  and JSON are functions with a round-trip law (and ciphertext is no JSON), the discount is any positive
  strictly decreasing function.  String functions (`lower`, `strip`, whitespace collapsing) are
  uninterpreted; the extractor's and the deduplicator's normal forms share them.
- Floating-point rounding; `round(x, 4)` is any monotone function.
- Wall clock and monotonic clock are one clock that does not run backwards.
- The sliding-window model covers one key and leaves out the cache's reconnect attempt before the
  pipeline, which only decides whether the pipeline is sent; a pipeline that runs after its caller gave up
  and fell back counts as a further call, one whose reply was lost; `rpm` is fixed during a run, and Redis keeps its data.
- The encryption setting does not change during a run of the cache.  `ResponseCache` runs its calls one
  after the other; only `CacheInterleaving` overlaps them, on values, without a class of its own.
- Redis expires an entry when its time-to-live is over; a restart or an eviction that loses entries earlier is not modelled.
- Thread locks of the LRU and the bucket table: each method is one step.
- Dictionaries are values: a property map shared between an emitted entity and the index is not tracked.
  Key order matters only where the code reads it: the LRU, the index's types, the related entities.
- Malformed shapes that raise on access, such as a name that is no text or a row without `entity_id`;
  the malformed confidences and scores that the parsers do reach are modelled.
- The vocabulary of relationship types is a constant list; no property depends on which types it holds.
- Truncated SHA-256 fingerprints are taken to be collision-free.
- SSE fields `id` and `retry`, reconnection, and the bounded wait's length; the session map and message
  handling of the transport.
- `inverse_degree_score` and `lexical_query_affinity`: their values are parameters in [0, 1].
- `make_rate_limiter`'s tenant key and HTTP response; the sovereignty guard and the streaming breaker around
  the limited provider; `status`, `health_check`, `backend` and the registries of singletons.
- The graph orchestration around the reducers, prompts, the synthesizer and the evaluator.
- ResponseCaches.ReadsOnlyOwnWrites: covers calls that do not overlap and commands that run at once or
  never; `CacheInterleaving.HitsAreOwnWrites` covers overlapping calls and late commands.
- ResponseCaches.HealthyCacheIsOneMap: covers calls that do not overlap, because of overlapping ones it is
  false; `CacheInterleaving.DualReadIsOneMapExactly` says when it holds.
- Deduplicators.RunKeepsIdentity: does not cover a reload or a clear in the middle of a run, because
  either forgets ids on purpose.
- PathScoring.RerankRespects: a path score that is present but null raises when keys are compared and is not modelled.
- Migrations.RunKeepsInv: an effect is one atomic, idempotent schema command, as its IF NOT EXISTS makes it.
