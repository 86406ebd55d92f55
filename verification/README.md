# Verified model of the API proxy

The proxy limits how many requests run at once, reads tokens and endpoint lists through a two-level
cache, checks each request, forwards it, counts requests in progress and logs the exchange. This
project models those parts and proves what they guarantee, above all over every interleaving.

Each object the source updates in place is a class whose methods are proved against pure functions;
each protocol is a step machine built from the same functions, and its theorems are about every run.

| files | subject |
|---|---|
| `BinaryHeap`, `Ageing`, `QueueDiscipline` | Go's `container/heap` on sequences; priorities that grow with waiting; heap and list behind one interface |
| `HrnQueue`, `SemaphoreQueue` | the two request queues as classes |
| `Admission`, `AdmissionSafety`, `AdmissionTheorems`, `Saturation`, `ReleaseRuns`, `RunHistory`, `LostWakeup`, `FifoRefinement`, `Overtaking` | all interleavings of Acquire, Release and timeouts, for both queues |
| `PriorityService`, `QueueMiddleware` | where priorities come from; the one caller of the queue |
| `TwoLevelCache`, `CacheStaleness`, `CacheFetches`, `BygoneAnswers`, `CacheWorstCase` | the cache; all interleavings of overlapping lookups; how old an answer can be; which fetches are saved; when answers go back in time; worst cases |
| `Pipeline`, `BlockedToken` | checks and effects of a request; how soon a blocked token is refused everywhere |
| `Utf8`, `BodyTruncator` | RFC 3629 and the cutting of logged bodies |
| `PathTemplate`, `UsageQuery`, `RequestInfo` | endpoint templates as regular expressions; routing |
| `ConcurrencyCounter` | the count that is clamped at zero |
| `LogPublisher` | the bounded log channel and its workers |

Modelling choices.

- Times and priorities are real numbers. `Less` is given one arbitrary clock reading per comparison;
  `Ageing.LaggedComparison` says exactly when two readings would make a difference.
- A step of the admission machine is one channel operation, one compare-and-swap or one region run
  under the mutex; the heap and waiter indices are touched only under it. A timeout or cancellation
  may strike at any moment after the push. The number of requests in a run is arbitrary. Stamps and the
  `sent` log are history that no step reads.
- A lookup in the cache machine is up to four steps: the check of the first level, the question to
  Redis, the fetch, and storing what was read. Lookups overlap freely, for the same key and in the same
  proxy too, as nothing in `GetOrFetch` prevents that. `latency` bounds the time from reading a value in
  Redis or the database to storing it, `delay` the time from then to the landing of the write.
- A single Redis command is atomic. The clock, whether Redis answers, and what collaborators return
  are parameters. A serialisation codec is a pair of functions of which only the round trip is used.
- The regular expression engine is a parameter. It is assumed to follow the language of expressions
  made of ordinary characters, dots and the class `[^/?]+`, and nothing is assumed of other patterns.

Properties that fail, each with the input that shows it and the exact condition.

- A permit can stay free while a request waits for it: for every number of permits there is a run that
  ends with all of them free and no step left but the waiting request's timeout and calls yet to arrive
  (`LostWakeup.WakeupCanBeLost`). Among runs with at most `k` requests in progress at once it cannot
  happen if and only if there are no permits, or `k` or all requests are no more than the permits
  (`WakeupLostIff`); closing only one of the two gaps changes nothing (`NoIdlePermitIff`).
  `FreePermitBesideWaiter` says in which order of steps it happens.
- The ageing queue is not first come, first served even among equal priorities, because stamps are
  taken before the lock (`FifoRefinement.CrossedPushesPart`). It serves all runs with at most `k` requests
  in progress at once as the list does if and only if there are no permits, or `k` or all requests are at
  most one more than the permits (`RefinesFifoIff`); in larger loads it does so in every run whose pushes
  are in stamp order (`HeapRefinesFifo`).
- The cache does not hold overlapping lookups together: any number of them can fetch the same key at
  the same instant (`CacheFetches.Stampede`). A lookup fetches within the time to live after another has
  stored the value if and only if it had checked the first level before and not yet read anything
  (`FetchesSoonIff`), and across proxies, with Redis up, if and only if it had asked Redis before the
  value landed there (`FetchesSharedIff`).
- A proxy's answers can go back in time although nothing expires (`CacheWorstCase.AnswersGoBack`). A
  value that the database no longer holds can still be answered, while the entry the proxy serves lasts,
  if and only if a lookup of the key under way has that value in hand, or has yet to ask Redis while Redis
  has it or is going to have it (`BygoneAnswers.GoesBackIff`).
- A path whose decoded form has a question mark, `/users/a%3Fb`, is routed as `/users/a`
  (`RequestInfo.DecodedQuestionMarkIsCut`), and one with two leading slashes loses them; all other paths
  come through, and only they (`EndpointRoundTripIff`).
- A dot in an endpoint template matches any character (`PathTemplate.DotAcceptsOne`); templates mean what they say exactly when
  they have no dot outside parameters (`PathTemplate.ExactIffNoDot`).
- The concurrency count is raised and never lowered by a call whose token is in order and whose
  endpoint is not found (`Pipeline.LeakingCallIsNotReleased`); raises and lowerings balance exactly when
  there is no such call (`TracksExceedReleasesByLeaks`).
- DECR and the SET that may follow it are two commands; increments between them are wiped out
  (`ConcurrencyCounter.InterleavingUnderReports`). That can make the count too low if and only if there
  is a decrement and there are more increments than decrements (`UnderReportsIff`).
- The priority 1.0 used when the lookup fails need not lie in the configured band; it does under the
  condition in `Overtaking.BandIffFallbackInBand`.
- With a non-positive time to live the cache has no staleness bound (`CacheWorstCase.NoBoundWithoutExpiry`).
- A log accepted after the last worker has returned is never saved (`LogPublisher.OneLogStranded`);
  everything is saved if and only if nothing is published after that (`AllSavedIffNothingLate`).

## Model

| member | source | states |
|---|---|---|
| `Ageing.TenSecondsPerUnit` | internal/queue/hrn_queue.go:125-130 | A request starts with its priority and gains one unit for every ten seconds it waits |
| `Ageing.ComparisonIgnoresClock` | internal/queue/hrn_queue.go:125-140 | Comparing two effective priorities gives the same answer at every instant, that of the fixed ranks |
| `Ageing.LaggedComparison` | internal/queue/hrn_queue.go:137-140 | With the second clock reading later than the first, the answer differs exactly when the first rank exceeds the second by at most a tenth of the lag |
| `Ageing.LagIsHarmlessIff` | internal/queue/hrn_queue.go:137-140 | The answers are those of the ranks for all pairs of waiters exactly when the lag is zero |
| `BinaryHeap.PushKeepsHeap` | internal/queue/hrn_queue.go:54-56 | A push leaves the array heap-ordered |
| `BinaryHeap.PopTakesGreatest` | internal/queue/hrn_queue.go:96-96 | A pop leaves the array heap-ordered and no remaining key exceeds the popped one |
| `BinaryHeap.PopTakesRoot` | internal/queue/hrn_queue.go:154-162 | A pop takes the root and keeps the multiset of the others |
| `BinaryHeap.RemoveKeepsHeap` | internal/queue/hrn_queue.go:66-68 | Removal from any slot leaves the array heap-ordered |
| `BinaryHeap.RemoveTakesSlot` | internal/queue/hrn_queue.go:66-68 | Removal takes exactly the element of that slot |
| `BinaryHeap.TiesStay` | internal/queue/hrn_queue.go:137-140 | Equal keys are not moved: a push appends, and the last element fills the slot that a pop or removal frees |
| `BinaryHeap.LeftChildRises` | internal/queue/hrn_queue.go:137-140 | Of two children with equal keys the left one rises |
| `QueueDiscipline.ScanDropsOnlyDone` | internal/queue/hrn_queue.go:86-103 | A whole Release drops only completed waiters, keeps every live one it does not grant, and deposits only if none is live |
| `QueueDiscipline.ScanGrantsGreatest` | internal/queue/hrn_queue.go:86-103 | On a heap, Release grants a live waiter of greatest key and leaves a heap |
| `QueueDiscipline.ScanGrantsFirst` | internal/queue/semaphore_queue.go:69-85 | On a list, Release grants the first live waiter and keeps exactly those behind it |
| `HrnQueue.Waiter.Complete` | internal/queue/hrn_queue.go:116-123 | Only the first completion sends its value, and the send has room |
| `HrnQueue.WaitHeap.Less` | internal/queue/hrn_queue.go:137-140 | Whatever the clock shows, the answer is the order of ranks |
| `HrnQueue.WaitHeap.SwapSlots` | internal/queue/hrn_queue.go:142-146 | Two slots exchange; every waiter still knows its slot |
| `HrnQueue.WaitHeap.PushWaiter` | internal/queue/hrn_queue.go:148-152 | The heap gains exactly the waiter; order and back pointers hold |
| `HrnQueue.WaitHeap.PopWaiter` | internal/queue/hrn_queue.go:154-162 | The heap loses exactly the popped waiter, whose index becomes -1 |
| `HrnQueue.WaitHeap.RemoveWaiter` | internal/queue/hrn_queue.go:64-69 | Removing at a waiter's index takes that waiter; order and back pointers hold |
| `HrnQueue.HRNQueue.constructor` | internal/queue/hrn_queue.go:23-35 | A new queue holds all its permits and no waiter |
| `HrnQueue.HRNQueue.TryAcquire` | internal/queue/hrn_queue.go:38-43 | The try takes a permit exactly if one is free |
| `HrnQueue.HRNQueue.Enqueue` | internal/queue/hrn_queue.go:46-56 | A fresh waiter joins the heap; of all waiters ever made, the queued ones alone have an index |
| `HrnQueue.HRNQueue.RemoveIfQueued` | internal/queue/hrn_queue.go:65-69 | The timed-out waiter leaves the heap if it is in it, and nobody else does |
| `HrnQueue.HRNQueue.Expire` | internal/queue/hrn_queue.go:59-80 | A timeout refuses and removes a live waiter and leaves a settled one alone |
| `HrnQueue.HRNQueue.PopLocked` | internal/queue/hrn_queue.go:90-97 | The locked region finds the heap empty or takes its next waiter |
| `HrnQueue.HRNQueue.Release` | internal/queue/hrn_queue.go:86-103 | Undisturbed, the retry loop ends having granted one waiter or deposited one permit, as the scan function says |
| `SemaphoreQueue.Queue.Enqueue` | internal/queue/semaphore_queue.go:41-45 | A fresh waiter goes to the end of the list |
| `SemaphoreQueue.Queue.TryAcquire` | internal/queue/semaphore_queue.go:34-39 | The try takes a permit exactly if one is free |
| `SemaphoreQueue.Queue.Expire` | internal/queue/semaphore_queue.go:47-64 | A timeout refuses a live waiter and deletes it from the list, and leaves a settled one alone |
| `SemaphoreQueue.Queue.RemoveWaiter` | internal/queue/semaphore_queue.go:87-94 | The scan deletes its target if present and nothing else |
| `SemaphoreQueue.Queue.Release` | internal/queue/semaphore_queue.go:69-85 | Undisturbed, the retry loop ends having granted one waiter or deposited one permit |
| `AdmissionSafety.InvRun` | internal/queue/hrn_queue.go:37-123 | The joint invariant of queue, waiters, timers and Releases holds in every state of every run, for both queues |
| `AdmissionTheorems.PermitsConserved` | internal/queue/hrn_queue.go:23-103 | Permits in the channel plus those with requests are always MaxInflight, so at most that many requests are past the queue |
| `AdmissionTheorems.SendsNeverBlock` | internal/queue/hrn_queue.go:46-123 | A goroutine that has reached a send, a swap or a region under the lock can always take that step |
| `AdmissionTheorems.OwnStepsAreOpen` | internal/queue/hrn_queue.go:37-83 | A try finds a permit exactly if there is one, a timeout may strike at any moment after the push, a value sent is read, a permit held is released |
| `AdmissionTheorems.OneOutcomeEach` | internal/queue/hrn_queue.go:59-123 | One value per waiter at most; a live waiter is queued or in one Release's hands, never both; a completed one still queued is about to be removed |
| `AdmissionTheorems.NoStaleWaiters` | internal/queue/hrn_queue.go:59-80 | Once the timeout goroutines under way have finished, only live waiters are queued |
| `AdmissionTheorems.DiscardedWereRefused` | internal/queue/hrn_queue.go:99-101 | A waiter that a Release passes over was completed with false |
| `AdmissionTheorems.RunsAreShort` | internal/queue/hrn_queue.go:86-103 | n requests take at most 11n steps in all, so every retry loop ends |
| `AdmissionTheorems.MaximalRunsSettleEverything` | internal/queue/hrn_queue.go:37-103 | When no step is possible, every request was refused or served and released, the queue is empty and all permits are back |
| `AdmissionTheorems.PopsGreatestPriority` | internal/queue/hrn_queue.go:96-140 | In every run the popped waiter has the greatest effective priority of all queued, then and at any instant, without re-heapifying |
| `RunHistory.StampIsClockOfMiss` | internal/queue/hrn_queue.go:46-52 | In every run a waiter failed its try in exactly one step and carries that step's clock, and the priority it came with, ever after |
| `RunHistory.PopsGreatestByArrival` | internal/queue/hrn_queue.go:96-140 | In every run, no queued request has a greater priority plus a tenth of the seconds since its own failed try than the popped one |
| `ReleaseRuns.UndisturbedRelease` | internal/queue/hrn_queue.go:86-103 | From any reachable state a Release can finish by its own steps alone, and then grants, drops and keeps what the scan function says, changing nothing else |
| `LostWakeup.FreePermitBesideWaiter` | internal/queue/hrn_queue.go:37-94 | A permit free beside a queued waiter was deposited after the waiter's failed try, by a Release whose empty check preceded the push |
| `RunHistory.WindowInRun` | internal/queue/hrn_queue.go:37-94 | The same as four steps of the run: the try and the push of that waiter, the empty check and the deposit of one Release, in that order pairwise |
| `LostWakeup.WakeupCanBeLost` | internal/queue/hrn_queue.go:37-94 | With any positive number of permits and more requests than that, some run ends with every permit free and no step left but the waiting request's timeout and calls yet to arrive |
| `LostWakeup.AtomicQueueWastesNothing` | internal/queue/hrn_queue.go:37-94 | With try and push one step, and check and deposit one step, a free permit means an empty queue |
| `LostWakeup.NoIdlePermitIff` | internal/queue/hrn_queue.go:37-94 | Whichever gaps are closed, no run with at most k requests in progress leaves a permit free beside a queued request exactly when both are, or there are no permits, or k or all requests are no more than the permits |
| `LostWakeup.WakeupLostIff` | internal/queue/hrn_queue.go:37-94 | For the queues as they are: exactly when there are no permits, or k or all requests are no more than the permits |
| `FifoRefinement.HeapRefinesFifo` | internal/queue/hrn_queue.go:86-163 | With equal priorities and pushes in stamp order, heap and list allow the same runs and agree on every request after each |
| `FifoRefinement.SameNext` | internal/queue/semaphore_queue.go:77-78 | The heap's next waiter is the head of the list |
| `FifoRefinement.CrossedPushesPart` | internal/queue/hrn_queue.go:46-56 | With any positive number of permits and two requests more, a run with pushes out of stamp order in which the two queues pop different waiters |
| `FifoRefinement.RefinesFifoIff` | internal/queue/hrn_queue.go:37-103 | Among equal priorities, heap and list treat every run with at most k requests in progress alike exactly when there are no permits, or k or all requests are at most one more than the permits |
| `Overtaking.OvertakingIsBounded` | internal/queue/hrn_queue.go:125-140 | Nobody is popped over a queued request whose failed try came more than ten seconds per unit of the priority range earlier |
| `Overtaking.PriorityThenArrival` | internal/queue/hrn_queue.go:125-140 | Among requests whose tries are close in time and whose priorities are spaced, the popped one is preceded by none in the order of priority, then try |
| `Overtaking.OrderWithinScale` | internal/queue/hrn_queue.go:137-140 | At that scale the comparison is exactly priority first, then arrival |
| `Overtaking.PoppedOverSomebody` | internal/queue/hrn_queue.go:96-96 | Whenever a request is popped over a queued one, both have such steps in the run |
| `Overtaking.BandIffFallbackInBand` | internal/middleware/queue_middleware.go:40-44 | Every priority the middleware uses lies in the band exactly when its fallback priority does |
| `Overtaking.ServicePrioritiesAreApart` | internal/queue/priority_service.go:72-78 | Counted priorities are equal or an increment apart, as the overtaking bound asks, when the cap is a whole number of increments |
| `PriorityService.Service.GetPriority` | internal/queue/priority_service.go:36-49 | The base priority without a count or an answer, else the count's priority; always within the band |
| `PriorityService.Service.IncrementFailure` | internal/queue/priority_service.go:52-62 | One more failure for that client only; nothing for an unnamed one or when Redis fails, which is reported |
| `PriorityService.Service.ResetFailure` | internal/queue/priority_service.go:65-70 | That client's count is forgotten, no other; nothing when Redis fails, which is reported |
| `PriorityService.EachFailureCosts` | internal/queue/priority_service.go:72-78 | No failure earns the base priority, and each costs one increment until base minus max is reached |
| `PriorityService.PriorityRange` | internal/queue/priority_service.go:72-78 | Priorities lie between base minus max and base |
| `PriorityService.SpacedIffOnScale` | internal/queue/priority_service.go:72-78 | Priorities are equal or an increment apart exactly when the cap is a whole number of increments |
| `QueueMiddleware.Middleware.Handle` | internal/middleware/queue_middleware.go:33-61 | The whole trace in each case: the queue is asked once with the priority that the client's count earns, or 1.0 if Redis fails; the handler runs without a token or with a permit, which is released once after it, also when it panics |
| `TwoLevelCache.Cache.GetOrFetch` | internal/cache/two_level_cache.go:33-71 | Alone, answer, local store and pending write are those of the lookup function: first level, second level, fetch |
| `TwoLevelCache.FirstUsableDecides` | internal/cache/two_level_cache.go:34-52 | A usable local entry decides alone; without one, a usable entry in Redis decides and is kept; other keys are untouched |
| `TwoLevelCache.UnusableIsAsGoodAsNone` | internal/cache/two_level_cache.go:34-52 | An entry that has expired or does not decode is treated as if it were not there, in either level |
| `TwoLevelCache.ElseTheFetchDecides` | internal/cache/two_level_cache.go:54-71 | Otherwise the fetch decides: an error is passed on and nothing is kept; a value is kept and written as it was serialised |
| `TwoLevelCache.ServesForItsTime` | internal/cache/two_level_cache.go:23-67 | An entry serves for exactly its time to live, and for ever if that is not positive |
| `TwoLevelCache.Cache.Evict` | internal/cache/two_level_cache.go:77-80 | The key and nothing else leaves both levels, or only the first when Redis fails, which is reported |
| `TwoLevelCache.RedisStore.Land` | internal/cache/two_level_cache.go:67-67 | One asynchronous write takes effect with its own time to live |
| `CacheStaleness.AnswerIsRecent` | internal/cache/two_level_cache.go:33-71 | From an invariant state, whatever any step answers was the database's within the bound |
| `CacheStaleness.InvRun` | internal/cache/two_level_cache.go:33-71 | In every run of overlapping lookups, every cached entry, pending write and value in flight was true once, and expires or is stored in time after that |
| `CacheStaleness.StalenessIsBounded` | internal/cache/two_level_cache.go:33-71 | With any number of proxies and overlapping lookups, every value answered was the database's within the last local TTL + Redis TTL + write delay + twice the latency |
| `CacheFetches.AloneIsLookup` | internal/cache/two_level_cache.go:33-71 | The steps of a lookup with nothing in between answer, store and write what the lookup function says |
| `CacheFetches.CallsNeverBlock` | internal/cache/two_level_cache.go:33-71 | A call under way can always take its next step, whether or not Redis answers |
| `CacheFetches.WritesLandInAnyOrder` | internal/cache/two_level_cache.go:67-67 | Any pending write may land or get lost next; the others stay pending |
| `CacheFetches.EvictedIsFetched` | internal/cache/two_level_cache.go:77-80 | A call that begins after an eviction in both levels goes through to a fetch; other keys are untouched |
| `CacheFetches.LaterCallsAreServed` | internal/cache/two_level_cache.go:34-66 | Every call of a proxy that begins within the local TTL after a value was stored is answered at once with it, or with a value that another call of that proxy has stored since, unless the key is evicted |
| `CacheFetches.FetchesSoonIff` | internal/cache/two_level_cache.go:33-71 | Within the local TTL after a value was stored, another call of the proxy can fetch the key exactly if it had checked the first level before and not yet read anything |
| `CacheFetches.AnswerCanChangeIff` | internal/cache/two_level_cache.go:33-71 | Before its entry expires, a proxy's answer can change in some future of the database exactly if a lookup of the key is under way that is to store something else or has yet to read |
| `BygoneAnswers.GoesBackIff` | internal/cache/two_level_cache.go:33-71 | Before the entry expires, a value the database no longer holds can be answered exactly if a lookup of the key has it in hand, or has yet to ask Redis while Redis has it, a write or another fetch is bringing it there |
| `CacheFetches.SameAnswerWhileQuiet` | internal/cache/two_level_cache.go:34-41 | While an entry lasts and no lookup of the key is under way, all calls get the same answer |
| `CacheFetches.FetchesSharedIff` | internal/cache/two_level_cache.go:43-67 | Within the Redis TTL after a write has landed, with Redis up, a call of any proxy can fetch the key exactly if it had asked Redis before |
| `CacheFetches.Stampede` | internal/cache/two_level_cache.go:33-71 | Any number of overlapping calls of one proxy for one key can all fetch at one instant |
| `CacheWorstCase.BoundIsTight` | internal/cache/two_level_cache.go:33-71 | For any margin some run returns a value outdated for the whole bound less that margin |
| `CacheWorstCase.NoBoundWithoutExpiry` | internal/cache/two_level_cache.go:23-67 | With a non-positive time to live in either level, answers can be older than any age |
| `CacheWorstCase.AnswersGoBack` | internal/cache/two_level_cache.go:33-71 | A run in which one call answers the newer value, then another the older one, which the proxy goes on serving |
| `Pipeline.Executor.Execute` | internal/domain/api/service/pipeline.go:54-102 | The result in each case: lookup error, validator's error, block, endpoint error, upstream's answer; and the effects of the call |
| `Pipeline.ForwardedEffects` | internal/domain/api/service/pipeline.go:80-101 | A forwarded call is tracked, calls the upstream at its endpoint's domain, starts the release and logs the answer, in this order, each once and nothing else |
| `Pipeline.RefusedLeavesNoTrace` | internal/domain/api/service/pipeline.go:64-78 | A call has no effect exactly when the lookup fails, the validator objects or the token's state is BLOCKED |
| `Pipeline.OnlyBlockedIsRefused` | internal/domain/api/model/api_token.go:30-35 | Exactly the state BLOCKED is refused |
| `Pipeline.LookupIsPassedOn` | internal/domain/api/query/token_query.go:25-40 | A missing row and nothing else becomes token-not-found; tokens and other errors are passed on unchanged |
| `Pipeline.TracksExceedReleasesByLeaks` | internal/domain/api/service/pipeline.go:80-93 | Over any calls, raises exceed lowerings by the number of admitted calls whose endpoint lookup failed, and balance exactly when there are none |
| `Pipeline.LeakingCallIsNotReleased` | internal/domain/api/service/pipeline.go:81-87 | With any token in order, a call without an endpoint raises the count and does not lower it |
| `BlockedToken.BlockingTakesEffect` | internal/domain/api/service/pipeline.go:64-90 | Later than the staleness bound after a blocking, every request with the token is refused without any effect, however lookups overlap |
| `Utf8.ValidIffEncoding` | internal/log/service/body_truncator.go:25-25 | RFC 3629's byte patterns admit exactly the encodings of scalar values |
| `Utf8.CutIsLongestValidPrefix` | internal/log/service/body_truncator.go:48-54 | Cutting and dropping invalid bytes leaves the longest valid prefix that fits, at most three bytes short |
| `BodyTruncator.LongBodyIsCut` | internal/log/service/body_truncator.go:29-40 | A valid body over 2048 bytes becomes its longest valid prefix of 2045 to 2048 bytes, marked as cut |
| `BodyTruncator.NoCharacterIsSplit` | internal/log/service/body_truncator.go:34-40 | The cut keeps as many whole leading characters as fit, and no fewer |
| `BodyTruncator.TruncatingTwiceIsTruncatingOnce` | internal/log/service/body_truncator.go:20-41 | Every log text is valid, at most 2048 bytes, and unchanged by truncating again |
| `BodyTruncator.CutIffLongAndValid` | internal/log/service/body_truncator.go:20-41 | Exactly the long valid bodies are marked as cut, and exactly the invalid ones become the placeholder |
| `BodyTruncator.LengthIsOfWholeBody` | internal/log/service/body_truncator.go:20-41 | The content length reported is always that of the whole body |
| `BodyTruncator.ShortOrBinaryBody` | internal/log/service/body_truncator.go:25-32 | A valid body of at most 2048 bytes comes back as it is, an invalid one as the placeholder, both unmarked |
| `PathTemplate.NamedBracesAreParameter` | internal/domain/api/query/usage_query.go:50-54 | After text without an opening brace, braces around a non-empty name become the expression and stand for one parameter |
| `PathTemplate.EmptyBracesStay` | internal/domain/api/query/usage_query.go:50-54 | Braces with nothing between them are text |
| `PathTemplate.UnclosedBraceStays` | internal/domain/api/query/usage_query.go:50-54 | An opening brace that is never closed is text |
| `PathTemplate.PatternIsAnchored` | internal/domain/api/query/usage_query.go:52-54 | Any engine is given the template, parameters replaced, between anchors |
| `PathTemplate.OneParameter` | internal/domain/api/query/usage_query.go:50-56 | A template with one parameter in ordinary text accepts exactly that text with a non-empty value free of slashes and question marks in its place |
| `PathTemplate.ExpandedPattern` | internal/domain/api/query/usage_query.go:52-54 | Replacing parameters in the text and reading the result as a pattern gives the template's tokens, dots turned wild |
| `PathTemplate.FaithfulIsPossible` | internal/domain/api/query/usage_query.go:54-54 | An engine as assumed exists, so what is proved of every such engine is not empty |
| `PathTemplate.MatchIffFilled` | internal/domain/api/query/usage_query.go:50-56 | A path matches exactly when some non-empty, slash-free parameter values fill the template to it |
| `PathTemplate.MatchIffSegmentsMatch` | internal/domain/api/query/usage_query.go:50-56 | A path matches exactly when it has as many segments as the template, each matching |
| `PathTemplate.MatchesSegmentBySegment` | internal/domain/api/query/usage_query.go:50-56 | The matcher accepts exactly the paths whose segments are fillings of the template's segments |
| `PathTemplate.ExactIffNoDot` | internal/domain/api/query/usage_query.go:50-56 | The matcher accepts exactly what the template describes if and only if it has no dot outside parameters |
| `PathTemplate.DotAcceptsOne` | internal/domain/api/query/usage_query.go:50-56 | A dot on its own accepts every single character but the line feed |
| `UsageQuery.FindByTokenAndEndpoint` | internal/domain/api/query/usage_query.go:27-48 | The first usage in list order whose template accepts the path without its query; not found exactly if none does |
| `UsageQuery.FillAndRoute` | internal/domain/api/query/usage_query.go:27-56 | A filled template sent behind either base path with any query comes back as the filled path, and is accepted, exactly when the template does not begin with two slashes |
| `RequestInfo.BasePathIs` | internal/domain/api/model/request_info.go:48-57 | The base path is /proxy-browser or /proxy-server if the path begins so, else nothing |
| `RequestInfo.EndpointIsLongestSuffix` | internal/domain/api/model/request_info.go:32-46 | The endpoint is the longest end of the path, behind the base path, that does not begin with two slashes, with the query appended |
| `RequestInfo.EndpointRoundTripIff` | internal/domain/api/model/request_info.go:32-57 | A path behind a base path comes back unchanged exactly when it has no question mark and does not begin with two slashes |
| `RequestInfo.DecodedQuestionMarkIsCut` | internal/domain/api/model/request_info.go:32-46 | A path with a percent-encoded question mark is routed as what stands before it |
| `ConcurrencyCounter.RateLimiter.IncrementConcurrent` | internal/domain/api/service/redis_rate_limiter.go:45-53 | One more for that token only, or nothing and an error; the count is that of the calls since the key expired |
| `ConcurrencyCounter.RateLimiter.DecrementConcurrent` | internal/domain/api/service/redis_rate_limiter.go:55-66 | One less for that token only, but not below zero unless the SET fails, or nothing and an error |
| `ConcurrencyCounter.RateLimiter.GetConcurrent` | internal/domain/api/service/redis_rate_limiter.go:68-75 | What is reported lies between increments minus decrements since the key expired and their greatest net change over all suffixes, and is the latter unless a SET failed |
| `ConcurrencyCounter.CountIsGreatestSuffix` | internal/domain/api/service/redis_rate_limiter.go:45-66 | The count is the greatest net change over all suffixes of the history |
| `ConcurrencyCounter.CountNeverUnderReports` | internal/domain/api/service/redis_rate_limiter.go:45-66 | It is never negative and never below increments minus decrements |
| `ConcurrencyCounter.CountIsExactIff` | internal/domain/api/service/redis_rate_limiter.go:45-66 | It equals increments minus decrements exactly when no prefix has more decrements |
| `ConcurrencyCounter.CallAlone` | internal/domain/api/service/redis_rate_limiter.go:45-66 | A call's commands one after another change the count as the whole call does |
| `ConcurrencyCounter.UnderReportsIff` | internal/domain/api/service/redis_rate_limiter.go:57-64 | Command by command, i increments and j decrements can end below i - j exactly when j is at least one and less than i |
| `ConcurrencyCounter.InterleavedAccount` | internal/domain/api/service/redis_rate_limiter.go:57-64 | Command by command, the count is never below minus the resets owed, and differs from increments minus decrements by what the resets wiped out |
| `ConcurrencyCounter.InterleavingUnderReports` | internal/domain/api/service/redis_rate_limiter.go:57-64 | An interleaving that ends at zero with one request in progress |
| `LogPublisher.Publisher.constructor` | internal/log/service/log_publisher.go:35-45 | At least one worker, an empty buffer |
| `LogPublisher.Publisher.Publish` | internal/log/service/log_publisher.go:117-123 | A log is dropped exactly when 512 are buffered |
| `LogPublisher.Publisher.Drain` | internal/log/service/log_publisher.go:62-71 | Undisturbed, the drain loop saves all that is buffered, in order |
| `LogPublisher.DrainAlone` | internal/log/service/log_publisher.go:62-71 | Among all interleavings, a worker's steps with nothing in between do the same, and it can then return |
| `LogPublisher.EveryLogAccountedFor` | internal/log/service/log_publisher.go:49-123 | In every run published = dropped + buffered + in hands + saved for each log, in order through a buffer of at most 512 |
| `LogPublisher.DropsOnlyWhenFull` | internal/log/service/log_publisher.go:117-123 | In every run a log is dropped exactly when it is published while 512 are buffered, and nothing else drops or accepts |
| `LogPublisher.WorkersCanWork` | internal/log/service/log_publisher.go:55-73 | A worker that has not returned can always take or save while there is work, and can always go on once cancelled |
| `LogPublisher.QuietShutdownSavesAll` | internal/log/service/log_publisher.go:55-73 | Quiet after cancellation: empty once a worker has returned, and every accepted log saved exactly once when all have |
| `LogPublisher.AllSavedIffNothingLate` | internal/log/service/log_publisher.go:55-123 | Whatever happened before the last worker returned, everything accepted is saved exactly if nothing is published after that |
| `LogPublisher.OneLogStranded` | internal/log/service/log_publisher.go:62-123 | A run that leaves an accepted log in the buffer with all workers gone |
| `LogPublisher.LateLogsAreStranded` | internal/log/service/log_publisher.go:62-123 | After the last worker nothing more is saved and nothing buffered leaves |
| `LogPublisher.ShutdownEnds` | internal/log/service/log_publisher.go:55-73 | Once cancelled and quiet, the workers take a bounded number of steps and all return |

## Left out

- Routing, handlers, CORS, configuration and server start-up and shutdown: wiring and I/O.
- Clients of MySQL, MongoDB and Redis, HTTP transport, DNS, bcrypt and JSON internals: parameters, abstract stores and a codec stand for them.
- Domain validation, header masking and filtering, origin normalisation: short checks over fixed lists.
- The NORMAL, WARNING, BLOCKED transition and the threshold that triggers it: read-then-save and unordered goroutines leave no clean guarantee; that a token stays blocked is a hypothesis of BlockedToken.
- Per-minute request buckets; the instants at which the Redis keys of counters expire: expiry is an event that may come at any time.
- Floating-point rounding, and the effect of two clock readings in one comparison on whole heaps: only single comparisons are characterised.
- PathTemplate.ExpandedPattern: does not cover templates with regular expression metacharacters other than the dot outside parameters, because nothing is assumed of the engine there.
- PathTemplate.MatchesSegmentBySegment: does not cover templates with metacharacters, the dot among them, outside parameters; ExactIffNoDot says why the dot cannot be included.
- PathTemplate.ExactIffNoDot: does not cover templates with other metacharacters than the dot outside parameters, for the same reason.
- UsageQuery.FillAndRoute: does not cover templates with other metacharacters than the dot outside parameters, for the same reason.
- Evict against asynchronous writes and overlapping lookups: an eviction is a step of the cache runs, but nothing is claimed about freshness after it.
- Fairness of Go's scheduler and of `select`: runs are arbitrary, so only safety and bounds on the number of steps are stated.
