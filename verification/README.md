# omnifeed: verified models

omnifeed fetches and searches web pages for AI agents. This project models the
stateful algorithms at its core in Dafny and proves what they promise. Where the
code updates state in place the model does too: classes and loops, each tied to a
function of the old state. What the source runs concurrently is a state machine
whose steps are its atomic sections: one mutex section, one Redis script, one
clock step. The theorems about such a machine are about every run of it.

Times are integers on one clock that never runs backwards (milliseconds, or
nanoseconds in `Retry`). Request nonces are unique. Clocks, random draws, network
answers and cancellations are inputs that may take any value.

## The modules

| files | subject |
|---|---|
| `Instants`, `Decimals` | counting instants in an interval, withdrawing one of them; decimal numerals |
| `DomainSlot` | the in-process limiter's slot: rolling window, spacing, upstream hold |
| `LimiterRuns`, `LimiterHistory` | runs of a slot, and what it books told from their history |
| `LimiterWithdrawals`, `LimiterExact`, `LimiterDelay`, `LimiterRounds` | when the quota survives withdrawn bookings |
| `LimiterSweep`, `LifeHistory`, `SlotTable`, `SlotPaths` | dropping idle slots |
| `RedisScripts`, `RedisRuns`, `RedisPacing`, `RedisCap`, `RedisExpiry`, `RedisSerial`, `RedisHistory` | the cluster-wide limiter as a protocol over its three Lua scripts |
| `Fallback`, `FleetPaths` | the fail-open composite and a fleet of pods |
| `Retry`, `RetryOutcomes`, `SearxngRuns`, `SearxngPaths` | the retry loop, the lease that must outlive it, and loops and scripts interleaved |
| `SingleFlight`, `FlightShares`, `LruMemory` | the response cache: leader and followers, and the byte-bounded LRU |
| `Threads`, `BreadthFirst`, `HackerNews`, `FlatPaths`, `HackerNewsCaps`, `RedditCaps`, `GapExpansion`, `GapsLeft` | comment trees: flattening, indexing, caps, gap expansion |
| `MethodChain`, `MethodFleet`, `MethodPaths` | the ways to read Reddit and their holds, on one pod and on several |
| `Truncate`, `Fences` | paging, and fenced code in markdown |

## Where the code and its words differ

- The rolling quota of the in-process limiter (internal/httpx/limiter.go:416-422) does not survive
  every pattern of withdrawn bookings. The exact settings under which it does on all
  runs, with a violating run for every other, are `LimiterExact.SpacedQuotaExactly` for
  send spacing and `LimiterRounds.CompletionSpacedQuotaExactly` for completion spacing
  with no delay, a delay that divides the period or one that covers it. For other
  delays there are sufficient conditions (`CompletionQuota`, `CompletionQuotaByPlaces`)
  and a necessary one (`CrowdBreaksQuota`). The completion-spaced violating runs
  withdraw bookings whose wait was zero as well, which the code does only for a caller
  that finds its deadline already past (internal/httpx/limiter.go:239-251).
- The cap on a Reddit thread is said to keep a comment only once its parent is kept
  (internal/engine/reddit/parser.go:217-222). `RedditCaps.CapNeverOrphansExactly` shows that this holds at
  every size exactly when the parent links make no circle, and `CircleIsSplit` gives
  a circle that is split. `CrawlNeverOrphansExactly` is the same for both caps of a crawl.
- A truncated text is said never to exceed its budget (internal/domain/truncate.go:43-44).
  `Truncate.WithinBudgetExactly` states when it does not, as a comment further down
  admits: a budget that does not exceed the marker (`SmallBudgetOvershoots`), or the
  message for an offset past the end (`PastTheEndOvershoots`).
- A Retry-After above 9223372036 seconds wraps when it is turned into a 64-bit
  duration, and a negative result cannot be drawn from (internal/httpx/retry.go:132, 208-209).
  `Retry.PanicsExactly` is the exact condition, `HugeRetryAfterPanics` an input.
- With the cluster cap off, same-host requests are said to run one at a time
  (internal/httpx/redislimit/limiter.go:15-21). `RedisSerial.SerialisedExactly` shows that they do
  exactly when each is over within the gap the pacing leaves; a longer one overlaps
  the next.
- Failing fast is said to spare a wait that burns the budget and then fails anyway
  (internal/httpx/redislimit/limiter.go:219-223). That is so for quota and spacing waits
  (`RedisPacing.FailingFastLosesNothing`); a poll of the in-flight cap may give up an
  admission, exactly when `RedisCap.CapPollLosesExactly` says, and does on the run of
  `FailingFastMayLose`.
- One pod's clear can end a hold another pod has just placed in the shared state
  (internal/engine/reddit/fetcher.go:204-211). `MethodFleet.SharedHoldsRespectedExactly` shows that a
  shared hold is respected in every run exactly when there is one replica, and
  `HeldMayBeReportedUp` that even then a held method may be reported up.

## Model

| member | source | states |
|---|---|---|
| DomainSlots.QuotaWindow.Evict | internal/httpx/limiter.go:465-472 | The pruning loop drops exactly the leading bookings that have left the window, in place |
| DomainSlots.QuotaWindow.Book | internal/httpx/limiter.go:433-451 | Books the instant asked for, or one period after the booking `limit` places back in what eviction leaves |
| DomainSlots.QuotaWindow.Forget | internal/httpx/limiter.go:455-462 | Withdraws the first booking equal to the instant and no other |
| DomainSlots.DomainSlot.EarliestSpaced | internal/httpx/limiter.go:379-391 | The spacing is measured from the last booking that still owes a gap, and the others are pruned |
| DomainSlots.DomainSlot.ReserveNext | internal/httpx/limiter.go:338-370 | The later of spacing, upstream hold and window opening is booked; jitter lengthens only a nonzero wait in completion-spaced mode and never moves the booking |
| DomainSlots.DomainSlot.Withdraw | internal/httpx/limiter.go:403-414 | A withdrawal undoes one booking in the window and, when sends are spaced, one in the spacing list |
| DomainSlots.DomainSlot.GiveUp | internal/httpx/limiter.go:239-264 | A caller that gives up hands back its booking and its reference and changes nothing else |
| DomainSlots.DomainSlot.Release | internal/httpx/limiter.go:267-279 | Completion is recorded only when spacing is measured from completions |
| DomainSlots.DomainSlot.Penalize | internal/httpx/limiter.go:289-301 | A hold is only ever extended; a duration that is not positive does nothing; the reference taken for it is handed back |
| DomainSlots.EvictedIsSuffix | internal/httpx/limiter.go:465-472 | Eviction keeps a suffix: all it drops is at or before the cutoff, and the first entry it keeps is after it |
| LimiterRuns.SpacedSendsSurviveCancellation | internal/httpx/limiter.go:379-414 | On every run, with withdrawals in any order, surviving spaced bookings are ordered and minDelay apart, and the next caller is spaced from the later of now and the latest surviving booking: no phantom wait |
| LimiterRuns.QueuedBooking | internal/httpx/limiter.go:433-451 | The next booking never precedes the last one, and the history stays ordered and spread |
| LimiterRuns.QuotaWithoutWithdrawals | internal/httpx/limiter.go:338-370 | In either mode and with any number of callers, a run without withdrawals never puts more than limit bookings in a half-open period |
| LimiterHistory.SlotFromHistory | internal/httpx/limiter.go:267-301 | On every run the hold of a slot is the latest end of a positive penalty so far, and a slot spaced from completions remembers the last of them |
| LimiterHistory.BaseFromHistory | internal/httpx/limiter.go:338-391 | The instant the spacing and the hold allow together is told from the history: a delay past the last completion, or past the last booking left, by mode, and the end of the longest hold, whichever is latest |
| LimiterHistory.HoldIsKept | internal/httpx/limiter.go:281-301 | In either mode nobody books before the end of a positive penalty, whatever happens in between |
| LimiterHistory.BookedFromHistory | internal/httpx/limiter.go:338-370 | Without withdrawals a booking is exactly the later of that instant and one period after the booking limit places back |
| LimiterDelay.JitteredRunsKeepQuota | internal/httpx/limiter.go:321-369 | On every run on which the bookings keep the quota by one of the sufficient conditions, sends jittered by at most 499 ms keep it over intervals shorter by 499 ms |
| LimiterWithdrawals.CompletionQuota | internal/httpx/limiter.go:338-370 | Completion-spaced, any delay, with any withdrawals and holds: the quota holds on every run with at most two callers in flight, or with a limit of one |
| LimiterWithdrawals.SpacedQuota | internal/httpx/limiter.go:379-414 | Send-spaced, with any withdrawals and holds: the quota holds on every run with one caller in flight, or when limit spacings fill a period |
| LimiterRounds.CompletionSpacedQuotaExactly | internal/httpx/limiter.go:338-370 | Completion-spaced with no delay, a delay that divides the period or one that covers it: all runs keep the quota if and only if the cap is at most two, the limit is one, or there is a delay and the rounds of callers that begin within a period stay within the limit |
| LimiterExact.CompletionQuotaExactly | internal/httpx/limiter.go:416-462 | Its case without a delay: all runs keep the quota if and only if the cap is at most two or the limit is one; a violating run is built for every other cap and limit |
| LimiterRounds.DividingDelayQuotaExactly | internal/httpx/limiter.go:338-370 | Its case of a delay that divides the period: period / delay rounds of cap callers are what the limit must hold; a violating run is built for every other setting with more than two callers and a limit above one |
| LimiterDelay.WideDelayQuotaExactly | internal/httpx/limiter.go:338-370 | Its case of a delay that covers the period: all runs keep the quota if and only if the cap is at most the limit or the limit is one |
| LimiterDelay.CompletionQuotaByPlaces | internal/httpx/limiter.go:338-370 | Completion-spaced with any withdrawals and holds: when k delays cover a period and k * cap is within the limit, every run keeps the quota |
| LimiterDelay.CrowdBreaksQuota | internal/httpx/limiter.go:416-462 | Completion-spaced with more callers in flight than a limit above one: some run breaks the quota, whatever the delay |
| LimiterExact.SpacedQuotaExactly | internal/httpx/limiter.go:372-462 | Send-spaced: all runs keep the quota if and only if the cap is one or limit spacings fill a period; a violating run is built for every other setting |
| LimiterSweep.LifeHolds | internal/httpx/limiter.go:176-180 | Every entry a slot lists is in flight or was let go of by its last use |
| LimiterSweep.StaleAnswers | internal/httpx/limiter.go:190-213 | Entries older than the idle time never show in any later answer, whatever later callers ask, withdraw or are held for |
| LimiterSweep.SweptSlotIsFresh | internal/httpx/limiter.go:190-213 | A slot the sweep drops would answer every later sequence of requests exactly as a fresh slot does |
| LifeHistory.LifeIsARun | internal/httpx/limiter.go:151-301 | The slot of a life books, holds and forgets as the run of its steps does |
| LifeHistory.RefsFromHistory | internal/httpx/limiter.go:174-180 | The reference count is those who came and have neither left, given up nor finished, and lastUsed is when a reference was last handed back |
| LifeHistory.SweptExactly | internal/httpx/limiter.go:199-209 | A slot is dropped exactly when every reference is handed back, the last longer ago than the floor, the delay and the period, and no hold runs |
| SlotTable.PacingNeverSplit | internal/httpx/limiter.go:151-213 | In every interleaving of lookups, references and sweeps each host has at most one live slot and all who hold a slot for a host hold that one |
| SlotTable.DeadGainsNoReference | internal/httpx/limiter.go:160-172 | A dead slot stays dead and never gains a reference |
| SlotPaths.TakesMappedSlot | internal/httpx/limiter.go:151-174 | A caller left alone takes the slot its host is mapped to, with one reference more and nothing else changed |
| SlotPaths.StoresFreshSlot | internal/httpx/limiter.go:151-174 | A caller whose host has no slot stores a fresh one and holds its only reference |
| SlotPaths.SweepsIdleSlot | internal/httpx/limiter.go:199-209 | Sweeping an idle slot leaves its host without one, and the next caller of that host stores a fresh one |
| RedisScripts.Host.RunAcquire | internal/httpx/redislimit/script.go:32-117 | The acquire script, command by command, is one atomic function of the stored keys and the clock: pacing first, cap last, booking only on admission |
| RedisScripts.Host.RunFreeLease | internal/httpx/redislimit/script.go:128-131 | The lease of one request is removed and nothing is bumped |
| RedisScripts.Host.RunRelease | internal/httpx/redislimit/script.go:142-159 | The next-allowed instant moves to the later of the target and what was stored, with a TTL to match |
| RedisScripts.PurgeDropsFront | internal/httpx/redislimit/script.go:52 | Purging a score-ordered set drops a prefix, exactly the entries at or before the cutoff |
| RedisPacing.ReachablePaced | internal/httpx/redislimit/script.go:32-159 | The pacing invariant holds on every run of any number of replicas, crashes, penalties and key drops included |
| RedisPacing.ClusterQuotaAndSpacing | internal/httpx/redislimit/script.go:45-108 | Over every interleaving, no half-open window holds more than quota admissions and consecutive admissions are min_delay apart |
| RedisPacing.NoAdmissionBefore | internal/httpx/redislimit/script.go:45-99 | In no continuation is anyone admitted before the earliest instant the script computes |
| RedisPacing.ReportedWaitIsSound | internal/httpx/redislimit/script.go:23-26 | A wait reported for quota or spacing is a lower bound for every replica in every continuation |
| RedisPacing.ReportedWaitIsTight | internal/httpx/redislimit/script.go:45-99 | When nobody else acts, a retry at the end of the reported wait is admitted exactly when the in-flight cap has room |
| RedisPacing.FailingFastLosesNothing | internal/httpx/redislimit/limiter.go:219-228 | A caller refused because a quota or spacing wait exceeds its budget could not have been admitted within it by any course of events |
| RedisCap.CapPollLosesExactly | internal/httpx/redislimit/limiter.go:219-228 | A caller refused because a poll of the in-flight cap exceeds its budget could have been admitted within it if and only if an unexpired lease belongs to a request still running |
| RedisCap.FailingFastMayLose | internal/httpx/redislimit/limiter.go:219-228 | With one place for the whole cluster taken by a request that still runs, a caller without budget fails at once although it could be admitted at once |
| RedisCap.FailingFastMayLoseNothing | internal/httpx/redislimit/limiter.go:219-228 | When that request has crashed, no course of events admits the caller in its budget |
| RedisSerial.SerialisedExactly | internal/httpx/redislimit/limiter.go:15-21 | With the cluster cap off, no run has two requests of a host running at once if and only if every request is over within the gap: the delay, or the window of a quota of one |
| RedisPacing.PenaltyIsKept | internal/httpx/redislimit/limiter.go:308-333 | No replica is admitted inside a hold an upstream asked for |
| RedisPacing.ReleaseSpacesNext | internal/httpx/redislimit/script.go:133-159 | With the cap off, no replica is admitted within min_delay of a release |
| RedisPacing.NextAllowedNeverEarlier | internal/httpx/redislimit/script.go:149-157 | A next-allowed instant still ahead is never replaced by an earlier one |
| RedisHistory.EarliestFromHistory | internal/httpx/redislimit/script.go:45-159 | On every run the earliest next admission is exactly the latest of now, what the admissions, releases and penalties so far pushed it to, and one window past the admission quota places back |
| RedisHistory.ReleaseMovesExactly | internal/httpx/redislimit/script.go:142-159 | With the cap off a release moves the earliest admission to a delay from now and not further; with the cap on it does not move it |
| RedisHistory.PenaltyMovesExactly | internal/httpx/redislimit/limiter.go:308-333 | A positive penalty moves the earliest admission to the end of the hold and not further; another does nothing |
| RedisHistory.AttemptCleans | internal/httpx/redislimit/script.go:51-95 | An attempt leaves no admission that has left the window and, once pacing allows it, no lease past its deadline |
| RedisHistory.KeysLiveBySlack | internal/httpx/redislimit/script.go:101-158 | On every run each key lives exactly the slack past the last instant it matters at |
| RedisCap.AdmittedExactly | internal/httpx/redislimit/script.go:66-95 | An attempt is admitted if and only if pacing allows it and fewer than cap admissions are unfreed and before their deadline, so a crashed pod's place is free from its deadline on |
| RedisCap.InFlightWithinCap | internal/httpx/redislimit/script.go:70-115 | The in-flight set never exceeds the cap, and holds every unfreed admission before its deadline |
| RedisCap.RunningWithinCap | internal/httpx/redislimit/script.go:70-116 | Requests that end before their lease does never number more than the cap |
| RedisCap.CapWaitIsBounded | internal/httpx/redislimit/script.go:76-93 | A cap refusal reports exactly the shorter of the poll interval and the time to the earliest deadline, and at least 1 ms |
| RedisExpiry.KeyExpiryIsUnobservable | internal/httpx/redislimit/script.go:10-14 | On every run, each script replies on a server that drops keys at their TTL as on one that never does |
| Fallback.FallbackLimiter.PrimaryReady | internal/httpx/fallback.go:120-124 | Ready when closed, or when the cooldown is over |
| Fallback.FallbackLimiter.MarkDown | internal/httpx/fallback.go:126-134 | Opens or extends the circuit and reports only the first of a stretch |
| Fallback.FallbackLimiter.MarkUp | internal/httpx/fallback.go:136-144 | Closes the circuit and reports only a recovery |
| Fallback.FallbackLimiter.Acquire | internal/httpx/fallback.go:64-84 | The circuit is read once and marked later, whatever marks others make in between; the caller is served by the fallback whenever the primary is skipped or unavailable and never sees that error; other errors pass through and make no mark |
| Fallback.TransitionsAlternate | internal/httpx/fallback.go:126-144 | However marks interleave, degraded and recovered transitions strictly alternate and the circuit is open exactly after a degraded one |
| Fallback.LastMarkDecides | internal/httpx/fallback.go:126-144 | After any marks, a failure opens the circuit for a cooldown from it and a success closes it |
| Fallback.FleetTransitionsAlternate | internal/httpx/fallback.go:126-150 | In every run of the fleet, callers failing and succeeding in any order, each pod reports degraded and recovered alternately |
| Fallback.OpenCircuitSkipsPrimary | internal/httpx/fallback.go:116-144 | After a pod's last failure a new caller probes if and only if a cooldown has passed or a caller already probing has succeeded since |
| FleetPaths.ServedByRedis | internal/httpx/fallback.go:64-76 | With a ready circuit, a caller that Redis admits is served by it and closes the circuit; nothing else changes |
| FleetPaths.ServedLocally | internal/httpx/fallback.go:76-80 | When Redis cannot be reached the caller opens the circuit for a cooldown and books in its own pod's limiter |
| FleetPaths.OpenCircuitServesLocally | internal/httpx/fallback.go:65-67 | With the circuit open a caller books in its own pod's limiter and leaves Redis and the circuit alone |
| FleetPaths.BackendsMove | internal/httpx/fallback.go:64-101 | Every step of the fleet moves each backend by one step of its own or not at all |
| Fallback.OneCallerKeepsQuota | cmd/omnifeed/main.go:765-772 | A local limiter of concurrency one, as the degraded mode uses, keeps its quota on every run in either mode |
| Fallback.FailOpenBound | cmd/omnifeed/main.go:798-848 | With P pods whose local limiters keep their quota, callers probing, failing, succeeding late, losing replies and queueing locally in any interleaving, any interval of one window holds at most (P + 1) * quota admissions by booked instant |
| Decimals.ValueOfDecimal | internal/httpx/retry.go:249 | Reading back a printed number gives the number |
| Retry.RetryAfterRoundTrip | internal/httpx/retry.go:242-254 | Every number of seconds within 64 bits is read back as sent, a plus sign is accepted, a negative or larger number is not |
| RetryOutcomes.ReadExactly | internal/httpx/retry.go:242-254 | A Retry-After is read exactly when it is digits, signed or not, that stand for a number within 64 bits and not below zero |
| Retry.RetryAfterSeconds | internal/httpx/retry.go:331-339 | Whole seconds never below the wait and less than a second above it, for every sign |
| Retry.DoRetry | internal/httpx/retry.go:106-216 | The loop makes attempts until one is not to be retried or they run out; the outcome is that of the last attempt, unless the context ends in a pause; every Retry-After on a 429 or 503 is reported |
| RetryOutcomes.StopsExactly | internal/httpx/retry.go:128-215 | The loop goes on past every attempt that leaves something to try: it stops early only on an ended context, a veto, a response below 500 other than 429, a pause cut short, or an overflow |
| RetryOutcomes.OutcomeExactly | internal/httpx/retry.go:157-215 | The caller gets the last answer: a response below 500 other than 429, or the status or error it failed with |
| RetryOutcomes.RetryAfterIsHonoured | internal/httpx/retry.go:208-212 | An answer that asks for a number of seconds sets the next backoff to that many, up to the cap |
| RetryOutcomes.TimeAddsUp | internal/httpx/retry.go:128-138 | Between two attempts a run waits from nothing to the whole backoff, as drawn |
| RetryOutcomes.ReportsInOrder | internal/httpx/retry.go:188-194 | The waits handed on to the limiter come in order, one for each 429 or 503 that carries one |
| RetryOutcomes.SettingsAre | internal/httpx/retry.go:113 | A setting that is given is used as given; one left out is 3 attempts, half a second, and 4 seconds at most |
| Retry.RunsAgree | internal/httpx/retry.go:128-215 | What the loop ends with is determined by the answers and the draws |
| Retry.BackoffDoubles | internal/httpx/retry.go:165-212 | Without Retry-After the backoff before attempt k is base * 2^k, capped |
| Retry.BackoffCapped | internal/httpx/retry.go:208-212 | No pause is drawn from more than the cap, whatever the upstream asks for |
| Retry.PanicsExactly | internal/httpx/retry.go:130-132 | The loop panics if and only if, among the inputs, a retried answer with attempts left carries a Retry-After whose nanoseconds wrap to a negative 64-bit number, and nothing ends the loop before it |
| Retry.HugeRetryAfterPanics | internal/httpx/retry.go:208-209 | With every default, a 503 that asks for 9223372037 seconds panics at the first pause |
| Retry.OverflowIsFarOff | internal/httpx/retry.go:208-209 | Seconds up to 9223372036 never wrap, and the next number does |
| Retry.RunBounded | internal/httpx/retry.go:106-216 | No run outlasts its attempts' timeouts and the capped pauses between them |
| Retry.LeaseOutlivesRetry | cmd/omnifeed/main.go:787-796 | The SearXNG lease exceeds every run of the loop by the recovery slack |
| Retry.LeaseIsTight | cmd/omnifeed/main.go:783-796 | Some run takes all of the lease but the slack |
| SearxngRuns.SearxngCapHolds | cmd/omnifeed/main.go:774-796 | With that lease the cluster never has more than cap requests running, on every run of the requests through their own attempts and pauses while the scripts interleave |
| SearxngPaths.AttemptsExactly | internal/httpx/retry.go:128-157 | An attempt follows the arrival or a pause that is over, and is over when it has taken its time |
| SearxngPaths.SleepsExactly | internal/httpx/retry.go:129-138 | A pause follows exactly an answer that may be tried again with attempts left |
| SingleFlight.OneLeaderUpstream | internal/fetchcache/cache.go:185-214 | In every interleaving at most one caller is upstream, and the flight entry exists exactly while its leader is unfinished |
| SingleFlight.FollowersShareContent | internal/fetchcache/cache.go:221-237 | A follower served a document was served the content its leader was served |
| FlightShares.FollowerWakesTo | internal/fetchcache/cache.go:221-237 | A follower whose flight is over takes one step to exactly what its leader got, a page as a hit or a failure; only after a leader that panicked or hung up does a live one fetch for itself |
| FlightShares.RetriesOnlyAfterLost | internal/fetchcache/cache.go:227-230 | On every run a caller has tried again only after flights whose leader panicked, or failed with its own context ended |
| FlightShares.LeaderKeepsItsAnswer | internal/fetchcache/cache.go:209-214 | A leader that is through was given what its own crawl came to, a page as a miss |
| FlightShares.EntersExactly | internal/fetchcache/cache.go:185-196 | A caller that finds a flight under way follows that flight; one that does not leads a new one |
| FlightShares.LeadersWay | internal/fetchcache/cache.go:185-214 | A caller that finds nothing under way, left alone, fetches, is given what its crawl came to, and leaves no entry behind |
| FlightShares.HangsUpAndLeaves | internal/fetchcache/cache.go:221-226 | A follower that hung up may leave its flight at any time, refused with its own context's end; one that has not may not |
| SingleFlight.LiveFollowerInheritsNoHangUp | internal/fetchcache/cache.go:216-232 | A live follower is never given the error of a leader that hung up or panicked |
| SingleFlight.RetriesOncePerOther | internal/fetchcache/cache.go:227-230 | A caller follows again at most once per other caller |
| SingleFlight.NeverStuck | internal/fetchcache/cache.go:185-237 | While a caller that arrived is unserved, some step is possible without anyone arriving, hanging up or panicking |
| SingleFlight.EveryRunEnds | internal/fetchcache/cache.go:185-237 | Every run of n callers is over within n * (2n + 4) steps |
| LruMemory.EntrySize | internal/fetchcache/memory.go:122-128 | Overhead, key, content and the metadata bytes, in whatever order the map is walked |
| LruMemory.SizeCountsEverything | internal/fetchcache/memory.go:122-128 | Every character of key, content and metadata counts once, and an entry of nothing is the overhead |
| LruMemory.Memory.constructor | internal/fetchcache/memory.go:46-61 | An item cap that is absent or above the budget is the budget |
| LruMemory.Memory.Remove | internal/fetchcache/memory.go:109-114 | List, map and byte counter lose one element together |
| LruMemory.Memory.Get | internal/fetchcache/memory.go:64-79 | A live entry moves to the front, an expired one is dropped; map, list and counter stay in step |
| LruMemory.Memory.Evict | internal/fetchcache/memory.go:95-97 | The eviction loop ends within the budget and never takes the element in front |
| LruMemory.Memory.Set | internal/fetchcache/memory.go:83-100 | An accepted entry is in front afterwards and the bytes held are within the budget; one over the item cap changes nothing |
| LruMemory.RunHolds | internal/fetchcache/memory.go:64-100 | On every run the list has distinct keys, holds each key's last accepted put and is ordered by recency of use |
| LruMemory.HitIsLastPut | internal/fetchcache/memory.go:64-79 | A hit returns exactly the last accepted put of its key, unexpired |
| LruMemory.PutIsFound | internal/fetchcache/memory.go:83-100 | A look after an accepted put hits exactly until the entry expires |
| LruMemory.LostTo | internal/fetchcache/memory.go:72-97 | Only an expired look of that key or an accepted put takes an entry away |
| LruMemory.EvictsLeastRecentlyUsed | internal/fetchcache/memory.go:93-97 | Everything evicted was used before everything kept, and one fewer eviction would exceed the budget |
| LruMemory.NoBudgetStoresNothing | internal/fetchcache/memory.go:37-52 | With no budget nothing is ever stored |
| Threads.Thread.KeepOnly | internal/engine/hackernews/parser.go:183-191 | The in-place compaction leaves exactly the kept comments in document order |
| BreadthFirst.TakePerGroup | internal/engine/hackernews/parser.go:241-262 | The depth-by-depth loop takes exactly the comments whose breadth-first rank in their own group is below n |
| BreadthFirst.TakeByDepth | internal/engine/hackernews/parser.go:277-294 | The bucket loop takes exactly the comments whose breadth-first rank in the list is below n |
| BreadthFirst.ChosenPerGroup | internal/engine/hackernews/parser.go:223-262 | Exactly n comments of every group are chosen, or all of a smaller one |
| BreadthFirst.ChosenAreShallowest | internal/engine/hackernews/parser.go:266-272 | No chosen comment is deeper than an unchosen one of its group |
| HackerNews.FlattenComments | internal/engine/hackernews/parser.go:73-89 | The recursion appends the live comments in pre-order with their direct parents, through deleted nodes |
| FlatPaths.FlatInPreOrder | internal/engine/hackernews/parser.go:68-89 | The list is that of the nodes with an author or a text, each once, in pre-order, every comment with its node's id and text and the id of the node right above |
| HackerNews.FlatWellFormed | internal/engine/hackernews/parser.go:68-89 | A flattened tree with distinct ids names no parent after its reply and no id twice |
| HackerNews.IndexSubtrees | internal/engine/hackernews/parser.go:164-179 | One forward pass builds the index of the list |
| HackerNews.OnePassIndexIsTrue | internal/engine/hackernews/parser.go:158-179 | For every tree with distinct ids the one-pass index is each comment's root and depth in the tree |
| HackerNews.IndexFits | internal/engine/hackernews/parser.go:158-179 | A comment with an emitted parent has its root and is one deeper; any other is a root at depth 0 |
| HackerNews.PlacesStable | internal/engine/hackernews/engine.go:212-216 | A cut that keeps emitted parents leaves every comment its root and depth |
| HackerNewsCaps.CapTopLevel | internal/engine/hackernews/parser.go:195-221 | In place, keeps the comments under the first n roots |
| HackerNewsCaps.CapPerSubtree | internal/engine/hackernews/parser.go:237-264 | In place, keeps the comments ranked below n in their thread |
| HackerNewsCaps.CapComments | internal/engine/hackernews/parser.go:273-296 | In place, keeps the comments ranked below n in the list |
| HackerNewsCaps.TopCutKeepsWholeThreads | internal/engine/hackernews/parser.go:193-221 | Exactly the first n roots stay, each with its whole thread |
| HackerNewsCaps.SubtreeCutSizes | internal/engine/hackernews/parser.go:223-264 | Exactly min(n, size) comments of every thread stay |
| HackerNewsCaps.FlatCutSize | internal/engine/hackernews/parser.go:266-296 | Exactly min(n, remaining) comments stay |
| HackerNewsCaps.FlatCutIsShallowest | internal/engine/hackernews/parser.go:266-272 | The last cap never keeps a comment deeper than one it drops |
| HackerNewsCaps.CapsNeverOrphan | internal/engine/hackernews/engine.go:212-218 | For any tree and any caps, the three in order leave a subsequence closed under emitted ancestors, with unchanged roots and depths, within the allowed roots and of the exact size |
| RedditCaps.Depths.DepthOf | internal/engine/reddit/parser.go:231-246 | Memoised depth ends on every parent map, cycles included, and leaves exactly the memo the recursion defines |
| RedditCaps.DepthsSettled | internal/engine/reddit/parser.go:231-246 | The depths the loop computes keep the depth law: one more than the emitted parent everywhere off the cycles |
| RedditCaps.DepthIsExact | internal/engine/reddit/parser.go:219-221 | Where the parent chain ends, the depth is exactly the number of emitted ancestors |
| RedditCaps.CapComments | internal/engine/reddit/parser.go:223-271 | In place, keeps exactly the first n comments breadth first by the depths the loop computes, cycles included |
| RedditCaps.CapKeepsExactly | internal/engine/reddit/parser.go:213-224 | Exactly min(n, len) comments stay, cycles or not |
| RedditCaps.CapNeverOrphansExactly | internal/engine/reddit/parser.go:217-222 | The cut is closed under emitted parents at every size if and only if the parent links make no circle |
| RedditCaps.CircleIsSplit | internal/engine/reddit/parser.go:217-222 | Two comments that are each other's parent are split by a cap of one |
| RedditCaps.StopsWithin | internal/engine/reddit/parser.go:321-334 | Pigeonhole: a parent chain that ends at all ends within as many hops as there are comments |
| RedditCaps.RootKept | internal/engine/reddit/parser.go:318-334 | The hop-bounded walk decides as the chain of any length would |
| RedditCaps.CapTopLevel | internal/engine/reddit/parser.go:294-343 | In place, keeps the threads of the first n direct replies and every comment that leads to none |
| RedditCaps.TopCutKeepsWholeThreads | internal/engine/reddit/parser.go:289-293 | A reply stays exactly when its emitted parent does, on every parent graph |
| RedditCaps.TopCutKeepsFirst | internal/engine/reddit/parser.go:304-317 | A direct reply stays exactly when it is among the first n; a comment with no resolvable root always stays |
| RedditCaps.TopLevelExactly | internal/engine/reddit/parser.go:304-313 | The direct replies counted are those whose parent is the post, in the order of the list |
| RedditCaps.Cap | internal/engine/reddit/engine.go:192-201 | A crawl applies the top-level cap and then the ceiling |
| RedditCaps.CrawlNeverOrphans | internal/engine/reddit/engine.go:192-201 | On a thread without circles the two cuts keep a comment only with its parent in the whole thread, and the ceiling keeps exactly as many as it allows of what the first cut leaves |
| RedditCaps.CrawlNeverOrphansExactly | internal/engine/reddit/engine.go:192-201 | The two cuts are closed under emitted parents at all sizes if and only if the thread makes no circle |
| GapExpansion.NextBatch | internal/engine/reddit/engine.go:327-347 | A batch is the first 100 pending ids, or all of fewer, and the gaps used are those it draws on |
| GapExpansion.RedditThread.MergeExpanded | internal/engine/reddit/parser.go:170-211 | Unknown comments are appended, requested ids leave the gaps used, empty gaps are dropped, new gaps follow |
| GapsLeft.GapsAreLeft | internal/engine/reddit/parser.go:183-210 | A merge keeps, in order, the gaps that only link on and those with an id not yet asked for through them, each as it was but for the ids asked for and its count, and appends the new ones |
| GapsLeft.LinksStay | internal/engine/reddit/parser.go:201-210 | The gaps that only link on are, in order and unchanged, the old ones and then the new ones |
| GapsLeft.CommentsAreAdded | internal/engine/reddit/parser.go:171-181 | The comments added are the first of each id that was not known, in order |
| GapExpansion.RoundConservesIds | internal/engine/reddit/parser.go:183-210 | With ids distinct across gaps, the pending ids after a round are exactly the old ones less the batch, then the new gaps' ids |
| GapExpansion.NoIdLost | internal/engine/reddit/parser.go:183-210 | Whatever the gaps hold, a pending id has been asked for or is still pending, and none appears from nowhere |
| GapExpansion.MergedDistinct | internal/engine/reddit/parser.go:171-181 | Comment ids never become duplicated and no comment is lost |
| GapExpansion.ExpandGaps | internal/engine/reddit/engine.go:323-365 | At most maxRounds requests of 1 to 100 ids, each the batch of what the rounds before it left, none after a round that brought nothing or a failure, whose reason is told; over the whole run no id is lost, and when the ids are distinct those asked for and still pending are those pending at first and those that arrived, in order and none twice; comment ids stay distinct |
| MethodChain.Method.Hold | internal/engine/reddit/chain.go:64-70 | A hold never shortens a longer one |
| MethodChain.Method.Clear | internal/engine/reddit/chain.go:75-83 | A skip ends unless a hold placed after the start still runs |
| MethodChain.Choose | internal/engine/reddit/chain.go:214-235 | One look at every method in scope gives the candidates, those reported down, and the smallest wait |
| MethodChain.CandidatesAreFree | internal/engine/reddit/chain.go:218-235 | The candidates are exactly the methods in scope not on hold, once each, in configured order |
| MethodChain.ReportedAreHeld | internal/engine/reddit/chain.go:222-230 | The methods reported down are exactly those in scope on hold, once each |
| MethodChain.AllHeldWaitIsExact | internal/engine/reddit/chain.go:230-246 | The all-held error's wait is exactly the smallest that remains |
| MethodChain.TryInOrder | internal/engine/reddit/chain.go:247-294 | Candidates are called in order, at most once each, until the first success or final error; each failure that moves on leaves the hold it must |
| MethodPaths.StopsExactly | internal/engine/reddit/chain.go:247-294 | No candidate is called after one that answered, failed for good or met an ended context, and the run does not stop short of one |
| MethodChain.HoldsExactly | internal/engine/reddit/chain.go:276-287 | Each call that fails over leaves its method on hold for the longer of the cooldown and what the upstream asked, except the last candidate for an upstream fault; no other call leaves a hold |
| MethodChain.LastCandidateKeptOnUpstreamFault | internal/engine/reddit/chain.go:280-287 | An upstream fault never holds the last candidate |
| MethodChain.LiveHoldIsKept | internal/engine/reddit/fetcher.go:192-211 | In every interleaving of crawls on one pod a live hold is never shortened or cleared |
| MethodChain.HeldWhenCalledWasHeldSince | internal/engine/reddit/chain.go:222-229 | A method that is on hold when a crawl gets to call it was put on hold after that crawl looked at it |
| MethodPaths.SelectsExactly | internal/engine/reddit/chain.go:218-229 | A method is a candidate exactly when neither the pod's memory nor what replicas recorded holds it |
| MethodPaths.CrawlOnPod | internal/engine/reddit/chain.go:247-262 | A crawl left alone takes a free method and leaves it without a hold; a hold asked for meanwhile outlives it |
| MethodChain.Method.HoldDown | internal/engine/reddit/fetcher.go:194-200 | A hold extends the skip and reports the method down, as news only when it was up |
| MethodChain.Method.MarkUp | internal/engine/reddit/fetcher.go:204-211 | A success ends the skip and reports the method up, unless a hold placed since still runs, which leaves both |
| MethodChain.Method.LoadHold | internal/engine/reddit/fetcher.go:223-235 | A starting pod takes over a shared hold that still runs and reports the method down; any other changes nothing |
| MethodFleet.OwnHoldIsKept | internal/engine/reddit/fetcher.go:192-235 | With any number of replicas, the pod a hold was placed on, or that took it over, skips the method until the hold is over |
| MethodPaths.HoldReachesAll | internal/engine/reddit/fetcher.go:194-200 | A hold, its report and its sharing reach the pod, the reported state and the store, where the later of two holds stands |
| MethodPaths.LooksExactly | internal/engine/reddit/chain.go:218-235 | A crawl calls a method that is free by its pod and by the store, and otherwise reports it down and changes nothing else |
| MethodPaths.SucceedsExactly | internal/engine/reddit/fetcher.go:202-211 | A success ends its pod's skip, and the shared hold only when the method was reported down; after a hold placed since it changes nothing |
| MethodPaths.LoadsExactly | internal/engine/reddit/fetcher.go:223-235 | A pod that starts during a shared hold takes it over, to its end and no further |
| MethodFleet.SharedHoldsRespectedExactly | internal/engine/reddit/fetcher.go:192-211 | A hold recorded in the shared store is respected by every replica in every run if and only if there is one replica |
| MethodFleet.HeldMayBeReportedUp | internal/engine/reddit/fetcher.go:204-220 | Ending a skip and reporting it are two sections: some run leaves a held method reported up, on one replica already |
| Decimals.LargerIsNoShorter | internal/domain/truncate.go:96-100 | A larger number never prints shorter |
| Truncate.WithinBudgetExactly | internal/domain/truncate.go:66-86 | A cut text fits the budget if and only if the budget exceeds the marker written against the whole window; the message for an offset past the end fits if and only if the budget holds it |
| Truncate.CutWindowIsFull | internal/domain/truncate.go:75-90 | A cut window wastes nothing: the text falls short of the budget only by digits its offset has fewer, and where the marker leaves no room the window is as long as the budget |
| Truncate.SmallBudgetOvershoots | internal/domain/truncate.go:43-44 | Three characters under a budget of one come as a text longer than the budget |
| Truncate.PastTheEndOvershoots | internal/domain/truncate.go:55-64 | The message for an offset past the end is longer than a budget of one |
| Truncate.WindowIs | internal/domain/truncate.go:52-94 | A window starts where asked and goes on by at least one character or to the end |
| Truncate.PagesAreContent | internal/domain/truncate.go:49-94 | Following the next offset ends, and the payloads make up exactly the rest of the content, for every budget |
| Truncate.TruncatedExactly | internal/domain/truncate.go:66-93 | A window is reported cut if and only if content remains beyond the budget |
| Truncate.CutTells | internal/domain/truncate.go:75-100 | A cut text is its window and then where it was cut, of how much, and the offset to go on from |
| Truncate.OffsetIsTold | internal/domain/truncate.go:58-64 | An offset from the end on is told back, with how much there is |
| Truncate.OffsetsOutside | internal/domain/truncate.go:52-64 | An offset before the beginning is the beginning; one from the end on gives no content and is not reported cut |
| Fences.MapProse | internal/engine/github/markdown.go:157-185 | The scanner loop maps stretches of prose and keeps fence lines and code |
| Fences.FenceFrom | internal/engine/github/markdown.go:48 | Up to three spaces, three or more of one mark, and anything that does not go on with it, is a fence line |
| Fences.FenceIsOnly | internal/engine/github/markdown.go:48 | Nothing else is a fence line |
| Fences.ClosesExactly | internal/engine/github/markdown.go:174-179 | A line closes a block exactly when it is a fence line of the same mark, at least as long, with only white space after the mark |
| Fences.IdentityMapsToItself | internal/engine/github/markdown.go:155-185 | A rewrite that changes nothing leaves the document as it is |
| Fences.PrintFenced | internal/engine/github/markdown.go:237-249 | The printer's fence is longer than every run of backticks in the content, and no longer than that takes beyond three |
| Fences.BlockHoldsContent | internal/engine/github/markdown.go:237-249 | Between its fences a block holds the tag and the content, short of the line ends the content closes with |
| Fences.FencedPassesUnchanged | internal/engine/github/markdown.go:235-249 | A printed block passes the scanner unchanged for every rewrite, content and tag without backtick or line end |
| Fences.MapsPieceByPiece | internal/engine/github/markdown.go:157-185 | Prose, a printed block and the rest are mapped independently |
| Fences.DemotingAddsUp | internal/engine/github/markdown.go:187-201 | Demoting headings by a and then b is demoting by a + b, in every document |
| Fences.HeadingExactly | internal/engine/github/markdown.go:49 | A heading is one to six hashes and then white space, and nothing else is |
| Fences.DemotesExactly | internal/engine/github/markdown.go:187-201 | Demoting pushes a heading down by the levels asked for, to the sixth at most, keeps its text, and leaves any other line alone |

## Left out

- LimiterRounds.CompletionSpacedQuotaExactly: says nothing of a delay below the period that does not divide it; there only CompletionQuota, CompletionQuotaByPlaces and CrowdBreaksQuota apply.
- LimiterDelay.CrowdBreaksQuota: the runs may withdraw any booking in flight, a zero-wait one included, as the code does for a deadline already past.
- Fallback.FailOpenBound: the pods' local limiters are ones that keep their quota under withdrawals, by any of the conditions above; OneCallerKeepsQuota says that one caller at a time is, as in the deployed fallback.
- Fallback.FallbackLimiter.Acquire: the order in which OnDegraded notices are delivered after the mutex is released is not modelled; notices are recorded at the transition.
- SearxngRuns.SearxngCapHolds: one assumption about time remains, in the clock's step: what a request spends outside its attempts and pauses (limiter replies, wake-ups, the way out) stays a millisecond below the recovery slack. Leaving the loop is allowed at any time, so that runs include those the code cannot have.
- FallbackLimiter.Penalize and releases routed to the backend that served: the fleet allows every penalty and release on either backend at any time instead.
- The distributed limiter's client loop (jittered sleeping between attempts, the per-pod semaphore, waits counted against a budget): a caller is any sequence of requests under fresh nonces.
- Lost replies and failed Redis commands: a release that never reaches the server is the step Crash; sub-millisecond parts of durations are dropped, as the scripts' arguments drop them.
- Retry.DoRetry: configured delays are below 2^62 nanoseconds, so that only a Retry-After can wrap; request construction errors, headers and bodies are left out.
- Fences.PrintFenced: a tag with a backtick or a line end is printed as the code does, but nothing is proved about it.
- Fences.MapProse: the fence and heading patterns are predicates on line prefixes in place of regular expressions.
- Comment ids are distinct within a thread, as in the source's data; comment bodies, scores and dates are one opaque field.
- The cache's Crawl, Key, store and Cacheable: wiring around the modelled lookup and flight, and one-branch checks.
- The permalink form of a Hacker News thread, whose own comment is emitted first.
- missingReplies and annotateTotals: sums over the gaps that nothing else depends on.
- MethodFleet: one method's shared hold; several methods meet only in the choice of candidates, which reads shared holds as inputs. A failed or delayed write to the shared store is a hold never shared, or a clear that comes later.
- Invalid UTF-8 in paged content: characters are whole.
- HTTP, browsers, encodings, HTML and markdown cleaning, URL parsing, configuration, metrics, logging, classification tables and access checks.
- The Twitter TTL cache, search-result merge, Discourse batching, Bluesky and Twitter flattening and the Redis cache backend: easier forms of what is modelled here.
