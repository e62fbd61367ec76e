# Verified models of the scanner's stateful cores

A Dafny project that models the parts of the repository whose correctness depends on order, time and
interleaving, and proves what they promise over every run. `dafny verify dfyconfig.toml` checks all of it.

How the models are built:

- **Asynchrony.** A call that awaits is cut at each await. A run is any sequence of the resulting synchronous
  segments, so a theorem about runs holds under every interleaving. Every clock reading of a segment is its own
  parameter. The limiters, the coalescer, the quota and the session model need the clock not to go back;
  the alert door and the fan-out pools need nothing of it.
- **State updated in place.** Where the source mutates a map, a counter or a cookie, a class with the same
  fields does, and each of its methods is proved to move the state exactly as the specification function the
  theorems are about. A JavaScript Map is its insertion-ordered entry list; the limiter's live iterator is an
  index into the list of records with deleted ones left empty, as section 24.1 of ECMA-262 has it.
- **Foreign code.** The database is serialised transactions that may conflict or lose their acknowledgement,
  Redis is one sorted set whose commands are single steps, a signature is ideal, and a clock, a lookup, a
  dispatch or a lost reply is a parameter.

| file | what it models |
|---|---|
| `SlidingWindow.dfy` | timestamps in a sliding window: the arithmetic the limiter and the monthly quota share |
| `RateLimitWindow.dfy` | the in-process limiter with its bounded, resumable reaper |
| `RateLimitCharge.dfy` | reserve, charge, commit or release, across an await |
| `RateLimitOutcome.dfy` | what a charge is told, and that it follows from the slots other charges hold |
| `RateLimitErasure.dfy` | a run of charges compared with the same run less one refused charge |
| `RateLimitStore.dfy` | the cross-instance window built from add, count and a compensating delete |
| `ScanCoalescer.dfy` | in-flight scan coalescing with a deferred, refcounted abort |
| `TtlLruCache.dfy` | the TTL and LRU cache |
| `CacheKey.dfy` | the cache key's printing, and a reader that undoes it |
| `FanOutPool.dfy` | bounded-concurrency lanes, with and without a measured deadline |
| `SessionLifecycle.dfy` | session cookies: silent refresh, revocation, a version store that may not answer |
| `SessionBudget.dfy` | shedding a session's payload until its cookie fits |
| `ScanQuota.dfy` | the rolling monthly allowance with value-keyed refunds |
| `CreditLedger.dfy` | prepaid credits: keyed debits, refunds and grants with retries |
| `AlertDoor.dfy` | alert delivery: sink, claim, dispatch, release, reason |
| `StandingRegressions.dfy` | dimensions that fell and stayed down |
| `CreditBacklog.dfy` | repositories owed a scan, and the resume plan |
| `PrivateScanStore.dfy` | what may be stored of a private scan |
| `Common.dfy`, `StableSort.dfy` | an option type, ASCII case folding and finding a character; a stable sort by an integer key |

Results worth knowing that the code or its comments do not say:

- The fleet-wide ceiling depends on how long after its clock read a request is counted. With that delay it holds
  over every interval up to the window less the delay and, for every limit and window, over none longer
  (`RateLimitStore.SafeLengthIff`).
- A request that waits on the shared ceiling holds its caller's slot, so one that is then refused may have cost
  another its place. It did exactly if somebody was turned away from a window while its slot was live there
  (`RateLimitErasure.ErasureIsInvisibleIff`, with a failing run in `RateLimitErasure.WaitingChargeCostsAnother`);
  a charge refused before any wait never costs anybody anything (`RateLimitErasure.RefusedLeavesNoTrace`).
- A revoked session can outlive the bump by more than the access lifetime. A cookie can do so exactly if it was
  minted after the bump (by a re-mint that straddled it, or a sign-in that could not read the version) and is
  inside its access window, or if a resolve that had its valid lookup by the bump has not finished
  (`SessionLifecycle.OutlivesTheBumpIff`); a mint at most a delay after the bump dies that much later
  (`SessionLifecycle.RevokedLineageDies`).
- The monthly quota reads the clock before its transaction, so transactions can commit out of clock order. The
  limit then holds over intervals up to the window less the worst lateness, and over none longer
  (`ScanQuota.SafeLengthIff`).
- A scan turned away for want of an answer can still have cost its org a credit that no hold gives back: exactly
  when its debit landed without its hearing of it (`CreditLedger.SkippedCostsIff`).
- The comment on the session check says a bumped version takes effect on the next resolve; the model keeps to
  the code, where a resolve already past its lookup still answers active.

## Model

| member | source | states |
|---|---|---|
| `SlidingWindow.SpacedBoundsEveryInterval` | src/lib/rate-limit-window.ts:148-190 | hits that are `limit` places apart and at least a window apart never put more than `limit` in any half-open interval one window long, wherever it starts |
| `SlidingWindow.AdmitKeepsSpaced` | src/lib/rate-limit-window.ts:162-190 | recording a hit that passed the cap keeps the recorded hits so spaced, even when the record reads a later clock than the check |
| `RateLimitWindow.ReaperRefinesNoReaper` | src/lib/rate-limit-window.ts:94-236 | for every run of checks, hits, reservations and releases, the swept and trimmed limiter gives the same verdicts and waits as one that never forgets a hit |
| `RateLimitWindow.StepTracks` | src/lib/rate-limit-window.ts:148-236 | each operation answers as the unforgetting ledger does and keeps every key's live timestamps equal to the ledger's |
| `RateLimitWindow.ReapForgetsOnlyDead` | src/lib/rate-limit-window.ts:101-115 | whatever a reaper tick removes was wholly older than the widest window, and nothing else changes |
| `RateLimitWindow.DeadMeansNothingLive` | src/lib/rate-limit-window.ts:109-114 | the newest-hit test calls a key dead exactly when none of its hits is live |
| `RateLimitWindow.SlidingWindowBound` | src/lib/rate-limit-window.ts:148-236 | over every run and for every key, un-released admitted hits never exceed the limit in any half-open interval of one window |
| `RateLimitWindow.RetryAfterIsExact` | src/lib/rate-limit-window.ts:162-171 | left alone, a refused key is refused until its oldest live hit ages out and admitted from then on, and the wait is the fewest whole seconds that reach that instant |
| `RateLimitWindow.ReleaseIsExact` | src/lib/rate-limit-window.ts:225-236 | a release takes one slot of its own value and key if that slot is still held, dropping the key when it was the last, and otherwise nothing |
| `RateLimitWindow.TickIsBounded` | src/lib/rate-limit-window.ts:94-123 | one call sweeps at most once, exactly when ten seconds are up or one second beyond ten thousand keys; it inspects 256 keys, 4096 under that pressure, and fewer only by finishing the pass; evictions account for every key lost and the peak is the most keys found |
| `RateLimitWindow.PassFinishes` | src/lib/rate-limit-window.ts:94-123 | whatever a run of calls inserts, drops or sweeps, a pass is over once its ticks could have looked at every key ahead of it and one more for every call |
| `RateLimitWindow.DeadKeyGoneInTime` | src/lib/rate-limit-window.ts:94-123 | a dead key no call touches is gone after that many ticks |
| `RateLimitWindow.ChargeKeepsOnlyTheLive` | src/lib/rate-limit-window.ts:148-223 | a check, hit or reservation leaves of its key exactly the live hits and the admitted one, never more than the limit, and drops a key left with nothing; any other key it leaves alone or forgets when wholly dead |
| `RateLimitWindow.DeadKeyGoneAfterOnePass` | src/lib/rate-limit-window.ts:94-116 | a dead key no call touches is gone once a pass that had not reached it completes, whatever other keys do to the map meanwhile |
| `RateLimitWindow.Limiter.constructor` | src/lib/rate-limit-window.ts:3-68 | the limiter starts with no keys, no cursor and zero counters |
| `RateLimitWindow.Limiter.Sweep` | src/lib/rate-limit-window.ts:94-116 | the resumable loop over the live map leaves the state the recursive reaper describes |
| `RateLimitWindow.Limiter.MaybeSweep` | src/lib/rate-limit-window.ts:119-123 | the peak is kept and a tick runs exactly when the interval for the current size has passed |
| `RateLimitWindow.Limiter.CheckWindow` | src/lib/rate-limit-window.ts:148-179 | a check answers and leaves the map as specified: trimmed, nothing added, an emptied key dropped |
| `RateLimitWindow.Limiter.RecordHit` | src/lib/rate-limit-window.ts:184-190 | one timestamp is appended to the key's own trimmed window |
| `RateLimitWindow.Limiter.Hit` | src/lib/rate-limit-window.ts:194-198 | the record follows the check only on admission |
| `RateLimitWindow.Limiter.ReserveHit` | src/lib/rate-limit-window.ts:211-223 | the slot is taken in the same step as the check, and only on admission |
| `RateLimitWindow.Limiter.ReleaseHit` | src/lib/rate-limit-window.ts:228-236 | the last entry equal to the token is spliced out and an emptied key removed |
| `RateLimitCharge.CallersAreNotTheCeiling` | src/lib/rate-limit-charge.ts:91-103 | no address or token prints to the key of its own limiter's ceiling |
| `RateLimitCharge.CallersHaveTheirOwnWindows` | src/lib/rate-limit-charge.ts:91-103 | within a limiter two addresses, or two tokens, share a window if and only if they are the same, an address and a token never do, and ceilings are one per limiter name |
| `RateLimitCharge.WindowIsItsHolders` | src/lib/rate-limit-charge.ts:94-136 | under every interleaving a key's live timestamps are exactly the slots of its in-flight and served charges, and those stay within its limit in every window |
| `RateLimitOutcome.NextFollows` | src/lib/rate-limit-charge.ts:95-136 | every outcome and wait is decided by the slots charges hold, whatever the limiter has trimmed or swept |
| `RateLimitOutcome.VerdictIsHonest` | src/lib/rate-limit-window.ts:162-171 | a window admits exactly while its live holders number fewer than its limit, and otherwise waits the fewest seconds until the oldest of them ages out |
| `RateLimitOutcome.WhatABeginIsTold` | src/lib/rate-limit-charge.ts:46-63 | in every reachable state a new charge is refused as the caller's own exactly when that caller's live holders fill the budget, with the fewest seconds until the oldest ages out, the budget and the window; a synchronous one that passes is admitted or refused by the ceiling's live holders and their wait, the budget undisclosed |
| `RateLimitOutcome.WhatAResumeIsTold` | src/lib/rate-limit-charge.ts:61-136 | after the await a charge is told the store's own verdict and wait; with the store unreachable, the in-memory ceiling's when failing open, and otherwise an outage that evaluated nothing and asks for the fewest seconds that outlast the breaker |
| `RateLimitErasure.RefusedLeavesNoTrace` | src/lib/rate-limit-charge.ts:95-120 | over every run, take out a charge its caller's own budget refused, or one charged without an await and refused by either budget: every other charge's outcome and wait and every live window is the same |
| `RateLimitErasure.ErasureIsInvisibleIff` | src/lib/rate-limit-charge.ts:118-136 | over every run, taking out a refused charge of any kind leaves every other outcome and wait as it was if and only if nobody was turned away from a window while that charge had a live slot in it |
| `RateLimitErasure.ErasureKeepsWindows` | src/lib/rate-limit-charge.ts:118-136 | and then every live window is the same as well |
| `RateLimitErasure.WaitingChargeCostsAnother` | src/lib/rate-limit-charge.ts:118-136 | with one slot per caller, a charge later refused by the shared ceiling holds the slot while it waits, and a second request is turned away that would have been let in had the first never come |
| `RateLimitCharge.RefusalsCountedOnce` | src/lib/rate-limit-charge.ts:33-43 | as many refusals are tallied as charges were refused |
| `RateLimitCharge.EachSeriesCountsItsRefusals` | src/lib/rate-limit-charge.ts:33-43 | after every run each series was counted exactly as often as charges were refused into it: the caller's own under the limiter's name, the ceiling's under its own, an outage apart from both |
| `RateLimitCharge.PerIpRefusalIsHonest` | src/lib/rate-limit-charge.ts:104-120 | the caller's own budget refuses exactly when that caller's holders fill it, and then no window moves, the ceiling's included |
| `RateLimitCharge.CeilingIsHonest` | src/lib/rate-limit-charge.ts:95-100 | the in-memory ceiling admits exactly while fewer than `global` of its slots are live |
| `RateLimitCharge.SettleLocalCharges` | src/lib/rate-limit-charge.ts:95-100 | settling resolves its own charge only, and refuses it only in the ceiling's name |
| `RateLimitCharge.ChargeDoor.CountRefusal` | src/lib/rate-limit-charge.ts:35-43 | one tally per refusal, an outage kept apart from abuse, the reply unchanged |
| `RateLimitCharge.ChargeDoor.Reserve` | src/lib/rate-limit-charge.ts:104-120 | the caller's slot is reserved in the limiter and the charge opened |
| `RateLimitCharge.ChargeDoor.Release` | src/lib/rate-limit-charge.ts:126-135 | the reservation goes back by its token and the refusal is tallied |
| `RateLimitCharge.ChargeDoor.SettleLocally` | src/lib/rate-limit-charge.ts:95-100 | the charge is committed or released as the in-memory ceiling decides |
| `RateLimitCharge.ChargeDoor.ChargeSync` | src/lib/rate-limit-charge.ts:104-108 | the synchronous pipeline is one indivisible segment of the system |
| `RateLimitCharge.ChargeDoor.BeginShared` | src/lib/rate-limit-charge.ts:118-125 | before the await the slot is already taken or the caller already refused |
| `RateLimitCharge.ChargeDoor.ResumeShared` | src/lib/rate-limit-charge.ts:125-136 | after the await the charge is committed, refused by the ceiling, refused for want of an answer, or settled locally |
| `RateLimitStore.FleetCeiling` | src/lib/rate-limit-store.ts:97-131 | with any number of instances and every delete lost, hits admitted with clock reads in an interval no longer than the window less the delay never exceed the limit |
| `RateLimitStore.CeilingNeedsTheDelayBound` | src/lib/rate-limit-store.ts:97-118 | for every limit and window and every delay up to the window, a run with that delay admits one over the limit in an interval one millisecond longer than the window less the delay |
| `RateLimitStore.SafeLengthIff` | src/lib/rate-limit-store.ts:97-131 | for a positive limit and window, the ceiling holds over every interval of a given length in every run of a given delay if and only if that length is at most the window less the delay |
| `RateLimitStore.NextKeeps` | src/lib/rate-limit-store.ts:104-119 | every single command keeps what the ceiling rests on: the last to count had all the others in its count |
| `RateLimitStore.OnlyAdmittedOnceDeletesLand` | src/lib/rate-limit-store.ts:117-119 | once counted-over requests have sent their deletes, only admitted or undecided hits remain, each at its own clock read |
| `RateLimitStore.AdmissionIsFinal` | src/lib/rate-limit-store.ts:116-119 | over every run a request once admitted stays admitted, whatever any instance sends later |
| `RateLimitStore.RefusedTakesItsOwnOut` | src/lib/rate-limit-store.ts:119 | the delete of a request counted over the limit takes out its own member and nothing else |
| `RateLimitStore.HitAloneChecksBeforeRecording` | src/lib/rate-limit-store.ts:103-119 | undisturbed, add-then-count admits exactly when fewer than `limit` are inside, and a refused hit leaves the trimmed window as it was unless its delete is lost |
| `RateLimitStore.SharedWaitIsExact` | src/lib/rate-limit-store.ts:118-125 | from any set, overfull ones included, and with nobody else coming: a retry is refused before the oldest member expires and admitted at that instant if and only if fewer than `limit` members are newer; just full, it is admitted from then on; the wait is the fewest seconds that reach it |
| `RateLimitStore.SharedWindow.Hit` | src/lib/rate-limit-store.ts:97-131 | nothing is sent while the breaker is open, an unanswered request leaves whatever commands had run and gives no verdict, and an answered one is admitted by its own count or told the wait the oldest member gives |
| `RateLimitStore.BegunRanAPrefix` | src/lib/rate-limit-store.ts:103-128 | a request whose reply was lost has run a prefix of its commands, all four when only the reply went missing |
| `RateLimitStore.SharedWindow.ZRangeFirst` | src/lib/rate-limit-store.ts:108 | the smallest score in the set, read after the add |
| `RateLimitStore.SharedWindow.ZRemRangeByScore` | src/lib/rate-limit-store.ts:105 | members scored from zero to the cutoff leave the set |
| `RateLimitStore.SharedWindow.ZAdd` | src/lib/rate-limit-store.ts:106 | the request's member enters at its clock read |
| `RateLimitStore.SharedWindow.ZCard` | src/lib/rate-limit-store.ts:107 | the size after the add is the request's count |
| `RateLimitStore.SharedWindow.ZRem` | src/lib/rate-limit-store.ts:119 | the request's own member leaves, and no other |
| `ScanCoalescer.OneLiveRunPerKey` | src/lib/cache.ts:322-379 | no key ever has two live runs, and what the map holds is always live, so the aborted-entry check never finds anything |
| `ScanCoalescer.AbortedOnlyAfterEveryoneLeft` | src/lib/cache.ts:266-297 | an aborted run's every caller had left, each at least the linger window before |
| `ScanCoalescer.UnwatchedRunCountsDown` | src/lib/cache.ts:282-297 | a mapped run has a pending timer exactly when nobody watches it, due within the linger window |
| `ScanCoalescer.FiringAlwaysAborts` | src/lib/cache.ts:288-294 | a timer that fires always finds its run mapped and unwatched, and ends it |
| `ScanCoalescer.EverySinkIsCurrent` | src/lib/cache.ts:353-412 | every attached listener, early or late, has the run's latest frame, and one that left is no longer fed |
| `ScanCoalescer.LastFrameWins` | src/lib/cache.ts:360-370 | after a burst of frames each listener and the replay slot hold the last one |
| `ScanCoalescer.SettlingNeverEvictsANewerRun` | src/lib/cache.ts:355-358 | an old run settling leaves every newer mapping alone |
| `ScanCoalescer.CallsJoinTheLiveRun` | src/lib/cache.ts:329-351 | a call starts a run exactly when its key has no live one, and otherwise watches that one |
| `ScanCoalescer.NextKeeps` | src/lib/cache.ts:259-423 | every event of any caller keeps the whole invariant the theorems rest on |
| `ScanCoalescer.Coalescer.CancelLinger` | src/lib/cache.ts:260-264 | the countdown stops and nothing else moves |
| `ScanCoalescer.Coalescer.AbortAndEvict` | src/lib/cache.ts:268-272 | the run is aborted, and unmapped only if the map still holds it |
| `ScanCoalescer.Coalescer.ScheduleLingerAbort` | src/lib/cache.ts:282-297 | a countdown starts unless one is running |
| `ScanCoalescer.Coalescer.Fire` | src/lib/cache.ts:288-294 | the timer's reaction re-checks waiters and mapping before it aborts |
| `ScanCoalescer.Coalescer.Evict` | src/lib/cache.ts:355-358 | settling cancels the countdown and unmaps the run only if it is the mapped one |
| `ScanCoalescer.Coalescer.Emit` | src/lib/cache.ts:360-370 | the loop over listeners feeds each of them once and keeps the frame for joiners |
| `ScanCoalescer.AbortGivesUpItsShare` | src/lib/cache.ts:394-403 | over every run a waiting caller that aborts has left, hears nothing more and counts one fewer; with nobody else watching, its mapped run's countdown is due a linger window from then; nothing else moves |
| `ScanCoalescer.AbandonedRunIsDue` | src/lib/cache.ts:282-297 | over every run a mapped run whose callers have all aborted has a timer due exactly a linger window after the last of them left |
| `ScanCoalescer.CallIsServed` | src/lib/cache.ts:322-403 | over every run a call throws only when it had to start a run whose factory throws, and then nothing is mapped; otherwise it watches its key's mapped run, or has left if already aborted, and its sink starts from the latest frame |
| `ScanCoalescer.EmitReaches` | src/lib/cache.ts:360-370 | over every run a frame reaches every attached sink of its run and no other, and is kept for joiners |
| `ScanCoalescer.SettlingLeadsToEviction` | src/lib/cache.ts:379 | a run settles once and its eviction is then due |
| `ScanCoalescer.EvictUnmaps` | src/lib/cache.ts:355-358 | over every run eviction stops the countdown and unmaps exactly its own run, so the next call of its key starts afresh |
| `ScanCoalescer.DetachKeepsTheCount` | src/lib/cache.ts:408-412 | a settled caller is done and hears nothing more while the count it held stays up |
| `ScanCoalescer.Coalescer.Release` | src/lib/cache.ts:394-403 | a caller's abort is one such step of the system |
| `ScanCoalescer.Coalescer.Detach` | src/lib/cache.ts:408-412 | a settled caller is dropped from the listeners without touching the count |
| `ScanCoalescer.Coalescer.RunFactory` | src/lib/cache.ts:359-379 | frames emitted inside the factory reach the listener registered before it ran |
| `ScanCoalescer.Coalescer.StartRun` | src/lib/cache.ts:337-379 | the entry exists before the factory runs, and a factory that throws leaves nothing mapped |
| `ScanCoalescer.Coalescer.JoinRun` | src/lib/cache.ts:380-392 | a joiner stops the countdown and is replayed the latest frame |
| `ScanCoalescer.Coalescer.CoalesceScan` | src/lib/cache.ts:322-423 | the whole call, a signal already aborted included, is one event of the system |
| `TtlLruCache.HitsAreTheLastSet` | src/lib/cache.ts:18-60 | the size never passes the capacity, and a hit is the last value set, unexpired and not deleted since, as an unbounded map would answer |
| `TtlLruCache.RecentEntriesAreRetained` | src/lib/cache.ts:18-60 | an entry neither written, deleted nor expired since it was touched is still there, unchanged, while fewer than capacity distinct other keys were touched, reads of it included |
| `TtlLruCache.ReadAnswersIff` | src/lib/cache.ts:29-41 | a read answers a value if and only if an unexpired entry of its key holds it; it drops an expired entry and no other |
| `TtlLruCache.WrittenIsRead` | src/lib/cache.ts:18-60 | after any run, a write, and any run in which the key is neither written, deleted nor read past its expiry and fewer than capacity other keys are touched, a read by the expiry answers the value written |
| `TtlLruCache.TouchPutsLast` | src/lib/cache.ts:29-55 | a write, and under the refreshing policy a hit, makes its entry the last to be evicted |
| `TtlLruCache.Cache.constructor` | src/lib/cache.ts:18-27 | the cache starts empty under its declared policy |
| `TtlLruCache.Cache.Read` | src/lib/cache.ts:29-41 | an expired entry is dropped, a live one returned and moved only under the refreshing policy |
| `TtlLruCache.Cache.Write` | src/lib/cache.ts:43-55 | an overwrite evicts nobody; a new key at capacity evicts the front |
| `TtlLruCache.Cache.Drop` | src/lib/cache.ts:57-59 | one key goes, order kept |
| `CacheKey.KeyReadsBack` | src/lib/cache.ts:177-189 | a reader recovers owner, repository, revision up to case, any scope whatever it contains, mode and fingerprint from the printed key |
| `CacheKey.KeysCollideOnlyOnOneSubject` | src/lib/cache.ts:177-189 | two printed keys are equal if and only if their subjects are, so a scoped entry never meets a whole-repository one |
| `CacheKey.TailReadsBack` | src/lib/cache.ts:185-186 | revision and scope come apart again though the scope may hold any separator |
| `CacheKey.JoinedIsInjective` | src/lib/cache.ts:138-143 | with NUL between them no field of the scoring identity can bleed into the next |
| `CacheKey.ShortHash` | src/lib/cache.ts:129-136 | the 32-bit hash loop prints to exactly eight hex digits for every text |
| `CacheKey.FingerprintsAgreeIff` | src/lib/cache.ts:129-136 | two printed fingerprints are equal if and only if the 32-bit hashes are |
| `CacheKey.OneUnitChangesTheFingerprint` | src/lib/cache.ts:129-143 | two scoring identities that differ in exactly one code unit, wherever it is, never share a fingerprint |
| `FanOutPool.FinishedRun` | src/lib/pool.ts:91-126 | under every lane schedule each index below the cursor was issued once, in order, and completed; nothing above it was; work left over means something completed first and every lane's guard refused |
| `FanOutPool.OverrunsAreSurprises` | src/lib/pool.ts:105-119 | an item ending past the deadline was issued before the first completion, or ran longer than everything already completed when it was issued |
| `FanOutPool.BoundedConcurrency` | src/lib/pool.ts:100-121 | at no moment of any run are more calls in flight than the concurrency asked for, or one, and never more than the items |
| `FanOutPool.ConcurrencyIsReached` | src/lib/pool.ts:100-121 | for every number of items and concurrency some run has exactly that many calls in flight |
| `FanOutPool.NextKeeps` | src/lib/pool.ts:105-120 | every turn and settlement keeps claims in order, lanes matched to pending calls, and the projection equal to the worst measured time |
| `FanOutPool.EachStepCountsOnce` | src/lib/pool.ts:105-120 | every step of any lane uses up one unit of a finite measure, so the pool ends |
| `FanOutPool.NeverStuck` | src/lib/pool.ts:105-121 | until every lane has returned some lane can step |
| `FanOutPool.MapPoolUntilDeadline` | src/lib/pool.ts:91-126 | the returned remainder is exactly the unissued suffix, truncation says whether there is one, and a non-empty input always attempts something |
| `FanOutPool.MapPool` | src/lib/pool.ts:14-34 | each result lands at its own item's index whatever order the calls end in and no hole is left, under every schedule of the same lanes without a deadline |
| `SessionLifecycle.ActiveAfterRevocation` | src/lib/auth.ts:259-341 | an active answer for a revoked version had its lookup answered before the bump, or went unanswered inside the access window of a mint the store had backed before the bump (or never backed) |
| `SessionLifecycle.RejectedAtOnce` | src/lib/auth.ts:304-305 | once a lookup answers after the bump, an older cookie is rejected |
| `SessionLifecycle.BumpRejectsEveryCookie` | src/lib/auth.ts:259-275 | over any run before and any after, once somebody signs out here or everywhere else the store rejects every cookie there was |
| `SessionLifecycle.MintIsHonoured` | src/app/api/auth/callback/route.ts:98-108 | a sign-in that read the version, or the browser that revoked the others, mints a cookie the store affirms; one that could not read it, only if nothing was ever revoked; no other cookie changes |
| `SessionLifecycle.ResolveAlone` | src/lib/auth.ts:295-341 | from every reachable state an undisturbed resolve looks nothing up past the horizon, and otherwise is active exactly when the store answers and has not moved past the cookie's version, or does not answer inside the access window; it re-mints exactly when affirmed, due and writable |
| `SessionLifecycle.RevokedLineageDies` | src/lib/auth.ts:288-316 | a cookie of a revoked version minted no later than a delay after the bump is dead an access lifetime plus that delay after it, though every lookup fails and whether or not its sign-in could read the version |
| `SessionLifecycle.PromptMintsPrecedeTheBump` | src/lib/auth.ts:295-327 | a cookie minted within a delay of the store backing its version is minted no later than that delay after the bump that revokes it |
| `SessionLifecycle.OutlivesTheBumpIff` | src/lib/auth.ts:295-341 | from every reachable state, a cookie of a revoked version can still be answered active an access lifetime after the bump if and only if it was minted after the bump and is inside its access window, or an unfinished resolve of it holds a valid lookup, which was then made no later than the bump |
| `SessionLifecycle.StraddlingMintOutlives` | src/lib/auth.ts:304-327 | a run in which a resolve straddles a logout and its re-mint is active past the bump plus the access lifetime |
| `SessionLifecycle.IdleSessionsLapse` | src/lib/auth.ts:155-161 | no resolve gets past decoding for a cookie idle beyond the inactivity horizon |
| `SessionLifecycle.SignedInIff` | src/lib/auth.ts:259-341 | who is signed in, by mint time and lookup: answered, a current version for the whole inactivity horizon; unanswered, only inside the access window; with no store, the whole horizon |
| `SessionLifecycle.AffirmedIsRefreshed` | src/lib/auth.ts:318-324 | an affirmed cookie leaves with more than the renewal threshold of access ahead, re-minted only when it was short of it, its version unchanged |
| `SessionLifecycle.NextKeeps` | src/lib/auth.ts:295-364 | every step of sign-in, resolve, refresh, logout and revocation keeps each cookie's version no newer than the store and backed no later than its revocation |
| `SessionLifecycle.RevocationStore.GetSessionVersion` | src/lib/db/sessions.ts:17-24 | the login's version whatever its letter case, zero when it has none or there is no database |
| `SessionLifecycle.RevocationStore.BumpSessionVersion` | src/lib/db/sessions.ts:31-58 | the login's version goes up by one and every other login's stays; without a database nothing moves |
| `SessionLifecycle.Browser.GetSessionState` | src/lib/auth.ts:295-341 | which cookies are active, expired or absent, when the cookie is re-minted, and when a read-only store only asks for it; silence past the access window expires |
| `SessionLifecycle.Browser.RevokeOtherSessions` | src/lib/auth.ts:348-364 | with a database, afterwards the store confirms this browser's cookie and rejects every cookie of the versions before; without one the cookie is only refreshed; the returned flag says which |
| `SessionBudget.BuildSession` | src/lib/auth.ts:629-673 | suggestions, eight at most, go first, then the seeded org, then installations from the highest id down: what is kept is the longest prefix by id that fits in 3800 |
| `SessionBudget.ArrivalOrderIsForgotten` | src/lib/auth.ts:642-647 | with distinct ids the order installations arrive in does not change which survive |
| `ScanQuota.StandingChargesBounded` | src/lib/public-scan-quota.ts:196-206 | over every serialised run in which no transaction commits with a reading more than `d` behind the newest, no interval up to 30 days less `d` holds more un-refunded charges than the limit |
| `ScanQuota.ClockOrderLagsByNothing` | src/lib/public-scan-quota.ts:256-270 | a run is in clock order exactly when nothing lags, so the bound then covers whole 30-day intervals |
| `ScanQuota.VerdictFromHistory` | src/lib/public-scan-quota.ts:178-206 | the stored window decides as the full history of standing charges would |
| `ScanQuota.PeekCountsConsumes` | src/lib/public-scan-quota.ts:178-206 | a peek is exactly how many consumes in a row would be allowed at that instant |
| `ScanQuota.ResetAtIsFirstAllowed` | src/lib/public-scan-quota.ts:196-233 | retries are refused before a denial's reset time and allowed at it if and only if fewer than `limit` hits are newer than the oldest; the wait is the fewest seconds that reach it |
| `ScanQuota.DenialNamesTheFirstFreeInstant` | src/lib/public-scan-quota.ts:196-206 | after any run in clock order a lone retry is allowed at exactly the instants from the reset time on |
| `ScanQuota.ResetIsTheFirstLapse` | src/lib/public-scan-quota.ts:178-206 | an allowed scan joins the live charges, leaves one fewer, and is told the first instant at which any of them lapses, its own if alone; a peek is told the same of the charges there are |
| `ScanQuota.RecentIsTheLivePart` | src/lib/public-scan-quota.ts:183-184 | of any stored window, whatever its order, the recent part is its live entries in ascending order |
| `ScanQuota.RefundTakesItsOwn` | src/lib/public-scan-quota.ts:356-360 | a refund removes one entry of its own timestamp, or nothing |
| `ScanQuota.RefundsCommute` | src/lib/public-scan-quota.ts:356-360 | two refunds leave the same window whichever lands first, duplicates included |
| `ScanQuota.LateTransactionOvershoots` | src/lib/public-scan-quota.ts:256-295 | for every positive limit and every lateness up to the window, a run that late puts one charge over the limit in an interval one millisecond longer than the window less the lateness |
| `ScanQuota.SafeLengthIff` | src/lib/public-scan-quota.ts:178-295 | the limit holds over every interval of a given length in every run of a given lateness if and only if that length is at most the window less the lateness, or the limit is zero |
| `ScanQuota.QuotaStore.Consume` | src/lib/public-scan-quota.ts:244-306 | an enforced consume charges exactly when fewer than `limit` hits are live and writes only then; what remains and the reset time follow from the live hits; an unenforceable one passes without a trace |
| `ScanQuota.QuotaStore.Peek` | src/lib/public-scan-quota.ts:324-348 | what is reported is what consumes would get and when the oldest live hit ages out; nothing is written |
| `ScanQuota.QuotaStore.Refund` | src/lib/public-scan-quota.ts:379-406 | only a keyed refund of an enforced bucket moves anything, and it moves at most one entry of one bucket |
| `CreditLedger.CreditsAreConserved` | src/lib/db/credits.ts:137-438 | after any run of reserves, crashes, retries, refunds and grants the balance is opening plus grants less distinct debits plus distinct refunds, never negative, and only debits are refunded |
| `CreditLedger.ReservationNetsOneOrNone` | src/lib/scan-credit.ts:97-154 | every reservation nets one credit or none, one exactly when it was debited and not refunded |
| `CreditLedger.DebitTakesOne` | src/lib/db/credits.ts:383-438 | a new reservation costs one credit while there is one; only a new one at an empty balance is refused |
| `CreditLedger.UncoveredScanPays` | src/lib/scan-credit.ts:97-123 | over every run a scan its plan does not cover is let through holding a paid credit when its debit is heard, one off the balance for a new reservation; with nothing left it is turned away and nothing moves |
| `CreditLedger.UnheardDebitCosts` | src/lib/db/credits.ts:371-438 | a debit that lands unheard costs what a heard one does; its scan gives up, turned away, and another process that knows the key may hold the credit |
| `CreditLedger.CreditsComeBack` | src/lib/scan-gates.ts:226-243 | over every run giving a paid hold back makes its reservation net nothing and the balance one higher the first time; a grant moves the balance once, stopping at zero; a free hold gives nothing |
| `CreditLedger.GrantMovesTheBalance` | src/lib/db/credits.ts:164-205 | a new grant or adjustment moves the balance by its amount, stopping at zero; a known one not at all |
| `CreditLedger.PaidMeansDebited` | src/lib/scan-credit.ts:97-123 | over every run a scan let through as paid has its debit on the ledger, and has cost a credit exactly when that reservation was not refunded |
| `CreditLedger.CoveredScanMovesNothing` | src/lib/plans.ts:407-432 | a scan its plan covers, by being unlimited or under its allowance, moves nothing over any run around it: no debit or refund of a reservation only it uses ever lands, however often its hold is asked for one |
| `CreditLedger.FreeScansNeverHold` | src/lib/scan-credit.ts:115-148 | over any run, refund calls on it included, a scan let through free or turned away never comes to hold a credit |
| `CreditLedger.SkippedCostsIff` | src/lib/scan-credit.ts:103-114 | a scan that was turned away has cost a credit if and only if its debit landed without its hearing of it, or another process paid on a shared key, and no refund has come |
| `CreditLedger.SecondRefundDoesNothing` | src/lib/scan-gates.ts:226-241 | refunding a hold again, from anywhere and at any later time, changes nothing |
| `CreditLedger.NextKeeps` | src/lib/db/credits.ts:164-438 | every step keeps row balances running, keys unique, refunds naming debits and paid holds on the ledger |
| `CreditLedger.CreditStore.ConsumeOverflow` | src/lib/db/credits.ts:371-438 | one debit lands exactly when some attempt took effect and is answered exactly when one was acknowledged; the answer is "charged" exactly when there was a credit or the key had paid before |
| `CreditLedger.CreditStore.GrantCredits` | src/lib/db/credits.ts:137-216 | a keyed grant lands once exactly when some attempt took effect, is answered exactly when one was acknowledged or nothing was to do, and a taken key changes nothing |
| `CreditLedger.CreditStore.ReserveScanCredit` | src/lib/scan-credit.ts:97-123 | a covered scan passes and moves nothing; without a credit it is skipped; with one it is let through as paid exactly when an attempt of its debit was acknowledged, and is one credit cheaper exactly when one landed for a new key |
| `CreditLedger.Hold.GiveBack` | src/lib/scan-gates.ts:232-243 | a paid hold puts one credit back exactly when an attempt took effect and it had not been put back before, and reports the balance exactly when that is known; an unpaid one does nothing |
| `AlertDoor.DispatchesKeepTheirDistance` | src/lib/alerts.ts:74-84 | over every run two dispatches under one key are a cooldown apart, the later later, whatever the clock does |
| `AlertDoor.ClaimStandsIffDelivered` | src/lib/alert-door.ts:126-165 | over every run a finished delivery's window stands if and only if it was delivered or its release was lost |
| `AlertDoor.OneDeliveryPerWindow` | src/lib/db/scans-audit.ts:119-167 | over every run two delivered alerts of one action and org never fell in one claim window |
| `AlertDoor.UnreadableSendsNothing` | src/lib/alert-door.ts:111-120 | over every run whatever went out went where its own read said, and an alert that was ineligible or whose sink could not be read sent nothing, not even to the deployment's sink, holds no window and is over |
| `AlertDoor.ReasonNamesTheCause` | src/lib/alert-door.ts:167-183 | over every run an unreadable sink, a missing one and a failed dispatch are each recorded if and only if that is what happened; a lost claim is recorded only when a resolved alert claimed nothing |
| `AlertDoor.ResolvedAndWonIsSent` | src/lib/alert-door.ts:111-157 | in every state an eligible alert with a readable sink resolves to where it may go, and goes out there exactly when it wins its slot: always with nothing to claim, with a key free, or with no standing marker in the window; otherwise it ends with the cooldown as the reason, or none when the claim failed |
| `AlertDoor.DispatchEnds` | src/lib/alert-door.ts:149-165 | in every state a dispatch ends: delivered, it keeps the window it holds; failed, it releases its own marker and no other, if the release lands |
| `AlertDoor.TargetIs` | src/lib/alert-delivery.ts:53-70 | an alert may go to its org's own sink, or to the deployment's when the org is known to have none |
| `AlertDoor.BatchWinsIff` | src/lib/alert-door.ts:140-142 | a batch of keys wins something if and only if one of them was free before it |
| `AlertDoor.LoneKeyWinsIff` | src/lib/alerts.ts:74-84 | a key tried once in a batch is won exactly when it was free, and winning stamps it with its own clock reading |
| `AlertDoor.NextKeeps` | src/lib/alert-door.ts:111-183 | every step of interleaved deliveries, sink reads included, keeps stamps spaced, each marker owned by one delivery, standing windows apart, and every phase explained by what was read and claimed |
| `AlertDoor.Door.ClaimRegressionAlert` | src/lib/alerts.ts:74-84 | a key is won exactly when it has no stamp or the cooldown has passed, and only a win stamps |
| `AlertDoor.Door.ClaimBatch` | src/lib/alert-door.ts:140-142 | keys are claimed one by one, each on its own clock reading, and the won ones come back in order |
| `AlertDoor.Door.ClaimOrgAuditOnce` | src/lib/db/scans-audit.ts:119-167 | a window is won exactly when no standing marker of its scope was written in it |
| `AlertDoor.Door.ReadSink` | src/lib/alert-door.ts:111-119 | the segment up to the claim is one event, and names the sink the alert may go to |
| `AlertDoor.Door.TakeSlot` | src/lib/alert-door.ts:126-149 | the segment that claims and sends is one event; an alert that wins nothing is over without a dispatch |
| `AlertDoor.Door.SettleDispatch` | src/lib/alert-door.ts:149-158 | the segment after the dispatch is one event; only a failed dispatch that holds a window goes on to release it |
| `AlertDoor.Door.ReleaseAuditClaim` | src/lib/alert-door.ts:158-163 | the release cancels the delivery's own marker or is lost |
| `AlertDoor.Door.FinishDispatch` | src/lib/alert-door.ts:149-164 | from the dispatch's end on, a failed one gives its window back and a delivered one keeps it |
| `AlertDoor.Door.DeliverAlert` | src/lib/alert-door.ts:111-183 | the whole delivery is a run of the interleaved system's events; it goes out, to the sink it resolved to, exactly when one resolved and the slot was won; a window is kept only by a delivery or a lost release |
| `StandingRegressions.Walk` | src/lib/alerts-detection.ts:313-343 | the running maximum finds the nearest reading that stands `drop` above all newer ones, and the length exit loses nothing |
| `StandingRegressions.Readings` | src/lib/alerts-detection.ts:308-312 | a dimension's series has its first reading from each real scan that has one, newest first |
| `StandingRegressions.DetectStandingRegressions` | src/lib/alerts-detection.ts:295-347 | the report holds exactly the findings, deepest fall first and then by name, length exits changing nothing |
| `StandingRegressions.EachScanGivesItsReading` | src/lib/alerts-detection.ts:308-312 | each scan that lists the dimension gives one reading at its own place, with the score of its first entry, and one that does not gives none |
| `StandingRegressions.RealScansAllCount` | src/lib/alerts-detection.ts:301 | a history no mock engine wrote is read whole |
| `StandingRegressions.ReportedIff` | src/lib/alerts-detection.ts:281-346 | a dimension is reported if and only if a nearest standing reading exists at least `hold` scans back, and then against that reading |
| `StandingRegressions.MockScansNeverMatter` | src/lib/alerts-detection.ts:301 | a mock scan anywhere in the history changes no report |
| `StandingRegressions.NearestIsSmallestClaim` | src/lib/alerts-detection.ts:284-290 | any other reading that stands is further back and no lower |
| `CreditBacklog.FoldCreditBacklog` | src/lib/credit-backlog-model.ts:57-75 | exactly the repositories whose newest rescore job is a credit skip with no later scan, each once, oldest first, ties by first sight, with the oldest time |
| `CreditBacklog.OwedIff` | src/lib/credit-backlog-model.ts:65-70 | a job is owed exactly when it was skipped for insufficient credits and the last listing of its repository, in any letter case, gives no later scan |
| `CreditBacklog.LastListingSpeaks` | src/lib/credit-backlog-model.ts:65 | of several listings of a repository in different letter case the last decides when it was scanned |
| `CreditBacklog.OwedSays` | src/lib/credit-backlog-model.ts:45-71 | an entry has its job's repository and time, and came by push exactly for webhook reasons, by schedule or import for those, and by hand otherwise |
| `CreditBacklog.NewestByRepo` | src/lib/credit-backlog-model.ts:58-64 | one pass leaves, per repository in order of first sight, its newest rescore job, the first of equals |
| `CreditBacklog.CollectOwed` | src/lib/credit-backlog-model.ts:65-72 | the entries collected are those whose held job is owed, in map order |
| `CreditBacklog.PlanSplitsTheBacklog` | src/lib/credit-backlog-model.ts:101-113 | nothing is lost, the oldest are taken up to balance plus allowance, a metered plan draws at most the balance, and a top-up is asked for exactly when something is owed and nothing can be carried |
| `PrivateScanStore.ScrubTwiceIsOnce` | src/lib/private-scan-store.ts:35-119 | on every report a second scrub changes nothing |
| `PrivateScanStore.StoredCleanOrUntouched` | src/lib/private-scan-store.ts:35-119 | public and local reports are stored as they are; any other private one with no claim quote, rule, command, contradiction quote or prose, its counts and scores kept |
| `PrivateScanStore.ClaimReadsOneWay` | src/lib/private-scan-store.ts:48-58 | the claim pattern has at most one reading of a line and one look finds it |
| `PrivateScanStore.NoQuoteSurvives` | src/lib/private-scan-store.ts:56-64 | a matched line comes out with no double quote, any other as it was |
| `PrivateScanStore.EachLineIsElided` | src/lib/private-scan-store.ts:35-64 | in a private report every line that reads as a claim keeps its head and path and no quote, and every other line stays as it is |
| `PrivateScanStore.RenderedHeadIs` | src/lib/private-scan-store.ts:46-48 | all three openings the renderer writes are recognised, whatever facet follows |
| `PrivateScanStore.OpeningsAre` | src/lib/private-scan-store.ts:48 | a line opens a claim exactly when it starts with one of the three openings |
| `PrivateScanStore.OneCitationIsElided` | src/lib/private-scan-store.ts:46-64 | a rendered line with one citation keeps facet, points and path and nothing of the quote |
| `PrivateScanStore.TwoCitationsAreElided` | src/lib/private-scan-store.ts:46-64 | a rendered line with two citations keeps both paths and nothing of either quote |
| `PrivateScanStore.StructureIsKept` | src/lib/private-scan-store.ts:66-119 | paths, vendors, kinds, endpoints, capability facts, coherence, counts and orders survive the scrub |
| `PrivateScanStore.EdgesSpeakAFixedVocabulary` | src/lib/private-scan-store.ts:82-90 | what is stored of a diverging edge is one of two fixed lines or opens with a derived key of its own; a rule line never survives; other edges are untouched |
| `PrivateScanStore.CommandEdgeKeepsItsKey` | src/lib/private-scan-store.ts:88-89 | a diverging command keeps its derived key whatever was written after the colon |
| `PrivateScanStore.DerivedKeyIff` | src/lib/private-scan-store.ts:32 | a derived key is exactly a lower-case letter followed by lower-case letters, digits and dashes |
| `PrivateScanStore.SubjectIsKeyOrPlace` | src/lib/private-scan-store.ts:92-102 | a stored contradiction keeps a command's derived key, and any other subject is its kind and the decimal of its place from one on |
| `PrivateScanStore.StoredSubjectsAreDistinct` | src/lib/private-scan-store.ts:92-102 | two stored contradictions share kind and subject only if both are commands of one derived key, so numbered rows stay unique |
| `PrivateScanStore.EdgeTwice` | src/lib/private-scan-store.ts:82-90 | a scrubbed edge, rule or command, maps to itself |
| `PrivateScanStore.ContradictionTwice` | src/lib/private-scan-store.ts:92-102 | a scrubbed contradiction at its own place maps to itself |
| `StableSort.SortIsStable` | src/lib/credit-backlog-model.ts:73 | the sort every list here goes through orders by key and keeps equal keys in the order they came |
| `StableSort.SortForgetsOrder` | src/lib/auth.ts:642-647 | with distinct keys the result depends only on what was sorted |

## Left out

- RateLimitStore.FleetCeiling: assumes unique members and a count at or after the clock read; key expiry is not modelled, and when the breaker opens and closes is a parameter.
- RateLimitStore.SafeLengthIff: takes a positive limit and a positive window.
- RateLimitWindow.ReaperRefinesNoReaper: each key keeps one limit and one window for the whole run, as each limiter's configuration gives it; two limiters sharing a key are not modelled.
- ScanCoalescer.Coalescer.CoalesceScan: the linger window is positive, a join callback does not throw, listeners do not call back into the coalescer, and each caller's sink is its own.
- FanOutPool.MapPoolUntilDeadline: work never throws, as its contract says; after a settlement a lane may turn at any later moment, where the source turns at once, so the theorems cover more schedules than occur.
- FanOutPool.MapPool: work is a pure function of the item and its index, so side effects are not modelled.
- SessionLifecycle.RevokedLineageDies: a cookie minted more than the delay after the bump is outside the bound; `OutlivesTheBumpIff` says what becomes of it. A legacy cookie without an inactivity horizon is not modelled.
- SessionBudget.BuildSession: the encoding is an arbitrary size function.
- ScanQuota.StandingChargesBounded: parsing of a malformed stored row is not modelled.
- ScanQuota.DenialNamesTheFirstFreeInstant: needs transactions in clock order; for any stored window `ResetAtIsFirstAllowed` says exactly when it holds.
- CreditLedger.CreditsAreConserved: a vanished organisation, the keyless refund path, cumulative order clawbacks and low-credit alerts are not modelled; negative adjustments see the balance their transaction reads.
- AlertDoor.OneDeliveryPerWindow: claim transactions are serialised; a stored marker's retention purge is not modelled.
- AlertDoor.Door.DeliverAlert: an alert without an org cannot hold a window; the history row's contents and message building are not modelled, only whether a row is due.
- StandingRegressions.DetectStandingRegressions: the locale's collation is an arbitrary order, and the observation sentence is not printed.
- CreditBacklog.FoldCreditBacklog: instants are numbers where the source compares ISO strings of one format.
- CacheKey.KeyReadsBack: names are taken already normalised and free of the key's separators; percent-decoding and non-ASCII case folding are not modelled, and FNV collisions are possible.
- PrivateScanStore.TwoCitationsAreElided: a quote that itself contains the separator may leave a piece of quoted text standing as a second path; no claim is made about it.
- Arrays held by the limiter's map are values here, so aliasing between a trimmed array and the map's own is not modelled.
- drainUntilDeadline: the same lane mechanics over a supplier; it would repeat the pool's proofs.
- Plan tables, cron routes, message copy, URL and redirect checks, LLM error classification: finite tables, text and platform parsers.
- User interface, transport, HMAC and hashing of secrets, and the database schema: foreign code or no stateful logic of their own.
