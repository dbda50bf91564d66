# Verified model of request quotas and usage counting

A Dafny model, with proofs, of the parts of the LLM proxy that count requests and hold users to quotas,
and of the two lookups that decide which quota and which model a request is about:

- **Request pools** (`CappedSplit`, `SplitPass`, `SplitLaws`, `SplitExact`, `SplitRounds`, `Apportionment`,
  `Settlement`, `SettlementLaws`, `SettlementTerms`, `PoolSettlement`, `PoolRuns`, `PoolLaws`, `PoolScopes`).
  Settling a pool divides what it consumed among its members by largest remainder, capped at each member's
  headroom. The split is a loop over mutable state, proved to compute a function that is then characterised
  without it, twice: by its level, and exactly, by its rounds. Settlement, admission and clearing are proved on
  the tables scope by scope, then over every run of a day, then over all scopes.
- **The usage buffer and its flush** (`UsageBuffer`, `UsageTables`, `FlushProtocol`, `SettlementReads`,
  `Retention`, `Calendar`). The buffer's operations update dictionaries in place. The flush is a step system:
  each stretch of code between two awaits is one step, in any interleaving. Retention follows rows through
  the hourly, daily and monthly tables.
- **Locks and single flights** (`AsyncLock`, `UserLocks`, `RateTables`, `RateGate`, `RateSteps`, `RateBound`,
  `RateClock`, `RateTight`, `SingleFlight`, `ServedCounts`, `ReentrantLock`, `ReentrantSteps`, `LockOrder`,
  `LockPrograms`, `LockDeadlock`, `LockSafety`, `Slots`). asyncio.Lock is a held flag with a waiter queue
  in which releasing clears the flag before the next waiter runs, and waiters can be cancelled at any time.
- **Names and groups** (`ModelAlias`, `ModelCache`, `ModelNames`, `ModelScopes`).

`Arith`, `Sums`, `Sorting` and `Options` are shared background. `dafny verify dfyconfig.toml` checks it all.

## What does not hold

Six properties one could read into the code or its comments fail; each has its exact boundary.

- A flush is cancelled at shutdown (app/request_tracker.py:103-112), and a cancellation that lands after its
  commit leaves the counts in the buffer for the final flush to store again. Usage is conserved if and only
  if no flush was cut short there (`FlushProtocol.ConservedIff`), and what is stored twice is exactly the
  snapshots that were (`FlushProtocol.EveryCountIsAccountedFor`, `FlushProtocol.ShutdownCanDouble`).
- The nothing-closed skip of settlement does not always leave members in step once rows are deleted under a
  live pool (`PoolLaws.PurgeCanHideBehindGrowth`); `SettlementLaws.SettleBringsInStep` says exactly when it does.
- The usage purge takes its pool guards before holding off the flush, but looks the users' pools up again
  when it resettles. `LockPrograms.PurgeIsOrderedIff` gives the condition under which the documented lock
  order holds, `LockDeadlock.LatePurgeCanDeadlock` a run into a deadlock whenever it does not, and
  `LockSafety.PurgeIsDeadlockFreeIff` both together.
- A per-minute limit holds for the minute a check began in, and there once per invalidation of the group
  (`RateBound.RpmIsNeverExceeded`, `RateTight.InvalidationsRenewLimit`). By the clock it can be passed, by one
  and never by two: exactly when a check begun earlier is let through and the others use it up
  (`RateClock.LimitIsPassedIff`). It holds by the clock in every run if and only if the key has no daily limit
  beside it, or it is 0 (`RateTight.LimitHoldsIff`).
- Traffic of an instance whose key marks it as a user's own (BYOK) is settled nowhere, but a group that claims
  the instance counts it. New members are only admitted from instances nobody owns
  (app/routes/admin.py:2366-2381), so it takes a legacy instance with such a key and no owner
  (`ModelScopes.LegacyInstanceIsCountedNotSettled`). The two counts agree if and only if the group claims no
  such row (`ModelScopes.SettlementReadsWhatIsEnforcedIff`).
- With two different client names in one request, an answer to the first can be mapped again
  (`ModelAlias.AnswersCanChainAfterSecondInput`): if and only if some call brought a second name that is mapped
  (`ModelAlias.AnswersStandIff`). With one it cannot (`ModelAlias.NeverChains`).

Two remarks on the comments of the split: app/auth/pools.py:99-100 allows one pass more than there are
members, and at most as many as members are ever needed (`Apportionment.Apportion`); and a refund, described
as proportional, passes over a member whose limit is 0, who has no weight (`SplitLaws.ChargedStaysInRange`).

## Model

| member | source | states |
|---|---|---|
| SplitPass.LeftoverFits | app/auth/pools.py:108-109 | After flooring, what is left over is not negative and smaller than the number of members whose exact share is fractional |
| SplitPass.PassTotal | app/auth/pools.py:108-117 | One pass hands out exactly what there was to split |
| SplitPass.PassIsRounding | app/auth/pools.py:108-117 | Quota rule: every share of a pass is the floor or the ceiling of the exact proportional share; no weight, no share |
| SplitPass.LeftoverOnlyToFractions | app/auth/pools.py:111-117 | A leftover request only goes to a member whose exact share is not whole |
| SplitPass.FairRounding | app/auth/pools.py:68-69 | Within a pass a larger limit never gets a smaller share, and between equal limits the heavier consumer gets at least as much, then the lower id |
| SplitRounds.PassIsLargestRemainder | app/auth/pools.py:110-117 | One pass is a round of largest remainder, spelled out: whole parts, and one more for whoever has the larger remainder, at equal remainders the larger consumption, then the lower id |
| SplitRounds.OneLargestRemainder | app/auth/pools.py:110-117 | There is only one such division |
| SplitRounds.SharesInRoundsIff | app/auth/pools.py:57-134 | The whole split, exactly: shares for the members are the ones returned if and only if they come out of rounds of largest remainder over weights, rooms and consumption read off the member list, each round pinning whom it takes past their room |
| SplitRounds.LeftoverGoesByRemainder | app/auth/pools.py:110-117 | Of two members who did not hit their cap, both have the whole part of their exact share at one level or one more, and the one with the larger remainder has one more if the other does; between equal remainders the heavier consumer, then the lower id, whatever their limits |
| SplitLaws.PinningRaisesLevel | app/auth/pools.py:126-130 | Pinning capped members strictly raises the level (remaining over weight) for the rest |
| SplitLaws.PinnedBelowEnd | app/auth/pools.py:119-130 | Whoever is pinned in any pass lies strictly below the final level: no pin is premature |
| SplitLaws.SplitIsCappedProportional | app/auth/pools.py:95-130 | The result meets an independent description of a capped proportional split: one level; pinned members at their headroom and strictly below it; all others within rounding of it and within headroom |
| SplitLaws.SplitTotal | app/auth/pools.py:60-61 | The shares add up to the whole amount, or to all the headroom of members with weight if that is less |
| SplitLaws.SharesTotal | app/auth/pools.py:60-61 | Signed: the shares of a charge or refund add up in size to the smaller of the delta and the absorbable headroom |
| SplitLaws.ChargedStaysInRange | app/auth/pools.py:71-76 | A charge never takes a member past their limit (or past where they were), a refund never below 0; a member without a positive limit is not touched, refunds included |
| SplitLaws.OrderDoesNotMatter | app/auth/pools.py:57-134 | The result does not depend on the order of the member list |
| SplitLaws.FairSplit | app/auth/pools.py:68-73 | Fair rounding of the whole split, charge or refund: next to a member who was not capped, nobody with a smaller limit, or an equal one and less consumption, or both equal and a higher id, gets a larger share |
| SplitExact.OneExactFit | app/auth/pools.py:119-130 | At most one set of members has its headroom below the exact level of the others: the members an exact division pins |
| SplitExact.ExactFitExistsIff | app/auth/pools.py:119-130 | There is such a set if and only if some member has weight and the headroom of those with weight is enough for the amount |
| SplitExact.SplitPinsWithinExact | app/auth/pools.py:119-130 | The loop, though it rounds before it pins, never pins anybody whom an exact division would leave under their cap |
| SplitExact.RoundedToCapIsPinnedOrNot | app/auth/pools.py:119-130 | The pinned set is not fixed by the rounded shares: with two equal limits and three requests, a member rounded down to their headroom may count as pinned or not |
| Apportionment.Apportion | app/auth/pools.py:57-134 | The loop, mutating shares, active and remaining in place, computes the split the laws above are about, in rounds of largest remainder, and takes at most as many passes as there are members |
| Apportionment.HandOutLeftover | app/auth/pools.py:110-117 | Sorting by remainder, consumption and id and giving one more to the first few yields the pass described by rank |
| Apportionment.PinMembers | app/auth/pools.py:126-130 | Pinning moves exactly the capped members out of the running and their headroom out of what remains |
| SettlementLaws.SettleBringsInStep | app/auth/pools.py:362-441 | After settling, every member is charged exactly rows plus carry, if and only if the nothing-closed skip was not taken or they already were |
| SettlementLaws.ChargedEqualsUsed | app/auth/pools.py:29-32 | After any settlement, skips included, the charges of the members add up to the used count of the pool |
| SettlementLaws.SettleTwiceIsSettleOnce | app/auth/pools.py:344-346 | Settling again before anything else is used changes no table |
| SettlementLaws.SettleLeavesOthersAlone | app/auth/pools.py:335-337 | Settling a pool changes no carry of a non-member and no ledger row of another pool |
| SettlementLaws.DeactivatedAbsorbNothing | app/auth/pools.py:423-427 | On a limited scope a deactivated member absorbs nothing of a positive delta |
| SettlementLaws.LimitedCharge | app/auth/pools.py:415-441 | On a limited scope a charge only moves up, to at most the limit or where it was |
| SettlementLaws.UnlimitedKeepsUse | app/auth/pools.py:388-412 | On an unlimited scope settling leaves the effective use of a member as it was, clamped to their own limit: it never resets it |
| SettlementLaws.AdmissionCharge | app/auth/pools.py:449-460 | Joining leaves the effective use and opening charge of the joiner at the smaller of their own limit and what they used, whatever the pool spent before, and nobody else changes |
| SettlementLaws.LimitedLoss | app/auth/pools.py:60-61 | On a limited scope exactly what exceeds the headroom of all members drops off the books |
| SettlementTerms.UncappedSettlement | app/auth/pools.py:387-413 | On an unlimited scope, in terms of the rows alone: whoever has anything on the books gets a ledger row with their use, not below 0 and not above their own limit, and the carry that goes with it; nothing else is written |
| SettlementTerms.CappedSettlement | app/auth/pools.py:415-441 | On a limited scope, of either sign, in terms of the rows alone: nothing closed, nothing written unless dissolving; else every charge moves by what rounds of largest remainder give the member, weighed by limit, or by charge if deactivated, all in one direction |
| SettlementTerms.RefundReaches | app/auth/pools.py:423-434 | A negative delta is given back to exactly those who are charged and are deactivated or have a limit above 0, nobody falling below 0: in all the smaller of it and what they are charged |
| SettlementTerms.RefundIsExact | app/auth/pools.py:423-434 | So when whoever is active and charged has a limit above 0, the charges after a refund add up to what the pool has used, deactivated members included |
| SettlementTerms.AdmissionMeans | app/auth/pools.py:446-504 | Joining writes one ledger row, the own use clamped to the own limit, and its carry, or nothing for who has nothing on the books |
| SettlementTerms.ClearMeans | app/auth/pools.py:507-523 | Leaving drops the one ledger row; every carry and every other row stays |
| PoolSettlement.SettlementTables.SettlePool | app/auth/pools.py:335-443 | The method, collecting rows scope by scope and writing two upserts, does to each scope of the tables what the settlement function says and leaves other scopes alone |
| PoolSettlement.SettlementTables.SettleUnlimited | app/auth/pools.py:387-413 | An unlimited scope records for each member the clamp of what they sent |
| PoolSettlement.SettlementTables.SettleLimited | app/auth/pools.py:423-441 | A limited scope records old charge plus share for each member |
| PoolSettlement.SettlementTables.Record | app/auth/pools.py:362-375 | A ledger row always, a carry row when it says something or corrects one |
| PoolSettlement.SettlementTables.IsUnlimited | app/auth/pools.py:384-387 | A scope is unlimited exactly when an active member has no limit on it |
| PoolSettlement.SettlementTables.ReadDelta | app/auth/pools.py:415-419 | The delta is the used count of the members less what they were charged |
| PoolSettlement.SettlementTables.AdmitMember | app/auth/pools.py:446-504 | Admission, on every scope, writes the opening rows of the joiner |
| PoolSettlement.SettlementTables.ClearMember | app/auth/pools.py:507-523 | Clearing drops the ledger rows of one membership on every scope and keeps the carry |
| PoolRuns.StepKeepsInv | app/auth/pools.py:335-337 | Usage, settling, creating, joining, leaving, dissolving and rule changes each keep: base plus carry equals charge for every member, pools disjoint, the ledger only of members, all carries together minus what was wiped off |
| PoolRuns.RunKeepsInv | app/auth/pools.py:29-32 | The same over any run of a day |
| PoolRuns.CompositionClosesInterval | app/auth/pools.py:14-24 | Creating, joining, leaving and settling close the interval first: whoever is in the pool before and after ends up charged exactly what they used, and the members are the old ones and the joiner, or less the leaver |
| PoolRuns.DissolvingClosesPool | app/auth/pools.py:335-337 | Dissolving settles even when nothing closed, then the pool and all its ledger rows are gone and those of other pools are as they were |
| PoolRuns.UseAddsRows | app/auth/database.py:2257-2279 | Requests add to the rows of their user and to nothing else |
| PoolRuns.AnyoneMayMove | app/auth/pools.py:446-523 | Whoever is in no pool can open one or join any, and a member can leave at any time and then do the same |
| PoolRuns.SettledInStep | app/auth/pools.py:420-421 | In a run, even when the skip is taken, every member ends up charged what they have used |
| PoolRuns.SettlementLoss | app/auth/pools.py:60-61 | A settlement wipes off exactly what its caps and clamps exceed |
| PoolLaws.DeltaCountsOnlyOwnInterval | app/auth/pools.py:14-24 | At any moment of any day a delta is exactly the requests since the own last settlement or admission of each member: never something spent before a member arrived |
| PoolLaws.SettlementBalances | app/auth/pools.py:29-32 | Right after a settlement, whatever came before, the effective use of every member is their charge and the used count of the pool is the sum of the charges |
| PoolLaws.PoolHoppingBound | app/auth/pools.py:7-12 | With fixed limits, through any joins and leaves, every member with a limit stays charged between 0 and that limit |
| PoolLaws.NoInventedUsage | app/auth/pools.py:60-61 | All carries together are never positive, and cancel out if and only if no cap or clamp ever took effect |
| PoolScopes.EveryScopeLivesADay | app/auth/pools.py:335-443 | In a day over all scopes at once the pools are the same on every scope, and each scope is where its own events alone take it: the laws of one scope hold on all |
| PoolScopes.ChangesReachTheirScopes | app/auth/pools.py:335-443 | A change of composition happens on every scope at once; usage and rules on the one they are of and on no other |
| SettlementReads.SettlementReadsAllCompleted | app/auth/pools.py:356-360 | Holding the flush off, a settlement reads exactly the requests completed before its flush and not removed, plus what a flush cut short earlier had stored twice; none completed meanwhile |
| SettlementReads.SettlementGoesThrough | app/auth/pools.py:335-360 | From any reachable state with the mutex free, with anything or nothing buffered, there is a settlement whose flush goes through |
| PoolLaws.PurgeCanHideBehindGrowth | app/auth/pools.py:420-421 | With rows deleted, the skip can leave members out of step: a purge of one that new requests of another cancel; dissolving repairs it |
| UsageBuffer.RequestTracker.EndRequest | app/request_tracker.py:281-310 | The request leaves the active map. A completed or cancelled one with a model, a known type and a user adds one under the key with its date, hour, user, labels, model and server, and the pool of the user, or none for BYOK traffic; an errored, modelless, unknown or unattributed one leaves the buffer as it was |
| UsageBuffer.RequestTracker.SubtractSnapshot | app/request_tracker.py:219-225 | The subtraction loop takes the snapshot off key by key and deletes what reaches 0 |
| UsageBuffer.RequestTracker.RenameIdentity | app/request_tracker.py:354-385 | In-flight requests of the user are relabelled and their buffered counts merged under the new label, none lost |
| UsageBuffer.RequestTracker.DropBuffered | app/request_tracker.py:387-404 | Every buffered count of that user, model or pool goes, nothing else, and the number returned is their sum |
| UsageBuffer.RequestTracker.ForgetUser | app/request_tracker.py:406-430 | In-flight requests are detached and buffered counts dropped together |
| UsageBuffer.RequestTracker.CountBuffered | app/request_tracker.py:541-546 | The buffer half of a today-count is the sum of the matching counts |
| UsageBuffer.MinusGroup | app/request_tracker.py:219-225 | Subtracting a snapshot that is nowhere above the buffer takes off exactly its counts: deleting at 0 discards none |
| UsageBuffer.RelabelledGroup | app/request_tracker.py:377-385 | Relabelling changes no total that does not depend on the label |
| UsageTables.HourlyRows | app/request_tracker.py:163-177 | The hourly rows of a flush carry, per date, hour, user, model, server and pool, the total of the snapshot over labels |
| UsageTables.DailyRows | app/request_tracker.py:179-200 | The daily rows carry, per date, user, model, server and pool, the total of the snapshot over hours and labels |
| UsageTables.Database.FlushUsageRows | app/auth/database.py:2257-2279 | Both tables grow by the rows given, or on failure neither changes |
| UsageTables.Database.WriteSnapshot | app/request_tracker.py:202-215 | On success the snapshot has gone into each table exactly once, on failure into neither |
| FlushProtocol.StepKeepsInv | app/request_tracker.py:99-225 | Requests ending, flush steps, flushes cancelled at any await, renames, drops, forgets and purges in any interleaving each keep: buffered plus stored is what was counted and not removed, and what is there twice; the snapshot is nowhere above the buffer |
| FlushProtocol.RunKeepsInv | app/request_tracker.py:99-225 | The same in every state of every run |
| FlushProtocol.EveryCountIsAccountedFor | app/request_tracker.py:148-225 | For each row of either table: buffered plus stored, less a flush written but not yet subtracted, is what was counted and not removed plus exactly the snapshots of the flushes cancelled between commit and subtraction; and the subtraction is exact |
| FlushProtocol.ConservedIff | app/request_tracker.py:202-225 | No count is lost or stored twice if and only if no flush of a non-empty snapshot was cancelled between its commit and its subtraction |
| FlushProtocol.ShutdownCanDouble | app/request_tracker.py:103-112 | From any reachable idle state with counts buffered there is a shutdown, cancelling the flush loop after its commit, that stores each of them twice |
| FlushProtocol.StoredOverTime | app/auth/database.py:2257-2279 | Stored rows only ever leave by being purged |
| FlushProtocol.ReadersNeverUndercount | app/request_tracker.py:541-577 | A count that reads the buffer first and the table later, whatever flushes run between, is at least the matching requests completed at the first read and not removed since |
| FlushProtocol.ForgottenStaysForgotten | app/request_tracker.py:406-430 | After a user is forgotten, nothing in memory is attributed to them and no later flush writes them a row, unless a later request authenticates as them |
| FlushProtocol.EndIsCounted | app/request_tracker.py:271-310 | In the step system too a request end is counted, in the buffer and both histories, exactly when it was completed or cancelled and names a model and a known, attributed user |
| FlushProtocol.RequestsComeAndGo | app/request_tracker.py:239-385 | Beginning lists a request, identifying relabels it, a rename relabels those of the user, ending takes it off, and nothing else changes a request in flight |
| FlushProtocol.FailedFlushIsRetried | app/request_tracker.py:202-225 | A flush that fails, or is cancelled before its commit, changes no count, and the next one takes at least all it had |
| FlushProtocol.PurgeEmptiesAxis | app/auth/database.py:2447-2476 | A purge empties the rows of that user, model or pool in both tables and leaves every other row and everything in memory |
| FlushProtocol.DropEmptiesBuffer | app/request_tracker.py:387-430 | A drop empties the buffered counts of that user, model or pool and no others; forgetting a user also detaches what they have in flight |
| FlushProtocol.MutexHoldsOff | app/request_tracker.py:128-141 | While a task holds the mutex nobody else flushes, renames, drops or forgets, and it does so itself only between its own flushes; requests come, end and are purged at any time |
| Calendar.BoundsMatchLength | app/auth/database.py:2319-2324 | The bounds of a month span exactly its length: the age test and the rows moved go by the same days |
| Calendar.MonthOfIff | app/auth/database.py:2348-2364 | A date falls in a month exactly when it lies between its bounds; months do not overlap |
| Calendar.Gregorian | app/auth/database.py:2319-2324 | Months follow one another without a gap, each as long as in the Gregorian calendar, leap years included |
| Calendar.FourHundredYears | app/auth/database.py:2319-2324 | Every month begins 146097 days after the same month 400 years before |
| Retention.PruneKeepsTotals | app/auth/database.py:2281-2295 | Pruning keeps every hourly total from yesterday on and nothing older; missed prunes make no difference: the next one leaves the same table, whatever was flushed in between |
| UsageTables.Database.RollUpMonth | app/auth/database.py:2363-2403 | The daily rows of a month move into the monthly table, summed per user, model, server and pool, and no other row changes |
| UsageTables.Database.RollupToMonthly | app/auth/database.py:2327-2408 | Month by month; only aged months move, all of them when nothing fails, and a failure leaves whole months |
| Retention.StepKeepsInv | app/auth/database.py:2257-2408 | Passing days, flushes, prunes, rollups and purges keep: recent days whole in the daily table, daily plus monthly complete, hours adding up since yesterday |
| Retention.TablesFill | app/auth/database.py:2257-2295 | A flush adds the snapshot to the hourly rows and the daily rows, key by key; a prune drops the hourly rows dated before yesterday and nothing else |
| Retention.RollupMovesMonths | app/auth/database.py:2363-2403 | A rollup empties the daily rows of its months and adds them to the monthly rows of their user, model, server and pool, and touches no other |
| Retention.AgedMonthsMove | app/auth/database.py:2359-2361 | A month can be rolled up exactly when its last day is more than thirty days ago |
| Retention.PurgeEmptiesTables | app/auth/database.py:2447-2476 | A purge empties the rows of that user, model or pool in the hourly, daily and monthly table and leaves every other |
| Retention.RecentIsNotAged | app/auth/database.py:2359-2361 | No row dated thirty days ago or later is in a month old enough to move |
| Retention.OlderDayMayBeAged | app/auth/database.py:2359-2361 | Thirty days is the limit: the last day of any month moves at thirty-one |
| Retention.ReportIsExact | app/auth/database.py:2879-2896 | A report over days from thirty days ago on, from the daily table alone, equals all usage recorded in them, per user, per model or in total |
| Retention.MonthWindowIsExact | app/auth/database.py:2715-2720 | Daily and monthly rows of a month together hold each request recorded in it once |
| Retention.ChartMatchesTable | app/auth/database.py:2265-2267 | Since yesterday the hourly rows of a day add up to its daily row |
| Retention.PurgeCountIsExact | app/auth/database.py:2489-2508 | The count shown before a purge, daily plus monthly on an axis, is everything recorded there |
| AsyncLock.RequestKeeps | app/concurrency.py:10-18 | Acquiring keeps the queue sound: no task twice, no lost wake-up |
| AsyncLock.ReleaseKeeps | app/concurrency.py:10-18 | Releasing clears the flag and wakes the first waiter without giving it the lock |
| AsyncLock.WithdrawKeeps | app/concurrency.py:10-18 | A cancelled waiter passes the wake-up on |
| AsyncLock.UnlockedIsNotIdle | app/concurrency.py:10-18 | A lock can read unlocked while a woken waiter is about to take it: why eviction counts waiters |
| AsyncLock.RequestQueues | app/concurrency.py:10-18 | A lock is taken at once when it is free and nobody still wants it; else the task goes to the end of the queue |
| AsyncLock.ReleaseWakesFirst | app/concurrency.py:10-18 | Releasing wakes the first in the queue unless it has been woken or has given up, and hands nothing over |
| AsyncLock.PlaceInQueue | app/concurrency.py:10-18 | Taking, cancelling and withdrawing leave the order of all others as it was; a withdrawing task passes a wake-up on exactly when the flag is clear |
| UserLocks.SweptKeeps | app/rate_limit.py:559-567 | Sweeping idle locks at any moment drops no lock a task holds or awaits |
| UserLocks.SweptExactly | app/rate_limit.py:559-567 | A lock goes exactly when its user has no bucket left and it has neither a holder nor a queue; every other stays the same lock |
| UserLocks.SomebodyMoves | app/rate_limit.py:366-369 | No wake-up is lost: wherever a task waits, some task of the same user is inside, or has been woken or cancelled and has its turn |
| UserLocks.OnePerUser | app/rate_limit.py:366-369 | Two tasks inside the section of one user are the same task |
| RateTables.RateLimiter.CurrentBucket | app/rate_limit.py:1028-1034 | The bucket of this minute is reused, an older or missing one replaced by a fresh one, and no other entry touched |
| RateTables.RateLimiter.EvictStale | app/rate_limit.py:540-572 | A bucket goes exactly when it is older than the last minute, a daily count of either cache when it expired more than five minutes ago, a user lock when it has neither holder nor queue and its user no Default bucket, a pool lock when it has neither; all others are untouched |
| RateTables.RateLimiter.InvalidateGroup | app/rate_limit.py:574-589 | The buckets and cached counts of the group go, and no others |
| RateSteps.FollowEvict | app/rate_limit.py:540-572 | The sweep of the class does to buckets and locks what the eviction step of the system does |
| RateSteps.FollowInvalidate | app/rate_limit.py:574-589 | Invalidating a group does to the buckets what the invalidation step does |
| RateSteps.FollowPick | app/rate_limit.py:1028-1034 | Choosing the bucket of this minute is the choice the system makes, object by object |
| RateSteps.FollowAdmit | app/rate_limit.py:1073-1075 | Counting a check is counting in the bucket it holds, listed or not |
| RateGate.EvictKeepsInv | app/rate_limit.py:540-572 | Eviction keeps the count of every bucket that still matters |
| RateGate.CheckIsDecided | app/rate_limit.py:1021-1075 | A check in the section is refused if and only if it read a limit and its bucket of this minute holds that many; else it is counted there and then, or awaits its daily count |
| RateGate.OthersLeave | app/rate_limit.py:1036-1075 | A check refused by its daily limit or cancelled while it waits counts nothing and is gone |
| RateGate.NobodyIsStuck | app/rate_limit.py:1018-1075 | In every state the invariant allows: a check can begin, the sweep run, a group be invalidated and a waiting check be cancelled, which then leaves; and wherever a check waits, some check of that user can go on |
| RateGate.StepKeepsInv | app/rate_limit.py:1021-1075 | Arrivals with whatever limits they read, wake-ups, cancellations, admissions, refusals, the clock, eviction and group invalidations keep: buckets hold exactly the admissions of their minute since they were made, below the limit while a check is in progress |
| RateGate.MutualExclusion | app/rate_limit.py:366-369 | Under any interleaving with eviction, at most one task is inside the critical section of a user |
| RateBound.RpmIsNeverExceeded | app/rate_limit.py:1024-1074 | When no check of a key reads a limit above r, the key is admitted among the checks begun in one minute at most r times, and r more for each invalidation of its group in that minute; Default, which is never invalidated, at most r times |
| RateTight.InvalidationsRenewLimit | app/rate_limit.py:574-589 | The bound is met for every group limit and every number of invalidations: a run of one minute that admits the limit times one plus the invalidations |
| RateClock.AccountByTheClock | app/rate_limit.py:1024-1074 | What is let through in a minute by the clock is what was admitted among the checks begun in it, less those let through later, plus those begun earlier, which is at most one |
| RateClock.LimitIsPassedIff | app/rate_limit.py:1024-1074 | By the clock a limit is passed in a minute if and only if a check begun earlier is let through in it and those begun in it and let through in it use the limit up; then it is passed by exactly one |
| RateClock.PromptLimitHolds | app/rate_limit.py:1047-1074 | A key without a daily limit never passes its limit by the clock: its checks await nothing between choosing the bucket and counting |
| RateTight.LimitCanBePassedByOne | app/rate_limit.py:1041-1074 | For every limit above 0 with a daily limit beside it there is a run that passes it by one: a check held up by its daily count past the end of its minute, then as many as the limit allows |
| RateTight.LimitHoldsIff | app/rate_limit.py:1041-1074 | A per-minute limit holds by the clock in every run and minute if and only if there is no daily limit beside it, or it is 0 |
| SingleFlight.StepKeepsInv | app/rate_limit.py:1250-1282 | Asking, waking, cancelling, loading, failing and forgetting keep the flight table exact |
| ServedCounts.ServedWhileLive | app/rate_limit.py:1250-1282 | After any run, a caller is answered from the cache if and only if an entry expires after the wall clock then, with that very count and no load; a failure since they came answers the last count known, or 0 if there was none; everybody else loads or waits |
| ServedCounts.EntriesExpire | app/rate_limit.py:1268-1272 | Every entry there ever is was put there by a load of its key and expires five seconds after the wall clock at which that load began |
| ServedCounts.OthersGo | app/rate_limit.py:1276-1282 | A caller cancelled while waiting or loading is gone once it has run; the wall clock may be set either way |
| SingleFlight.NobodyIsStuck | app/rate_limit.py:1253-1282 | Anyone can ask at any time, whatever the clocks read; a load can succeed, fail or be cancelled; and wherever a caller waits, some caller of that key can go on |
| SingleFlight.OneLoadPerKey | app/rate_limit.py:1240-1244 | In every reachable state at most one load runs per cache key |
| SingleFlight.FlightsAreCounted | app/rate_limit.py:1256-1282 | The holder count is the number of callers between increment and decrement, and the flight is listed exactly while there is one |
| SingleFlight.OnlyLoadedCounts | app/rate_limit.py:1246-1247 | Every cached count, and every count given other than the 0 of an empty cache, came from a successful load of that key |
| SingleFlight.FailureIsShared | app/rate_limit.py:1248-1249 | Callers waiting when a load fails never load themselves: whoever loads next arrived after the failure |
| ReentrantLock.TaskReentrantLock.Enter | app/concurrency.py:47-55 | A holder goes one nesting deeper without touching the lock; anybody else takes it or queues |
| ReentrantLock.TaskReentrantLock.Resume | app/concurrency.py:53-55 | The woken task owns the lock at depth 1 |
| ReentrantLock.TaskReentrantLock.GiveUp | app/concurrency.py:47-55 | A task cancelled while waiting opened no nesting |
| ReentrantLock.TaskReentrantLock.Exit | app/concurrency.py:57-62 | The depth, always the open nestings of the owner, drops by one and the lock is let go exactly at the outermost |
| ReentrantSteps.Follow | app/concurrency.py:47-62 | The lock object goes along with every step of the lock system: its queue and owner are those of the system, its depth how often the owner has the name open |
| LockOrder.StepKeepsInv | app/concurrency.py:21-62 | Any number of tasks running any ordered programs, cancelled or failing anywhere: each lock agrees with the tasks on who holds and awaits it |
| LockOrder.NestingAllowed | app/rate_limit.py:380-384 | The order, spelled out: pool locks and the flush mutex may be taken inside themselves and no other lock may; pool locks go ascending, and before the flush mutex, never after |
| LockOrder.BlocksOpenAndClose | app/concurrency.py:47-62 | A task that enters a block has it open or waits with everything as it was; leaving closes the innermost |
| LockOrder.TasksBeginAndEnd | app/concurrency.py:47-62 | A task starts holding nothing and ends with its program run; one that fails or gives up closes exactly the blocks it has open |
| LockOrder.CancelledAnywhere | app/concurrency.py:47-62 | In every state the invariant allows a task can be cancelled wherever it waits and fail wherever it runs |
| LockOrder.SomeBlockerCanStep | app/rate_limit.py:380-384 | Wherever a task is blocked, the holder of a lock somebody is blocked on, or the task it was left to, can take a step |
| LockOrder.NoDeadlock | app/rate_limit.py:380-384 | While any task is unfinished, some task has a step of its own to take |
| LockOrder.RunsNeverDeadlock | app/rate_limit.py:380-384 | From the start, no run of ordered programs, with whatever cancellations and failures, comes to a deadlock |
| LockOrder.SchedulesEnd | app/rate_limit.py:380-384 | No schedule of own steps is longer than the work left |
| LockOrder.SchedulesFinishOrGoOn | app/rate_limit.py:380-384 | A schedule that can go no further has finished every task |
| LockPrograms.TrackerOperationsAreOrdered | app/request_tracker.py:127-154 | Flush, end of request, rename, drop and the renaming user update keep to the lock order |
| LockPrograms.PoolOperationsAreOrdered | app/routes/pools.py:262-280 | Settling under a pool guard, and deleting an account, keep to the lock order |
| LockPrograms.ResettleIsOrdered | app/routes/pools.py:1648-1662 | Resettling several pools in ascending order keeps to the lock order |
| LockPrograms.ChecksAreOrdered | app/rate_limit.py:1005-1075 | A rate check keeps to the lock order |
| LockPrograms.LocksTaken | app/request_tracker.py:123-310 | Which locks a flush, the end of a request, a rename, a drop, a settlement and a refresh take, in order, and what they hold at each |
| LockPrograms.PoolLocksTaken | app/routes/pools.py:1648-1662 | The same for composition changes, deleting an account, resettling and the usage purge: guards one on the other in the order given, every settlement under all of them, the purge with the flush held off throughout |
| LockPrograms.CheckLocksTaken | app/rate_limit.py:1005-1078 | The same for a rate check: its configuration, the counts inside the section of the user, one more after it |
| LockPrograms.PurgeIsOrderedIff | app/routes/admin.py:3915-3948 | The usage purge keeps to the lock order if and only if every pool it resettles is one whose guard it took at the start |
| LockDeadlock.LatePurgeCanDeadlock | app/routes/admin.py:3915-3948 | Whenever it resettles a pool it did not guard, it can deadlock: started next to a composition change of the first such pool, and with nothing else, some run from the initial state ends where neither can ever take a step again |
| LockSafety.OperationsTake | app/rate_limit.py:380-384 | What each of the operations that may be started locks, in order, and what it holds at each |
| LockSafety.OperationsNeverDeadlock | app/rate_limit.py:380-384 | Any number of flushes, request ends, renames, composition changes, deletions, resettlements, rate checks and guarded purges, started, cancelled or failing anywhere, never deadlock, and left to themselves all finish |
| LockSafety.PurgeIsDeadlockFreeIff | app/routes/admin.py:3915-3948 | The usage purge is free of deadlock among all these operations if and only if it guarded at the start every pool it resettles |
| Slots.SlotTable.TryAcquire | app/rate_limit.py:692-709 | Denied exactly at the cap; otherwise counted, limited or not |
| Slots.SlotHolder.Release | app/concurrency_slots.py:32-37 | Idempotent: the slot goes back once |
| Slots.TakeSlot | app/concurrency_slots.py:64-89 | A slot is taken exactly when the call has none and the user is below the cap |
| Slots.AfterCharge | app/concurrency_slots.py:91-96 | A denied charge gives back the slot this call took, and only that |
| Slots.FollowCharge | app/concurrency_slots.py:64-89 | Between its awaits the code does to table and holder what a charge does in the system; it is denied exactly when the call has no slot and the user is at the cap |
| Slots.FollowDecision | app/concurrency_slots.py:91-96 | And what the decision does there |
| Slots.FollowEnd | app/concurrency_slots.py:50-56 | And what the end of the call does |
| Slots.CallsComeAndGo | app/concurrency_slots.py:44-56 | A call begins without a slot, keeps the one it has when a charge raises, and is gone once it ended; caps are set per user |
| Slots.CallsMayAct | app/concurrency_slots.py:64-96 | A live call can be charged, again too, while it awaits no charge; a charge awaited can be decided either way or raise; and a call can end at any moment |
| Slots.SlotsMatchLiveCalls | app/concurrency_slots.py:1-6 | Under any interleaving across the awaited charge the count of a user is the number of live calls whose holder names them, zero entries are absent, and every call that ended gave back each slot it took once |
| Slots.NothingLeaks | app/concurrency_slots.py:1-6 | Once every call has ended, however each did and whatever was denied on the way, the table is empty and every slot taken went back once |
| Slots.CapHolds | app/rate_limit.py:697-708 | While the cap of a user stays as it is, their count never passes it |
| ModelAlias.WinnerHasPriority | app/model_alias.py:147-174 | The rule that matches is one of the list that applies and no applying rule comes before it by priority and id; none exactly when none applies |
| ModelAlias.MapsByItsOwnList | app/model_alias.py:248-275 | A name maps by the list of that profile and kind alone: to the target of the matching rule there that comes first by priority and id, or to itself |
| ModelAlias.LongNamesMeetExactRules | app/model_alias.py:157-170 | A name over 256 characters is only ever mapped by an exact rule |
| ModelAlias.RuleSnapshot.Scan | app/model_alias.py:164-174 | The loop returns the first rule that applies |
| ModelAlias.RuleSnapshot.Match | app/model_alias.py:152-162 | Through a bounded least-recently-used cache the match is still the first rule that applies, and long names are not remembered |
| ModelAlias.RequestContext.SourceName | app/model_alias.py:292-297 | The input of the mapping that produced a name, else the name |
| ModelAlias.RequestContext.Apply | app/model_alias.py:300-333 | In every reachable context the answer is what the source of the name maps to in the scope asked about |
| ModelAlias.NeverChains | app/model_alias.py:303-306 | Any sequence of mappings of the name of the client or earlier answers, in any scopes, answers with what that name maps to in each scope, traces back to it, and echoes it |
| ModelAlias.AnswerStandsIff | app/model_alias.py:300-333 | An answer to the name of the client keeps resolving from it across a call if and only if that call does not bring a second name that is itself mapped |
| ModelAlias.AnswersStandIff | app/model_alias.py:300-333 | For any sequence of calls, it resolves from that name after every one of them if and only if none of them brings a second mapped name |
| ModelAlias.AnswersCanChainAfterSecondInput | app/model_alias.py:329-332 | With two client names in one request, on one API surface, an answer to the first can be mapped again |
| ModelCache.Cache.EnsureIndex | app/cache.py:178-211 | After it the index is that of the list lookups answer for |
| ModelCache.Cache.Build | app/cache.py:189-201 | The loop files each id under its bare name, in list order, skipping empty ones |
| ModelCache.Cache.HasModelId | app/cache.py:213-218 | Membership in the current list, exactly as written |
| ModelCache.Cache.BareModelCandidates | app/cache.py:220-225 | The sorted ids of the current list serving the name, however stale the index was |
| ModelCache.Cache.UpdateModels | app/cache.py:243-247 | Lookups answer for the list handed over, whichever lists were indexed before and whatever the clock reads |
| ModelCache.Cache.InvalidateModel | app/cache.py:275-281 | A new list without the id, which lookups answer for at once |
| ModelCache.Cache.InvalidateProvider | app/cache.py:291-300 | A new list without the models of the provider |
| ModelCache.Cache.UpdateProviderModels | app/cache.py:310-325 | A new list with the slice of one provider replaced |
| ModelCache.CandidatesAreTheServing | app/cache.py:220-225 | Candidates are ordered and are, with multiplicity, the ids whose text after the first slash is the name |
| ModelCache.BareNameIs | app/cache.py:189-201 | The bare name is what follows the first slash; an id without one has none |
| ModelCache.NotAfterIff | app/cache.py:203-206 | The order of candidates is that of strings: by the first character that differs, a prefix first |
| ModelCache.RemovedOneByOne | app/cache.py:275-325 | Removing a model, or those of a provider, goes id by id and keeps the order of the rest |
| ModelCache.UnchangedBucketSameList | app/cache.py:203-206 | A rebuild that leaves the ids of a name unchanged yields the identical list |
| ModelCache.PrefixIsProvider | app/cache.py:310-317 | For a key without a slash the prefix test picks exactly the ids of that provider |
| ModelCache.ProviderReplaced | app/cache.py:310-325 | Replacing a slice: that provider serves exactly the given models, every other what it did |
| ModelScopes.FoldIntoScopes | app/auth/pools.py:165-192 | The fold holds, per user and scope, exactly the rows settled there |
| ModelNames.KeyOfCanonical | app/rate_limit.py:48-57 | A model id falls into its instance and its name at the first slash; one without a slash is its own instance |
| ModelNames.OwnInstances | app/request_tracker.py:41-55 | An instance is a user's own exactly when its name after the first colon starts with the BYOK mark |
| ModelScopes.ModelBeatsInstance | app/rate_limit.py:616-630 | A model listed in a group is in that group, whatever group its instance is in; else it goes with its instance, else it is Default |
| ModelScopes.SqlByokIsByok | app/request_tracker.py:41-55 | The SQL test for BYOK models is the parser, on every string |
| ModelScopes.InstanceMatchIffSlashFree | app/request_tracker.py:29-38 | The SQL instance match is comparing provider keys, on every model, if and only if the key has no slash |
| ModelScopes.OneScopePerModel | app/rate_limit.py:616-653 | For a model that is not BYOK the enforcement lookup, the buffer predicates, their SQL mirror and settlement name the same group |
| ModelScopes.ByokCountedIffClaimed | app/request_tracker.py:532-539 | For BYOK models Default and settlement count nothing; the reader of a group counts them exactly when the group claims them |
| ModelScopes.EnforcedIsSettledAndClaimed | app/auth/pools.py:165-192 | For Default the counts enforcement reads are those settled; for a group they are those settled plus exactly the BYOK rows of the user that the group claims |
| ModelScopes.SettlementReadsWhatIsEnforcedIff | app/auth/pools.py:165-192 | So for a group they agree if and only if it claims no BYOK row of the user |
| ModelScopes.LegacyInstanceIsCountedNotSettled | app/request_tracker.py:41-55 | They part for an instance named like the one of a user but owned by nobody: its requests count towards the limit of the group and are settled nowhere |
| ModelScopes.ScopesAddUp | app/auth/pools.py:168-172 | Default plus every named group make up the metered requests of the user, each once |

## Left out

- Routes, middleware wiring, templates, headers and message texts: plumbing around the modelled calls.
- Database sessions and migrations: a table is a map from its unique key to a count, a transaction one step; a failed one changes nothing.
- Labels on usage rows (user name, user type): the tables' counts are keyed without them; in the buffer, where they are part of the key, they are modelled.
- A flush that fails just before a settlement reads: settlement is modelled on the rows the table then holds.
- Moving models between groups in the middle of a day: the fold's scopes are fixed while rows are compared, as app/auth/pools.py:174-176 says.
- PoolRuns.StepKeepsInv: rows only grow within a run; deleting rows under a live pool is treated by SettlementLaws.SettleBringsInStep and PoolLaws.PurgeCanHideBehindGrowth instead, because the invariant does not survive it.
- Limits are taken as not negative in runs (PoolRuns), as app/auth/models.py:1172-1179 validates them; the split itself is proved for any limits.
- Exact daily limits: the daily counts are cached and documented as approximate, so what a count contains and how long it is served is proved, not that it is current when a request is decided.
- Wall-clock time and time zones: minutes and days are integers that do not go back; the expiry clock of the daily-count cache may jump either way.
- UsageBuffer.RequestTracker.CountBuffered: the matching predicate is a parameter; the predicates the readers use are in ModelScopes.
- FlushProtocol.ReadersNeverUndercount: for a table read that succeeds; a failed one is answered from the buffer alone.
- ModelAlias.WinnerHasPriority: what a contains or regex rule hits, case folding included, is a parameter of the rule, because it is the library's.
- ModelCache.Cache.UpdateModels: a list cannot be changed in place after being handed over, as app/cache.py:172-176 assumes too.
- LockOrder.NoDeadlock: fairness between tasks and the time a database call takes are not modelled; a task that holds a lock is assumed to return from its other awaits.
- Slots.TakeSlot: an application without the slot middleware, whose requests are not counted.
- app/model_resolution.py: it leans on providers that are not part of this model.
- Authentication, encryption, regex-safety checks and provider management.
