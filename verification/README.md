# Verified models of the collector and the backtest engine

Dafny models of the parts of the repository whose correctness does not show in one body: the collector's
writer, limiters and REST queue, the folds from ticks to bars, the backtest state machines, and the fast
forms of simple definitions. Verify everything with `dafny verify dfyconfig.toml`.

Code that changes fields is a class, code that loops is a method with invariants, and concurrent code is a
machine over its atomic steps (lock-held sections, select cases) with the schedule, the clock, the store's
answers and cancellation as arbitrary inputs. Each is proved against a specification function or
predicate; the properties are lemmas about those, for every input and every run.

Time is an integer and prices, amounts and rates are exact reals; `NaN` and the zero `time.Time` become
`None`, or 0 where the source compares with it.

| file | models |
|---|---|
| `batch_writer.dfy` | bounded batch writer with retry and shutdown drain |
| `rolling_limiter.dfy`, `adaptive_limiter.dfy` | the two rate limiters |
| `rest_queue.dfy`, `endpoint_rate.dfy` | two-priority job queue, what one job does to the limiters, and the rate of calls |
| `state_merge.dfy`, `requeue_order.dfy`, `state_cache.dfy` | newest-wins instrument state, flushed and put back on failure |
| `quote_rotation.dfy`, `quote_batches.dfy`, `quote_builds.dfy` | cyclic rotation, budgets and batches of quote tokens, successive builds |
| `subscriptions.dfy`, `date_ranges.dfy` | subscription refresh with capacity, history date ranges |
| `minute_aggregator.dfy`, `minute_buckets.dfy`, `bar_aggregation.dfy` | ticks to minute bars, minute bars to longer bars |
| `strategy_simulator.dfy`, `swing_scan.dfy`, `option_exit.dfy` | entry and exit state machines |
| `capital_selection.dfy`, `drawdown.dfy`, `paper_ledger.dfy`, `charges.dfy` | capital limits, equity, ledger, charges |
| `rsi.dfy`, `supertrend.dfy`, `implied_volatility.dfy` | indicators and the volatility solver |
| `a02_fanout.dfy` | parallel back-test of symbols |
| `episodes.dfy`, `gate_funnel.dfy` | episode segmentation and gate attribution of the evidence script |
| `common.dfy` | shared value types, sorting, text normalising, sequence facts |

## Where the code falls short of the obvious claim

Each of these is kept as the code has it; a lemma says exactly when the claim holds.

- A state put back after a failed flush can override newer values: an update observed at the same instant, or
  one of several that came late, when they arrive before it is put back (`RequeueOrder.RequeueHarmlessIff`, with
  `TieRevertsPrice`, `LateUpdatesSwap` and `OldPriceStays`).
- A configured order of rotation budgets that names a kind twice lets the kind exceed its budget
  (`QuoteBatches.BudgetsHoldIffDistinct`, with `NamedTwice`), and a kind to which the kinds before it leave nothing is never
  handed out, however many builds there are (`QuoteBuilds.AllWithinBuilds` and `StarvesWithoutShare`, with `NextKindStarves`).
- A tick that comes when no bar is open and its minute or a later one was flushed makes a bar out of order
  (`MinuteAggregator.IncreasingIffNeverLate`, with `LateTickOutOfOrder` and `EarlierTickOutOfOrder`). A minute gets a second
  bar exactly when an accepted tick opens a bar for a minute that has one already, which also happens to a tick that
  comes after such a bar (`MinuteAggregator.GroupedIffNeverReopened`, with `MinuteReturns`).
- The Supertrend upper band rises after a close above it (`Supertrend.UpperRisesWhen` says exactly when), and that can be
  on the bar after a downtrend begins (`Supertrend.UpperMayRiseAtFlip`); it cannot once the direction has held for two bars
  (`Supertrend.HeldTwiceNoRise`).
- Recording the same option trades twice stores no trade twice, since trade identities are
  deterministic, but adds their profit to the ledger twice (`PaperLedger.RerunAgreesIff`, with `RerunBooksTwice`).
- A stored position whose exchange or token has outer white space is not found again under the ledger's key
  (`PaperLedger.ListedUnderOwnKeyIff`, with `SpaceHidesPosition`), and one stored under another spelling of the
  exchange keeps its profit in a row of its own (`PaperLedger.RowsAgreeIff`, with `OtherSpellingCountsTwice`).
- A contract listed twice can be kept and dropped at once; the refresh returns it as kept and leaves it
  switched off. A row that goes by a wanted key under another spelling stays on
  (`Subscriptions.ActiveAreKeptIff`, with `DuplicateSwitchesOff` and `AliasStaysOn`).
- Date ranges skip all but the first instant of the day between two chunks. Daily candles, stamped at
  midnight, are all covered; anything finer is covered only when one chunk holds all the days
  (`DateRanges.InstantCoveredIff`, `DateRanges.AllInstantsCoveredIff`, with `DayBetweenChunksMissing`).
- The evidence script calls a record executable when it fails at most six of the eleven gates, whichever they are, because
  it cuts the record's list of failures where it means the list of gates. The verdict is wrong exactly on records that
  fail an execution gate and at most six gates in all (`GateFunnel.ExecutableIff`, with `RejectedYetExecutable`).
- A waiter of the rolling limiter that wakes exactly when its computed sleep ends is refused once more
  (`RollingLimiter.Limiter.TryAcquire`, with `RollingLimiter.RefusedOnWaking`).
- A key splits back into its exchange and token exactly when the exchange has no colon
  (`MinuteAggregator.SplitKeyRoundTrip`, with `ColonMoves`).

## Model

| member | source | states |
|---|---|---|
| `BatchWriter.Run` | cmd/collector/bar_writer.go:17-91 | for every interleaving of sends, close, cancellation, clock and persist outcomes: acknowledged rows, then buffer, then channel are the rows sent, in order; the buffer never exceeds the batch size; nil only after close with every row acknowledged; an error only once 5 s have passed since a cancellation |
| `BatchWriter.BeginShutdown` | cmd/collector/bar_writer.go:26-32 | the shutdown window opens once, at the first look after cancellation |
| `BatchWriter.Flush` | cmd/collector/bar_writer.go:33-49 | one attempt over the whole buffer, none when empty; a failure keeps every row, and shutdown never uses the cancelled context |
| `BatchWriter.ReceiveRow` | cmd/collector/bar_writer.go:83-86 | the row moves from channel to buffer, which is flushed when full and only then; conservation is kept whether or not the flush succeeds |
| `BatchWriter.FinishInput` | cmd/collector/bar_writer.go:70-82 | on a closed, drained channel the last rows are flushed; the writer completes when that succeeds and waits to retry when it fails |
| `BatchWriter.Select` | cmd/collector/bar_writer.go:58-89 | every select case leaves the world alone and has exactly its effect: a tick flushes, a row is received only into a buffer with room, the two contexts end what they end, and a choice that is not ready changes nothing |
| `BatchWriter.Step` | cmd/collector/bar_writer.go:50-79 | the loop head returns the deadline error exactly when the window has ended; a writer that waits to retry goes back to the loop head on a tick, or when the context in use has ended, and stays as it is otherwise |
| `BatchWriter.Apply` | cmd/collector/bar_writer.go:50-91 | any event of the writer or its surroundings keeps the invariant and records exactly the rows sent |
| `BatchWriter.Drain` | cmd/collector/bar_writer.go:50-91 | from every state that has not returned, the one that waits to retry included: with the channel closed, the window not passed and a store that answers, ticks and receives alone complete the writer in a number of steps bounded by the rows in the channel, everything acknowledged |
| `BatchWriter.RunThenDrain` | cmd/collector/bar_writer.go:17-91 | so after any run that closed the channel, however many attempts failed in it: everything acknowledged, unless 5 s have passed since a cancellation |
| `BatchWriter.Attempted` | cmd/collector/bar_writer.go:38-48 | an attempt conserves the rows and is a bounded batch whose failed rows head the next attempt |
| `RollingLimiter.WindowBound` | internal/ratelimit/rolling.go:26-62 | whatever the interleaving of waiters, no closed interval of window length holds more than max grants |
| `RollingLimiter.RunWaiters` | internal/ratelimit/rolling.go:26-62 | the limiter, which forgets pruned grants, takes exactly the decisions of one that counts its whole history |
| `RollingLimiter.ClampMax` | internal/ratelimit/rolling.go:16-24 | at least one grant per window, and never less than asked for |
| `RollingLimiter.Limiter.constructor` | internal/ratelimit/rolling.go:16-24 | starts with no grants and a bound of at least one |
| `RollingLimiter.Limiter.Prune` | internal/ratelimit/rolling.go:53-62 | only grants that have left the window are forgotten |
| `RollingLimiter.Limiter.TryAcquire` | internal/ratelimit/rolling.go:28-41 | granted exactly when the window over all grants ever made is not full; after a refusal it is full until the computed sleep ends and free at every later instant |
| `RollingLimiter.Limiter.KeptAreCounted` | internal/ratelimit/rolling.go:30-31 | after pruning, the kept stamps number the grants in the window |
| `RollingLimiter.Limiter.OldestLeaves` | internal/ratelimit/rolling.go:36-37 | once the oldest stamp has left, the window has room |
| `RollingLimiter.RefusedOnWaking` | internal/ratelimit/rolling.go:28-41 | a waiter refused at 0 with a window of 10 is refused at 10 and granted at 11 |
| `AdaptiveLimiter.Initial` | internal/ratelimit/adaptive.go:19-45 | any constructor arguments give 1 <= min <= current <= max |
| `AdaptiveLimiter.IntervalIs` | internal/ratelimit/adaptive.go:56-59 | the interval at a rate is the longest of which a second holds that many; a whole second when not even a nanosecond is that short |
| `AdaptiveLimiter.StepKeeps` | internal/ratelimit/adaptive.go:47-102 | every operation keeps the bounds and never moves nextAt backwards, not even a back-off onto a longer pending one |
| `AdaptiveLimiter.RunKeeps` | internal/ratelimit/adaptive.go:47-102 | the invariant holds after every run with a non-decreasing clock |
| `AdaptiveLimiter.NextAtNeverRetreats` | internal/ratelimit/adaptive.go:47-102 | over any stretch of any run nextAt does not go back and the rate stays between its fixed bounds |
| `AdaptiveLimiter.QuietAfterThrottle` | internal/ratelimit/adaptive.go:76-89 | no grant within one second of a throttle |
| `AdaptiveLimiter.LastGrantHolds` | internal/ratelimit/adaptive.go:47-74 | the last grant keeps the next one at least a minimal interval away |
| `AdaptiveLimiter.GrantsAreSpaced` | internal/ratelimit/adaptive.go:47-74 | grants i and j are at least (j - i) intervals of 1s/maxRPS apart |
| `AdaptiveLimiter.Limiter.constructor` | internal/ratelimit/adaptive.go:19-45 | the clamping sequence gives the initial state |
| `AdaptiveLimiter.Limiter.TryWait` | internal/ratelimit/adaptive.go:47-74 | grants exactly when nextAt has come; the sleep after a refusal is the least that suffices |
| `AdaptiveLimiter.Limiter.Throttled` | internal/ratelimit/adaptive.go:76-89 | one step down and a back-off of one second, or two after a recent adjustment |
| `AdaptiveLimiter.Limiter.Succeeded` | internal/ratelimit/adaptive.go:91-102 | one step up only after the quiet period |
| `AdaptiveLimiter.RunSchedule` | internal/ratelimit/adaptive.go:19-102 | a limiter built from any arguments and driven by any schedule has exactly the grants of the run, each at least 1s/maxRPS after the one before |
| `RestJob.RunJob` | cmd/collector/rest_queue.go:142-186 | the world decides: the last attempt is the first that is neither throttled nor retryable with an undisturbed sleep, or the third; every attempt whose waits are granted is one call; the result is nil, the call's error when fatal or third, and the context's error exactly when a wait of that attempt or its sleep was cancelled; success is reported exactly on nil, throttle once per throttling error |
| `RestJob.Attempt` | cmd/collector/rest_queue.go:143-172 | an attempt calls exactly when every wait is granted, spending one grant of the adaptive limiter and of every non-nil cap |
| `RestJob.AcquireAll` | cmd/collector/rest_queue.go:146-160 | every limiter has granted exactly when the walk was not cancelled, and a cancelled walk leaves at most one unspent grant each |
| `RestJob.AcquireCaps` | cmd/collector/rest_queue.go:151-160 | the caps grant in order up to the first cancelled wait |
| `RestJob.CallAndReport` | cmd/collector/rest_queue.go:161-172 | the call spends the waiting grants and reports to the limiter what its outcome demands |
| `RestJob.CallsNeverExceedGrants` | cmd/collector/rest_queue.go:107-186 | however the jobs of an endpoint interleave, at every instant calls do not outnumber grants |
| `EndpointRate.CallsAreSpaced` | cmd/collector/rest_queue.go:142-186 | however the jobs of an endpoint interleave, its k-th call comes at least k - 1 intervals of 1s/maxRPS after the limiter's first grant |
| `EndpointRate.Totals` | cmd/collector/rest_queue.go:142-186 | the calls of an endpoint and the grants of its limiter are those of its jobs together |
| `RestQueue.Queue.constructor` | cmd/collector/rest_queue.go:57-68 | an empty queue of the given or default capacity |
| `RestQueue.Queue.ExactlyOnePlace` | cmd/collector/rest_queue.go:80-140 | every submitted job is in exactly one of rejected, queued, running, completed, and its done channel has received a result, once, exactly when rejected or completed |
| `RestQueue.Queue.Submit` | cmd/collector/rest_queue.go:80-105 | accepted exactly when it has a body and its queue has room, else answered at once |
| `RestQueue.Queue.Poll` | cmd/collector/rest_queue.go:114-121 | a waiting high-priority job is always taken first |
| `RestQueue.Queue.Wake` | cmd/collector/rest_queue.go:121-137 | the blocking select takes the head of either queue |
| `RestQueue.Queue.Finish` | cmd/collector/rest_queue.go:116-120 | one result is delivered and the job is completed |
| `RestQueue.FifoPop` | cmd/collector/rest_queue.go:107-134 | jobs leave a queue in the order they entered it, each once |
| `StateCache.Cache.Update` | cmd/collector/metrics.go:28-72 | the update merges into its key's entry: newest wins, older fills gaps |
| `StateMerge.UpdatedInFields` | cmd/collector/metrics.go:28-72 | in fields: an update without exchange, token or time changes nothing, another one only the entry of its normalised exchange and trimmed token, where the later time stays and each field is that of the later state or else the only one there is |
| `StateCache.Cache.Flush` | cmd/collector/metrics.go:88-100 | hands out every entry once and empties the cache |
| `StateCache.Cache.UpdateEach` | cmd/collector/metrics.go:28-72 | updates one by one are merged in order |
| `StateCache.Cache.PutEachBack` | cmd/collector/metrics.go:120-123 | states go back one by one, with any updates landing between them |
| `StateCache.Cache.FlushCycle` | cmd/collector/metrics.go:113-128 | after a failed write the entries put back, in any map order and with updates in between, leave the cache as if it had never been flushed when for every key the updates before its put-back came in order, in particular when their times strictly increase |
| `StateMerge.RequeueIsPutAll` | cmd/collector/metrics.go:120-123 | entries put back are already normalised |
| `StateMerge.PutAllOverlays` | cmd/collector/metrics.go:120-123 | putting entries back in any order lays the newer ones over them |
| `StateMerge.AnyOrder` | cmd/collector/metrics.go:120-123 | so without updates in between the order of the put-backs makes no difference |
| `RequeueOrder.InterleavedAt` | cmd/collector/metrics.go:113-128 | what put-backs and updates in any interleaving leave under a key: the flushed state over the updates before its put-back, and the later ones on top |
| `RequeueOrder.RequeueHarmlessIff` | cmd/collector/metrics.go:113-128 | for a whole cycle in any interleaving: whatever fields the states carry, a failed write leaves no trace exactly when, for every flushed key, of the updates that arrive before its put-back there are none, or they came in order and got past the flushed state, or all were late and the first was the latest |
| `RequeueOrder.SafeLeavesNoTrace` | cmd/collector/metrics.go:113-128 | in that order the caches are equal, for any updates of any keys |
| `RequeueOrder.UnsafeLeavesTrace` | cmd/collector/metrics.go:113-128 | in any other order some fields make them differ |
| `RequeueOrder.AdvancingIsSafe` | cmd/collector/metrics.go:28-72 | strictly increasing observation times are such an order, whenever the put-backs happen |
| `RequeueOrder.UpdatedAt` | cmd/collector/metrics.go:28-72 | an entry is the fold of its own key's usable updates |
| `RequeueOrder.OrderSuffices` | cmd/collector/metrics.go:38-70 | for one key, folding the updates onto the state is putting the state back after them |
| `RequeueOrder.OrderNeeded` | cmd/collector/metrics.go:38-70 | out of order, it is not, for some fields |
| `RequeueOrder.TieRevertsPrice` | cmd/collector/metrics.go:113-128 | two prices of one instant: the older one returns |
| `RequeueOrder.LateUpdatesSwap` | cmd/collector/metrics.go:113-128 | all times different, two late updates: the bid of the other one is left |
| `RequeueOrder.OldPriceStays` | cmd/collector/metrics.go:120-123 | an update of the flushed instant before the put-back and a newer one after it: the older price stays |
| `StateMerge.UpdatesDominate` | cmd/collector/metrics.go:28-86 | in any order of observation no key, no lastSeen and no present field is lost |
| `StateMerge.FailedFlushDominates` | cmd/collector/metrics.go:113-128 | nor through a failed flush, however updates and put-backs interleave |
| `QuoteRotation.Rotation.Take` | cmd/collector/tasks.go:149-167 | the next stretch of the cyclic order from the key's cursor, which moves on by as much |
| `QuoteRotation.TakeRounds` | cmd/collector/tasks.go:149-167 | however the limits vary, the outputs laid end to end are the cyclic order from the first cursor |
| `QuoteRotation.RoundsTile` | cmd/collector/tasks.go:156-165 | the same of the specification of successive calls, with the cursor where the outputs stop |
| `QuoteRotation.FullCycle` | cmd/collector/tasks.go:161-164 | any n consecutive picks are the whole set once |
| `QuoteRotation.EqualShares` | cmd/collector/tasks.go:149-167 | n successive calls with limit m, from any cursor, pick every token exactly m times |
| `QuoteRotation.SoonPicked` | cmd/collector/tasks.go:149-167 | every token is among any n consecutive picks |
| `QuoteRotation.SoonHandedOut` | cmd/collector/tasks.go:149-167 | every token is handed out within ceil(n/m) calls with limit m |
| `QuoteBatches.Partition` | cmd/collector/tasks.go:654-688 | primaries per exchange and secondaries per exchange and kind are exactly the subscriptions of that class, in order |
| `QuoteBatches.ClassifyIs` | cmd/collector/tasks.go:654-688 | options and the rest are admitted each by its own flag; of those admitted, a primary kind is polled every time, an index only when named by symbol or underlying or when no names are given, and all others in turn under their kind |
| `QuoteBatches.TokensAre` | cmd/collector/tasks.go:654-688 | so the lists are the tokens polled every time and those polled in turn |
| `QuoteBatches.OrderKinds` | cmd/collector/tasks.go:693-704 | the configured kinds that occur, normalised, in configured order and with its repetitions |
| `QuoteBatches.ListRest` | cmd/collector/tasks.go:705-713 | the kinds not yet seen, each once and sorted, in any map order |
| `QuoteBatches.ListedAsOften` | cmd/collector/tasks.go:693-713 | an occurring kind is come to as often as the configured order names it, and once when it does not |
| `QuoteBatches.PickSecondary` | cmd/collector/tasks.go:690-740 | the walk over the named kinds and then the sorted rest makes exactly the specified picks and moves the cursors accordingly |
| `QuoteBatches.PicksWithinLimits` | cmd/collector/tasks.go:715-739 | never more than a kind's budget for each time it is listed |
| `QuoteBatches.PicksWithinRotation` | cmd/collector/tasks.go:715-739 | never more than rotationMax picks in all |
| `QuoteBatches.PicksFromKinds` | cmd/collector/tasks.go:715-739 | a pick holds only tokens of its kind, no more than the kind's budget |
| `QuoteBatches.BudgetsHoldIffDistinct` | cmd/collector/tasks.go:693-739 | the configured order keeps every kind within its budget, for all tokens, budgets and cursors, exactly when no two of its entries name the same kind |
| `QuoteBatches.FairWithinBudget` | cmd/collector/tasks.go:690-739 | then the picks of the whole builder keep every budget |
| `QuoteBatches.NamedTwice` | cmd/collector/tasks.go:695-704 | two tokens of a kind, a budget of one and an order that names it twice: two picks |
| `QuoteBatches.SplitBatches` | cmd/collector/tasks.go:754-769 | splitting loses, repeats and reorders nothing and no batch exceeds the limit, in any map order |
| `QuoteBatches.BuildAllBatches` | cmd/collector/tasks.go:630-644 | without rotation the batches hold exactly the included subscriptions |
| `QuoteBatches.PickForExchange` | cmd/collector/tasks.go:690-740 | one exchange's picks and cursors are the specified ones; the picks stay within rotationMax and, per kind, its budget for each time the configured order lists it, and are of its own tokens |
| `QuoteBatches.AddPicks` | cmd/collector/tasks.go:690-740 | such picks go behind the primaries of their exchange, all of which are kept, and the cursors are those of a walk that visits every exchange once |
| `QuoteBatches.FlattenAt` | cmd/collector/tasks.go:728-738 | the picks lie end to end in the order they were made |
| `QuoteBatches.BuildRotatedBatches` | cmd/collector/tasks.go:646-752 | every exchange gets all its primaries in order, then such picks, in batches within the limit; picks and cursors are exactly those of the walk |
| `QuoteBuilds.RepeatBuilds` | cmd/collector/tasks.go:646-752 | successive builds with the same subscriptions make the specified picks, each from the cursors the one before left |
| `QuoteBuilds.KindServed` | cmd/collector/tasks.go:715-739 | a kind listed once gets a share that no cursor has a part in, from its own cursor |
| `QuoteBuilds.PlanShareIs` | cmd/collector/tasks.go:715-739 | that share: the tokens the kind has, up to its budget, cut to what the same of the kinds in front of it leaves of the rotation |
| `QuoteBuilds.ShareIsLeftover` | cmd/collector/tasks.go:715-739 | the same of the walk over any list of kinds |
| `QuoteBuilds.BuildServes` | cmd/collector/tasks.go:690-740 | and so in a build, whatever the order of the exchanges, when no exchange has a colon in it |
| `QuoteBuilds.BuildsRotate` | cmd/collector/tasks.go:690-740 | builds hand out of a kind what as many calls of the rotation with its share do |
| `QuoteBuilds.AllWithinBuilds` | cmd/collector/tasks.go:690-740 | a kind of n tokens with a share of m > 0 has all of them handed out within ceil(n/m) builds |
| `QuoteBuilds.EqualSharesOfBuilds` | cmd/collector/tasks.go:690-740 | and in n builds each of them exactly m times |
| `QuoteBuilds.StarvesWithoutShare` | cmd/collector/tasks.go:715-739 | a kind to which the kinds before it leave nothing is never handed out |
| `QuoteBuilds.NextKindStarves` | cmd/collector/tasks.go:715-739 | a first kind that takes up the whole rotation leaves the next a share of 0 |
| `Subscriptions.AppendUnique` | cmd/collector/subscriptions.go:213-226 | the loop appends exactly what `Unique` does |
| `Subscriptions.UniqueAddsFirsts` | cmd/collector/subscriptions.go:213-226 | the base is kept, and behind it come the first occurrences of new keys, in order |
| `Subscriptions.UniqueKeys` | cmd/collector/subscriptions.go:213-226 | no key is left out and none is added twice |
| `Subscriptions.KeyIff` | cmd/collector/subscriptions.go:250-252 | two subscriptions whose exchange and token have no colon go by one key exactly when they differ only in outer white space and in the case of exchange and mode |
| `Subscriptions.EnforceCapacity` | cmd/collector/tasks.go:201-223 | within capacity nothing changes; otherwise as many as fit are kept: those of the smallest priorities, among them those of the smallest symbols, and of these the first; the others are switched off as `capacity_drop` unless they have a reason |
| `Subscriptions.CapacityKeepsFirst` | cmd/collector/tasks.go:208-213 | for all capacities: no dropped subscription has a smaller priority than a kept one, nor at the same priority a smaller symbol, and of one priority and symbol the kept ones are the first |
| `Subscriptions.StableSortSorts` | cmd/collector/tasks.go:208-213 | the sort is an ordered permutation that keeps the order of ties |
| `Text.StringLessIff` | cmd/collector/tasks.go:208-213 | one symbol is less than another exactly when, where they first differ, it ends or has the smaller character |
| `Subscriptions.CapacitySplits` | cmd/collector/tasks.go:201-223 | no row or key is lost or repeated, and no dropped one goes before a kept one |
| `Subscriptions.DiffRemoved` | cmd/collector/subscriptions.go:228-248 | the active rows whose key is not wanted, switched off |
| `Subscriptions.Refresh` | cmd/collector/subscriptions.go:18-86 | for every table, in any listing order, and all lists: what is kept is the capacity split of what is wanted, by priority, symbol and place, and the whole table afterwards |
| `Subscriptions.RowAfter` | cmd/collector/subscriptions.go:40-60 | each row afterwards: a dropped one, else a kept one, else the row as it was, switched off as `refresh_drop` exactly when it was active under a key no longer wanted |
| `Subscriptions.WantedKeys` | cmd/collector/subscriptions.go:40-46 | the wanted keys, and when they are distinct |
| `Subscriptions.RemovedLast` | internal/store/postgres.go:496-537 | writing kept, dropped and removed rows in this order: dropping wins over keeping, and removed rows are no others |
| `Subscriptions.ActiveAfterIff` | cmd/collector/subscriptions.go:40-60 | which rows are active afterwards, from the table and the wanted list |
| `Subscriptions.ActiveAreKeptIff` | cmd/collector/subscriptions.go:40-60 | the active rows are the kept ones exactly when no row lies on both sides of the capacity in the stable order and no active row goes by a wanted key without being wanted |
| `Subscriptions.DistinctKeptAreActive` | cmd/collector/subscriptions.go:40-60 | with distinct wanted keys and no such alias, active is kept |
| `Subscriptions.DuplicateSwitchesOff` | cmd/collector/subscriptions.go:40-60 | a symbol listed twice in the base, with room for one: kept and switched off |
| `Subscriptions.AliasStaysOn` | cmd/collector/subscriptions.go:228-252 | a row stored in lower case stays active beside the kept one |
| `DateRanges.SplitDateRange` | cmd/collector/tasks.go:1598-1614 | the ranges start chunk + 1 days apart, last chunk days, and the last is cut off |
| `DateRanges.RangesDisjoint` | cmd/collector/tasks.go:1605-1612 | no instant is in two ranges |
| `DateRanges.InstantCoveredIff` | cmd/collector/tasks.go:1605-1612 | which instants are covered, exactly |
| `DateRanges.MidnightsCovered` | cmd/collector/tasks.go:1538-1563 | every day's midnight is covered |
| `DateRanges.AllInstantsCoveredIff` | cmd/collector/tasks.go:1598-1614 | every instant is covered exactly when one range holds all the days |
| `DateRanges.DayBetweenChunksMissing` | cmd/collector/tasks.go:1605-1612 | days 1 to 10 in chunks of three: day 4 is covered at its midnight only |
| `MinuteAggregator.Aggregator.constructor` | internal/aggregate/minute.go:41-47 | starts with no bucket |
| `MinuteAggregator.Aggregator.AddTick` | internal/aggregate/minute.go:49-102 | the tick's key takes one step and emits that step's bars; no other key changes |
| `MinuteAggregator.Aggregator.FlushDue` | internal/aggregate/minute.go:104-117 | every due bucket yields one bar and is removed, in any map order; the others stay |
| `MinuteAggregator.FlushClosesIff` | internal/aggregate/minute.go:104-117 | a flush closes an open minute exactly when the clock has passed that minute's start by 60 s and by 60 s + flushAfter |
| `MinuteAggregator.FlushLeavesNone` | internal/aggregate/minute.go:104-117 | so in any run a flush from that instant on leaves no open bar of the minute |
| `MinuteAggregator.RunCalls` | internal/aggregate/minute.go:49-117 | however ticks of any keys and flushes alternate, the bars that come out under a key, and its open bucket, are those of the key's own events |
| `MinuteAggregator.RunGroupedIff` | internal/aggregate/minute.go:49-157 | they are the key's accepted ticks grouped by minute exactly when none of these opened a bar for a minute that had one already; on a cumulative feed they account for its rise in any case |
| `MinuteAggregator.GroupedIffNeverReopened` | internal/aggregate/minute.go:49-157 | in every run a key's bars, the open one included, are one for each minute with accepted ticks, with the summary of all of them, exactly when no accepted tick opened a bar for a minute that had one already |
| `MinuteAggregator.BarsAreSummaries` | internal/aggregate/minute.go:49-157 | in every run without exception each bar is the summary of its own piece of the accepted ticks, and the pieces are all of them, in order, each within one minute |
| `MinuteAggregator.NeverLateIsGrouped` | internal/aggregate/minute.go:49-157 | without late ticks there is one bar for each minute |
| `MinuteAggregator.OnTimeIsGrouped` | internal/aggregate/minute.go:104-117 | when clock readings do not decrease and every tick comes before its minute has been over for flushAfter, there is one bar for each minute, with all its ticks |
| `MinuteAggregator.PieceIsMinute` | internal/util/timebucket.go:5-12 | when no two pieces are of one minute, a piece is the whole minute |
| `MinuteAggregator.MinuteStartIs` | internal/util/timebucket.go:5-12 | a minute starts at the whole minute at or less than 60 s before the tick |
| `MinuteAggregator.StepRefines` | internal/aggregate/minute.go:49-117 | any tick or flush keeps bars, bucket and pieces together |
| `MinuteAggregator.AcceptRefines` | internal/aggregate/minute.go:49-102 | an accepted tick extends the last piece or starts a new one, and the bucket follows |
| `MinuteAggregator.CloseRepresents` | internal/aggregate/minute.go:136-157 | finalising the open bucket completes the summaries |
| `MinuteAggregator.IncreasingIffNeverLate` | internal/aggregate/minute.go:49-117 | bars come out with strictly increasing timestamps exactly when no tick was late |
| `MinuteAggregator.LateTickOutOfOrder` | internal/aggregate/minute.go:49-117 | a tick, a flush two minutes on and the tick again: two bars of its minute, out of order |
| `MinuteAggregator.EarlierTickOutOfOrder` | internal/aggregate/minute.go:49-117 | with a tick of an earlier minute instead: out of order, but one bar for each minute |
| `MinuteAggregator.MinuteReturns` | internal/aggregate/minute.go:49-117 | and with the first tick once more after it: two bars of its minute, although the bar of another was open |
| `MinuteAggregator.VolumeOfFeed` | internal/aggregate/minute.go:119-157 | on a cumulative feed a bar's volume is the rise within it |
| `MinuteAggregator.VolumeTelescopes` | internal/aggregate/minute.go:119-157 | however a feed is cut, its rise is the volume of the summaries plus the jumps between the pieces |
| `MinuteAggregator.VolumeOfRun` | internal/aggregate/minute.go:49-157 | so in every run on such a feed its rise is the volume of the bars plus the jumps where one bar ends and the next begins |
| `MinuteAggregator.SplitKeyRoundTrip` | internal/aggregate/minute.go:159-171 | a key splits back exactly when the exchange has no colon |
| `MinuteAggregator.ColonMoves` | internal/aggregate/minute.go:57-171 | the key of exchange A:B and token C splits into A and B:C |
| `BarAggregation.AggregateBars` | internal/backtest/strategy_backtest.go:1054-1084 | the map-based loop gives strictly increasing buckets, one for each bucket with bars, each the OHLC fold of its members |
| `BarAggregation.AggregationUnique` | internal/backtest/strategy_backtest.go:1054-1084 | those conditions leave one result |
| `BarAggregation.AbsorbHolds` | internal/backtest/strategy_backtest.go:1061-1078 | one bar keeps every map entry the fold of its bucket so far |
| `BarAggregation.EmitInOrder` | internal/backtest/strategy_backtest.go:1079-1083 | the sorted keys give the aggregation, whatever order the map lists them in |
| `MinuteBuckets.BucketCompose` | internal/backtest/strategy_backtest.go:1086-1092 | the a·b bucket of a bar is that of its a bucket, even when neither divides the hour |
| `MinuteBuckets.BucketMonotone` | internal/backtest/strategy_backtest.go:1086-1092 | later bars do not fall into earlier buckets |
| `MinuteBuckets.BucketIs` | internal/backtest/strategy_backtest.go:1086-1092 | the bucket of a bar starts on a whole minute at or before it, a multiple of its minutes into the local hour, and ends after it, with the hour at the latest |
| `BarAggregation.FoldAggregates` | internal/backtest/strategy_backtest.go:1054-1084 | on sorted bars a left-to-right fold gives the same bars |
| `BarAggregation.FoldComposes` | internal/backtest/strategy_backtest.go:1054-1084 | for any buckets nested in coarser ones, folding twice is folding once |
| `BarAggregation.NestedCompose` | internal/backtest/strategy_backtest.go:1054-1092 | so is aggregating sorted bars twice |
| `BarAggregation.AggregationComposes` | internal/backtest/strategy_backtest.go:1054-1092 | aggregating to a and then to a·b minutes is aggregating to a·b |
| `BarAggregation.VolumeConserved` | internal/backtest/strategy_backtest.go:1054-1084 | no volume is lost or added, sorted bars or not |
| `StrategySimulator.SimulateStrategyTrades` | internal/backtest/strategy_backtest.go:250-390 | the loop computes the specified run |
| `StrategySimulator.Enter` | internal/backtest/strategy_backtest.go:291-368 | a position is on the bar after the signal, of at least one share and positive cost |
| `StrategySimulator.EntryInPrices` | internal/backtest/strategy_backtest.go:291-368 | what a position is bought at and of, in prices: the next open, moved by slippage, as many whole shares or straddles as the capital pays for, a CALL above its stop and below its target and a PUT the other way |
| `StrategySimulator.PassedOverWhen` | internal/backtest/strategy_backtest.go:291-368 | a signal is passed over only when there is no positive price or range, or the capital does not pay for one share or straddle |
| `StrategySimulator.RangeExits` | internal/backtest/strategy_backtest.go:343-412 | with levels from the average range a stop costs and a target earns its multiple of the range, on either side |
| `StrategySimulator.RulesAreSane` | internal/backtest/strategy_backtest.go:291-368 | the source's rules enter on the bar after those seen, at a positive cost, for every configuration |
| `StrategySimulator.RulesGiveFirstExits` | internal/backtest/strategy_backtest.go:250-390 | for any such rules the trades of a run are first exits and never overlap |
| `StrategySimulator.TradesAreFirstExits` | internal/backtest/strategy_backtest.go:250-428 | trades never overlap, and each leaves on the first bar at or after its entry whose exit rule fires, but for a last one closed at the end of the data |
| `StrategySimulator.TradesInPrices` | internal/backtest/strategy_backtest.go:250-428 | every trade in prices: on each bar held the bar lies strictly between stop and target and the age is below the limit; a CALL stops only where the low reaches its stop and a PUT only where the high does, a target is taken only where the far extreme reaches it and the stop is not hit, a time stop on the first bar of that age; for a straddle the same of its P&L |
| `StrategySimulator.RunConsistent` | internal/backtest/strategy_backtest.go:250-390 | after every bar the closed trades and the open position satisfy this |
| `StrategySimulator.NoLookAhead` | internal/backtest/strategy_backtest.go:250-390 | the trades closed on the first n bars are those the full run closes before bar n |
| `StrategySimulator.PrefixAgrees` | internal/backtest/strategy_backtest.go:250-390 | a run on a prefix is in the state of the full run |
| `StrategySimulator.TradesOnlyAppended` | internal/backtest/strategy_backtest.go:250-390 | later bars only append trades closed on them |
| `SwingScan.FindSwingTrade` | internal/backtest/archive_swing.go:284-448 | no trade exactly when no signal; otherwise the first signal, left on the earliest later bar where stop, target or overnight rule fires in this precedence, or on the last bar when none ever does |
| `SwingScan.ExitInPrices` | internal/backtest/archive_swing.go:321-385 | in prices: a stop or a target is hit by the close of its bar and by none before, the day of the entry having its own target; an overnight exit is the last close of that day, too low to hold on |
| `SwingScan.ExitAfterEntry` | internal/backtest/archive_swing.go:321-385 | on sorted bars the exit is never before the entry, an overnight exit is on the last bar of the entry date, and a target exit is above any stop |
| `OptionExit.SearchNotBefore` | internal/backtest/options_backtest.go:688-689 | binary search finds what a linear scan finds |
| `OptionExit.PriceAtOrBefore` | internal/backtest/options_backtest.go:684-698 | the price of the bar picked by the linear definition |
| `OptionExit.PriceIs` | internal/backtest/options_backtest.go:684-698 | the close of the first bar of the instant, else of the last bar before it; none exactly when every bar is later |
| `OptionExit.PickIsLastIff` | internal/backtest/options_backtest.go:684-698 | the pick is the last bar at or before the instant exactly when no two neighbours carry that instant |
| `OptionExit.ReadQuote` | internal/backtest/options_backtest.go:805-814 | a step without two positive prices is passed over |
| `OptionExit.QuoteIs` | internal/backtest/options_backtest.go:805-814 | the call is priced from the call's bars and the put from the put's, both positive, or one of them has no such price |
| `OptionExit.ScanQuotes` | internal/backtest/options_backtest.go:798-844 | the scan stops at the first quote that reaches a positive target, or runs to the last |
| `OptionExit.ExitOptionTrade` | internal/backtest/options_backtest.go:798-844 | the exit is taken at the last quote scanned, with that stopping rule |
| `OptionExit.PeakIsFirstMaximum` | internal/backtest/options_backtest.go:818-822 | the reported maximum is the first greatest P&L scanned, or 0 at entry |
| `OptionExit.ExitArithmetic` | internal/backtest/options_backtest.go:798-844 | P&L is the move of the combined premium times quantity and never above the maximum |
| `CapitalSelection.SelectCapitalTrades` | internal/backtest/a02.go:448-481 | the loop with its compacted active set selects as if it looked back at every trade selected so far |
| `CapitalSelection.FilterActive` | internal/backtest/a02.go:483-491 | in place, exactly the trades still open, in order |
| `CapitalSelection.Consider` | internal/backtest/a02.go:461-479 | taken exactly when admissible among all selected trades still open |
| `CapitalSelection.LimitsHoldAlways` | internal/backtest/a02.go:448-481 | at every instant the trades in progress respect both limits, for any tie order |
| `CapitalSelection.SkippedForCause` | internal/backtest/a02.go:464-476 | whenever a trade is skipped there are already maxConcurrent trades held at its entry, or with it they would outweigh the capital, or it has no positive amount |
| `CapitalSelection.SelectedAreTimed` | internal/backtest/a02.go:453-459 | only trades with both timestamps are selected, none more often than given |
| `Drawdown.BuildEquityCurve` | internal/backtest/strategy_backtest.go:763-782 | each point's drawdown is the worst loss of any stretch ending there |
| `Drawdown.MaxDrawdown` | internal/backtest/strategy_backtest.go:784-793 | the worst loss over any stretch of consecutive trades |
| `Drawdown.SummarizeOptionTrades` | internal/backtest/options_backtest.go:846-886 | the totals, the wins, the win rate, both averages and the same worst loss in one pass |
| `Drawdown.SummaryWalk` | internal/backtest/options_backtest.go:857-877 | the walk finds the total, the wins and the worst loss |
| `Drawdown.WorstUnique` | internal/backtest/options_backtest.go:869-876 | so both walks report the same, never negative, number |
| `PaperLedger.RecordOptionTrades` | internal/backtest/paper.go:279-427 | for any trades and book: each key's realized P&L moved by sell cash minus buy cash minus fees of the trades emitted for it, quantities cancel, open positions are untouched, and the updates replayed on the book give the final book |
| `PaperLedger.RecordLeg` | internal/backtest/paper.go:294-426 | one leg keeps this, filled or skipped, and a filled one writes one position |
| `PaperLedger.FilledIff` | internal/backtest/paper.go:294-426 | a leg is filled exactly when it names exchange and token, both prices and the quantity are positive and nothing is open under its key; then it is bought at the entry and sold at the exit, slippage raising the one and lowering the other |
| `PaperLedger.LegsInTurn` | internal/backtest/paper.go:284-294 | the legs are the calls and puts of the trades, in turn |
| `PaperLedger.KeyConserved` | internal/backtest/paper.go:402-426 | a filled leg conserves every key |
| `PaperLedger.SlippageOnlyCosts` | internal/backtest/strategy_backtest.go:807-816 | a leg never makes more than without slippage, and as much exactly when there is none |
| `PaperLedger.DriftIsSkippedCash` | internal/store/strategy.go:484-499 | the ledger departs from the stored trades by exactly the cash of the trades that were not stored |
| `PaperLedger.StoredOrSkipped` | internal/store/strategy.go:484-499 | cash stored and cash skipped make up the cash offered |
| `PaperLedger.StoredKeeps` | internal/store/strategy.go:484-499 | storing keeps what is there and every identity offered is present afterwards |
| `PaperLedger.RerunAgreesIff` | internal/backtest/paper.go:267-432 | recording the same trades again stores nothing and books them twice, so ledger and trades agree exactly on keys that made nothing |
| `PaperLedger.RerunBooksTwice` | internal/backtest/paper.go:267-432 | a leg that makes 10, recorded twice: 10 in the stored trades, 20 in the ledger |
| `PaperLedger.RowsAddUp` | internal/store/strategy.go:501-540 | when every leg of a key is spelled as its stored row, the stored rows add up to the ledger after any run |
| `PaperLedger.RowsAgreeIff` | internal/store/strategy.go:501-540 | after an update they do exactly when the rows under other spellings hold nothing in all |
| `PaperLedger.OtherSpellingCountsTwice` | internal/store/strategy.go:501-540 | a stored 10 under nfo and a leg under NFO that makes 5, recorded: 15 in the ledger, 25 in the rows |
| `PaperLedger.SameOpenSameFills` | internal/backtest/paper.go:295-301 | which legs are filled depends only on which positions were open at the start |
| `PaperLedger.ListedUnderOwnKeyIff` | internal/backtest/paper.go:434-436 | the ledger's key is the store's exactly when exchange and token have no outer white space |
| `PaperLedger.SpaceHidesPosition` | internal/backtest/paper.go:434-436 | an exchange stored with a space before it has another key in the store |
| `Charges.CalculateTradeCosts` | internal/backtest/charges.go:24-89 | every item is within 0.005 of its formula on the rounded values, all sums are exact in hundredths, profits add up, the ratios are those of the profit and the charges, and the total is within 7 × 0.005 of the unrounded formula |
| `Charges.BrokerageIs` | internal/backtest/charges.go:33-40 | the rate on a positive value, never more than the rate gives or the cap allows |
| `Charges.TotalIs` | internal/backtest/charges.go:33-59 | the unrounded charges in one formula: brokerage and turnover fees with the tax on them, transaction tax on the sale, stamp duty on the purchase |
| `Charges.Round2` | internal/backtest/charges.go:91-93 | the result is whole hundredths within half a hundredth |
| `Charges.HalvesAwayFromZero` | internal/backtest/charges.go:91-93 | halves are rounded away from zero, and negative amounts like positive ones |
| `Charges.TradeValue` | internal/backtest/charges.go:25-31 | within half a hundredth of price times quantity; a negative quantity counts as none |
| `RSI.RsiSeries` | internal/backtest/a02.go:503-538 | the running sums give, at every index, the value computed from scratch on the last period + 1 closes |
| `RSI.SeriesFromSums` | internal/backtest/a02.go:503-538 | sums over the long series are the sums over the window |
| `RSI.SeriesInRange` | internal/backtest/a02.go:503-546 | undefined exactly below the period, otherwise in [0, 100] |
| `RSI.WindowIsShareOfGains` | internal/backtest/a02.go:503-546 | the value is the gains' share, in percent, of gains and losses in the window |
| `RSI.GainsLessLosses` | internal/backtest/a02.go:512-521 | gains less losses are the move from the window's first close to its last |
| `RSI.SeriesInvariant` | internal/backtest/a02.go:503-546 | unchanged by shifting and positively scaling all prices |
| `Supertrend.SupertrendLine` | internal/backtest/strategy_backtest.go:992-1052 | the loops compute the active band and direction of the recursive definition |
| `Supertrend.Ranges` | internal/backtest/strategy_backtest.go:996-1012 | the smoothed ranges |
| `Supertrend.TrueRangeIs` | internal/backtest/strategy_backtest.go:998-1003 | the largest of the bar's span and its two distances from the close before |
| `Supertrend.AverageMoves` | internal/backtest/strategy_backtest.go:1004-1012 | the first average is the mean of the first period ranges, each later one moves a period-th of the way to its range |
| `Supertrend.BandsAroundMiddle` | internal/backtest/strategy_backtest.go:1017-1018 | the basic bands are multiplier averages above and below the middle of the bar |
| `Supertrend.HeldTwiceNoRise` | internal/backtest/strategy_backtest.go:1013-1051 | with the direction unchanged over two bars, the active band does not give way on the next |
| `Supertrend.BandsRatchet` | internal/backtest/strategy_backtest.go:1013-1051 | through a whole trend the active band never gives way and no close is beyond it |
| `Supertrend.UpperMayRiseAtFlip` | internal/backtest/strategy_backtest.go:1013-1051 | prices for which the band rises right after the flip |
| `ImpliedVolatility.Solve` | internal/options/black76.go:37-60 | an answer exactly when inputs are positive and the price is bracketed; it is a price match or the middle of a bracket halved a hundred times, for any price function |
| `ImpliedVolatility.NearTheRoot` | internal/options/black76.go:49-59 | with an increasing price function an answer that is no match is within 4.9999/2^(k+1) of the root after k halvings, and the solver makes a hundred |
| `ImpliedVolatility.Halved` | internal/options/black76.go:49-59 | halving keeps the bracket |
| `A02FanOut.ScheduleDoesNotMatter` | internal/backtest/a02.go:149-227 | with unique tokens the sorted trades are the same for every number of workers and every schedule |
| `A02FanOut.AllTradesFound` | internal/backtest/a02.go:165-214 | at the end every symbol's trade is there, none lost or repeated |
| `A02FanOut.RunConserves` | internal/backtest/a02.go:165-214 | at every moment trades found and trades to come are those of the symbols handed out |
| `A02FanOut.OneSort` | internal/backtest/a02.go:217-222 | by entry time and token the trades sort in one way only |
| `A02FanOut.SortedByEntry` | internal/backtest/a02.go:217-222 | in order of entry time, and of tokens at one time |
| `Episodes.EpisodesFromRecords` | tools/oiss_evidence_fitness_experiment.py:450-488 | for records in any order: the episodes of the maximal runs of every symbol-day, the days sorted and their rows in order of time |
| `Episodes.GroupRecords` | tools/oiss_evidence_fitness_experiment.py:451-453 | the dictionary holds exactly the rows of every symbol-day, in the order of the records |
| `Episodes.GroupsCover` | tools/oiss_evidence_fitness_experiment.py:451-456 | the groups are of different symbol-days and every record is in its own |
| `Episodes.GroupsSorted` | tools/oiss_evidence_fitness_experiment.py:456 | a group's rows are a permutation of its symbol-day's, in order of time |
| `Episodes.GroupsInOrder` | tools/oiss_evidence_fitness_experiment.py:455-456 | the symbol-days come in order of symbol and then of day |
| `Episodes.TimeTiesStable` | tools/oiss_evidence_fitness_experiment.py:456 | rows of one instant stay in the order of the records |
| `Episodes.EpisodeRows` | tools/oiss_evidence_fitness_experiment.py:454-488 | every group gets the episodes of its maximal runs, numbered 1, 2, ... although the numbers are looked up in the common list |
| `Episodes.SegmentDay` | tools/oiss_evidence_fitness_experiment.py:455-487 | the loop finds the segmentation |
| `Episodes.EpisodesUnique` | tools/oiss_evidence_fitness_experiment.py:450-488 | the rows leave no choice of episodes |
| `Episodes.SegmentationUnique` | tools/oiss_evidence_fitness_experiment.py:477-487 | a symbol-day's rows segment in one way only |
| `Episodes.Flush` | tools/oiss_evidence_fitness_experiment.py:460-476 | an active run becomes one episode numbered after those the symbol-day has |
| `Episodes.SpansInOrder` | tools/oiss_evidence_fitness_experiment.py:477-487 | the episodes are disjoint maximal runs in order |
| `Episodes.CoveredIffClassified` | tools/oiss_evidence_fitness_experiment.py:478-480 | they take in exactly the classified rows |
| `Episodes.NeighboursShareIff` | tools/oiss_evidence_fitness_experiment.py:481-486 | neighbours share an episode exactly when classified alike, in the same direction and at most 45 minutes apart |
| `Episodes.RunIsUniform` | tools/oiss_evidence_fitness_experiment.py:481-486 | all rows of an episode carry the family and direction it reports |
| `Episodes.DescribedAs` | tools/oiss_evidence_fitness_experiment.py:466-475 | episode k carries the ends, the size and the number of run k |
| `GateFunnel.GateAnalysis` | tools/oiss_evidence_fitness_experiment.py:340-375 | fails exactly without records; the funnel counts and percentages, the failures, verdicts and the overlap table are those of the gates |
| `GateFunnel.AnalyseCandidates` | tools/oiss_evidence_fitness_experiment.py:340-375 | so for the source's eleven gates and actionable statuses |
| `GateFunnel.FailsIff` | tools/oiss_evidence_fitness_experiment.py:340-375 | which of the eleven gates a record is said to fail, by its fields, and when it becomes NO TRADE |
| `GateFunnel.ExecutableIff` | tools/oiss_evidence_fitness_experiment.py:341-366 | a record is called executable exactly when it fails at most six of the eleven gates; this is whether it passes the execution gates exactly when it passes them or fails more than six |
| `GateFunnel.GoodSignalIsExecutable` | tools/oiss_evidence_fitness_experiment.py:341-366 | a record that fails at most one signal gate is called executable whatever its execution gates |
| `GateFunnel.RatioGatesFailTogether` | tools/oiss_evidence_fitness_experiment.py:348-349 | a record that fails the seventh gate fails the eighth |
| `GateFunnel.RejectedYetExecutable` | tools/oiss_evidence_fitness_experiment.py:341-366 | a record with everything but a ratio fails gates seven and eight and is called executable |
| `GateFunnel.FunnelIsAttribution` | tools/oiss_evidence_fitness_experiment.py:354-370 | a stage loses exactly the records that fail its gate first, and the last leaves those that fail none |
| `GateFunnel.OverlapBounds` | tools/oiss_evidence_fitness_experiment.py:371-374 | the overlap is symmetric, bounded by its diagonal, and first failures by the failures |
| `GateFunnel.Failures` | tools/oiss_evidence_fitness_experiment.py:360-368 | the failed gates, each once in order, headed by the first failure |
| `GateFunnel.CountPairs` | tools/oiss_evidence_fitness_experiment.py:371-373 | every ordered pair of failures counts once more, nothing else |

## Left out

- SQL, HTTP, websockets, alerts, logging, metrics text, raw payloads, row identifiers: input and output around the modelled logic.
- Floating point: rounding noise, infinities and `NaN` inputs; all arithmetic is exact.
- Unicode: case folding and white space cover ASCII, and strings compare by character.
- Time zones: a fixed offset of whole minutes; no clock changes, in `DateRanges` and in bucket starts.
- Persist calls that report an error after having stored the rows: a failed attempt acknowledges nothing.
- Worker shutdown in the REST queue: jobs left in the channels after cancellation simply stay queued; a job's done channel is always the fresh one `Submit` makes.
- Cancellation of the symbol fan-out: it returns an error and no trades.
- Setup evaluators, average true range of the simulator, the swing entry signal and `Black76` itself: arbitrary functions.
- Rotation without budgets (cmd/collector/tasks.go:741-749): one `QuoteRotation.Rotation.Take` per exchange.
- The zero exit time of a bar stamped with the zero `time.Time`: the swing scan's exit is an option instead.
- Rounding of the funnel's percentages, and episode columns that copy or aggregate row fields (status path, score maxima, returns).
- Sorts in front of `CapitalSelection`, `Drawdown` and `A02FanOut`: the sorted order is the input, arbitrary among ties.
- Two bars of one instant in the price lookup: both callers read rows with a unique timestamp per instrument
  (internal/store/postgres.go:703), so `OptionExit.PickIsLastIff` is the last bar at or before the instant for them.
- Update in place in `BatchWriter`: the variables that the source's closures assign are one record, which every
  step replaces.
- Trade identifiers: the hash is its tuple of parts, so collisions and the rounding of prices to six decimals in it are not modelled; nor are the order rows, which repeat the trades.
- Choice of wanted subscriptions: `reconcileCurrentStockFNOEquities`, derivative selection and the derivative plan; `Subscriptions.Refresh` takes the lists.
- Subscription columns other than key, symbol, priority, flag and reason.
- `willrSeries`, moving averages, Bollinger bands, VWAP, summaries of means and deviations: easy members, or square roots.
- `selectATMStraddleContracts`, configuration defaults, calendars and reports: one branch at a time.
- BatchWriter.Run: batch sizes below one, with which the writer would never receive a row; its callers pass positive constants.
- ImpliedVolatility.Solve: reals never run out of precision, so the hundred halvings always narrow the bracket.
- QuoteBuilds.AllWithinBuilds: not for a kind that the order names twice, which has several turns in a build, nor for exchanges
  with a colon in their names, two of which could share a cursor.
