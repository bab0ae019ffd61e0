# A verified model of howling-trader

This project models the parts of the trading system whose correctness depends on more than one function at a time,
and proves what they keep over whole runs. Each Dafny module stands for one component of the C++ code, in the form
that component has: classes with fields for the objects that are updated in place, loops for loops, functions for
expressions, and state machines over atomic steps where several threads share a lock.

| module | component | main results |
|---|---|---|
| `ResourcePool` | the blocking pool's lock regions and its owning handle | each region's code equals a function on the pool's state; pruning is exact on a sorted deque, by the clock |
| `PoolProtocol` | the same regions interleaved among any number of threads | no lost wake-up, conservation of slots, one owner for each live resource, close is absorbing; what a throwing health check costs |
| `CircularBuffer` | the ring and its iterators | any run of operations refines a log seen through a window; iterators read the log |
| `BufferedStream` | readers of the ring, one shared access at a time | every reader yields an ordered, duplicate-free subsequence; a scheduled reader yields or finishes in bounded steps; drained on exit; deregistered once |
| `ZigZag` | the pivot scan | alternation, extremality, swing size, no missed reversal, when the first trend is known, finality of pivots |
| `Vector`, `Ema`, `Aggregate`, `MovingAverages`, `Macd` | sliding windows, averages, crossover advice | incremental windows equal their definition; strided closed form; the analyzer reads its own predecessor |
| `Executor`, `Evaluate` | the simulated executor and the evaluation loop | exposure bound, ledger identities over whole sessions |
| `Registry` | the memoised service registry | retrieval under any argument order, with its exact success condition |
| `LoginNotice` | RequestLogin, the OAuth callback, the token rows | what the token row holds after any run; one store per notice, checked within its lifetime, and when it is stored within it; when notices are spaced |
| `Analyzer`, `Arithmetic`, `Wrappers` | what analyzers return; shared arithmetic, optional values and results | |

`dafny verify dfyconfig.toml` checks everything.

## How to read the models

* **Locks.** A step of a protocol is one lock region (or one unlocked access, for the stream's running flag), and
  steps of different threads interleave in any order. In the pool a time-out may strike a waiter at any moment and a
  waiter may wake without a signal; this allows every run the real deadline allows, and more.
* **Outside inputs.** Clocks, factories, health checks, quotes, analyzer decisions, notice tokens and the exchange of
  an authorization code are arguments. Health checks and factories may throw.
* **Exceptions** are `Result` values, or an outcome of the step.
* **Numbers.** Money, prices and averages are `real`; counts are unbounded.
* **History.** A pivot's `buyBy` and `sellBy`, a reader's `positions`, `values`, `lastEnd` and `erased`, the pool's
  `lost` and `live`, the registry's `calls` and the protocol's `notices` and `stores` record what happened; no modelled branch
  reads them.

## What the code does not keep

Where a natural claim fails, the model keeps the code's behaviour, a lemma exhibits a failing input or run, or the whole
family of failing inputs, and a lemma says exactly when the claim holds.

* A health check that throws leaks a slot: it is counted as allocated for ever. `size()` then overstates what exists
  (`PoolProtocol.CounterCanOvercount`), and a thread can wait unsignalled although nothing is lent out or being created
  (`PoolProtocol.ThrowingCheckStarves`). The counter is exact, and a thread waits unsignalled only while everything is
  lent out or being created, if and only if no step of the run so far was one in which a check throws
  (`PoolProtocol.CounterIsExact`, `PoolProtocol.BlockedMeansFull`).
* The high and the low of the five- and twenty-minute windows start from zero. For positive prices the high is right
  and the low is always zero (`MovingAverages.WideHighIsHighest`, `MovingAverages.WideLowIsLowest`).
* `last_n(0)` is the whole vector, although its comment promises n elements (`Vector.LastNIsSuffix`).
* The confidence of a momentum HOLD is not clamped to one: three candles give one of 490 (`Macd.MomentumIsUnclamped`).
  Under a positive scaler it exceeds one if and only if the fast line has risen past a bound computed from the previous window, the signal
  period and the scaler (`Macd.ConfidenceOnWindows`).
* The first buy point's confirming candle may undercut it (`ZigZag.FirstBuyCanBeUndercut`). It does if and only if,
  while no trend was known, a candle rose past the running high by more than the threshold and fell below the running
  low; every other buy point is the lowest of its leg (`ZigZag.BuyIsLowestOfItsLeg`).
* A reader can leave the stream without an item pushed after its last end test (`BufferedStream.ItemCanBeMissed`);
  it misses nothing retained if and only if nothing was pushed after that test (`BufferedStream.DrainedOnExit`).
* A generator that has been created and not yet resumed is not registered, so the stream's destructor does not wait for
  it (`BufferedStream.UnstartedReaderOutlivesStream`); no reader uses a stream that is gone if and only if none is first
  resumed after the destructor has returned (`BufferedStream.UsedOnlyWhileAlive`).
* The scaler of confidences is any number: the same candles give a negative confidence under a negative scaler. A
  confidence has the sign of the scaler (`Macd.Confidence`).
* The notice's half hour is checked before the authorization code is exchanged and not after, so a refresh token can be
  stored later (`LoginNotice.StoreCanComeLate`); all stores are in time if and only if no exchange returns after its
  notice's half hour (`LoginNotice.StoredInLifetime`).
* The cooling period is checked by a strict comparison against a time stored at one-second resolution, so two recorded
  notices may be exactly a cooling period apart (`LoginNotice.NoticesExactlyCoolingApart`); when they are strictly
  farther apart is `LoginNotice.NoticeGap`.
* Two RequestLogin calls at the same time may both notify (`LoginNotice.ConcurrentLoginsNotifyTwice`). Notices are at
  least a cooling period apart if and only if every save came at least that long after the notice before it
  (`LoginNotice.SpacedExactly`), which holds if no other notice was recorded between a call's check and its save.

## Model

| member | source | states |
|---|---|---|
| `ResourcePool.PruneIsExact` | containers/resource_pool.cc:177-188 | on a deque sorted by age the front-only scan drops as many entries as are expired anywhere, down to the minimum size, and they are the oldest |
| `ResourcePool.PrunedByAge` | containers/resource_pool.cc:177-188 | by the clock alone: pruning drops from the front what has been idle for the time-out or longer, keeps the minimum size, and on a deque sorted by age leaves nothing that old beyond the minimum size; without a time-out it drops nothing |
| `ResourcePool.ReusedIsFresh` | containers/resource_pool.cc:55-64 | what a pass prunes had been idle for the time-out or longer; what it hands out of a deque still longer than the minimum size had not |
| `ResourcePool.PassPrunesLongIdle` | containers/resource_pool.cc:55-69 | when everything has been idle for the time-out a pass leaves at most the minimum size idle |
| `ResourcePool.AcquireWaitsOnlyWhenFull` | containers/resource_pool.cc:52-107 | a pass of the acquire loop goes to wait if and only if the wait predicate was false when it began, and then every slot is taken and nothing changed |
| `ResourcePool.AcquireAccounts` | containers/resource_pool.cc:53-95 | pruning and discarding leave the number of slots in use alone; a pass that takes or creates uses exactly one more |
| `ResourcePool.AcquireKeepsRun` | containers/resource_pool.cc:55-69 | what is idle after a pass is a contiguous run of what was idle before |
| `ResourcePool.AcquireTakesMostRecent` | containers/resource_pool.cc:57-69 | the entry handed out is the most recently released one not found unhealthy; creating or waiting means all were unhealthy |
| `ResourcePool.PassDestroysTheRest` | containers/resource_pool.cc:55-69 | a pass keeps a run of entries, may hand out the one behind it, and destroys all others |
| `ResourcePool.ReleasedIsReused` | containers/resource_pool.cc:57-133 | a healthy resource released into an open pool is the next one handed out unless it expired; an unhealthy one frees its slot |
| `ResourcePool.PrepopulatedKeepsHealthy` | containers/resource_pool.cc:31-39 | a prepopulated pool holds exactly the healthy products, in the order they were made, each with its own time |
| `ResourcePool.GivingBackFreesSlot` | containers/resource_pool.h:170-176 | letting go of an owned resource uses one slot less, and a healthy one becomes the youngest idle entry; a throwing check or an empty handle changes nothing |
| `ResourcePool.Pool.Create` | containers/resource_pool.cc:16-40 | which options are rejected and with which error; otherwise the pool holds the healthy products in order, or the exception of the first call that throws |
| `ResourcePool.Pool.DecrementTotalAllocated` | containers/resource_pool.cc:169-171 | the saturating decrement |
| `ResourcePool.Pool.PruneIdleLocked` | containers/resource_pool.cc:177-188 | the pruning loop terminates with the state the declarative prune gives |
| `ResourcePool.Pool.AcquirePass` | containers/resource_pool.cc:52-107 | the loop body under the lock equals the acquire region, state and outcome, including a throwing health check |
| `ResourcePool.Pool.CreateFailed` | containers/resource_pool.cc:78-92 | a failed creation gives its slot back and signals one waiter |
| `ResourcePool.Pool.Acquire` | containers/resource_pool.cc:46-108 | a whole acquire: which outcome gives which error or exception, what it returns, and that exactly a success or an escaping health-check exception uses one slot |
| `ResourcePool.Pool.Release` | containers/resource_pool.cc:110-134 | the released resource is kept or destroyed by the three conditions; a null one does nothing; a throwing check escapes before the lock |
| `ResourcePool.Pool.Close` | containers/resource_pool.cc:158-167 | closes, empties, zeroes the counter and signals every waiter |
| `ResourcePool.ScopedResource.Of` | containers/resource_pool.h:138-141 | the handle owns the resource and its pool |
| `ResourcePool.ScopedResource.Move` | containers/resource_pool.h:145-148 | ownership moves whole; the source handle owns nothing |
| `ResourcePool.ScopedResource.Reset` | containers/resource_pool.h:170-176 | the resource is given back exactly once; a second reset changes nothing |
| `ResourcePool.ScopedResource.MoveAssign` | containers/resource_pool.h:150-158 | gives back what was owned, then takes over the other's; self-assignment changes nothing; a throwing health check terminates the program before anything is taken over |
| `PoolProtocol.RunKeepsInv` | containers/resource_pool.cc:46-167 | in every state of every run: slots conserved, no lost wake-up, no resource with two owners, none live without one, idle deque sorted by age |
| `PoolProtocol.StepCounts` | containers/resource_pool.cc:46-167 | every step under any interleaving of time-outs, spurious wakes, barging, failures and discards keeps conservation and no-lost-wake-up |
| `PoolProtocol.StepOwns` | containers/resource_pool.cc:46-167 | every step keeps ownership exclusive and the deque sorted |
| `PoolProtocol.StepAccounts` | containers/resource_pool.cc:55-167 | every step destroys exactly the resources it leaves without an owner |
| `PoolProtocol.PassCounts` | containers/resource_pool.cc:52-107 | a pass of the acquire loop repays the one signal it may have consumed |
| `PoolProtocol.PassOwns` | containers/resource_pool.cc:55-69 | a pass hands a resource to one handle and leaves the rest to the deque |
| `PoolProtocol.WokenCounts` | containers/resource_pool.cc:97-106 | a waiter that wakes, signalled or not, timed out or not, leaves no wake-up lost |
| `PoolProtocol.ReleasedCounts` | containers/resource_pool.cc:121-133 | a release conserves slots and signals for the slot it frees |
| `PoolProtocol.FreeSlotsAreSignalled` | containers/resource_pool.cc:97-133 | in every reachable open state with a waiter blocked, the slots neither lent out nor being created exceed the signalled waiters by at most the number of throws so far, so not at all without throws |
| `PoolProtocol.BlockedMeansFull` | containers/resource_pool.cc:97-106 | in every reachable open state with a waiter blocked and none signalled, what is lent out, being created and lost to throws is the maximum; lent out and being created alone are the maximum if and only if no check has thrown in the run |
| `PoolProtocol.WakeTakesSlot` | containers/resource_pool.cc:98-106 | a waiter whose predicate holds takes a slot before it gives up the lock, whatever else happens |
| `PoolProtocol.GivingUpMeansFull` | containers/resource_pool.cc:101-105 | in every run, a waiter leaves an open pool with nothing and without an exception only by a time-out that finds every slot taken or lost |
| `PoolProtocol.AcquireOutcome` | containers/resource_pool.cc:46-107 | a caller of an open pool waits exactly when nothing is idle and the counter is at its maximum; otherwise it gets a resource, creates one or fails with a throw; a resource it gets was idle, healthy, and fresh unless the minimum size kept it |
| `PoolProtocol.WaiterThatFindsNothing` | containers/resource_pool.cc:97-106 | a waiter that wakes and finds nothing leaves when timed out and otherwise waits again; it changes nothing else |
| `PoolProtocol.CounterIsExact` | containers/resource_pool.cc:57-95 | while open, the counter is idle + lent + being created + the number of throws so far, and at most the maximum; it is idle + lent + being created if and only if no check has thrown in the run; no decrement meets zero |
| `PoolProtocol.LosesWhenThrown` | containers/resource_pool.cc:62-114 | a step loses a slot if and only if a health check throws in it: after the factory, in a release, or in a pass that reaches it |
| `PoolProtocol.LostCountsThrows` | containers/resource_pool.cc:62-114 | in every run the slots lost are as many as checks have thrown |
| `PoolProtocol.CounterCanOvercount` | containers/resource_pool.cc:86-86 | a run after which the counter says one and nothing exists |
| `PoolProtocol.ThrowingCheckStarves` | containers/resource_pool.cc:86-106 | a run of a pool of one that leaves a thread waiting unsignalled with nothing lent out or being created |
| `PoolProtocol.OwnershipIsExclusive` | containers/resource_pool.h:143-176 | in every reachable state a resource is live if and only if it has an owner, and has only one; a handle move keeps the live resources and hands over exactly one |
| `PoolProtocol.PruningIsExactInRuns` | containers/resource_pool.cc:59-130 | in every reachable state pruning drops min(expired, size - minimum) entries, and they are expired and the oldest |
| `PoolProtocol.LongIdleIsPruned` | containers/resource_pool.cc:59-188 | after the clock has advanced by the idle time-out the next acquire leaves at most the minimum size idle |
| `PoolProtocol.CloseWakesEveryone` | containers/resource_pool.cc:158-167 | close empties the pool and wakes every waiter; only lent resources stay live, with their handles |
| `PoolProtocol.CloseIsAbsorbing` | containers/resource_pool.cc:158-171 | from the first closed state on nothing is idle, the counter is zero, and only creations already in flight reach handles, at most one each |
| `PoolProtocol.NobodyWaitsOnClosed` | containers/resource_pool.cc:53-53 | once closed nobody is blocked, and no acquire or wake-up comes away with a resource or a creation |
| `PoolProtocol.ReleaseAfterCloseDestroys` | containers/resource_pool.cc:125-127 | a release after close leaves the resource destroyed and with no owner |
| `CircularBuffer.SlotsDiffer` | containers/circular_buffer.h:122-122 | positions less than a capacity apart never share a slot |
| `CircularBuffer.PushRefines` | containers/circular_buffer.h:66-76 | a push appends to the log and drops the oldest visible entry only from a full window |
| `CircularBuffer.ReadsLog` | containers/circular_buffer.h:118-122 | every visible position is found in its slot |
| `CircularBuffer.RunRefines` | containers/circular_buffer.h:66-112 | after any run of pushes, pops and clears the ring refines the log, and its window is what a bounded queue would hold |
| `CircularBuffer.Buffer.constructor` | containers/circular_buffer.h:25-27 | an empty log, an empty window |
| `CircularBuffer.Buffer.PushBack` | containers/circular_buffer.h:66-76 | the contents gain the value at the end and lose the first when full |
| `CircularBuffer.Buffer.PopFront` | containers/circular_buffer.h:78-85 | the contents lose their first entry; an error exactly when empty |
| `CircularBuffer.Buffer.At` | containers/circular_buffer.h:53-59 | the entry of the contents at that index, or an error beyond them |
| `CircularBuffer.Buffer.Front` | containers/circular_buffer.h:87-91 | the oldest visible entry, or an error when there is none |
| `CircularBuffer.Buffer.Back` | containers/circular_buffer.h:92-96 | the youngest entry, or an error when there is none |
| `CircularBuffer.Buffer.Clear` | containers/circular_buffer.h:107-112 | back to the empty ring |
| `CircularBuffer.Iterator.Begin` | containers/circular_buffer.h:38-41 | stands on the oldest visible position |
| `CircularBuffer.Iterator.JumpToFront` | containers/circular_buffer.h:187-190 | an overrun iterator moves to the front, any other stays |
| `CircularBuffer.Iterator.Increment` | containers/circular_buffer.h:140-145 | the next position, or the front if that is later |
| `CircularBuffer.Iterator.Add` | containers/circular_buffer.h:152-157 | n positions on, or the front if that is later |
| `CircularBuffer.Iterator.Equals` | containers/circular_buffer.h:165-171 | all end positions are equal; against end(), the end test |
| `CircularBuffer.Iterator.Deref` | containers/circular_buffer.h:174-178 | reads the log at a retained position and writes the jump back into the iterator |
| `CircularBuffer.Iterate` | containers/circular_buffer.h:38-50 | a range-for loop yields the contents in order and ends |
| `BufferedStream.RunKeepsInv` | containers/buffered_stream.h:23-96 | the invariant of stream, ring and all readers holds in every state of every run |
| `BufferedStream.StepKeepsInv` | containers/buffered_stream.h:23-96 | every step of the writer, any reader or the destructor keeps it |
| `BufferedStream.PushKeepsReader` | containers/buffered_stream.h:41-46 | a push between any two of a reader's steps leaves its record true |
| `BufferedStream.DereferenceIsInRange` | containers/circular_buffer.h:174-190 | after a passed end test a dereference finds a retained entry of the log, however many pushes came between |
| `BufferedStream.DerefYields` | containers/buffered_stream.h:84-87 | one dereference yields one later position with the log's value there |
| `BufferedStream.ReadersYieldSubsequences` | containers/buffered_stream.h:82-93 | each reader yields an order-preserving, duplicate-free subsequence of the log; every position passed over had been evicted |
| `BufferedStream.DereferencesSucceed` | containers/buffered_stream.h:84-86 | in every run a dereference moves forward only, yields exactly one value, and skips only evicted positions |
| `BufferedStream.DrainedOnExit` | containers/buffered_stream.h:83-93 | a reader leaves only a stopped stream; everything pushed before the last end test that found the end was yielded or evicted; everything retained was, if and only if nothing was pushed since |
| `BufferedStream.DeregisteredOnce` | containers/buffered_stream.h:65-95 | each started reader is erased at most once, exactly once by the end of its frame; the destructor finishes only with none registered |
| `BufferedStream.UsedOnlyWhileAlive` | containers/buffered_stream.h:23-72 | over every run no reader uses a stream that is gone if and only if none is first resumed after the destructor has returned |
| `BufferedStream.UnstartedReaderOutlivesStream` | containers/buffered_stream.h:23-72 | a run in which the destructor returns although a generator exists, and the generator then starts |
| `BufferedStream.ScheduledReaderYields` | containers/buffered_stream.h:83-93 | from any reachable state a reader in its loop with something left, unless it has stopped looking, yields exactly the log's value at the next retained position within six of its own steps |
| `BufferedStream.StoppedReaderFinishes` | containers/buffered_stream.h:83-95 | a reader of a stopped stream is done after a number of its own steps given by its place and what it has left, at most three for each position and eight more; it has then yielded all that is retained, unless it had stopped looking or was abandoned |
| `BufferedStream.ScheduledReaderSleeps` | containers/buffered_stream.h:84-93 | a reader that has read everything of a running stream is asleep within six of its own steps, having yielded nothing |
| `BufferedStream.BeginsAtFront` | containers/buffered_stream.h:82-82 | a reader begins at the oldest visible position |
| `BufferedStream.DestructorWaitsForReaders` | containers/buffered_stream.h:23-37 | the destructor stops the stream first, and once it looks it returns exactly when no reader is registered |
| `BufferedStream.ItemCanBeMissed` | containers/buffered_stream.h:83-88 | a run in which a reader leaves with an unread item still in the buffer |
| `ZigZag.ScanIsSound` | data/analyzers/zig_zag.cc:31-78 | after every prefix of the scan: every pivot's promise, and the state of the unfinished leg |
| `ZigZag.ScanTheorem` | data/analyzers/zig_zag.cc:19-79 | alternation, extremality, swing above the threshold, confirmation by the first reversal, one more buy than sells exactly when the trend is up, and how far the last leg has retraced |
| `ZigZag.StepUndecided` | data/analyzers/zig_zag.cc:33-54 | the candle that finds the first trend, or none |
| `ZigZag.StepUp` | data/analyzers/zig_zag.cc:55-65 | a candle of an up leg extends it, leaves it, or confirms a sell |
| `ZigZag.StepDown` | data/analyzers/zig_zag.cc:66-77 | a candle of a down leg extends it, leaves it, or confirms a buy |
| `ZigZag.UpLegTurns` | data/analyzers/zig_zag.cc:60-64 | the sell confirmed is the first highest since the buy, more than the threshold above it, and the reversal is the leg's first |
| `ZigZag.DownLegTurns` | data/analyzers/zig_zag.cc:71-76 | the buy confirmed is the first lowest since the sell, more than the threshold below it, and the reversal is the leg's first |
| `ZigZag.Interleaved` | data/analyzers/zig_zag.cc:35-76 | buys and sells strictly interleave, across any distance |
| `ZigZag.PivotsAreFinal` | data/analyzers/zig_zag.cc:31-78 | scanning further never revises a pivot |
| `ZigZag.UndecidedWhileQuiet` | data/analyzers/zig_zag.cc:33-54 | no trend is known exactly as long as no candle has risen above the running high, or fallen below every low before it, by more than the threshold |
| `ZigZag.FirstTrend` | data/analyzers/zig_zag.cc:33-54 | the first candle that does decides: a rise confirms the first lowest candle before it as a buy, a mere fall starts a downturn without a pivot |
| `ZigZag.DownturnGoesOn` | data/analyzers/zig_zag.cc:66-77 | the first downturn goes on without a pivot as long as no candle keeps the lowest low and rises more than the threshold above it |
| `ZigZag.DownturnEndsInBuy` | data/analyzers/zig_zag.cc:66-77 | the first candle that does makes that low the first buy, for the rest of the history |
| `ZigZag.FirstBuyCanBeUndercut` | data/analyzers/zig_zag.cc:35-50 | an input whose first buy is undercut by its confirming candle |
| `ZigZag.UndercutByWideTurn` | data/analyzers/zig_zag.cc:33-54 | the first buy is undercut by its confirming candle if and only if a candle before any trend both confirmed the buy and fell below the running low |
| `ZigZag.BuyIsLowestOfItsLeg` | data/analyzers/zig_zag.cc:33-76 | a buy is the lowest low since the sell before it, up to and including its confirming candle, unless it is the first and such a candle came |
| `ZigZag.ReplayFollowsPivots` | data/analyzers/zig_zag.cc:81-95 | replaying a history of distinct opening seconds buys exactly at the buy pivots and sells exactly at the sell pivots, always with confidence one |
| `ZigZag.BuyComesFirst` | data/analyzers/zig_zag.cc:84-94 | a candle opening in the second of a buy point is bought on even if a sell point opens then too; without either it is held |
| `ZigZag.ZigZagAnalyzer.constructor` | data/analyzers/zig_zag.cc:19-79 | the loop stores exactly the candles of the scan's pivots, in order |
| `ZigZag.ZigZagAnalyzer.Analyze` | data/analyzers/zig_zag.cc:81-95 | buy if the candle opens with a buy point, else sell if with a sell point, else hold |
| `Vector.AtCountsBack` | containers/vector.h:29-62 | a negative index counts from the end and stops at the first entry; only an empty vector is out of range |
| `Vector.LastNIsSuffix` | containers/vector.h:43-47 | last_n is a suffix; it has min(n, size) entries if and only if n is positive or the vector is empty |
| `Vector.PreviousNIsBeforeLast` | containers/vector.h:49-55 | previous_n is the up to n entries just before the last |
| `Ema.WeightsSumToOne` | data/aggregate.cc:53-57 | the weights an average gives n prices and its seed are non-negative and sum to one |
| `Ema.WeightIsPower` | data/aggregate.cc:53-57 | the weight of a price decays geometrically with its distance |
| `Ema.EmaExtends` | data/aggregate.cc:53-57 | one step of the recurrence is one more price in the closed form |
| `Ema.EmaBetween` | data/aggregate.cc:53-57 | an average stays between any bounds of the price and the previous average |
| `Aggregate.WindowsExtend` | data/aggregate.cc:163-177 | a new minute adds one window to each list and changes none |
| `Aggregate.PreviousIsStrided` | data/aggregate.cc:48-51 | the predecessor is the window that many places before the one about to be added, if there is one |
| `Aggregate.BuildsOnPredecessor` | data/aggregate.cc:59-80 | building on window i - w gives exactly the declared averages of window i |
| `Aggregate.CalculateMacd` | data/aggregate.cc:59-80 | the four average fields from the predecessor's, or from the window's own mean; nothing else changes |
| `Aggregate.ToWindow` | data/aggregate.cc:82-108 | the one-minute window of a candle |
| `Aggregate.Combine` | data/aggregate.cc:134-137 | the first loop: count, close, extremes from zero, volume and sum of closes of the span |
| `Aggregate.SquaredDifferences` | data/aggregate.cc:139-143 | the second loop: the sum of squared deviations from the mean |
| `Aggregate.DoAggregate` | data/aggregate.cc:132-151 | the window of a span, built on the predecessor |
| `Aggregate.Aggregations.NextWide` | data/aggregate.cc:173-176 | the window of the last five or twenty minutes is the declared one |
| `Aggregate.Aggregations.NextMinute` | data/aggregate.cc:165-166 | the window of one minute is the declared one |
| `Aggregate.Aggregations.AddNextMinute` | data/aggregate.cc:163-177 | the three lists hold exactly the declared windows of the minutes added, so window i covers minutes max(0, i-w+1)..i |
| `Aggregate.AggregateAll` | data/aggregate.cc:155-161 | aggregating a whole history gives the declared windows of it |
| `MovingAverages.EmaIsStrided` | data/aggregate.cc:168-176 | the averages of window i are the explicit average of the closes at i, i-w, i-2w, ... seeded with the mean of window i mod w |
| `MovingAverages.SignalIsStrided` | data/aggregate.cc:69-78 | the signal line is the explicit average of the fast lines at i, i-w, i-2w, ... seeded with zero |
| `MovingAverages.WindowIsStrided` | data/aggregate.cc:59-80 | each average of a window has its own period in that closed form, and the fast line is fast minus slow |
| `MovingAverages.WindowCoversMinutes` | data/aggregate.cc:132-151 | window i covers minutes max(0, i-w+1)..i: its count, close, volume, mean and mean squared deviation are theirs |
| `MovingAverages.SumsAreAdditive` | data/aggregate.cc:134-143 | the sums behind them add up over any split of the span |
| `MovingAverages.StridedCount` | data/aggregate.cc:168-176 | that chain has i / w closes |
| `MovingAverages.StridedClose` | data/aggregate.cc:168-176 | its entry t is the close t strides back |
| `MovingAverages.EmaWithin` | data/aggregate.cc:53-80 | both averages lie between any bounds of the closes seen so far |
| `MovingAverages.LinesWithin` | data/aggregate.cc:69-73 | fast line and signal line never exceed the range of the closes seen so far |
| `MovingAverages.ConstantPriceIsFlat` | data/aggregate.cc:59-80 | on a constant price all averages are that price and both lines zero |
| `MovingAverages.WideHighIsHighest` | data/aggregate.cc:26-113 | the high of a wide window is its minutes' highest if and only if one of them is not negative |
| `MovingAverages.WideLowIsLowest` | data/aggregate.cc:26-114 | the low of a wide window is its minutes' lowest if and only if one of them is not positive; for positive prices it is zero |
| `Macd.ReadsOwnPredecessor` | data/analyzers/macd.cc:23-31 | once the guard passes both negative indices are in range and the previous window is the one the current averages were computed from |
| `Macd.SilentUnlessGuarded` | data/analyzers/macd.cc:23-28 | no windows is an error; fewer than twice the last window's count, or a minute off its boundary, is no action |
| `Macd.GuardOnWindows` | data/analyzers/macd.cc:24-28 | on aggregated windows the guard passes exactly from 2w minutes on, at minutes that w divides |
| `Macd.GapIsScaledStep` | data/analyzers/macd.cc:33-35 | line minus new signal line is (1-k) times line minus old signal line, with the same sign for a period above one and zero for a period of one |
| `Macd.DeltaIsGap` | data/analyzers/macd.cc:33-34 | the difference whose sign decides is such a gap |
| `Macd.AdviceIsCrossover` | data/analyzers/macd.cc:33-74 | sells and buys exactly when the fast line crosses the previous signal line downwards or upwards and trading allows; holds exactly on a crossing it does not allow or on growing momentum |
| `Macd.Confidence` | data/analyzers/macd.cc:37-74 | buys, sells and crossover holds have the scaled change of the gap capped at one, in (0, 1] if and only if the scaler is positive; a momentum hold has that change uncapped; a confidence has the sign of the scaler |
| `Macd.ConfidenceOnWindows` | data/analyzers/macd.cc:23-74 | on aggregated windows a confidence is zero exactly without advice or with scaler zero, negative exactly on advice with a negative scaler, and exceeds one if and only if the scaler is positive, the previous fast line was above its signal line and the current one has risen past previous signal + (1/scaler + previous gap) / (1-k) |
| `Macd.MomentumIsUnclamped` | data/analyzers/macd.cc:61-71 | three one-minute candles on which the analyzer holds with confidence 98 times the scaler, so 490 for the default of five |
| `Executor.BuyQuantityIsLargest` | trading/executor.cc:46-57 | the quantity is the largest whole number of shares the purchase target pays for |
| `Executor.BuysAllThatFits` | trading/executor.cc:46-57 | n shares are bought or exceeded if and only if n fit in max_individual_buy_size of the available funds and, with the funds already at work (none in profit), in max_fund_use of the initial funds |
| `Executor.BuysWhenAffordable` | trading/executor.cc:67-72 | a buy goes through if and only if the symbol was quoted and the target pays for one share; otherwise nothing changes |
| `Executor.Executor.Buy` | trading/executor.cc:65-79 | the new state and the position returned, or no change |
| `Executor.Executor.Sell` | trading/executor.cc:93-112 | the loop's counters, the emptied positions, the proceeds, and the one case that returns nothing yet counts sales |
| `Executor.Executor.UpdateMarket` | trading/executor.cc:123-139 | each side of the quote is replaced only if its lots are positive |
| `Executor.BuyRespectsLimits` | trading/executor.cc:46-78 | a buy costs more than nothing and at most its share of the funds just before it, and leaves the exposure limit kept |
| `Executor.EventKeepsExposure` | trading/executor.cc:65-139 | a quote, a buy or a sale keeps the limit |
| `Executor.AllFundsWithinExposure` | trading/executor.cc:46-54 | with all funds available the limit holds if and only if its share of the initial funds is not negative |
| `Executor.ExposureBound` | trading/executor.cc:46-139 | over every session the available funds stay at or above (1 - max_fund_use) of the initial funds |
| `Executor.CacheHoldsLatest` | trading/executor.cc:123-139 | over every session each side of a symbol's cached quote is the latest that offered anything, its time is the latest quote's, and a symbol is cached if and only if it was quoted |
| `Executor.ProfitableCounts` | trading/executor.cc:100-104 | the profitable positions are those bought strictly below the price |
| `Executor.BuyLedger` | trading/executor.cc:74-78 | a buy, at the ask, moves exactly its cost out of cash and its quantity into that symbol's holding |
| `Executor.SellLedger` | trading/executor.cc:98-112 | a sale, at the bid, happens if and only if the symbol is quoted and held; it moves exactly the holding out and its proceeds in, and counts every position, and as profitable those bought below the bid |
| `Executor.LedgerReplays` | trading/executor.cc:65-112 | replaying the returned trades reproduces cash and every symbol's holding at every point of a session |
| `Evaluate.Evaluation.SellAll` | howling_tools/evaluate.cc:168-175 | one delta, one sale, and the close for each position; a profit counted for each positive delta |
| `Evaluate.Evaluation.RunDay` | howling_tools/evaluate.cc:154-178 | after any candles of a day, what is held and recorded follows from the decisions, and funds plus the cost of what is held is the start plus all deltas |
| `Evaluate.Run` | howling_tools/evaluate.cc:127-182 | the same over all days, each starting with the funds the day before ended with |
| `Evaluate.SharesAreConserved` | howling_tools/evaluate.cc:163-175 | every share bought is still held or was sold, and recorded, exactly once |
| `Evaluate.DecisionsTraced` | howling_tools/evaluate.cc:163-175 | every candle bought on is held if no candle sold after it, and otherwise was sold on the first one that did, recording the difference of the two closes |
| `Evaluate.GainsCounts` | howling_tools/evaluate.cc:172-172 | the profitable sales counted are those with a positive difference |
| `Evaluate.DaysConcatenate` | howling_tools/evaluate.cc:136-177 | cutting the candles into days changes neither what is held nor what is recorded |
| `Registry.NeededIsTransitive` | services/registry/register_service.h:28-30 | what a needed service needs is needed |
| `Registry.NeededAfter` | services/registry/registry_internal.cc:32-46 | having built one service with all it needs takes exactly that off what any other still needs |
| `Registry.SplitNeeds` | services/registry/register_service.h:29-29 | retrieving any one argument first and then the rest builds the same set |
| `Registry.OrderDoesNotMatter` | services/registry/register_service.h:29-29 | whatever the argument order, all retrievals succeed or all fail, and on success what is cached and what was called are the same; what was cached before never changes |
| `Registry.FactorySucceeds` | services/registry/registry_internal.cc:43-44 | a factory call that succeeds has built exactly the service and what it needed, each once |
| `Registry.FactoryFails` | services/registry/registry_internal.cc:38-44 | a failing call caches nothing for its own type and names a service at fault |
| `Registry.Registry.StoreServiceFactory` | services/registry/registry_internal.cc:61-72 | one factory for each service, an error on the second |
| `Registry.Registry.StoreService` | services/registry/registry_internal.cc:49-59 | one instance for each service, an error on the second |
| `Registry.Registry.Retrieve` | services/registry/registry_internal.cc:32-47 | terminates on any acyclic graph; succeeds if and only if all that is needed has factories that do not throw; builds exactly that; each factory completes at most once; cached instances never change |
| `Registry.Registry.CallFactory` | services/registry/register_service.h:28-30 | the closure: arguments first, then the factory, then the cache |
| `Registry.Registry.RetrieveAll` | services/registry/register_service.h:29-29 | the arguments in an order left open, with the outcome retrieval promises |
| `LoginNotice.CallbackAccepts` | services/oauth/oauth_http_service.cc:158-189 | a callback is accepted if and only if it carries the current notice token at most thirty minutes after its notice, and a code; a state that is not that token is not found |
| `LoginNotice.Database.WriteRefreshToken` | services/db/sqlite_database.cc:450-469 | the row then holds the new refresh token and no notice token, keeps its notice time, and no other row changes |
| `LoginNotice.Database.WriteNoticeToken` | services/db/sqlite_database.cc:586-603 | the row then holds the notice token and the time, keeps its refresh token, and no other row changes |
| `LoginNotice.Database.RequestLogin` | services/oauth/auth_service.cc:45-92 | the row changes exactly when a notice goes out, never within fifteen minutes of the last; each status exactly for its cause |
| `LoginNotice.Database.OauthCallback` | services/oauth/oauth_http_service.cc:158-198 | the response for each check that fails, in order; a callback that answers Ok has stored the exchanged refresh token and cleared the notice token, and nothing else; any other changes nothing |
| `LoginNotice.RowHoldsLatest` | services/db/sqlite_database.cc:450-603 | over every run the row's refresh token is the one stored last by a callback or a rotation, and empty if none was; its notice token is the one announced last, unless a refresh token was stored since |
| `LoginNotice.LoginBegins` | services/oauth/auth_service.cc:51-75 | a call goes on to notify exactly for the one service, configured, with no notice in the last fifteen minutes |
| `LoginNotice.CallbackBegins` | services/oauth/oauth_http_service.cc:158-190 | a callback goes on to the exchange exactly when it is accepted |
| `LoginNotice.StepKeepsTokens` | services/oauth/oauth_http_service.cc:167-193 | a notice token is drawn, pending, current, then used, and never goes back |
| `LoginNotice.StepKeepsAnswers` | services/oauth/oauth_http_service.cc:167-193 | a callback under way or stored answers a recorded notice within its lifetime |
| `LoginNotice.EachNoticeStoresOnce` | services/oauth/oauth_http_service.cc:158-198 | over every run each notice token leads to at most one stored refresh token, for a recorded notice whose callback was checked at most half an hour after it; notice, check and store come in that order |
| `LoginNotice.StoredInLifetime` | services/oauth/oauth_http_service.cc:175-193 | over every run all stores fall within half an hour of their notice if and only if no exchange returned later than that |
| `LoginNotice.StoreCanComeLate` | services/oauth/oauth_http_service.cc:175-193 | a run in which a refresh token is stored hours after its notice expired |
| `LoginNotice.GapIsExact` | services/db/sqlite_database.cc:590-597 | how a recorded gap relates to the cooling period, for any resolution of the stored times that divides it |
| `LoginNotice.SpacedExactly` | services/oauth/auth_service.cc:39-91 | recorded notices are at least a cooling period apart if and only if every save came at least that long after the notice before it |
| `LoginNotice.NoticesAreSpaced` | services/oauth/auth_service.cc:39-91 | recorded notices are at least a cooling period apart if none was recorded between the check and the save of another call, however many overlap |
| `LoginNotice.SerialNoticesAreSpaced` | services/oauth/auth_service.cc:39-91 | with RequestLogin calls one at a time, recorded notices are at least a cooling period apart |
| `LoginNotice.NoticeGap` | services/oauth/auth_service.cc:39-41 | a recorded gap is strictly longer than the cooling period if and only if the save came a full unit of resolution past it; at millisecond resolution always, for an undisturbed call |
| `LoginNotice.NoticesExactlyCoolingApart` | services/db/sqlite_database.cc:590-597 | a run of serial calls whose recorded notices are exactly a cooling period apart |
| `LoginNotice.ConcurrentLoginsNotifyTwice` | services/oauth/auth_service.cc:51-90 | a run in which two concurrent calls both record a notice |

## Left out

- All input and output: HTTP, TLS, gRPC, websockets, SQL, protobuf, JSON, Telegram, flags, logging, printing, files.
- The pool's deadline: a time-out may strike at any moment a time-out is configured, so nothing is said about how long a thread waits, or that it is ever served.
- The pool's accessors after close: `in_use()` is the counter's difference and reports zero then; conservation is claimed while open.
- Null resources in idle entries: the pool never stores one, because construction and release both reject it.
- That a sleeping stream reader is ever scheduled: signals are sent without the reader's own mutex, so a wake-up can be missed there; progress is claimed for a reader that takes its steps.
- What a reader does on a stream that is gone: the model records the late start and follows that reader no further.
- The stream as a class: readers interleave in the middle of their loop, so `BufferedStream` is a state machine on values over the same ring functions the class `CircularBuffer.Buffer` is proved against; aliasing of the reader records is not modelled.
- CircularBuffer.Buffer.constructor: requires a positive capacity; with capacity zero the first push divides by zero.
- Unchecked `operator[]`, dereferencing or incrementing an end iterator, and popping or clearing under a live iterator: preconditions, as the code is undefined or meaningless there. Wrap-around of the 64-bit insert count is excluded by a precondition.
- `const_iterator`: the same code as `iterator`.
- Aggregate.ToWindow: leaves out bodies, wicks, their ratio, sequence counters and duration, which are plain field arithmetic on one candle.
- Aggregate.DoAggregate: states the deviation as its square and leaves out the Bollinger bands around it, as a square root would add nothing to the claims; bodies and wicks of wide windows are left out as above.
- Rounding of doubles and overflow of share counts and volumes: sums, averages and money are exact here.
- Averaging periods below one: the flags' values are taken to be at least one.
- `can_buy` and `can_sell` of the analyzers: arbitrary booleans in `Macd`.
- Time zones: the minute of the market's hour is an input of `Macd.Analyze`.
- Executor.Executor.Buy: requires a positive cached ask; on a quote whose ask was never set the code divides by zero.
- Real-money branches of the executor: they exit.
- Monthly and total metrics, asset values and printing in the evaluation: sums of the day metrics; `Evaluate.Run` states the identity on the day metrics.
- Cyclic factory graphs: retrieval recurses without end on them, so `Registry.Registry.Retrieve` requires a rank witnessing that there is no cycle.
- Clearing the registry's cache, and factories that return a null pointer: a cleared registry is a new one, and a null service crashes at its first use.
- Database failures, encryption, expiry and update times of token rows; randomness of notice tokens, which are taken to be fresh.
- The PostgreSQL variant of the token rows is not part of this model.
- Two callbacks at once: the HTTP server runs its handlers on one thread (services/oauth/server.cc:63-71), so one callback is under way at a time.
