# Verified model of lotus_tool

lotus_tool is a set of helpers around a Lotus (Filecoin) node. This project models its three stateful parts and
two small utilities in Dafny and proves what they keep over whole runs.

* **The chain synchroniser** (`synchain/`). `DoSync` reads a persisted cursor, scans up to the head less two, skips
  stored heights, starts one worker per missing height up to a batch limit, moves the cursor during the scan, waits,
  and persists the last height. A failed head request rolls the cursor back by ten; start-up deletes a window of
  blocks and resets the cursor. `SyncMachine` is this program as a machine of atomic steps (scan steps, worker steps,
  roll-back, crash, restart) with an inductive invariant. `SyncTheorems` draws the theorems about all runs from it,
  `SyncProgress` those about consecutive ticks, `SyncOnce` says exactly when a block is stored at most once, and
  `SyncCrashes` exactly when a crash leaves a hole; `SyncScan` builds the runs that these two need. `SyncTick` is
  `DoSync` as an imperative program over the collections, with workers running beside the loop in any way; each of its
  ticks is proved to be a tick of the machine. `Frontier` says without a loop how far a tick gets and `ConfigCell`
  reduces the config collection to one cell. `EpochTrace` is what a worker writes. `TraceTree` and `TraceRuns` are the
  recursive, concurrent trace conversion with its locked cache, for every schedule, with goroutines that find their
  context done and lookups that fail. `SectorRuns` is the run-length count of packed messages.
* **The fee controller and re-pricer** (`baseFeeAuto/`). `FeeSelect` is the sort-based order statistic against a
  definition that only counts; `FeeControl` is the sample window, the fee-cap register and the bands; `MpoolQueues` is
  the object whose fields the two loops update; `MpoolLabels` is the label map over runs of syncs; `Reprice` and
  `Premium` are one re-pricing, and any number of them on one nonce; `FeeSystem` interleaves the loops and the started
  goroutines.
* **Printers and parsers** (`util/`). `Text` has Split/Join and decimal printing and parsing with their inverse laws,
  `IntArray` and `SemVer` the round trips that rest on them.

`Prelude` and `Bags` hold shared vocabulary and multiset algebra. The outcome in a block record, the flights that a worker
reports, and the list of lookups beside a cache are history: nothing the program decides depends on them. Every lemma is proved by its own body: automatic
induction is switched off throughout.

## What the proofs say about the code

Where the code falls short of what one might expect of it, the code was kept and the exact condition proved.

* The batch test comes before the increment, so one batch holds `MaxOnce + 1` heights, and none when `MaxOnce < 0`
  (`synchain/parseMessage.go:119-122`). With an empty batch the cursor never passes the first missing height
  (`StuckWithoutBatch`).
* Blocks are stored at most once over all runs, without the unique index that `db/mongo/mongo.go:40` leaves out, if and
  only if the batch is empty or the chain has no null round from height 2 on (`AtMostOnceIff`): the block found at a
  null round is stored under the earlier height, so the height itself stays missing and is fetched again after the
  next restart. No fault is needed for a duplicate (`CleanDuplicate`), unless the stop height keeps the cursor away from
  the null round; then the bad runs restart with deletions that fail.
* A crash inside a tick can leave a hole below the persisted cursor, because the cursor moves over stored heights while
  workers below are still running. It can if and only if, before the tick, a height above the cursor and the base was
  missing, a greater one up to the scan bound was stored, and one batch was enough to get there
  (`CrashLeavesHoleIff`). Coverage holds again after a restart only because start-up resets the cursor, and the base of
  the guarantee with it. An ordinary start on a database with a later block leads to such a state (`StartLeavesHole`).
* A trace conversion ignores failed actor lookups and returns a node with the zero code; goroutines that find their
  context done leave out their sub-tree without an error. The result is the conversion of the source if and only if
  neither happened (`ConversionIsConfluentIff`), and otherwise it is that tree with exactly one edit for each such event
  (`ConversionEdits`). A worker's inserts may then succeed with documents that are not the expected ones. A block record
  therefore stands for what its worker collected where the insert succeeded, and for the expected documents where nothing
  else failed either (`RecordsImplyMessages`).
* A height that is not positive is invisible to the reads of the config collection, so the cursor is an optional
  positive height; a roll-back to zero or below therefore stops all further ticks until the next start. A write whose
  inner read fails leaves two positive cursors in exactly one situation (`WriteKeepsOneCursorIff`).
* On the "no pre-committed" error the break limit is still multiplied by 105/100 and so only reaches the worker when
  it is below 20; an expired sector's message gets it exactly (`BreakLimitReachesWorkerIff`).
* The comment beside the premium ceiling speaks of 13 pushes from 100000 (`baseFeeAuto/mpool.go:204`); with the default
  seed of 126 and integer division there are at most 12 (`AtMostTwelvePushes`).
* A failed estimate hands limit 0 to the worker, which then scales the message's own limit on every call of a clamped
  method. Such a call leaves a pushed message alone if and only if its premium is at the ceiling, its limit is the break
  limit, the scaled limit is too large, or the scaled limit is near the current one and does not hit the break limit
  (`ZeroLimitQuietIff`). With the default seeds (130 and 30) only a hit of the break limit remains, and it costs at most
  one more push for each change of inputs (`AtMostTwoPushesEach`); with other seeds there is churn (`ZeroLimitChurns`).
* The percentile index is safe for every window exactly from 10 percent on (`SafePercentIff`); below that it is out of
  range.
* Bumping a component does not reset the lower ones; the result still has the higher precedence. A patch bump of a
  version with a pre-release part always fails (`SemVer.Bump`).

## Model

| member | source | states |
|---|---|---|
| TraceTree.StepKeepsGoal | types/message.go:155-184 | starting a goroutine, or finishing one whose lookup was answered, leaves the tree that is going to be produced unchanged and uses up exactly one unit of work |
| TraceTree.CancelPrunes | types/message.go:160-162 | a goroutine that finds its context done takes exactly its own sub-tree out of the result, wherever it is in the tree |
| TraceTree.FailureBlanks | types/message.go:172-180 | a goroutine whose lookup failed replaces exactly its own node's code by the zero code, wherever it is in the tree |
| TraceTree.GetCodeKeepsCache | synchain/sync.go:89-102 | the cache agrees with the chain, holds exactly the successful lookups and none of them twice; the answer is the chain's unless the node is down and the address is not cached, and failures are never stored |
| TraceTree.CodeCache.Get | synchain/sync.go:87-102 | the closure that fills the map in place refines the cache function; it reports success exactly when the address is cached afterwards, and a failure leaves the cache alone |
| TraceRuns.RunEdits | types/message.go:144-186 | over every schedule, the promised tree changes by the edits of that schedule, one for each cancelled goroutine and failed lookup, in their order |
| TraceRuns.RunWeight | types/message.go:144-186 | every edit makes the promised tree lighter; without cancellation its number of nodes stays, and every step uses up one unit of work |
| TraceRuns.CacheOverRuns | synchain/sync.go:87-102 | the cache's promise holds after every run, cancelled goroutines and failed lookups included |
| TraceRuns.ConversionEdits | types/message.go:144-186 | for every schedule, cancellation and failure, the outermost lookup included, the result is the sequential conversion up to the order of children, after exactly one pruning for each cancelled goroutine and one blanked code for each failed lookup |
| TraceRuns.ConversionIsConfluentIff | types/message.go:144-186 | the result is the sequential conversion up to the order of children if and only if no goroutine found its context done and no lookup failed |
| TraceRuns.UncancelledKeepsTree | types/message.go:155-184 | without cancellation, whatever lookups fail, the result has the tree, the payloads and the node count of the source, after exactly two steps for each node below the root |
| TraceRuns.FindMove | types/message.go:155-171 | the join cannot hang: while a goroutine is live, one of them can start or finish |
| TraceRuns.ConvertTrace | types/message.go:144-186 | the program, its goroutines scheduled in any way over the shared cache, terminates and performs a run; its result is the edited conversion |
| EpochTrace.DocByEdits | types/message.go:188-215 | a goroutine's document differs from the expected one by one edit of the trace for each fault, and by its own code if that lookup failed |
| EpochTrace.DocByIff | synchain/sync.go:80-118 | a goroutine appends the expected document if and only if nothing failed or was cancelled in it |
| EpochTrace.ExpectedCounts | synchain/sync.go:78-118 | the expected documents, with multiplicity, are one for each invocation of the tipset that converts to them |
| EpochTrace.RunGoroutine | synchain/sync.go:80-120 | nil results, recovered panics and done contexts yield nothing; otherwise a document that some run of the conversion on a fresh cache yields, with the height, the payload, the code or a blank one for a failed lookup, and the source trace edited once for each fault |
| EpochTrace.TraceAppend | synchain/sync.go:71-75 | one append adds the goroutine's document, if it has one, and nothing else |
| EpochTrace.CollectTrace | synchain/sync.go:78-122 | in any completion order the collected documents are, as a multiset, those of the goroutines; the expected ones when all were faultless |
| EpochTrace.SuccessInsertsAll | synchain/sync.go:57-130 | a worker none of whose calls failed inserts exactly the expected documents |
| EpochTrace.Database.GetEpochTrace | synchain/sync.go:54-132 | what the message part adds, by outcome: nothing after a failed StateCompute, everything its goroutines collected when the insert succeeds, a part of it otherwise; the expected documents when the goroutines were faultless |
| EpochTrace.Database.SyncHeightBlocks | synchain/sync.go:38-51 | messages first, then the block whatever became of them; every record stays backed by its own copy of what its worker inserted |
| ConfigCell.WriteRefinesCell | synchain/height.go:34-50 | one answered write leaves at most one positive document, and the next read sees the written height if it is positive, else nothing |
| ConfigCell.WriteKeepsOneCursorIff | synchain/height.go:34-41 | a write keeps the single cursor if and only if its read was answered, there was no cursor, or the new height is not positive |
| ConfigCell.WriteIs | synchain/height.go:34-50 | an answered write replaces the document that reads see and no other; without one, or an answer, it appends |
| ConfigCell.WritesRefineCell | synchain/height.go:13-50 | over any number of writes the collection is one cell: a read sees the last write |
| ConfigCell.ConfigCollection.GetSyncHeight | synchain/height.go:13-32 | the read finds the cell's value, or nothing when it fails |
| ConfigCell.ConfigCollection.SetSyncHeight | synchain/height.go:34-50 | the in-place update refines the write of one cell: it replaces the first positive document alone, or appends |
| Frontier.MissingSpec | synchain/parseMessage.go:111-122 | the missing heights are all heights above the cursor that are not stored, in ascending order |
| Frontier.StoppedAtFrontier | synchain/parseMessage.go:111-121 | a scan that ran out of heights, or stopped with a full batch at a missing height, is at the greatest height with at most one batch missing below it |
| Frontier.FrontierIsUnique | synchain/parseMessage.go:111-133 | there is only one such height |
| Frontier.TickProgress | synchain/parseMessage.go:111-133 | one tick takes min(batch limit, remaining) heights off the list, and reaches the top exactly when one batch is enough |
| Frontier.LeftAfter | synchain/parseMessage.go:80-133 | how many heights are left after any number of ticks below a fixed head |
| Frontier.HeadReachedIff | synchain/parseMessage.go:80-133 | below a fixed head, the cursor is at the head after n ticks if and only if n is at least max(1, ceil(missing / limit)) |
| Frontier.StuckWithoutBatch | synchain/parseMessage.go:119-121 | with an empty batch the cursor never passes the first missing height |
| Frontier.AtMostOneBatchAboveStop | synchain/parseMessage.go:102-105 | however the head moves and whatever lookups fail, all ticks together dispatch at most one batch above the stop height |
| SyncMachine.LookupIsStable | synchain/parseMessage.go:111-130 | a lookup during the scan answers as at the start of the tick, because workers only write at or below heights already looked up |
| SyncMachine.KeepDispatch | synchain/parseMessage.go:119-129 | starting a worker keeps the invariant: coverage, bookkeeping, and both collections accounted for |
| SyncMachine.KeepStore | synchain/sync.go:44-47 | a worker's block insert, failed or not, keeps the invariant |
| SyncMachine.KeepRestart | synchain/parseMessage.go:61-66 | deleting the window and resetting the cursor establishes the invariant for the new base |
| SyncMachine.KeepStep | synchain/parseMessage.go:75-139 | every atomic step of the process keeps the invariant |
| SyncMachine.KeepRun | synchain/parseMessage.go:49-150 | so does every run with any interleaving of scan, workers, roll-backs, crashes and restarts |
| SyncMachine.KeepOutcomesRun | synchain/sync.go:54-132 | over every run each recorded outcome stays one that the worker of its tipset can have |
| SyncTheorems.CursorCoverage | synchain/parseMessage.go:84-133 | in every reachable state, each height above the start-up base and at or below the persisted cursor has its tipset's block stored, a recorded failed insert, or a worker in flight; between ticks no worker is in flight |
| SyncTheorems.RecordsImplyMessages | synchain/sync.go:38-51 | in every reachable state, also after a crash inside a worker, every block record has its own copy of what its worker inserted: all its goroutines collected where the insert succeeded, and the expected documents where nothing failed |
| SyncTheorems.TickDispatches | synchain/parseMessage.go:107-131 | a tick dispatches at most one batch and leaves out nothing that is missing on the way, even when lookups fail; without failures exactly the missing heights up to the frontier |
| SyncTheorems.TickIsScanThenSync | synchain/parseMessage.go:107-133 | every interleaving of a tick ends with the collections of its scan followed by the workers one by one; without failed lookups at the frontier |
| SyncTheorems.TicksAreConfluent | synchain/parseMessage.go:107-133 | two interleavings of one tick dispatch the same heights and set the same cursor, and with the same worker outcomes end with the same multisets |
| SyncTheorems.TickIsFrontierTick | synchain/parseMessage.go:100-133 | a tick of the machine is a frontier tick and leaves the heights above its end alone |
| SyncTheorems.HaltIsFinal | synchain/parseMessage.go:102-105 | from a crash or the stop height on, no run changes the collections or the cursor until a new process is started |
| SyncCrashes.HoleWasAtRisk | synchain/parseMessage.go:107-131 | a hole that a crash inside a tick leaves, whether lookups fail or not, was foreseeable from the database before the tick |
| SyncCrashes.CrashLeavesHoleIff | synchain/parseMessage.go:112-117 | a crash inside a tick can leave an unsettled height at or below the persisted cursor if and only if, before it, one above cursor and base was unsettled and a greater one stored within reach of one batch |
| SyncCrashes.StartLeavesHole | synchain/parseMessage.go:61-66 | an ordinary start below a missing height and in reach of a later stored one, outside the deleted window, leads to a crash that leaves a hole |
| SyncCrashes.ReachableHole | synchain/parseMessage.go:61-66 | for example on a chain without null rounds with a single stored block |
| SyncOnce.OnceRun | synchain/parseMessage.go:111-132 | without null rounds and failed lookups, no run ever holds two records for one height, and no height in flight is stored |
| SyncOnce.NullRoundDuplicates | synchain/parseMessage.go:61-66 | one null round from height 2 on is enough for a run that stores a height twice, whatever the stop height |
| SyncOnce.AtMostOnceIff | synchain/height.go:61-68 | each height is stored at most once over all runs if and only if the batch is empty or no height from 2 on is a null round |
| SyncOnce.CleanDuplicate | synchain/parseMessage.go:61-66 | a null round within reach of the stop height is enough for a duplicate in a run without any fault |
| SyncOnce.CleanAtMostOnceIff | synchain/height.go:61-68 | without a stop height the same equivalence holds over the runs whose deletions never fail |
| SyncProgress.OneTickIsRound | synchain/parseMessage.go:82-133 | a whole tick, with or without failed lookups, keeps the invariant, moves the persisted cursor up, dispatches at most one batch in between, and respects the stop height |
| SyncProgress.OneTickIsTick | synchain/parseMessage.go:82-133 | a whole tick without failed lookups ends at the frontier and dispatches exactly what is missing up to it |
| SyncProgress.MachineTicksAreTicks | synchain/parseMessage.go:80-133 | consecutive ticks of the machine are consecutive frontier ticks |
| SyncProgress.HeadReachedAfter | synchain/parseMessage.go:80-133 | below a fixed head the persisted cursor is at the scan bound after n ticks if and only if n is at least max(1, ceil(missing / (MaxOnce+1))), whatever the workers do |
| SyncProgress.StopHeightHolds | synchain/parseMessage.go:102-105 | of consecutive ticks only the last dispatches anything above the stop height, and no more than one batch, whatever lookups fail |
| SyncTick.Synchronizer.constructor | synchain/parseMessage.go:61-66 | start-up on any database this program leaves behind keeps every copy of a record outside the window and none inside, sets the cursor and establishes the invariant, also when the deletion fails |
| SyncTick.Synchronizer.WorkerStep | synchain/sync.go:38-51 | one step of a goroutine on the collections is a worker step of the machine, whatever its calls return; a step whose calls all succeeded inserts the expected documents |
| SyncTick.Synchronizer.Wait | synchain/parseMessage.go:132 | the remaining goroutines all finish, in any order, by steps of the machine |
| SyncTick.Synchronizer.ScanHeight | synchain/parseMessage.go:111-130 | one height of the scan, its lookup answered or not, is a skip, a dispatch or the end of the scan of the machine |
| SyncTick.Synchronizer.ScanHeights | synchain/parseMessage.go:107-131 | the scan loop with goroutines running between its iterations and lookups that may fail is a run of the machine to the join |
| SyncTick.Synchronizer.DoSyncTick | synchain/parseMessage.go:82-133 | one firing of the timer: nothing without a cursor, ten back without a head, nothing above the stop height, else exactly the effect of a scan followed by the workers; each of these is the step or tick of the machine, and the invariant is kept |
| SectorRuns.SumIsCardinality | types/message.go:258-267 | the sum of the present runs is the number of sectors that the run lengths decode to |
| SectorRuns.DecodeSpec | types/message.go:258-267 | the decoded sectors are those of the runs at every second position |
| SectorRuns.GetSectorLength | types/message.go:246-273 | an aggregate counts the decoded sectors, a batch its list, anything else nothing |
| FeeSelect.SortSpec | baseFeeAuto/baseFeeController.go:14-24 | sorting yields an ordered permutation |
| FeeSelect.SortedElement | baseFeeAuto/baseFeeController.go:65-75 | the element at a rank of the sorted copy is the one that counting picks |
| FeeSelect.KthIsMonotone | baseFeeAuto/baseFeeController.go:75 | counting determines the element, and a higher rank never gives a smaller one |
| FeeSelect.LastIsMaximum | baseFeeAuto/baseFeeController.go:72-74 | the element of the last rank is the maximum, and conversely |
| FeeSelect.NextFeeCapCounts | baseFeeAuto/baseFeeController.go:61-76 | with ten samples the selector is in range if and only if length times clipped percentage is at least 100; it then answers the sample v with #(<v) < k <= #(<=v), where k is a hundredth of length times clipped percentage, rounded down, and the maximum when asked for it or from 100 percent on |
| FeeSelect.SafePercentIff | baseFeeAuto/baseFeeController.go:69-75 | the selector is in range for every window if and only if the percentage is at least 10 |
| FeeSelect.NextFeeCapMonotone | baseFeeAuto/baseFeeController.go:69-75 | the answer grows with the percentage and never exceeds the maximum |
| FeeSelect.NextFeeCapIgnoresOrder | baseFeeAuto/baseFeeController.go:61-76 | the answer depends on the window only through its multiset |
| FeeControl.WindowIsLatest | baseFeeAuto/baseFeeController.go:41-58 | after any number of samples the window is the newest queueTop()+1 of them, in order |
| FeeControl.QueueTopIsAnHour | baseFeeAuto/baseFeeController.go:41-47 | queueTop() samples at the configured interval fit into an hour, and one more does not |
| FeeControl.ResetCapIs | baseFeeAuto/baseFeeController.go:26-39 | the register after a proposed cap, case by case, in both directions |
| FeeControl.TooManyIs | baseFeeAuto/baseFeeController.go:78-97 | "too many" means above the configured bound, or more than the 120 batches an hour, less the configured percentage, clear in the configured time; never below the low threshold |
| FeeControl.Bands | baseFeeAuto/baseFeeController.go:78-104 | "too many" and "too few" exclude each other; the first is closed upwards in the pool size, the second downwards |
| FeeControl.SyncIs | baseFeeAuto/mpoolQueue.go:200-207 | what a whole sync does to the register, by counting: in the low band it ends at exactly the sample of the configured percentage where that lies between floor and ceiling, in the high band at the maximum |
| FeeControl.SyncIsIdempotent | baseFeeAuto/mpoolQueue.go:200-207 | a repeated sync in the same band without a new sample changes nothing |
| FeeControl.HighBandIsHigher | baseFeeAuto/mpoolQueue.go:200-207 | with window and floor within the ceiling, the high band never ends below the low band from the same state |
| FeeControl.RunWindow | baseFeeAuto/baseFeeController.go:50-58 | over any mix of samples and syncs the window is the newest queueTop()+1 samples |
| FeeControl.FeeCapEnvelope | baseFeeAuto/baseFeeController.go:26-39 | over every run the fee cap is the floor or a sample seen before, and lies between the floor and the larger of floor and ceiling |
| FeeControl.SpikeBlocksRaises | baseFeeAuto/baseFeeController.go:33-36 | a sample above the ceiling makes every "too many" sync a no-op until queueTop()+1 further samples have come in |
| FeeControl.SpikeLeaves | baseFeeAuto/baseFeeController.go:51-58 | after queueTop()+1 further samples the window consists of these alone |
| Reprice.BreakLimitReachesWorkerIff | baseFeeAuto/mpool.go:80-121 | an expired message gets the break limit; on the "no pre-committed" error it gets it if and only if it is below 20 |
| Reprice.MpoolClean | baseFeeAuto/mpool.go:44-128 | one pass starts workers for exactly the first OnceMax messages of the configured wallets, in pool order; each gets the break limit if its sector has expired, and otherwise a 105/100 of its estimate, or of the break limit on "no pre-committed", or 0 when the estimate failed |
| Reprice.DoImprove | baseFeeAuto/mpool.go:130-236 | through all early returns, clamps and the dead band: a replacement is pushed if and only if the node accepts it and one is offered, said without truncated division; its limit is the scaled limit or the clamp, the break limit is not scaled, and its premium is between seed*p - 99*seed and seed*p hundredths |
| Reprice.ScaledLimitIs | baseFeeAuto/mpool.go:141-160 | the limit of a replacement: for the clamped methods a hundredth of the incoming limit times the seed, or the clamp if that is smaller; the break limit unscaled under the clamp; for every other method the incoming limit; the message's own limit stands in for 0 |
| Reprice.NextPremiumIs | baseFeeAuto/mpool.go:198-199 | the premium of a replacement is the seed for each full hundred of the old one, so for a seed that is not negative it never exceeds seed*p/100 and is at most 99*seed/100 below it |
| Reprice.OfferedIff | baseFeeAuto/mpool.go:162-204 | a replacement is offered if and only if no guard is in the way and the fee cap changes or the limit leaves the band around the current one, said without truncated division, for every setting |
| Reprice.ImproveEnvelope | baseFeeAuto/mpool.go:147-219 | every replacement is within the fee, limit and premium bounds of its method and changes no other field |
| Reprice.ZeroLimitQuietIff | baseFeeAuto/mpool.go:141-195 | without an estimate, a just pushed message of a clamped method is left alone if and only if one of four conditions on its limit, the seeds, the clamp, the break limit and the premium holds |
| Reprice.QuietAfterPush | baseFeeAuto/mpool.go:175-200 | a message just pushed is left alone when evaluated again with the same inputs: always with an estimate or for an unclamped method, and under those conditions otherwise |
| Reprice.SteadyWithEstimates | baseFeeAuto/mpool.go:141-160 | the condition of the next row holds whenever every call has an estimate or the method is not clamped |
| Reprice.SegmentsCount | baseFeeAuto/mpool.go:175-195 | the stretches in the next rows are counted by the calls whose fee cap or limit differs from the previous call's |
| Reprice.PushesCount | baseFeeAuto/mpool.go:130-236 | and the pushes by the accepted calls that are offered a replacement of the message left by the calls before |
| Reprice.NoChurn | baseFeeAuto/mpool.go:141-200 | calls on one nonce push at most once per maximal stretch of constant fee cap and incoming limit |
| Reprice.AtMostTwoPushesEach | baseFeeAuto/mpool.go:141-200 | with the estimate seed within the adjust seed of 100, calls with and without estimates push at most twice per such stretch |
| Reprice.ZeroLimitChurns | baseFeeAuto/mpool.go:141-155 | with other seeds and a failed estimate, a ProveCommit message is pushed twice at the same inputs |
| Premium.PushRaisesIff | baseFeeAuto/mpool.go:198-199 | a push raises the premium if and only if (p/100)*(seed-100) exceeds p mod 100 |
| Premium.ThresholdIsExact | baseFeeAuto/mpool.go:198-199 | 100*ceil(100/(seed-100)) is the least premium from which on every push raises it |
| Premium.LowPremiumCollapses | baseFeeAuto/mpool.go:198-199 | a premium below 100 becomes 0 and stays 0 |
| Premium.RefusalIsPermanent | baseFeeAuto/mpool.go:204-219 | once the next premium is above the ceiling, no sequence of inputs replaces the message |
| Premium.PushesRaisePremium | baseFeeAuto/mpool.go:198-204 | from the threshold on, the pushes of one nonce are finitely many, whatever the inputs |
| Premium.PushesGrowPremium | baseFeeAuto/mpool.go:198-204 | the final premium is the initial one grown once per push, and every premium on the way is under the ceiling |
| Premium.GrowsByIff | baseFeeAuto/mpool.go:198-199 | every push from 100*q on grows the premium by a factor of at least a/b if and only if q*(b*seed - 100*a) is at least 99*a |
| Premium.EverySeedGrows | baseFeeAuto/mpool.go:198-199 | every seed above 100 grows premiums by half its margin at least, from a stated threshold on |
| Premium.GrowthCompounds | baseFeeAuto/mpool.go:198-199 | n pushes grow the premium by the n-th power of such a factor |
| Premium.PushesAreLogarithmic | baseFeeAuto/mpool.go:198-204 | so the number of pushes is logarithmic in ceiling over premium, for every seed above 100 |
| Premium.QuarterGrowth | cli/baseFeeAuto/main.go:52 | with the default seed of 126 the factor is 5/4 from 12400 on |
| Premium.AtMostTwelvePushes | cli/baseFeeAuto/main.go:50-52 | with the default seed and ceiling a message starting at 100000 is replaced at most twelve times |
| FeeSystem.KeepStep | baseFeeAuto/mpool.go:21-41 | every step of the two loops and the started goroutines keeps the envelope of fee caps and pushes |
| FeeSystem.PushEnvelope | baseFeeAuto/mpool.go:130-236 | over every interleaving, each pushed message has a fee cap between floor and ceiling that is the floor or an earlier sample and below 10^10, limits and premium under their clamps, and all other fields unchanged |
| FeeSystem.GateHolds | baseFeeAuto/mpool.go:26-34 | over every interleaving a worker can be started if and only if the newest sample was below the fee cap in force when it came in; every running or pushing worker was started at such a moment with the fee cap of that moment |
| MpoolLabels.NextPoolsSpec | baseFeeAuto/mpoolQueue.go:136-172 | after a sync a sector has a label if and only if a filtered message names it; an old label is kept, a new one comes from the last such message |
| MpoolLabels.FilteredSpec | baseFeeAuto/mpoolQueue.go:138-144 | filtering keeps every copy of the wallets' messages and no other message, in pool order |
| MpoolLabels.LabelsAfterSync | baseFeeAuto/mpoolQueue.go:153-171 | which sectors have which labels after a sync, said of the pool itself, field by field for a new label |
| MpoolLabels.LabelIsFromStreakStart | baseFeeAuto/mpoolQueue.go:153-171 | a label is the one built at the first sync of the sector's current streak |
| MpoolLabels.LabelHasStreak | baseFeeAuto/mpoolQueue.go:153-194 | every label belongs to a streak of presence that is unbroken up to now |
| MpoolLabels.LabelStreaks | baseFeeAuto/mpoolQueue.go:106-194 | over runs of any length with failed syncs as stutters, labels and current streaks correspond exactly |
| MpoolQueues.MpoolQueue.constructor | baseFeeAuto/mpoolQueue.go:40-86 | the initial fee cap is the floor, the window and the labels are empty |
| MpoolQueues.MpoolQueue.AddFee | baseFeeAuto/baseFeeController.go:50-58 | trimming in a loop and appending leaves the newest queueTop()+1 samples, or all of them if there are fewer |
| MpoolQueues.MpoolQueue.GetNextFeeCap | baseFeeAuto/baseFeeController.go:61-76 | reads the order statistic without disturbing the window; the answer is the register below ten samples, the maximum when asked for it, and otherwise the k-th smallest sample with 100*k <= length * min(percent, 100) < 100*k + 100, failing exactly where k would be 0 |
| MpoolQueues.MpoolQueue.ResetBaseFeeCap | baseFeeAuto/baseFeeController.go:26-39 | a cap between floor and ceiling becomes the register exactly, upwards and downwards; one below the floor gives the floor; one above the ceiling changes nothing, and nothing ever changes when the floor is above the ceiling |
| MpoolQueues.MpoolQueue.SyncMsg | baseFeeAuto/mpoolQueue.go:106-208 | the total is the number of pool indices whose sender is a configured wallet; a sector has a label afterwards if and only if one of these messages names it, old labels are kept and new ones are those of the last such message; the register ends at the cap selected by counting for the band, as far as floor and ceiling allow; it fails exactly when the low band asks for rank 0; a failed read changes nothing |
| Text.SplitJoin | util/arrayTools.go:13-21 | splitting undoes joining for pieces that share no character with the separator |
| Text.JoinSplit | util/versionHelper.go:55-61 | joining undoes splitting for every string and separator |
| Text.SplitFirst | util/arrayTools.go:21 | a string is cut at the first occurrence of the separator, and its rest in the same way |
| Text.NumeralSpec | util/versionHelper.go:60 | printing yields a numeral without a superfluous zero that reads back |
| Text.AtoiItoa | util/versionHelper.go:56-60 | parsing undoes printing on every int |
| Text.AtoiIff | util/versionHelper.go:56-60 | a string parses to n if and only if n is an int and the string is its numeral behind an optional sign and zeros |
| IntArray.PrintsJoined | util/arrayTools.go:12-14 | the detour over fmt, fields and bracket trimming prints the numbers joined by the delimiter, whatever the delimiter is |
| IntArray.String2IntArray | util/arrayTools.go:17-30 | every piece that reads as an int (an optional sign, zeros, a printed numeral) yields that int, every other piece zero, and the empty string no element |
| IntArray.RoundTrip | util/arrayTools.go:12-30 | parsing what was printed gives back every int array, for every nonempty delimiter without digits and minus signs |
| SemVer.ParseOf | vendor/golang.org/x/mod/semver/semver.go:150-212 | the parser finds the parts a valid version was put together from |
| SemVer.ParsedParts | vendor/golang.org/x/mod/semver/semver.go:47-59 | a parsed version has valid parts, and its canonical form is these without the build part |
| SemVer.ShortForms | vendor/golang.org/x/mod/semver/semver.go:155-175 | a major number alone, or with a minor number, parses with the remaining numbers zero, and the canonical form adds these |
| SemVer.CanonicalParts | util/versionHelper.go:54-55 | how the canonical form comes apart at the dots |
| SemVer.BumpSucceedsIff | util/versionHelper.go:56-59 | the component is read if and only if it is an int and, for the patch number, no pre-release part follows |
| SemVer.RejoinedParts | util/versionHelper.go:60-61 | writing a number back replaces that component and nothing else |
| SemVer.Plus | util/versionHelper.go:52-62 | the bump on the split string, with its error and the wrap-around of the largest int |
| SemVer.Bump | util/versionHelper.go:23-62 | parsing the bumped string gives the same version with one component increased by one, the build part kept and a higher precedence (item 11 of Semantic Versioning 2.0.0); an invalid version becomes v1.0.0; the exact condition of failure |

## Left out

- The RPC clients, MongoDB and Redis connections, Prometheus gauges, DingDing alerts, YAML and command-line set-up: all input and output. Their answers (a chain, insert and lookup outcomes, estimates, accepted pushes) are parameters or free choices.
- Tickers and wall-clock time: a tick is one firing of the timer.
- Chain reorganisations: the chain is fixed for a run; the head may move freely.
- Cancellation of the process context: for the synchroniser it is a crash between two steps, inside a worker each goroutine may find it done.
- Panics on a nil message inside a nested goroutine of the trace conversion, on an unanswered `ChainGetTipSetByHeight` and on a failed config update end the process: each is a crash of the machine.
- A config insert or update that is lost without an error, and a scan whose writes are not answered: the machine's cursor writes take effect. `ConfigCell` says what a write with a failed read does.
- Per-message field conversion, parameter decoding and the receipt conversion: one deterministic function of the payload and the actor code at each node.
- A bulk insert that reports a failure although all documents were stored counts as failed.
- SyncTick.Synchronizer.constructor: the read inside its write of the cursor is answered.
- SyncTick.Synchronizer.ScanHeights: the reads inside its writes of the cursor are answered; its lookups need not be.
- SyncTick.Synchronizer.DoSyncTick: the same for its last write and for the roll-back.
- Memory races between the fee loops on `feecap`, `feeQueue` and the code cache: each sample, reset and start of a worker is one atomic step.
- Address parsing errors at start-up and in `MpoolClean`, and a failing `MpoolPending` there: nothing is started.
- Overflow of int64 in limit scaling and in the band arithmetic: mathematical integers, for limits and seeds whose product fits.
- Reprice.NoChurn: leaves out negative incoming limits; a limit of 0 for a clamped method comes with the exact condition of `ZeroLimitQuietIff`.
- SectorRuns.GetSectorLength: float sums are exact integers, for totals below 2^53; entries that are not numbers panic in the original and are not modelled.
- `sort.Sort` is any sort, here insertion sort on values; the swaps on the copied slice are not modelled.
- `refreshBaseFee` not positive: the original divides by zero.
- Unicode: strings are sequences of characters, white space is that of Latin-1.
- `handleMsg` (never called), `ArrInclude`, `util/aes256cfb.go`, `util/random.go`, `util/sigterm.go`, `util/time2height.go`, `util/parse.go`, `cli/pow`: easy members, float arithmetic, or library calls.
