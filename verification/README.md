# Quant Foundry: scheduling, bounded readers and calendar facts in Dafny

This project models the parts of the Quant Foundry backend whose correctness does not show in any
single function, and proves what they are there for.

**Fenced run scheduling.** Several supervisors share one queue through leases, tokens and fences and
one group budget, and start named containers in a daemon that is never updated together with the
database. `RuntimeContracts` holds the shared values, `RunRepository` the database repository (each
transaction one atomic step, and a class that runs them in place), `WorkerDaemon` the container
daemon with its stop and start sequences, `Scheduling` the interleaving of any number of supervisors
step by step, and `QueueFiles` and `LocalQueue` the second implementation of the queue, whose writes
are atomic file replacements between which a crash may come.

**Bounded readers that agree with the simple read.** `Events` says what "the last n events per
security" means; `Lookback` is the incremental window cache, `Replay` the replay buffer, `Buckets`
and `CountWindow` the lazily enumerated resampling buckets and the backward count search. `Dependencies`
holds the gates and methods of the optimistic snapshot of everything a run reads, `SnapshotProtocol` its
captures read by read against concurrent writers.

**Point-in-time calendar facts.** `CivilCalendar` and `CalendarAssembly` assemble a run's calendar
with week and month ordinals and bound the natural days that are consulted; `RevisionChain` and
`PitSelection` select facts as they were known; `ClockTime` and `SessionWindows` parse, print and
normalise trading windows.

**Compact forms of a large history.** `FailurePages` keeps failure diagnosis in one rank per day;
`Listing` pages through runs by key under a byte budget. `Collections` is what several modules say about
lists and numbers.

**How the contracts are stated.** The proofs go through specification functions; beside them the main
operations say the same by fields: plain comparisons and literal constants, sums over lists of integers
(`RuntimeContracts.Sum`), lexicographic column orders (`Events.Lexicographic`), cardinalities of explicit
sets, positions in stored lists. The two step machines leave their environment free: `Scheduling.OthersMayAct`,
`WorkersMayEnd`, `BeatsComeAnyTime`, `HoldersGoOn`, `RecoveriesBegin` and `RecoveriesGoOn`, and
`SnapshotProtocol.WritersMayWrite`, `IdleRunsMayAct`, `RowsMayBeRead` and `CapturesMayEnd` say what each actor
may do at any moment.

`dafny verify dfyconfig.toml` checks the whole project.

## Assumptions

- All actors of the scheduling model read one clock that does not go back; the lease length is positive.
- The daemon is truthful: names are unique, ids are never reused, starting a removed id fails, and a
  running container is not removed without being stopped.
- A worker has one heartbeat thread from its claim on, and the supervisor's loop beats only for workers
  it has started. A heartbeat reads the clock and writes the lease in two steps with anything between.
- All supervisors of the scheduling model are configured alike. Differently configured ones are kept apart
  by the stored policies (`RunRepository.OneBudgetForAll`).
- Dataset generations only grow, and the rows of a dataset are determined by its generation. Snapshots and
  table locks do what the database promises of them; the file locks only exclude some writers in addition.
- The store returns the rows it is asked for; events of one security have distinct identities.
- The native resampler makes at most one bar per security and bucket, stamped with the bucket's end.
- Trading windows of a calendar follow each other without overlap (used where a bucket's end is a key).
- `Replay.ReplayAnswersExactly` assumes one forward replay; the code compares boundary identities only, and
  `Replay.ExactWhenGapless` says what any other feeding leads to.
- Where a theorem about selections says so, fact ids are unique; random identities are fresh.
- A run's creation time and identity together are distinct across the two listed tables, and no run enters
  or leaves a filter below the cursor while its pages are followed.
- The run's end is not before its start, and dates are not pushed past the supported range of years.

## What the proofs show beyond the documentation

- The fencing theorem needs the check after create and stop-before-recover and nothing else of the three
  safeguards: dropping either one makes an unreserved running container reachable, dropping the check
  before create does not (`SafeExactlyWhenGuarded`).
- A delayed heartbeat can shorten the lease of a live worker (`LateBeatShortensLease`), exactly when its
  stamp is older than the present lease's, and never before the check after create (`LeaseDropsExactly`).
- The replay buffer misses rows when another full-universe read comes between two replay pages
  (`InterleavedReadLosesRows`); `ExactWhenGapless` says exactly which buffers are right.
- The final capture is sound only because it reads the latest rows after it has locked the tables; the lock
  with an earlier snapshot is not enough (`CommitsAreCurrentExactlyWhenGuarded`).
- A quality issue that comes and goes between two checks is not seen (`QualityMayFlicker`); which writers
  cannot do that is `LabelsStandStillExactly`; generations never do (`GenerationsStoodStill`).
- A priority row that nobody could know yet still blocks a selection when it fails its strict validation
  (`InvalidLaterRowsBlock`, `LaterRowBlocks`); apart from that, selection ignores what was not yet known.
- The cycle branch of the revision chain check is unreachable with unique ids (`ChainAccepted`) and fires
  for repeated ones exactly when a fact's links lead to its own older namesake (`CycleExactly`).
- The file queue writes a result pointer whether or not it was asked to publish that result; the pairing is
  the caller's (`CommitIsPublished`).
- A crash of a retry between the batch file and the roster leaves queued runs that are never claimed and
  whose slots are not retried (`RetryCrashStrands`, `StrandedForever`).
- The fingerprint window [start-31, end+101] is wider than needed: [start-30, end+90] is enough
  (`ConsultedDays`).

## Model

| member | source | states |
|---|---|---|
| `Scheduling.RunningImpliesHeld` | backend/app/backtest_service/supervisor.py:485-542 | In every interleaving of any number of supervisors, heartbeats, recoveries, cancels and clock ticks, from the empty system, with the check after create and stop-before-recover in force: each running container belongs to a run that is `starting` or `running` under that container's own token and fence. |
| `Scheduling.RunningWorkersFit` | backend/app/backtest_service/runtime_contracts.py:107-116 | In every interleaving, for any list of the running containers, expired leases included: at most `concurrency` of them, and the plain sums of their cpu, memory and pids, each with its reserve, and of their tmp bytes are within the group budget. |
| `Scheduling.RunningLoadFits` | backend/app/backtest_service/repository.py:211-222 | The same for the set of running containers: what they use together is never more than the reserved rows use, which the budget allows. |
| `Scheduling.RetakenOnlyWhenStopped` | backend/app/backtest_service/supervisor.py:573-596 | Whenever a run is claimed or recovered, no container of it is running. |
| `Scheduling.SafeExactlyWhenGuarded` | backend/app/backtest_service/process.py:246-258 | The fencing theorem holds over all interleavings exactly for the protocols that check after create and recover only after stop-and-remove; the check before create is not needed for it. |
| `Scheduling.CheckAfterCreateIsNeeded` | backend/app/backtest_service/process.py:252-254 | Without the second check, whatever else is in force, a system reaches a running container whose run is queued again. |
| `Scheduling.RecoveryMustStopFirst` | backend/app/backtest_service/supervisor.py:573-596 | Without stopping first, whatever else is in force, the recovery of an expired lease requeues a run whose worker is running. |
| `Scheduling.MadeWhileQueued` | backend/app/backtest_service/process.py:246-258 | Even with all safeguards a run can be queued again while its container exists, not yet started: what the second check is there to notice. |
| `Scheduling.CanSucceed` | backend/app/backtest_service/supervisor.py:485-542 | The protocol is not safe by doing nothing: from the empty system a run is submitted, claimed, started, exits, is stopped and removed, and ends `succeeded` with its result published, no lease and no container. |
| `Scheduling.CanBeCancelled` | backend/app/backtest_service/process.py:252-258 | A cancel between create and the second check ends the run `cancelled` with its container removed unstarted. |
| `Scheduling.CanBeTakenOver` | backend/app/backtest_service/supervisor.py:573-596 | An expired worker is killed, removed and recovered, and a second claim runs its own container while the first supervisor still takes its worker for live. |
| `Scheduling.StepKeepsInv` | backend/app/backtest_service/supervisor.py:573-654 | Every single step of every actor keeps the joint invariant of rows, leases, pending heartbeats, containers and recoveries in progress. |
| `Scheduling.KeepClearance` | backend/app/backtest_service/process.py:252-254 | Passing the check after create establishes that the claim is held and that no recovery which found the name clear can still succeed. |
| `Scheduling.KeepRecover` | backend/app/backtest_service/repository.py:302-311 | Recovering an expired claim after stop-and-remove never releases a reservation that a running container still uses. |
| `Scheduling.LeaseDropsExactly` | backend/app/backtest_service/repository.py:250-251 | A heartbeat in any reachable state lowers the lease exactly when it is accepted and stamp plus lease length lies before the present end; before the worker has passed the check after create that never happens. |
| `Scheduling.LateBeatShortensLease` | backend/app/backtest_service/repository.py:250-251 | It does happen to a live worker: a reachable state in which the heartbeat thread's older stamp lands after the loop's newer one. |
| `RunRepository.RowsOnlyMoveForward` | backend/app/backtest_service/repository.py:201-311 | Over any sequence of transactions: fences never drop, under one fence saved progress never goes back, a terminal row never changes, and an unfinished run with a cancel request keeps its fence and can only end `cancelled`. |
| `RunRepository.StaleClaimIsFenced` | backend/app/backtest_service/repository.py:232-238 | Once a newer claim of a run was issued, no operation of the older claim is accepted ever again. |
| `RunRepository.OnlyTheNewestClaimMutates` | backend/app/backtest_service/repository.py:232-238 | Over any sequence of transactions from empty tables, a claim-bound operation is accepted only from the claim issued last for that run, with its own token and fence. |
| `RunRepository.OneBudgetForAll` | backend/app/backtest_service/repository.py:82-97 | Whatever budgets the processes are configured with: over any sequence of their transactions all unfinished rows carry one policy and everything reserved fits it. |
| `RunRepository.ApplyKeepsBudget` | backend/app/backtest_service/repository.py:212-222 | Every transaction keeps the reserved limits of all `starting`/`running` rows within the group budget. |
| `RunRepository.ReservedFitsExactly` | backend/app/backtest_service/repository.py:211-217 | The reservations fit exactly when over any list of the `starting`/`running` rows the number and the four plain sums, with their reserves, are within the budget. |
| `RunRepository.ClaimableExactly` | backend/app/backtest_service/repository.py:211-217 | A run may be claimed exactly when it is queued and uncancelled, none such is older by (created_at, id), every unfinished row has this budget as its policy, and with the `starting`/`running` rows the number and each of the four plain sums stay within the budget. |
| `RunRepository.DatabaseRunRepository.Submit` | backend/app/backtest_service/repository.py:143-162 | Admits a fresh queued run exactly when one worker of its limits fits each quantity, every unfinished row carries this budget and fewer than `queue_limit` rows are unfinished; then exactly its row is added. |
| `RunRepository.DatabaseRunRepository.ActiveLimits` | backend/app/backtest_service/repository.py:213-213 | The active limits, in whatever order they are read, sum to the reserved usage of the table. |
| `RunRepository.DatabaseRunRepository.OldestQueued` | backend/app/backtest_service/repository.py:214-215 | The queued, uncancelled run with the least (created_at, id); none exactly when there is none. |
| `RunRepository.DatabaseRunRepository.ClaimNext` | backend/app/backtest_service/repository.py:211-222 | Refuses exactly when an unfinished row has another policy; otherwise claims the oldest queued, uncancelled run when it fits, with the next fence, the new token and lease and no attempt or progress left over, and nothing only when no run is claimable. |
| `RunRepository.DatabaseRunRepository.MutateClaim` | backend/app/backtest_service/repository.py:232-238 | Writes the row exactly when it is `starting`/`running` under the claim's token and fence, its lease is later than now, and it is not cancelled unless that is allowed. |
| `RunRepository.DatabaseRunRepository.BindAttempt` | backend/app/backtest_service/repository.py:240-241 | Accepted exactly for a held, uncancelled claim with an open lease; then the attempt is recorded and nothing else changes. |
| `RunRepository.DatabaseRunRepository.Heartbeat` | backend/app/backtest_service/repository.py:250-251 | Accepted exactly for a held claim whose lease is open at the caller's stamp, cancelled or not; then the lease ends at stamp plus length and nothing else changes. |
| `RunRepository.DatabaseRunRepository.MarkRunning` | backend/app/backtest_service/repository.py:253-254 | Accepted exactly for a held, uncancelled claim with an open lease; then the row is `running` and nothing else changes. |
| `RunRepository.DatabaseRunRepository.SaveProgress` | backend/app/backtest_service/repository.py:256-263 | Accepted exactly for a held, uncancelled claim with counters in [0, 2^53), a 64-bit time and no component below the stored one; the stored progress becomes the given one. |
| `RunRepository.DatabaseRunRepository.RequestCancel` | backend/app/backtest_service/repository.py:201-209 | A queued run is `cancelled` at once, a `starting` or `running` one keeps its status with the request set, a finished one is left alone; foreign owners are refused. |
| `RunRepository.DatabaseRunRepository.CommitOutcome` | backend/app/backtest_service/repository.py:270-294 | Accepted exactly for a terminal outcome of the held claim with an open lease, after a cancel request only `cancelled`, a success only with connection, its own result id and a published pointer equal to the result; row and pointer are written together, and otherwise nothing. |
| `RunRepository.DatabaseRunRepository.Expired` | backend/app/backtest_service/repository.py:296-300 | At most `concurrency` claims, each of a different `starting`/`running` row whose lease is over, with its token and fence; all of them when there are fewer. |
| `RunRepository.DatabaseRunRepository.RecoverStopped` | backend/app/backtest_service/repository.py:302-311 | Accepted exactly when token and fence match, the lease is over and the run is unfinished; then the row is queued, or cancelled after a request, without token, lease and attempt. |
| `WorkerDaemon.DockerDaemon.StopRemove` | backend/app/backtest_service/process.py:92-112 | Removes exactly the claim's own container; a name that belongs to another claim is refused and nothing changes. |
| `WorkerDaemon.StopAlone` | backend/app/backtest_service/process.py:92-112 | The stop request by request, with nobody in between, is that method: four requests remove exactly the claim's own container and refuse a foreign one. |
| `WorkerDaemon.DockerDaemon.StartWorker` | backend/app/backtest_service/process.py:246-258 | Succeeds exactly when both checks pass and the name is free; any failure removes whatever this claim has under its name, leaves another claim's container alone, and says which of the two faults it was. |
| `RuntimeContracts.FitsExactly` | backend/app/backtest_service/runtime_contracts.py:107-116 | `fits` holds exactly when there are at most `concurrency` limits and the plain integer sums of cpu, memory and pids, each with its reserve, and of tmp bytes are within their bounds. |
| `RuntimeContracts.LoadRemove` | backend/app/backtest_service/runtime_contracts.py:107-116 | The usage of a set of reservations does not depend on the order of summation. |
| `RuntimeContracts.TotalIsLoad` | backend/app/backtest_service/runtime_contracts.py:107-116 | The five sums of `fits` over a query result equal the usage of the set of runs it lists. |
| `RuntimeContracts.LoadMonotone` | backend/app/backtest_service/runtime_contracts.py:107-116 | Releasing reservations never raises any of the five sums. |
| `Events.OrdersByColumns` | backend/app/backtest_service/data_gateway.py:590-592 | The three orders in use are the lexicographic orders of the columns the sorts name: identity inside a security, security first, time first. |
| `Events.TailIsLast` | backend/app/backtest_service/data_gateway.py:701-719 | What "the last n per security" means: min(n, available) events of each security, all newer in the full identity order than every event of it left out. |
| `Events.TailIsUnique` | backend/app/backtest_service/data_gateway.py:701-719 | No other set of events has that property. |
| `Events.TailSandwich` | backend/app/backtest_service/data_gateway.py:700-719 | Dropping events outside the tail never changes the tail, so page-by-page compaction is exact. |
| `Events.TailExtend` | backend/app/backtest_service/data_gateway.py:727-735 | A long enough old tail with any further events has the tail of everything. |
| `Lookback.DeltaRead` | backend/app/backtest_service/data_gateway.py:694-728 | Reading only the events after the previous end determines the tail of the whole window. |
| `Lookback.AboveIsRestOfRun` | backend/app/backtest_service/data_gateway.py:701-716 | In a table sorted by security the newer events of a row are exactly the rest of its run. |
| `Lookback.RunEnds` | backend/app/backtest_service/data_gateway.py:712-713 | The run-end encoding splits the table into maximal runs of one security. |
| `Lookback.KeepRunTails` | backend/app/backtest_service/data_gateway.py:710-716 | The run-end mask keeps exactly each security's last `count` rows. |
| `Lookback.Compact` | backend/app/backtest_service/data_gateway.py:700-719 | Sorting and slicing (one security) or masking (several) keeps exactly the tail of the table. |
| `Lookback.RunDataGateway.Pages` | backend/app/backtest_service/data_gateway.py:503-583 | An admissible paging of a count query: disjoint pages between the window's tail and the whole window. |
| `Lookback.RunDataGateway.ReadGroup` | backend/app/backtest_service/data_gateway.py:721-731 | Compacting after each page gives the tail of the previous rows and everything read. |
| `Lookback.RunDataGateway.GroupTable` | backend/app/backtest_service/data_gateway.py:689-735 | Whole read, delta read and cut-down cache all give the tail of the whole window. |
| `Lookback.RunDataGateway.CutShorter` | backend/app/backtest_service/data_gateway.py:733-735 | A cached longer tail cut to a smaller count is the tail for that count. |
| `Lookback.NewestPerSecurity` | backend/app/backtest_service/data_gateway.py:700-719 | Row by row: an answer that holds the tail has, per security, min(n, available) rows of the window, all after every row left out by (time, session, channel, sequence, stable), in (time, security, ...) order. |
| `Lookback.HeldIsSum` | backend/app/backtest_service/data_gateway.py:726-731 | The row budget counts the plain sum of all cached table sizes. |
| `Lookback.RunDataGateway.LookbackWindow` | backend/app/backtest_service/data_gateway.py:679-743 | For any earlier calls: answered only for distinct securities of the universe, an end inside the grant, a count in range and count x securities within the cache; DATA_RESTRICTED exactly for the first two failures, and nothing changes then; the answer is, per security, the last `count` events in [grant start, end] by the full column order; the cache never holds more than its rows. |
| `Replay.ReplayBuffer.Answer` | backend/app/backtest_service/data_gateway.py:450-467 | Answers exactly the windows with first time < start <= end < last time of its binding and columns, with exactly its rows of the window and securities, in column order when its table is. |
| `Replay.ReplayBuffer.Remember` | backend/app/backtest_service/data_gateway.py:585-598 | An empty page changes nothing; a page of the same binding and columns that comes after the last row is appended, any other begins anew; the last `limit` rows stay. |
| `Replay.InteriorExact` | backend/app/backtest_service/data_gateway.py:454-458 | Any contiguous piece of the store answers windows strictly inside its times exactly, whatever rows of equal time were cut at either edge. |
| `Replay.FedIsContiguous` | backend/app/backtest_service/data_gateway.py:585-598 | Fed by one forward replay the buffer is the contiguous last piece of what was replayed. |
| `Replay.ReplayAnswersExactly` | backend/app/backtest_service/data_gateway.py:450-467 | Fed by one forward replay every answer of the buffer equals the answer of the store. |
| `Replay.ExactWhenGapless` | backend/app/backtest_service/data_gateway.py:585-598 | Fed with any pages of any reads, in any order and however trimmed, the buffer is right about every window it would serve exactly when no store row strictly between its first and last times is missing from it. |
| `Replay.InterleavedReadLosesRows` | backend/app/backtest_service/data_gateway.py:590-592 | A concrete sequence of pages (a query between two replay pages) after which the buffer answers without a stored row. |
| `Buckets.AcceptedExactlyWhenNotCut` | backend/app/backtest_service/resampling.py:21-24 | Of the listed frequencies exactly those pairs are accepted whose source is finer and whose coarse bounds never fall inside a fine bar. |
| `Buckets.FineBarsAreNotCut` | backend/app/backtest_service/resampling.py:21-24 | Bucket bounds of an accepted pair are bounds of finer buckets. |
| `Buckets.IndicesExact` | backend/app/backtest_service/resampling.py:57-70 | The closed-form first and last indices and the skip test are exactly the buckets of the window with start <= finish <= end and lower >= grant start: the inner filter never rejects. |
| `Buckets.IndicesByInstants` | backend/app/backtest_service/resampling.py:57-69 | The same on instants: an index is visited exactly when its bucket begins in the window and not before the grant, and ends within the request. |
| `Buckets.BucketsTile` | backend/app/backtest_service/resampling.py:66-68 | Buckets tile their window without gap or overlap. |
| `Buckets.EveryInstantHasOneBucket` | backend/app/backtest_service/resampling.py:66-68 | Every instant of a window lies in exactly one bucket. |
| `Buckets.Enumerate` | backend/app/backtest_service/resampling.py:48-70 | The lazy enumeration equals filtering all buckets; the count order is the exact reverse of the forward order. |
| `Buckets.EnumerateBackward` | backend/app/backtest_service/resampling.py:54-70 | The doubly reversed loops give the exact reverse. |
| `Buckets.SelectedMembers` | backend/app/backtest_service/resampling.py:48-70 | The enumeration visits exactly the wanted buckets of the whole calendar. |
| `Buckets.SelectedExactly` | backend/app/backtest_service/resampling.py:48-70 | Without the enumeration: a bucket is visited exactly when it begins a whole number of durations into a window of its session, lasts one duration or to the window's end, ends within the request and begins within the grant. |
| `Buckets.SelectedInOrder` | backend/app/backtest_service/resampling.py:48-70 | In an ordered calendar the enumeration is in time order without overlap. |
| `Buckets.FinishIdentifies` | backend/app/backtest_service/resampling.py:85-85 | In an ordered calendar the finish alone identifies a bucket, so it can key the cache. |
| `CountWindow.OlderBars` | backend/app/backtest_service/resampling.py:84-100 | Bars older than everything seen enter the tail exactly for securities that still lack some. |
| `CountWindow.SearchStep` | backend/app/backtest_service/resampling.py:78-100 | Reading only the securities that still lack bars gives the tail of one more bucket, and the countdown stays what they lack. |
| `CountWindow.Take` | backend/app/backtest_service/resampling.py:97-100 | The countdown loop lowers each security of the table by one and drops those that reach zero. |
| `CountWindow.FullToTheEnd` | backend/app/backtest_service/resampling.py:78-80 | When nothing is lacking, older buckets add nothing: stopping early is exact. |
| `CountWindow.ResampledBarGateway.TableFor` | backend/app/backtest_service/resampling.py:85-90 | A cached bucket and a computed one give the same bars for the wanted securities. |
| `CountWindow.ResampledBarGateway.Search` | backend/app/backtest_service/resampling.py:72-113 | Every security at once gets exactly its newest min(count, available) bars of the window, ascending, never more than count; a bucket is read for exactly the securities with fewer than `count` newer bars, so damage refuses exactly there. |
| `CountWindow.ResampledBarGateway.TrimCache` | backend/app/backtest_service/resampling.py:115-131 | The longest suffix of at most 32 tables that fits beside the other rows stays; the remembered query goes only when even an empty bucket cache does not fit. |
| `CountWindow.ResampledBarGateway.ReadCount` | backend/app/backtest_service/resampling.py:206-243 | A remembered query is the answer a new search would give, and is replaced by the last answer; answered only for distinct securities of the universe, an end inside the grant and counts within the cache, DATA_RESTRICTED exactly otherwise as in the source; the answer row by row as for a window of stored events. |
| `CountWindow.ResampledBarGateway.ReadRange` | backend/app/backtest_service/resampling.py:222-235 | A plain window gives exactly the bars of the securities in its buckets, in time order, whatever is cached; DATA_RESTRICTED exactly for repeated or foreign securities and bounds outside the grant; only the full replay fills the cache. |
| `CountWindow.ResampledBarGateway.HistoryExactly` | backend/app/backtest_service/resampling.py:72-84 | The bars a count window may answer with are those of its securities in the buckets up to its end. |
| `SnapshotProtocol.StepKeepsInv` | backend/app/backtest_service/data_gateway.py:324-362 | One read at a time, against any writer: captures stay, generations only grow, every buffered or exposed row carries its binding's captured generation, and what a capture in progress has read is still what its queries see. |
| `SnapshotProtocol.SuccessHasOneMoment` | backend/app/backtest_service/data_gateway.py:329-362 | However the reads of a successful declaration or check are spread out between writes, all captured generations and readability labels held together at one moment within the call. |
| `SnapshotProtocol.CommitHoldsNow` | backend/app/backtest_service/data_gateway.py:348-362 | When finalize succeeds, in the catalog of the commit itself every captured dataset is present, unrestricted, of its binding's specification, and of the captured generation, issues and overflow restriction, whatever writer the lock waited for. |
| `SnapshotProtocol.RunsDoCommit` | backend/app/backtest_service/data_gateway.py:379-410 | The guarded protocol is not safe by doing nothing: a run declares, reads a row, exposes it, checks and commits. |
| `SnapshotProtocol.ChangedLabelEmptiesCache` | backend/app/backtest_service/data_gateway.py:396-402 | A check whose comparison fails cannot end; it empties the window cache and keeps the captures. |
| `SnapshotProtocol.CommitsAreCurrentExactlyWhenGuarded` | backend/app/backtest_service/data_gateway.py:329-356 | Of the four ways to run the final capture only reading the latest rows after taking the table lock makes every commit current: the lock with an earlier snapshot and either kind of read without the lock have runs that commit a dataset that has moved on. |
| `SnapshotProtocol.SnapshotDecides` | backend/app/backtest_service/data_gateway.py:379-402 | A declaration or check gets through its reads and its comparison exactly when all captures hold in its snapshot, whatever the writers do meanwhile. |
| `SnapshotProtocol.GenerationsStoodStill` | backend/app/backtest_service/data_gateway.py:404-410 | If finalize commits, no declared dataset changed its generation at any moment since its declaration. |
| `SnapshotProtocol.CommittedRowsAreCurrent` | backend/app/backtest_service/data_gateway.py:544-583 | If finalize commits, every row ever given to the run, from the store or from a buffer, is a row of the generation current at the commit. |
| `SnapshotProtocol.StaleRunCannotGoOn` | backend/app/backtest_service/data_gateway.py:276-278 | Once a declared dataset has moved on, no declare or check begun from then on succeeds, no read of it, and no commit whenever its capture began. |
| `SnapshotProtocol.LabelsStandStillExactly` | backend/app/backtest_service/data_gateway.py:315-319 | For any discipline of writers: the labels of every committed run held at all moments from declaration to commit exactly when the writers have no way to leave a readable state of a dataset and come back without a new generation. |
| `SnapshotProtocol.LabelsStandStillForUndoingWriters` | backend/app/backtest_service/data_gateway.py:315-319 | For writers that can undo what they change, one write decides: labels stand still exactly when no permitted write changes a readable dataset and leaves its generation. |
| `SnapshotProtocol.QualityMayFlicker` | backend/app/backtest_service/data_gateway.py:315-319 | Writers that only raise and resolve issues do not meet that condition. |
| `Dependencies.CaptureOne` | backend/app/backtest_service/data_gateway.py:270-320 | The gates of one dataset: passes exactly when it is present, unrestricted, of the binding's specification and of the earlier generation, if captured before; any refusal of a captured dataset is DATA_CHANGED. |
| `Dependencies.DependencyContext.Capture` | backend/app/backtest_service/data_gateway.py:254-322 | All names in name order from what the connection sees; the first gate that refuses decides. |
| `Dependencies.DependencyContext.Declare` | backend/app/backtest_service/data_gateway.py:379-394 | Succeeds exactly when open, the binding is usable and passes its gates, and every earlier capture still agrees in presence, restriction, specification, generation, issues and overflow; then exactly the new capture is added, otherwise nothing. |
| `Dependencies.DependencyContext.Check` | backend/app/backtest_service/data_gateway.py:396-402 | Succeeds exactly when open and every capture agrees in all six respects; only a label that differs while every gate passes empties the window cache. |
| `Dependencies.DependencyContext.Finalize` | backend/app/backtest_service/data_gateway.py:404-410 | Commits exactly when open and every capture agrees in all six respects. |
| `CivilCalendar.YearsByCount` | backend/app/backtest_service/formal_resolver.py:652-655 | The calendar is the Gregorian one: year y begins 365 (y-1) + (y-1)/4 - (y-1)/100 + (y-1)/400 days after day 1. |
| `CivilCalendar.MonthsOfYear` | backend/app/backtest_service/formal_resolver.py:652-655 | A month begins 0, 31, 59, 90, ... days after its January, one more after a leap day. |
| `CivilCalendar.NextMonthStart` | backend/app/backtest_service/formal_resolver.py:653-653 | Day 28 plus four days always lands in the next month, whatever the month's length. |
| `CivilCalendar.MonthIsUnique` | backend/app/backtest_service/formal_resolver.py:700-700 | A day lies in exactly one month. |
| `CivilCalendar.MonthsFollowDays` | backend/app/backtest_service/formal_resolver.py:652-655 | Later days have later months, month starts and next-month starts. |
| `CivilCalendar.WeeksFollowDays` | backend/app/backtest_service/formal_resolver.py:654-655 | A week begins on a Monday at most six days back; two days share a week exactly when the later one is within it. |
| `CalendarAssembly.AssembleCalendar` | backend/app/backtest_service/formal_resolver.py:643-721 | One row for every open day of the run in order, then the two open days that follow it. Each row: its fact's own windows, open at the first one's start, close at the last one's end, the callbacks one nanosecond outside, and its numbers as counts of open days of its natural week and month. The reference holds every consulted day. No calendar without references; each refusal holds only under its own condition. |
| `CalendarAssembly.FindFollowing` | backend/app/backtest_service/formal_resolver.py:661-670 | The search stops as soon as two open days after the run are known, at the latest 31 days past the run's own periods. |
| `CalendarAssembly.BuildRow` | backend/app/backtest_service/formal_resolver.py:690-715 | Ordinals and totals are the true counts over the complete natural week and month, never a period cut by the run's bounds. |
| `CalendarAssembly.RowByFields` | backend/app/backtest_service/formal_resolver.py:694-715 | What one row says, field by field, without the functions that build it. |
| `CalendarAssembly.WeekIsTrue` | backend/app/backtest_service/formal_resolver.py:698-699 | The week cut from the selected open days is the whole natural week's. |
| `CalendarAssembly.MonthIsTrue` | backend/app/backtest_service/formal_resolver.py:700-700 | The month cut from the selected open days is the whole natural month's. |
| `CalendarAssembly.BuildRows` | backend/app/backtest_service/formal_resolver.py:690-715 | One row for each open day of the run and for the next session. |
| `CalendarAssembly.KeptIsRunAndNext` | backend/app/backtest_service/formal_resolver.py:691-693 | The row filter keeps the open days of the run followed by the first open day after it. |
| `CalendarAssembly.ConsultedDays` | backend/app/backtest_service/formal_fact_guard.py:61-67 | Every natural day consulted lies in [start-30, end+90], well inside the guarded [start-31, end+101]. |
| `CalendarAssembly.GuardSuffices` | backend/app/backtest_service/formal_fact_guard.py:61-67 | Facts that agree on the guarded window have the same calendar, so an unchanged fingerprint keeps an assembled calendar right. |
| `CalendarAssembly.CalendarIsUnique` | backend/app/backtest_service/formal_resolver.py:643-721 | The facts leave no choice: at most one calendar describes them. |
| `RevisionChain.KnowledgeVisible` | backend/app/calendars/facts.py:1335-1357 | Visible exactly when known by the cutoff and, under strict cognition, by the boundary with evidence declared and valid at it; not visible exactly when known later; refused otherwise. |
| `RevisionChain.ByIdTakesLast` | backend/app/calendars/facts.py:1370-1370 | The index keeps the last of the candidates with an id. |
| `RevisionChain.WalkBack` | backend/app/calendars/facts.py:1375-1393 | The loop computes the walk, and ends for any candidate list, repeated ids included. |
| `RevisionChain.ValidateRevisionChain` | backend/app/calendars/facts.py:1367-1393 | Refuses with the first failing walk; with unique ids accepts exactly the lists whose every link is present, of the same key and one version lower, and never reports a cycle. |
| `RevisionChain.ChainAccepted` | backend/app/calendars/facts.py:1367-1393 | With unique ids, acceptance of all walks is equivalent to every single link holding. |
| `RevisionChain.WalkIsShort` | backend/app/calendars/facts.py:1378-1393 | A walk follows fewer links than its fact's version. |
| `RevisionChain.CycleExactly` | backend/app/calendars/facts.py:1379-1380 | For any list, ids repeated or not: the walk from a candidate reports a cycle exactly when a later candidate has taken its id, is an older version that supersedes something, and the links lead from the one to the other. |
| `RevisionChain.RepeatedIdsCanCycle` | backend/app/calendars/facts.py:1379-1380 | A concrete list of three that does. |
| `PitSelection.SelectSourcePriority` | backend/app/calendars/facts.py:1396-1461 | Succeeds with a row that leads the seen rows of the source when their chain is whole and all rows of its rank agree, and fails exactly when there is none; every other row in sight is known earlier, or then of lower revision order, or then of lower version, or else says the same with no lesser id; ids may repeat. |
| `PitSelection.PriorityExactly` | backend/app/calendars/facts.py:1396-1461 | A source's priority fact, field by field: all rows of the source valid and complete, every superseded row in sight one version lower, and (known_at, revision order, version) greatest, with agreement and least id among equals. |
| `PitSelection.PriorityIsUnique` | backend/app/calendars/facts.py:1425-1461 | At most one row can be a source's priority fact. |
| `PitSelection.ChosenExactly` | backend/app/calendars/facts.py:1493-1655 | The selected fact, field by field and in both directions: no candidate lacks evidence, every one in sight carries its source's priority reference, version, number and order, superseded facts are in sight one version lower, and it is first by (priority, latest known_at, highest revision order, newest version, least id) with all of the best rank agreeing. |
| `PitSelection.ChosenIsBest` | backend/app/calendars/facts.py:1570-1611 | A chosen fact was applicable, accepted and known in time; every other such fact has a higher priority number, or the same and an earlier known_at, or these the same and a lower revision order, or agrees with it and has a lower version or no lesser id. |
| `PitSelection.ChosenIsUnique` | backend/app/calendars/facts.py:1493-1655 | With unique ids at most one fact can be chosen. |
| `PitSelection.SelectionIsOrderFree` | backend/app/calendars/facts.py:1493-1655 | With unique ids any permutation of candidates and priority rows selects the same fact: selection from the lists is selection from the sets. |
| `PitSelection.SelectionIgnoresLaterFacts` | backend/app/calendars/facts.py:1493-1655 | Non-interference: adding facts and valid priority rows first known after the cutoff or boundary changes neither which fact is chosen nor whether one is. |
| `PitSelection.InvalidLaterRowsBlock` | backend/app/calendars/facts.py:1414-1417 | The limit of it: strict validation precedes visibility, so a not yet known row that fails it blocks; the choice survives exactly when no seen fact's source has such a row for the day. |
| `PitSelection.LaterRowBlocks` | backend/app/calendars/facts.py:1184-1199 | A concrete case: a row known after the cutoff with a wrong content hash leaves nothing to choose where one fact was chosen without it. |
| `PitSelection.VisibleFacts` | backend/app/calendars/facts.py:1533-1545 | The first stage keeps exactly the applicable, accepted, visible candidates. |
| `PitSelection.CheckReferences` | backend/app/calendars/facts.py:1570-1607 | Passes exactly when every visible fact is ranked by its source's own priority fact; ids may repeat. |
| `PitSelection.Winner` | backend/app/calendars/facts.py:1610-1655 | The leaders' agreements and the tie-break give the winner, or there is none. |
| `PitSelection.SelectPitCandidate` | backend/app/calendars/facts.py:1493-1655 | Succeeds with a chosen fact and fails exactly when there is none; with unique ids the answer is the one fact the sets choose; the answer compared field by field with every other candidate in sight; missing evidence is refused first, and with nothing in sight the answer is `invalid` or `missing`. |
| `ClockTime.ParseOfFormat` | backend/app/calendars/facts.py:231-246 | Parsing the printed form gives the time back for all hours, minutes, seconds and microseconds. |
| `ClockTime.FormatOfParse` | backend/app/calendars/facts.py:231-246 | Printing a parsed text gives it back exactly for the texts the printer writes. |
| `ClockTime.Parse` | backend/app/calendars/facts.py:239-246 | Accepts exactly the texts that match, and only valid times come out. |
| `ClockTime.MatchesExactly` | backend/app/calendars/facts.py:239-246 | A text matches exactly when it has 5, 8 or 10 to 15 characters, colons and point in their places, digits elsewhere, hours to 23, minutes and seconds to 59. |
| `ClockTime.ParseByDigits` | backend/app/calendars/facts.py:239-246 | The parts are two digits each, and the fraction's digits count as tenths, hundredths and so on of a second. |
| `ClockTime.MicrosInOrder` | backend/app/calendars/facts.py:333-335 | Times compare by hour, minute, second and microsecond. |
| `SessionWindows.NormalizeSessionWindows` | backend/app/calendars/facts.py:305-346 | Accepted: exactly the items' windows, sorted, each ending before the next begins; rejected for overlap exactly when two of the items overlap, for another fault of the first faulty item; more than 16 are refused first. |
| `SessionWindows.NeighboursAreApart` | backend/app/calendars/facts.py:334-345 | Comparing neighbours only is comparing all pairs. |
| `SessionWindows.SortedOverlap` | backend/app/calendars/facts.py:333-345 | In a sorted list some two windows overlap exactly when two neighbours do. |
| `SessionWindows.OverlapIsOrderFree` | backend/app/calendars/facts.py:333-345 | Whether two entries overlap does not depend on the order of the list. |
| `SessionWindows.NormalizeWindowPayloads` | backend/app/calendars/facts.py:349-424 | The strict parser with its documented error precedence, entry by entry: shape, more than 16, the first unreadable or crossing entry, order, overlap; what is accepted says exactly what the entries say. |
| `SessionWindows.StrictAcceptance` | backend/app/calendars/facts.py:349-424 | It accepts exactly the arrays of at most 16 entries that each name a valid window and of which each ends before all later ones begin. |
| `SessionWindows.StoredFormIsAccepted` | backend/app/calendars/facts.py:293-302 | The stored form of any normalised list is parsed back to the same windows and to nothing else. |
| `QueueFiles.WriteKeepsInv` | backend/app/backtest_service/local_queue.py:103-126 | Stopping after any atomic replacement: roster and batch entries have run files, the roster is within its limit, claimed runs are on it, and all reservations together fit the group budget. |
| `QueueFiles.HistoryKeepsInv` | backend/app/backtest_service/local_queue.py:103-126 | The same over any history of operations and crashes. |
| `QueueFiles.HistoryKeepsBudget` | backend/app/backtest_service/local_queue.py:233-258 | Over any history with crashes, for any list of the claimed runs, the number and the four plain sums, with their reserves, are within the group budget. |
| `QueueFiles.HistoryKeepsResults` | backend/app/backtest_service/local_queue.py:360-366 | Over any history with crashes no run ever points to an unpublished result exactly when every replaced run file names a result published before it. |
| `QueueFiles.RowsOnlyMoveForward` | backend/app/backtest_service/local_queue.py:233-398 | Over any history with crashes: fences only grow, a terminal row never changes, a cancelled unfinished run is never claimed again and ends only `cancelled`. |
| `QueueFiles.FenceCountsClaims` | backend/app/backtest_service/local_queue.py:233-258 | Over any history with crashes a run's fence has grown by exactly the number of times it was claimed. |
| `QueueFiles.ChainEndsAtOriginal` | backend/app/backtest_service/local_queue.py:416-430 | Every `retry_of` chain is finite and ends at a run that replaces nothing, with the same slot and the originally accepted work; what it passed is failed. |
| `QueueFiles.SlotsKeepTheirWork` | backend/app/backtest_service/local_queue.py:400-439 | Over any history with crashes a batch keeps its slots, slot i keeps item i and its work, superseded runs are failed, a succeeded run is never replaced. |
| `QueueFiles.StrandedForever` | backend/app/backtest_service/local_queue.py:134-150 | A queued run missing from the roster is never claimed; all it can become is cancelled. |
| `QueueFiles.OnlyCrashesStrand` | backend/app/backtest_service/local_queue.py:216-222 | Whatever is stranded became so by a crash, of an operation that had created it and not yet listed it. |
| `LocalQueue.RetryCrashStrands` | backend/app/backtest_service/local_queue.py:437-438 | A crash between the batch file and the roster leaves every replacement in its slot, queued and stranded. |
| `LocalQueue.CrashSafe` | backend/app/backtest_service/local_queue.py:103-126 | Stopping an operation after any number of its replacements leaves sound files. |
| `LocalQueue.LiveRosterMembers` | backend/app/backtest_service/local_queue.py:134-144 | `_active()` holds exactly the unfinished runs of the roster: a finished one takes no capacity. |
| `LocalQueue.LiveRosterInOrder` | backend/app/backtest_service/local_queue.py:134-144 | The runs read from the roster are its unfinished ones, once each, in the order of their positions in the file. |
| `LocalQueue.GrantsAreReserved` | backend/app/backtest_service/local_queue.py:236-243 | The limits `claim` reads from the roster sum to everything reserved: no claimed run is missing from it. |
| `LocalQueue.LocalRunRepository.TakeableExactly` | backend/app/backtest_service/local_queue.py:236-247 | A run may be taken exactly when it is queued and uncancelled and, with any list of the claimed runs, the number and the four plain sums stay within the budget. |
| `LocalQueue.LocalRunRepository.SaveActive` | backend/app/backtest_service/local_queue.py:146-150 | Exactly the unfinished runs stay on the roster, once each and in their order. |
| `LocalQueue.CommitIsPublished` | backend/app/backtest_service/local_queue.py:350-368 | A commit, stopped after any of its replacements or not at all, leaves no pointer to an unpublished result exactly when it names no result, publishes the one it names, or names a published one. |
| `LocalQueue.LocalRunRepository.EnqueueBatch` | backend/app/backtest_service/local_queue.py:152-222 | Admits exactly 1 to 256 items that differ in parameters only, each fitting alone, with room for all beside the unfinished runs; then writes the new run files in item order, the batch file and the roster, in this order and nothing else. |
| `LocalQueue.LocalRunRepository.RetryFailed` | backend/app/backtest_service/local_queue.py:400-439 | Slot by slot: exactly the failed slots get a new queued run of the same work that names the one it replaces; run files in slot order, then batch file, then roster; refused exactly for a foreign batch or a full queue. |
| `LocalQueue.LocalRunRepository.ClaimNext` | backend/app/backtest_service/local_queue.py:233-258 | The first entry of the stored roster that is queued, uncancelled and fits beside every reservation, with the next fence and nothing else changed; none exactly when no entry may be taken; all reservations still fit. |
| `LocalQueue.LocalRunRepository.Heartbeat` | backend/app/backtest_service/local_queue.py:291-298 | Accepted exactly for a run that is `starting`/`running` under the claim's token and fence with an open lease; then the lease ends at now plus length and nothing else changes. |
| `LocalQueue.LocalRunRepository.MarkRunning` | backend/app/backtest_service/local_queue.py:300-307 | Accepted exactly for a held, uncancelled claim with an open lease; then the run is `running` and nothing else changes. |
| `LocalQueue.LocalRunRepository.RequestCancel` | backend/app/backtest_service/local_queue.py:334-348 | A queued run is `cancelled` at once, a claimed one keeps its status with the request set; run file, then roster without finished runs, the others in order; a finished run is left alone. |
| `LocalQueue.LocalRunRepository.CommitOutcome` | backend/app/backtest_service/local_queue.py:350-368 | Result and publication are separate arguments: the publication asked for, then the run file with the result it names, then the roster; one winner; pointers stay published exactly for paired calls, as the supervisor's are (supervisor.py:512-536). |
| `LocalQueue.LocalRunRepository.RecoverStopped` | backend/app/backtest_service/local_queue.py:378-398 | Accepted exactly when token and fence match, the lease is over and the run is unfinished; then queued, or cancelled after a request, without token and lease; run file, then roster. |
| `LocalQueue.LocalRunRepository.Expired` | backend/app/backtest_service/local_queue.py:370-376 | Exactly the claims of the `starting`/`running` runs whose lease is over. |
| `FailurePages.KeepIsBest` | backend/app/backtest_service/formal_sql_pages.py:34-49 | Keeping the better of two summaries is the summary of all their cells: exact count, least failure, never replaced by a success. |
| `FailurePages.KeptIsFirst` | backend/app/backtest_service/formal_sql_pages.py:26-49 | Cell by cell: counts add up, a failure is never given up for a success, and no failing cell of either summary has a smaller day, or the same day and a smaller rank. |
| `FailurePages.ScopedChecks.Record` | backend/app/backtest_service/formal_sql_pages.py:34-49 | One check per binding stands for exactly the recorded cells. |
| `FailurePages.ScopedChecks.Append` | backend/app/backtest_service/formal_sql_pages.py:51-52 | A single cell. |
| `FailurePages.ScopedChecks.Merge` | backend/app/backtest_service/formal_sql_pages.py:58-60 | Merging a page adds exactly its cells. |
| `FailurePages.SessionFailurePositions.Record` | backend/app/backtest_service/formal_sql_pages.py:79-89 | Each day keeps the lowest failing symbol rank, and one detailed failure is the earliest by date and symbol. |
| `FailurePages.SessionFailurePositions.Select` | backend/app/backtest_service/formal_sql_pages.py:95-109 | With a consistent reread the selection is the failing cell of the first listed day that has one and on it of the lowest symbol, or none exactly when none fails; it refuses only a reread that contradicts the snapshot. |
| `FailurePages.ReadPage` | backend/app/backtest_service/formal_resolver.py:308-433 | A page's unranked checks keep, per binding, the first failure of its symbols. |
| `FailurePages.Traverse` | backend/app/backtest_service/formal_resolver.py:452-505 | Visiting symbol block first and day second ends, for every binding, with the exact cell count, the failing cell of the smallest day and on it the smallest rank, and on every day the lowest failing rank or the empty mark. |
| `FailurePages.BestIsExact` | backend/app/backtest_service/formal_resolver.py:479-489 | The kept check in terms of the whole history: days x symbols cells, available exactly when no cell fails. |
| `FailurePages.RectangleSize` | backend/app/backtest_service/formal_resolver.py:443-443 | The whole history has days x symbols cells. |
| `Listing.ListPage` | backend/app/backtest_service/listing.py:51-78 | A non-empty prefix of the rows below the cursor within limit and 1 MiB, as long as possible, with a cursor exactly when rows are left; refused exactly when the first summary does not fit by itself; stated by creation times, ids and byte sums. |
| `Listing.PageByRuns` | backend/app/backtest_service/listing.py:51-78 | Run by run: a page is newest first, none left out before another, 16 KiB and the bytes with one between them within 1 MiB, and the next run would not have fitted when fewer than the limit are shown. |
| `Listing.NewerRunsAreNotBelow` | backend/app/backtest_service/listing.py:50-50 | As long as nothing enters or leaves the filter below the cursor, the keys below it stay the same, whatever is inserted above it and however summaries change. |
| `Listing.RestIsBelow` | backend/app/backtest_service/listing.py:50-52 | Below the key of a page's last item are exactly the rows behind it. |
| `Listing.PagesPartition` | backend/app/backtest_service/listing.py:43-78 | After every page, the keys shown and the keys below the cursor are together those of the start. |
| `Listing.ListingIsComplete` | backend/app/backtest_service/listing.py:43-78 | Following the cursor to its end shows every run of the start exactly once in descending order, although pages are cut short, newer runs are inserted and summaries change their size in between; no more pages than runs can follow. |

## Left out

- Docker outages and timeouts, HTTP, Unix sockets, threads, file descriptors, attempt directories and runtime readiness files.
- SQL text, ORM models, lock syntax and statement timeouts: a transaction of the repository is one atomic step.
- RunRepository.DatabaseRunRepository.Submit: does not model idempotency keys, request hashes and the size limits of one accepted configuration.
- Batches and retries of the database repository; they are proved for the file queue.
- LocalQueue.LocalRunRepository.EnqueueBatch: does not model the native configuration check and the byte limits of one run file.
- Lookback.RunDataGateway.LookbackWindow: does not model columns, field projection and byte sizes; byte budgets may refuse at any point.
- Lookback.RunDataGateway.Pages: stands for the store query and its paging; partitions, guards and projections are not modelled.
- Replay.ReplayBuffer.Remember: does not model the byte bound of the buffer.
- CountWindow.ResampledBarGateway.Search: time and scan budgets may refuse at any bucket; prices and quantities inside a bar are the native resampler's.
- CountWindow.ResampledBarGateway.TrimCache: counts rows; the byte count is treated the same way and not modelled.
- Dependencies.DependencyContext.Capture: the issue digest and the fingerprint are injective labels; issue budgets, deadlines and cancellation are not modelled other than as a capture given up at any point.
- CalendarAssembly.AssembleCalendar: local midnight, time zones, session keys and the native calendar validation are not modelled; instants are given as nanoseconds.
- PitSelection.SelectPitCandidate: the diagnostic path without a point-in-time context is not modelled; hashes and payloads are labels, and strict validation of a priority row is a given outcome.
- SessionWindows.NormalizeWindowPayloads: window labels are not modelled, as they are not part of the stored meaning.
- FailurePages.Traverse: the content of a check, the diagnostic byte limit and the candidate cache are not modelled.
- Listing.ListPage: cursor signing, the filters and the two summary queries are not modelled; a page is taken from the filtered rows.
- The fee schedule and account adapters, research bindings, result writers, routers, authentication, front end and deployment.
- Hashing, HMAC and canonical JSON, Arrow and NumPy layouts, and the native Rust modules.
