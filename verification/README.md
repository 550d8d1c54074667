# data-loader: a verified model

data-loader is an edge ETL engine. It runs loads on cron schedules, copies rows from SQL
sources, Modbus devices and OPC UA servers into a SQL Server sink, and keeps watermarks, run
rows and schedules in a metadata store. This project models the parts of it whose
correctness depends on whole histories: what happens when any call may fail, when the reply
to a call that took effect is lost, when the process dies between two calls, and when several
goroutines interleave. It also models the decoders and encoders that feed those parts.

Each protocol is a machine. A module defines its states and events, when an event is enabled
and what it does, and `RunFrom` gives the state after a list of events. The main theorems
quantify over every list of events that can happen. Beside the machine stands the code that
takes its steps: a class whose methods make one store, source or sink call at a time, with
arbitrary steps of the rest of the system between any two of them, and whose ghost trace
`Valid()` ties to the machine. So every theorem about histories holds of every run of that code.

- `Delta`, `DeltaRunner`: the delta watermark protocol. A run reads the stored watermark,
  snapshots MAX, streams the window (last, upper], writes batches, upserts the watermark and
  finishes its run row.
- `Replace`, `ReplaceRunner`: the atomic replace of a table through `_stg` and `_old`, refining
  a reference in which a run publishes its rows in one step.
- `Pool`, `PoolRunner`, `ParamsText`: the pool of open sources, its two levels of locks, and
  the fingerprint of the parameters that decides about reuse.
- `Scheduler`, `SchedulerRunner`, `RunMarks`: reconciliation of cron entries, reload loops, the
  overlap guard, the registry of running loads, and every way a run can return.
- `RunHistory`, `Prune`: run rows across starts, shutdowns and crashes, and their housekeeping.
- `Batching`, `Opcua`, `Modbus`, `Ident`, `MetadataText`, `Sorting`, `Texts`: the batch buffer, the
  OPC UA poll, register decoding, identifier quoting and the metadata fingerprint text.
- `Calls`, `Options`: how a call or a run can end, and optional values.

What the theorems assume, and what the code does where one might expect otherwise:

- Watermarks are ordered integers; rendering and parsing them is taken to be lossless
  (datetimes are in the form of section 5.6 of RFC 3339). The comment on `buildQuery` says that
  rows inserted during a load are picked up by the next run if their watermark is higher. A row
  committed at or below the snapshot after the query ran is not: `LosesLateRow` is a history in
  which every call succeeds and such a row is lost. `LossExact` and `LateRowFate` say exactly
  which rows are.
- An empty first MAX is not stored, so the next run seeds again. The no-loss claim begins at the
  first watermark stored since the start or the last reset. What lies at or below that one and is
  not in the sink by then is not delivered unless the watermark falls or is reset again
  (`SeedSkips`, `ResetSkips`).
- The stored watermark can fall, and a row can then be loaded twice though nothing failed
  (`WatermarkFalls`): when all rows at or above it have been deleted and others are left at the
  next snapshot. `WatermarkFallsIff` and `SnapsBelowWhen` say exactly when. Telescoping, the
  duplicate bound and the fate of late rows are claimed for all histories without a reset in which
  no snapshot is below the watermark. Deletes that leave a row at or above the watermark and any
  open upper bound keep it so (`GentleNeverBelow`). `NoLoss` needs neither condition.
- Replace loads must own disjoint table names. `SafeIffNamesDiffer` is the check on the names
  and shows that it cannot be dropped.
- A failing FinishRun after the commit reports a failed run whose data is already live.
- SQL sources report zero rows read on a failed read, whatever was delivered.
- A rescheduled load whose new cron expression does not parse keeps a record without a live
  entry, and going back to the old expression does not add one (`BadExpressionSticks`). The
  comment on reload promises reconciliation without this exception; the model follows the code.
- The comment on the prune loop says that it runs until no row is affected. The code stops at
  the first batch that is not full, and the model does the same.
- OPC UA status codes other than the three listed ones give rows of good quality.
- A request under a cancelled context is taken to have no effect on the store.
- Fingerprint hashes are taken to be free of collisions: the model compares the hashed text.

## Model

| member | source | states |
|---|---|---|
| Delta.SafeAlways | internal/pipeline/runner.go:179-235 | after every history, with late rows set aside, claimed rows are in the sink, rows of a queried window are written or pending, and a run in flight starts at the stored watermark |
| Delta.NoLoss | internal/pipeline/runner.go:179-229 | after any history of failures, crashes, deletes, resets and inserts above the watermark and any window already queried, every source row between the first watermark stored since the last reset and the current one is in the sink |
| Delta.WindowsTelescope | internal/sources/sqlserver/source.go:168-201 | over histories without a reset or a snapshot below the watermark, the windows of runs that advanced it are consecutive and disjoint and their union is (first, current]: a row is in exactly one when claimed and in none otherwise |
| Delta.ChainPartitions | internal/sources/postgres/source.go:227-262 | a chain of windows (last, upper] partitions the interval from its first bound to its last |
| Delta.WatermarkMonotone | internal/metadata/repository.go:80-99 | the stored watermark never goes down between two points of a history with no reset between them and no snapshot below the watermark, whatever is deleted |
| Delta.WatermarkFallsIff | internal/pipeline/runner.go:204-216 | in any reachable state a step lowers the stored watermark if and only if it is the effective upsert of a run whose snapshot is below the watermark it started from |
| Delta.SnapsBelowWhen | internal/sources/sqlserver/source.go:188-192 | a snapshot is below the watermark exactly when the source has rows but none at or above it |
| Delta.GentleNeverBelow | internal/sources/sqlserver/source.go:188-192 | no snapshot is below the watermark when each delete leaves a row at or above it and any open upper bound, append-only sources included |
| Delta.WatermarkFalls | internal/pipeline/runner.go:204-216 | a reachable history without failures in which the watermark falls and a row is then loaded twice |
| Delta.BoundedAlways | internal/pipeline/runner.go:179-235 | at every moment the copies of a row, written and pending, are paid for by the windows that covered it |
| Delta.DuplicateBound | internal/pipeline/runner.go:204-235 | over histories without a reset or a snapshot below the watermark, in every state a row occurs at most once plus the number of attempts covering it that stopped before their upsert, and between runs that once is for claimed rows only; a failing FinishRun adds nothing |
| Delta.ExactlyOnce | internal/scheduler/scheduler.go:192-213 | over histories without a reset or a snapshot below the watermark, in every state a claimed row that was on time and that no stopped attempt covered is in the sink exactly once |
| Delta.LossExact | internal/sources/sqlserver/source.go:163-201 | over such histories a claimed row of the source that was never deleted is in the sink if and only if it is not late, late being kept step by step: inserted behind the stored watermark, or into a window already queried whose run then advances |
| Delta.LosesLateRow | internal/sources/sqlserver/source.go:163-201 | a reachable history in which every call succeeds and a row committed below the snapshot after the query is lost |
| Delta.LateRowFate | internal/sources/sqlserver/source.go:163-201 | a claimed row inserted in whatever phase and never deleted is delivered if and only if at some later moment no query was open while the watermark was still below it |
| Delta.MissedForever | internal/sources/sqlserver/source.go:163-201 | a row behind the stored watermark and neither in the sink nor on its way there is never delivered, until the watermark falls or is reset, also below the first watermark |
| Delta.SeedSkips | internal/sources/sqlserver/source.go:72-91 | a row at or below the watermark a seeding run stores and not in the sink by then is never delivered, until the watermark falls or is reset |
| Delta.ResetSkips | internal/metadata/repository.go:102-113 | a reachable history in which a row still to be loaded lies above the watermark, a reset follows, and the next run seeds at that row without loading it |
| DeltaRunner.CurrentMaxWatermark | internal/sources/sqlserver/source.go:206-241 | the snapshot is attained by a row and bounds all rows, and is empty exactly for an empty table |
| DeltaRunner.Runner.GetWatermark | internal/metadata/repository.go:67-77 | the value is the stored watermark, and the run goes on with it or is abandoned without a trace in the sink |
| DeltaRunner.Runner.SnapshotMax | internal/sources/sqlserver/source.go:72-95 | the bound is the maximum of the source at that moment; a load without a watermark seeds and one with a watermark opens the window from it; on an error the run is abandoned |
| DeltaRunner.Runner.QueryWindow | internal/sources/sqlserver/source.go:192-201 | the rows are those of the source at that moment with last < watermark <= upper, each once, in some order |
| DeltaRunner.Runner.WriteBatch | internal/sink/mssql.go:119-179 | on success exactly the next n pending rows are added to the sink; an error abandons the run even if the write took effect |
| DeltaRunner.Runner.SendBatch | internal/pipeline/runner.go:138-167 | whatever happens meanwhile, what is in the sink or on its way there stays the same |
| DeltaRunner.Runner.UpsertWatermark | internal/metadata/repository.go:80-99 | on success the stored watermark is the snapshot of this run and its window, and no other, has advanced |
| DeltaRunner.Runner.Stream | internal/sources/sqlserver/source.go:117-160 | on success the sink gains exactly the rows of the query, counted, whatever happens between batches |
| DeltaRunner.Runner.Read | internal/sources/sqlserver/source.go:69-160 | on success the bound was the maximum at the snapshot, the rows are those of the window when queried, all of them and only they are new in the sink, and rows read equals rows written; on failure zero rows are reported; it fails exactly when a call reported an error or the process died |
| DeltaRunner.Runner.Settle | internal/pipeline/runner.go:204-235 | on success the watermark was upserted exactly when it had to be, before the run row is finished, its window is in the history, and nothing else touched the sink; it fails exactly when the upsert or FinishRun reported an error, or the process died |
| DeltaRunner.Runner.Prepare | internal/pipeline/runner.go:90-104 | the run starts from the stored watermark or is abandoned, exactly when GetWatermark or StartRun reported an error or the process died |
| DeltaRunner.Runner.Execute | internal/pipeline/runner.go:50-247 | success means that the run started from the stored watermark, that exactly the rows of its window as queried are new in the sink and counted, and that the watermark history gained its window exactly when the watermark had to move; a run succeeds if and only if none of its calls reported an error and the process lived; a failure takes nothing out of the sink or the history and counts no row that is not there |
| DeltaRunner.Runner.RunForever | internal/scheduler/scheduler.go:192-213 | after any number of runs the rows of every successful one are in the sink and its window in the history, and whatever failed no row is lost and every copy is paid for; if no call failed every run succeeded |
| Replace.SwapEffect | internal/sink/replace.go:80-108 | the transaction moves staging over live and leaves neither staging nor `_old` behind |
| Replace.AtomicReplace | internal/sink/replace.go:21-109 | from any tables, left-over ones included, over all interleavings of replace runs with errors and crashes between any two statements, each live table is what the reference says, no run leaves an `_old` table that was not there before, and abandoned staging rows never reach live |
| Replace.LiveIsLastPublished | internal/sink/replace.go:59-109 | in the same histories a published live table holds, row by row and in order, what the writes of its load sent between its last start and its last publication, each with the timestamp of that run |
| Replace.LiveIsKept | internal/sink/replace.go:21-57 | a live table whose load never published is as it was at the beginning |
| Replace.Footprint | internal/sink/replace.go:21-168 | a step of one load changes only its own three tables and its own run |
| Replace.DisjointNames | internal/sink/replace.go:119-133 | two loads own disjoint tables exactly when neither target is the other's staging or old name |
| Replace.SharedNamesLoseLiveTable | internal/sink/replace.go:21-90 | a load whose target is another's staging or `_old` name loses its live table to a run of that one |
| Replace.SafeIffNamesDiffer | internal/sink/replace.go:119-133 | all histories of a set of replace loads from all tables are safe if and only if no target is named like another of its schema with `_stg` or `_old` behind it |
| ReplaceRunner.Sink.BeginReplace | internal/sink/replace.go:21-57 | success leaves an empty staging table and the live table as it was; every other exit leaves live as it was and no run |
| ReplaceRunner.Sink.CommitReplace | internal/sink/replace.go:59-109 | success publishes what staging held and leaves no `_old` of an existing table; on an error live is unchanged or already replaced, never anything else; an `_old` from before is dropped or kept as it was |
| ReplaceRunner.Sink.Exchange | internal/sink/replace.go:80-109 | the rename or the swap transaction publishes staging completely or not at all |
| ReplaceRunner.ReplaceSession.PrepareExisting | internal/pipeline/replace.go:34-66 | staging is begun exactly when the live table exists |
| ReplaceRunner.ReplaceSession.EnsureFirstBatch | internal/pipeline/replace.go:72-101 | afterwards staging exists, empty when this call began it and unchanged otherwise |
| ReplaceRunner.ReplaceSession.Commit | internal/pipeline/replace.go:103-116 | an active session publishes staging, an inactive one changes nothing; failures leave the old or the new table, and no new `_old` |
| ReplaceRunner.ReplaceSession.Abort | internal/pipeline/replace.go:118-123 | deferred by the run: after a commit, or if staging was never begun, it does nothing; else the run ends and the live table is untouched, also when dropping staging fails |
| ReplaceRunner.Stream | internal/pipeline/runner.go:138-167 | on success staging has, row by row and in order, the rows of the batches, each with the one timestamp; the read may fail before, between and after the batches, and the stream fails exactly when a call reported an error or the process died |
| ReplaceRunner.EndRead | internal/sources/sqlserver/source.go:147-149 | the end of the row stream may still report an error, also when no batch came; then the run fails with the live table untouched, and otherwise staging is as the last batch left it |
| ReplaceRunner.ExecuteReplace | internal/pipeline/runner.go:119-202 | from any tables, success makes live the rows of all batches in order, as many, each with the one timestamp; a zero-row source empties an existing table and leaves a missing one missing; failure leaves the old table or the complete new one; no run leaves an `_old` that was not there before; a run succeeds if and only if none of its calls reported an error and the process lived |
| Pool.InvAlways | internal/pipeline/pool.go:59-166 | in every interleaving locks, slots, connections and threads agree |
| Pool.OneSourcePerId | internal/pipeline/pool.go:59-118 | at most one open or opening source exists per source id |
| Pool.Conservation | internal/pipeline/pool.go:59-141 | every built source is being opened by one thread, or live in exactly the slot it was built for and never closed, or was closed exactly once |
| Pool.LeaseExclusive | internal/pipeline/pool.go:59-118 | a leased source is live, never closed, and leased to one thread |
| Pool.LeaseLasts | internal/pipeline/pool.go:59-166 | from grant to release nothing closes a leased source or changes the lease |
| Pool.NoDeadlock | internal/pipeline/pool.go:59-166 | in every reachable state a thread in a call can step or waits for one lock whose holder can step; none waits for a slot while holding the map lock |
| Pool.InvalidateAllBarrier | internal/pipeline/pool.go:143-166 | every connection open or being opened at the id snapshot is closed once InvalidateAll has returned, whatever interleaves |
| Pool.TimesAlways | internal/pipeline/pool.go:85-117 | the times in a slot are those at which the connection it holds was opened and last given back |
| PoolRunner.PoolRefinesEphemeral | internal/pipeline/session.go:39-52 | if the requests for its source are NUL-free, a leased source is open, built from the parameters Ephemeral would use and from a kind that differs at most in the case of ASCII letters, and was opened and last given back, at those steps of the history, within the age and idle limits of when the caller took the time; it is the same configuration exactly when the kinds agree in case |
| PoolRunner.SourcePool.Obtain | internal/pipeline/pool.go:59-118 | a grant is a lease of the caller for its own id and configuration, with the time taken during the call; it is refused only when building or opening failed and then leaves no thread behind; it is blocked only while the lock it waits for is taken |
| PoolRunner.SourcePool.Fill | internal/pipeline/pool.go:76-118 | the slot holder gets the source in the slot exactly when its text is the same and neither limit has passed, and else a new one or an error of building or opening; it never blocks |
| PoolRunner.SourcePool.Release | internal/pipeline/pool.go:100-117 | the first call unlocks the slot and closes the source exactly when asked to; later calls change nothing |
| PoolRunner.SourcePool.Invalidate | internal/pipeline/pool.go:143-154 | when one id is done no connection of its slot is open or being opened, and what was closed stays closed; not done means that a lock it waits for is taken |
| PoolRunner.SourcePool.InvalidateAll | internal/pipeline/pool.go:156-166 | when it returns every connection that existed at its call is closed |
| ParamsText.CollectKeys | internal/pipeline/session.go:58-66 | the sorted key list is the same in whatever order the map yields the keys |
| ParamsText.ParamsFingerprint | internal/pipeline/session.go:57-74 | the hashed text is a function of kind and parameters alone |
| ParamsText.EncodeInjective | internal/pipeline/session.go:57-74 | for NUL-free strings two texts are equal exactly when the parameters are and the kinds agree but for the case of ASCII letters |
| ParamsText.LowerMeans | internal/pipeline/session.go:65 | two lower-cased kinds are equal exactly when they agree character by character or in the two cases of one ASCII letter |
| ParamsText.NulCollides | internal/pipeline/session.go:57-74 | a NUL in a value lets two different parameter maps have one text |
| Scheduler.EntriesAlways | internal/scheduler/scheduler.go:87-183 | in every interleaving each live cron entry belongs to exactly the one scheduled load it fires |
| Scheduler.ListingMeans | internal/metadata/repository.go:28-38 | with unique ids, what is listed under an id is exactly the enabled row with that id joined to its enabled source, under its own expression |
| Scheduler.ReconcileLive | internal/scheduler/scheduler.go:112-171 | after a reload a load is live if and only if it is desired and was live under the same expression or has a new one that parses |
| Scheduler.ConvergesIff | internal/scheduler/scheduler.go:112-183 | from any schedule, in step or not, a reload ends with exactly the loads it listed if and only if each of them is live under its expression already or needs a new entry and parses |
| Scheduler.ConvergesIffAllParse | internal/scheduler/scheduler.go:112-183 | from a schedule in step with its fingerprint the condition is that all listed expressions parse |
| Scheduler.ReloadConverges | internal/reload/coordinator.go:69-98 | for all interleavings of reload loops, ticks and edits in which each reload that lists sees one version whose expressions parse and whose fields hold no separators, live entries are the enabled loads of the version whose fingerprint is stored; versions no reload lists may be anything |
| Scheduler.LiveAreEnabled | internal/reload/coordinator.go:69-98 | so in these histories a load has a live entry if and only if its row and the row of its source are enabled in the version whose fingerprint is stored |
| Scheduler.SkipLosesNothing | internal/scheduler/scheduler.go:93-99 | in the same histories a reload skipped because the fingerprint texts agree finds the schedule equal to the enabled loads of the version it read, if the fields of that version hold no separators |
| Scheduler.SameTextSameVersion | internal/metadata/repository.go:295-315 | for clean fields the compared texts are equal exactly when all fingerprinted rows are, so equal texts list equal loads |
| Scheduler.BadExpressionSticks | internal/scheduler/scheduler.go:128-144 | a history from the start, whatever the other loads, after which a load moved to an unparsable expression and back is enabled, valid and not live, while every other load that parses is live |
| Scheduler.GuardAlways | internal/scheduler/scheduler.go:185-218 | in every interleaving guard holders, goroutines and the registry agree |
| Scheduler.OverlapGuard | internal/scheduler/scheduler.go:185-218 | at most one Execute per load is in flight, its load is registered, and CurrentlyRunning is set exactly while it is between its two marks, across reloads that remove and re-add the load |
| Scheduler.TickRuns | internal/scheduler/scheduler.go:185-218 | in every reachable state a tick with the guard free runs its load, which is in flight and shows as running between its marks, and afterwards the state is as before; with the guard taken or the load unscheduled it has no effect |
| SchedulerRunner.Scheduler.RemoveStale | internal/scheduler/scheduler.go:112-122 | exactly the records of desired loads are left and exactly the entries of the others are removed |
| SchedulerRunner.Scheduler.Place | internal/scheduler/scheduler.go:124-161 | one turn leaves other loads' liveness alone and makes this load live exactly when it was live under the same expression or has a new one that parses |
| SchedulerRunner.PlacedLive | internal/scheduler/scheduler.go:124-161 | the same of the value a turn computes, with the other loads' records untouched |
| SchedulerRunner.Scheduler.Reconcile | internal/scheduler/scheduler.go:112-183 | the two loops, in any map order, give a reconciled schedule that keeps one entry per load |
| SchedulerRunner.Scheduler.Reload | internal/scheduler/scheduler.go:87-183 | skipped exactly when the text is the stored one; otherwise, with other reloads between the comparison and the critical section, it ends under its own text and, from a schedule in step, equal to the loads it listed if they parse |
| SchedulerRunner.Registry.Register | internal/runstate/registry.go:48-64 | registering again keeps the run state |
| SchedulerRunner.Registry.MarkRunning | internal/runstate/registry.go:66-79 | a registered load, and no other, gets the flag, this run's id and start time, status running and no error; counts, end time and description stay |
| SchedulerRunner.Registry.MarkFinished | internal/runstate/registry.go:81-94 | a registered load, and no other, loses the flag and gets status, end time, rows read, rows written and error; the run's id and start time stay |
| SchedulerRunner.Registry.RegisterAll | internal/scheduler/scheduler.go:163-171 | registering every desired load, in any order, gives each its new description and keeps the last run and the running flag; other loads are untouched |
| RunMarks.Goroutines.Execute | internal/pipeline/runner.go:50-237 | with other goroutines and reloads in between, the calls of the mode are made in order up to the first that fails, and the run succeeds if and only if all of them do; on every return the load is registered and its flag is false; the run is marked as running, and then once as finished with this run's id, times and outcome, exactly if the four calls before the mark succeed |
| RunMarks.Goroutines.Body | internal/pipeline/runner.go:119-236 | after MarkRunning each return marks the run as finished, once, with its outcome, and the calls are those of the mode up to the first that fails |
| RunMarks.Goroutines.Trigger | internal/scheduler/scheduler.go:185-218 | a tick runs exactly when its load is scheduled and not guarded, and afterwards the guard is free and the flag false; otherwise nothing changes and no call is made |
| RunMarks.OtherLoad | internal/scheduler/scheduler.go:192-207 | two goroutines past the guard run different loads |
| RunHistory.InvAlways | internal/scheduler/scheduler.go:72-84 | after every history a loaded process sees only its own rows running and a stopped one sees none |
| RunHistory.RowLife | internal/metadata/repository.go:117-141 | a step adds a row only for the run it starts, as running; a running row becomes aborted exactly in a successful abort of a start or a stop and a success or a failure exactly when its own goroutine stores that; nothing else of it changes and no row goes |
| RunHistory.FirstStart | internal/scheduler/scheduler.go:72-84 | the first process can load from any rows, of which exactly those left running are aborted |
| RunHistory.Restarts | internal/scheduler/scheduler.go:72-84 | from every reachable state the process can die and the next one load, under which exactly the rows left running are aborted; when its abort fails it does not come up |
| RunHistory.RunsToEnd | internal/metadata/repository.go:117-141 | in a loaded process that is not shutting down a run can start and store its success or its failure, and only its own row is new |
| RunHistory.OutlivesStop | internal/scheduler/scheduler.go:225-255 | after Stop's abort the row of a run still going is aborted, and what the run stores then takes no effect |
| RunHistory.StartupClosesHistory | internal/scheduler/scheduler.go:72-84 | once Load has aborted, no earlier process's row is running |
| RunHistory.ShutdownClosesHistory | internal/scheduler/scheduler.go:225-255 | from Stop's abort until the next start every row is terminal and no row changes, though runs outlive the timeout |
| RunHistory.TerminalIsFinal | internal/metadata/repository.go:41-55 | a terminal row never changes again, over any number of processes |
| Prune.RunStore.DeleteTop | internal/metadata/repository.go:166-173 | a batch removes only rows that succeeded, failed or were aborted and started before the cutoff, n of them or all there are |
| Prune.RunStore.PruneLoadRuns | internal/metadata/repository.go:176-214 | the loop stops, and finishes exactly if it was not cancelled and no statement failed; each row it removes had succeeded, failed or been aborted and started before the cutoff, and all others stay; it returns their number, less at most the failed batch; undisturbed it leaves only rows that are running or started at or after the cutoff |
| Batching.CutUnique | internal/sources/sqlserver/source.go:117-160 | a stream and a batch size have one list of batches that is full except for a non-empty last one |
| Batching.WholePrefix | internal/sources/postgres/source.go:128-172 | whole batches of a prefix of the stream are a prefix of that list |
| Batching.Handler.Handle | internal/pipeline/runner.go:138-167 | the target is prepared once, before the first write; a batch is taken from the caller's buffer by value, delivered and counted, or not at all |
| Batching.Read | internal/sources/sqlserver/source.go:117-160 | it fails exactly when a call of the handler fails or, if none does, the stream is broken; success delivers the stream in order in full batches, of the size given or else 1000, but the last, none empty, with rows read equal to rows written; a handler error leaves a proper prefix in whole batches; a stream error loses less than one batch of what was fetched |
| Opcua.RequestSlot | internal/sources/opcua/source.go:111-128 | the result of a node is at the number of valid ids before it |
| Opcua.Walk | internal/sources/opcua/source.go:156-194 | row i takes the result at the number of valid ids before it if there is one and is bad otherwise, with the reason |
| Opcua.Read | internal/sources/opcua/source.go:95-205 | one row per node in node order with its names, all counted, on every path; no batch for no nodes; when the request fails every row is bad with its message and the time of the poll, and so is each row of an id that does not parse |
| Opcua.BatchIsPerNode | internal/sources/opcua/source.go:130-194 | from a server that answers in request order (section 5.10.2 of OPC 10000-4 release 1.04) the batch read and a single read, a node gets the same row from both |
| Opcua.ShortReply | internal/sources/opcua/source.go:156-170 | every valid node has a result if and only if the reply is at least as long as the request |
| Opcua.GoodRows | internal/sources/opcua/source.go:173-193 | a row has the time of the source, else of the server, else of the poll; it is good exactly for a value that was read or for an unlisted status, bad for a missing one or a bad status, and else uncertain; numbers are scaled, and numbers, truth values and texts go to their own columns |
| Modbus.SwapWords | internal/sources/modbus/source.go:361-370 | the out buffer is the input with whole words in opposite order |
| Modbus.SwapInvolution | internal/sources/modbus/source.go:361-370 | swapping twice is the identity exactly for buffers of even length or with a zero last byte |
| Modbus.DecodeRegisters | internal/sources/modbus/source.go:213-236 | building, swapping and decoding the buffer gives the value of the words in value order |
| Modbus.DecodeEncoded | internal/sources/modbus/source.go:225-342 | every value in the range of the type, signed or unsigned, survives encoding and decoding in each of the four orders |
| Modbus.EncodeDecoded | internal/sources/modbus/source.go:225-342 | every reading of the natural quantity is the encoding of the value decoded from it |
| Modbus.Layout16 | internal/sources/modbus/source.go:249-275 | 16-bit values are read as AB or BA |
| Modbus.Layout32 | internal/sources/modbus/source.go:277-297 | 32-bit values are read as exactly ABCD, CDAB, DCBA and BADC, from big-endian words (section 4.2 of the MODBUS Application Protocol Specification V1.1b3) |
| Modbus.Layout64 | internal/sources/modbus/source.go:299-319 | 64-bit values are read in the same four layouts over eight bytes |
| Modbus.DecodesWhen | internal/sources/modbus/source.go:344-359 | a read decodes if and only if the type is known and the quantity was not overridden too small |
| Modbus.TypeRanges | internal/sources/modbus/source.go:244-359 | each type takes one, two or four registers and has exactly the values of its width and sign |
| Modbus.AllOnes | internal/sources/modbus/source.go:244-342 | registers of all ones are -1 to the signed types and the largest value to the others, in every order |
| Modbus.ExtraRegisters | internal/sources/modbus/source.go:230-236 | with more registers than needed the first ones count, and in low_first order the last ones |
| Ident.StagingNamesOld | internal/sink/replace.go:119-133 | the `_stg` name validates if and only if the `_old` name does |
| Ident.ValidateMeans | internal/sqlident/ident.go:15-33 | a name is accepted exactly if it is not empty, takes at most 128 bytes, begins with a letter or an underscore, and goes on with letters, numbers and the seven signs |
| Ident.Utf8Bounds | internal/sqlident/ident.go:25-27 | a name has at least as many bytes as characters, exactly as many if it is ASCII, and at most four times as many |
| Ident.TrimSplits | internal/sqlident/ident.go:53-56 | trimming takes off only delimiters and leaves none at either end |
| Ident.PlainQuotes | internal/sqlident/ident.go:53-76 | a name without delimiters is put in brackets for SQL Server and in double quotes for PostgreSQL |
| Ident.QuoteLexes | internal/sqlident/ident.go:53-76 | for every string the quoted name, and no other text, is one delimited token that unescapes to the trimmed name |
| Ident.RequoteIdentity | internal/sqlident/ident.go:53-76 | quoting twice is quoting once exactly when the trimmed name has no closing delimiter |
| Ident.ValidateQualified | internal/sqlident/ident.go:35-50 | accepts exactly names of one or two segments that validate without delimiters |
| Ident.TwoDots | internal/sqlident/ident.go:39-42 | a name with two dots is never accepted |
| Ident.QuoteQualified | internal/sqlident/ident.go:59-87 | gives the joined quoted parts of a valid name and an error otherwise |
| Ident.QualifiedLexes | internal/sqlident/ident.go:59-87 | the output is read back as the dialect's trimmed parts, and as the validated segments if and only if the name has no delimiter of the other dialect |
| Ident.RequoteQualified | internal/sqlident/ident.go:59-87 | the output validates again to the same segments, and quoting it again changes nothing exactly when nothing was escaped |
| Ident.CleanRequote | internal/sqlident/ident.go:59-87 | for names free of the other dialect's delimiters quoting is idempotent |
| Ident.ForeignQuotesStay | internal/sqlident/ident.go:59-69 | a double-quoted name validates as one segment and is quoted for SQL Server as another |
| MetadataText.SourceLineInjective | internal/metadata/repository.go:296-298 | a source line, read from both ends, determines its row though the parameters may hold bars |
| MetadataText.SourceLineText | internal/metadata/repository.go:296-298 | a source line is the decimal id, the kind, the parameters and true or false, separated by bars |
| MetadataText.LoadLineInjective | internal/metadata/repository.go:300-306 | a load line determines all twelve fields |
| MetadataText.SectionsUnique | internal/metadata/repository.go:295-315 | headers are never confused with rows, so the four sections come apart where they were joined |
| MetadataText.TextDetermines | internal/metadata/repository.go:295-315 | for fields without newlines, and without bars except in the parameters, texts are equal exactly when all rows are |
| MetadataText.FingerprintDetermines | internal/metadata/repository.go:289-315 | whatever order the queries return, the texts of clean rows with unique ids are equal exactly when the four tables hold the same rows |
| Sorting.SortBy | internal/metadata/repository.go:289-293 | the result is sorted by the key and has the same rows with the same multiplicity |
| Sorting.SortUnique | internal/metadata/repository.go:289-293 | rows with distinct keys have one sorted order |
| MetadataText.BarCollides | internal/metadata/repository.go:296-298 | a bar in a kind can stand for a bar in the parameters |
| MetadataText.NewlineCollides | internal/metadata/repository.go:296-298 | with newlines in its parameters one source has the text of any two |
| MetadataText.MetadataFingerprint | internal/metadata/repository.go:289-315 | sorts the rows of each table by id, keeping them all, and writes exactly their text |

## Left out

- Database drivers, GORM and the execution of T-SQL and PostgreSQL: a statement is one atomic step on maps.
- ORDER BY of the window query: rows arrive in any order; the claims do not depend on it.
- NULL watermarks: a source row has a watermark.
- Append loads: they write batches as delta loads do and keep no watermark, so that nothing but their batching is left to claim.
- `EnsureTable`, column shapes and value conversions: a batch is a sequence of rows, and creating a table is one step that may fail. The replace path ignores `autoCreate`, and so does the model.
- The legacy truncate-before-read replace, which is not meant to be atomic.
- Table names with dots in `sp_rename`, and SQL Server's case-insensitive comparison of names.
- Cron parsing and timing: `AddFunc` fails on an arbitrary fixed set of expressions.
- How long Stop waits for runs: only the run rows are claimed.
- Load and Stop as objects: their effect on run rows is modelled on values, as a machine whose abort is one UPDATE.
- PoolRunner.SourcePool.Obtain: gives up as Blocked where the code waits for a lock, because nothing bounds the wait; that a lock's holder can always go on is `Pool.NoDeadlock`.
- `PingAll`, `Len` and `LiveCount` of the pool: they change nothing, hold one lock at a time (the map lock to copy the slots, then each slot's own) and wait for no other while they hold it, so that they can only delay others.
- The sorting of the registry's snapshot: it copies state for the health page.
- SHA-256, UUIDs and RFC 3339 formatting.
- Soft-deleted sources: a fingerprinted version holds the sources that are not deleted.
- What happens to the data in `RunMarks`: each call of a run only succeeds or fails there; the data is the matter of `DeltaRunner` and `ReplaceRunner`.
- Lower-casing outside ASCII in source kinds, and case folding of Modbus setting names, which are taken as parsed.
- Names that are not valid UTF-8, which `Validate` rejects: model strings are sequences of characters.
- Floating-point scaling, NaN checks and float decoding in Modbus: the model stops at the exact integer or bit pattern. OPC UA scaling is over reals.
- Wire-level behaviour of the Modbus and OPC UA clients, and the Modbus tag loop, which emits but does not count rows that fail in set-unit or set-encoding.
- Seed upserts, migrations, configuration, DSN building, YAML, the CLI, the health server, metrics and logging, including the database log handler.
- The designs of later phases in the documentation, which are not implemented.
- The pruning of log entries: the same loop with another filter.
