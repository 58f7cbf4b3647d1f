# Varve in Dafny

Varve is a single-node time-series store. Writes are admitted to a bounded ring, validated, grouped, appended
to a segmented journal, installed in memory and later moved into immutable segment files by checkpoints. This
project models the parts of that path where correctness is hard to see, and proves what they promise.

- **Journal** (`Journal*.dfy`, `Bytes.dfy`): the byte format of segments, the recovery parser, startup over a
  directory, append, rotation, sealing and retirement. `JournalOwner.Journal` is the object with its fields;
  a `Directory` writes arbitrary prefixes once its I/O credit runs out, so every torn write is covered.
- **Ring** (`Flow*.dfy`): producers, stages and the reclaim gate as a transition system over single atomic
  steps; a run is any interleaving.
- **Ingestion** (`Ingest*.dfy`): the four workers, group formation, flush barriers and the statistics.
  `IngestRing` ties its frontiers to the ring's stages.
- **Engine** (`Engine*.dfy`, `Sums.dfy`, `Decimal.dfy`): staging a group in an overlay, installing it, replaying
  its record, the running byte counters, and the installation of a frozen-prefix checkpoint.
- **History and checkpoints** (`History.dfy`, `Checkpoint*.dfy`, `EngineRefines.dfy`, `InstallRefines.dfy`): group
  appends, frozen-prefix and locked checkpoints, retention, compaction, WAL retirement, crashes and recovery as
  one machine over what a durable history of group records amounts to. The two refinement modules show that the
  engine's replay and its frozen install do, table by table, what that machine does.
- **Floors** (`Floors.dfy`): the idempotency floors a pressure checkpoint may persist in the middle of a group.
- **Derived state** (`Rollup.dfy`, `RollupIndex.dfy`, `Order.dfy`, `Pages.dfy`): incremental rollups, backfill, the
  resident index, and the page codec with its size bounds.
- **Scans** (`Scan.dfy`): partitioning rows into segments and scanning with time and shard pruning.

Hashing, JSON and Parquet are parameters: a hash function, sizes, a page printer and parser. Arithmetic is over
unbounded integers with the 32- and 64-bit limits written out where the code checks them; rollup values are
exact reals. Strings are byte sequences. `dafny verify dfyconfig.toml` checks the whole project.

## Model

| member | source | states |
|---|---|---|
| `JournalCut.WholeGroupsIsMaximal` | src/journal.rs:1023-1161 | The groups said to survive a cut are a prefix that fits the cut, and the next group does not fit |
| `JournalCut.SplitRecords` | src/journal.rs:1130-1142 | The cursor loop over a frame's length words yields exactly the recursive parse of the record area, errors included |
| `JournalCut.ReadAt` | src/journal.rs:1049-1150 | The checks made at one file position decide tail, seal, whole group or error as the specification of a position does |
| `JournalCut.InspectReader` | src/journal.rs:1023-1161 | The scan loop returns the specified end, error and visited groups for every byte string, strict or lenient |
| `JournalCut.CutSegment` | src/journal.rs:961-1161 | A segment printed by header, frames and seal and cut at any byte is never an error to recovery: exactly the groups whose frames fit whole are visited, the valid length is the boundary after them or the repaired header, and only the uncut sealed file is sealed |
| `JournalCut.StrictCut` | src/journal.rs:1023-1161 | An interior file passes the strict scan exactly when it was cut at a group boundary or not at all |
| `JournalCut.InspectSound` | src/journal.rs:1023-1161 | Whatever recovery accepts is, byte for byte, the header and frames printed for the groups it visited, or a prefix of the header |
| `JournalCut.StrictAcceptsExactlyPrinted` | src/journal.rs:961-1161 | The strict parser accepts a byte string if and only if it is a printed segment of groups within the limits |
| `JournalLog.ReservedExact` | src/journal.rs:528-545 | File bytes plus one seal for an active file are exactly what admission reserved |
| `JournalLog.OpenTorn` | src/journal.rs:287-480 | A directory whose last file was cut at any byte always opens, as the journal of exactly the groups that fit whole |
| `JournalRecords.DeliveredContiguously` | src/journal.rs:611-632 | The records above a checkpoint that a linked log delivers are checkpoint+1, checkpoint+2, and so on up to the frontier, each once |
| `JournalCrash.OpenIntact` | src/journal.rs:287-480 | Reopening an intact directory gives the journal of the same log |
| `JournalCrash.SurvivorsOpenable` | src/journal.rs:367-430 | Any subset of the files a positive checkpoint covers, together with the live tail, satisfies every startup condition under that checkpoint |
| `JournalCrash.SurvivorsDeliverTheSame` | src/journal.rs:611-632 | Which covered files survived makes no difference to the records above the checkpoint |
| `JournalCrash.ReclaimCrashReopens` | src/journal.rs:367-745 | If retirement under a positive checkpoint crashes with any subset of the covered files left, reopening succeeds, delivers every record above the checkpoint contiguously and continues at the old frontier |
| `JournalAppend.SealKeeps` | src/journal.rs:751-773 | Sealing changes neither records nor frontier nor reserved bytes and keeps the log valid |
| `JournalAppend.AppendKeeps` | src/journal.rs:560-605 | An admitted append adds exactly its records, moves the frontier by their number, grows the reservation as planned and keeps the log valid |
| `JournalAppend.CrashedAppendReopens` | src/journal.rs:560-605 | After a crash at any byte of any write of an append, seal and rotation included, the directory reopens with every earlier record and either all or none of the new group |
| `JournalDirectory.Directory.Write` | src/journal.rs:1163-1181 | A write either appends the whole chunk or fails and leaves an arbitrary prefix of it |
| `JournalMemory.RetiredOk` | src/journal.rs:685-745 | Dropping a covered prefix leaves a valid log under the new checkpoint with the same frontier and the same records above it |
| `JournalSound.OpenSound` | src/journal.rs:287-480 | A directory of arbitrary bytes that opens at all opens as the journal of an in-order, linked, fitting log |
| `JournalOwner.FrameAdmission` | src/journal.rs:497-515 | A group is admitted to a frame exactly within the record count, record size and frame size limits, and the size returned is the encoded size |
| `JournalOwner.Startup` | src/journal.rs:287-480 | The startup loop computes the specified result of opening a directory |
| `JournalOwner.Journal.OpenWithCheckpoint` | src/journal.rs:287-480 | Opening succeeds exactly when the specification does, yields an object that agrees with disk, and changes nothing when it fails |
| `JournalOwner.Journal.WithinLimits` | src/journal.rs:431-605 | Every valid journal keeps disk bytes equal to the sum of segment lengths, disk bytes plus an active seal within the total, active length plus a seal within a segment, and the segment count within its limit |
| `JournalOwner.Journal.AppendPlan` | src/journal.rs:495-557 | A plan exists exactly when the group is admissible (with or without the capacity checks) and gives its size, next sequence, rotation and growth |
| `JournalOwner.Journal.RequiredAppendBytes` | src/journal.rs:491-493 | The required bytes are the growth an append would cause |
| `JournalOwner.GrowthExact` | src/journal.rs:546-557 | The bytes an append plans are the bytes the directory gains |
| `JournalOwner.Journal.SealActive` | src/journal.rs:751-773 | Sealing leaves the sealed log, or a torn seal and nothing else |
| `JournalOwner.Journal.Rotate` | src/journal.rs:775-808 | Rotation leaves the sealed log with an empty file at the frontier, or a crash image of the append |
| `JournalOwner.Journal.AppendGroup` | src/journal.rs:560-605 | A refused group changes nothing, a durable one is added whole with exactly the planned growth, an I/O failure fences and leaves a crash image; with enough I/O it succeeds exactly when admitted |
| `JournalOwner.Journal.Scan` | src/journal.rs:611-632 | An unfenced scan revalidates every file and delivers exactly the log's records in order |
| `JournalOwner.Journal.ReclaimThrough` | src/journal.rs:685-745 | Retirement keeps the frontier and all records above the checkpoint, refuses regressed or future checkpoints without change, and a failure fences and leaves a partly retired directory |
| `JournalOwner.FailedReclaimReopens` | src/journal.rs:685-745 | Wherever retirement fails, including while sealing and at checkpoint zero, the directory reopens under the new checkpoint with the same records above it and the same frontier |
| `FlowTheorems.Bounded` | src/flow.rs:223-307 | A ring is built exactly for a valid capacity, byte limit and acyclic dependencies, and marks exactly the stages nobody depends on |
| `FlowSteps.StepKeeps` | src/flow.rs:118-661 | Every atomic step of a producer, stage, reclaimer or control handle keeps the ring's invariant |
| `FlowTheorems.NeverPanics` | src/flow.rs:127-159 | In no run does a slot lookup meant to succeed fail, or a credit subtraction underflow |
| `FlowTheorems.SinksGateAll` | src/flow.rs:127-263 | In every reachable state a sequence is finished by all sinks if and only if it is finished by all stages |
| `FlowTheorems.ClearedAfterAll` | src/flow.rs:127-159 | A slot is emptied only after every stage finished its sequence |
| `FlowTheorems.ReusedAfterAll` | src/flow.rs:309-362 | A slot is written only after every stage finished its previous tenant |
| `FlowTheorems.DeliversTheStream` | src/flow.rs:482-613 | Each stage is handed sequences 1, 2, 3, and so on, each with exactly the value or cancellation published for it |
| `FlowTheorems.PublishedForever` | src/flow.rs:118-126 | A published sequence keeps its value for the rest of the run |
| `FlowTheorems.CreditConserved` | src/flow.rs:309-457 | Charged credit always equals the charges of unreclaimed claims plus reservations in flight, never exceeds the limit, and no more than the capacity is claimed and unreclaimed |
| `FlowTheorems.NothingLeftBehind` | src/flow.rs:127-159 | With the gate free and no sink waiting, the reclaimed frontier equals the slowest stage |
| `FlowTheorems.DrainedIsEmpty` | src/flow.rs:127-661 | A closed, drained ring with no producer inside a claim has zero charge, reclaimed equal to claimed, and every slot empty |
| `IngestRing.InOrder` | src/ingest_flow.rs:80-112 | Under the pipeline's four dependencies each stage holds only sequences its predecessor finished, has been handed exactly the published stream up to there, and at most the capacity is incomplete |
| `IngestRing.FrontiersInOrder` | src/ingest_flow.rs:80-112 | The frontiers the pipeline model works with are those of a ring run: in stage order and within the capacity |
| `Ingest.GroupLen` | src/ingest_flow.rs:249-300 | The scan loop returns the specified group length |
| `Ingest.GroupFormed` | src/ingest_flow.rs:249-300 | A group that starts at a write holds writes only, keeps the request, row and byte limits, and leaves behind no validated write that would have fitted |
| `IngestTheorems.StepKeeps` | src/ingest_flow_workers.rs:57-283 | Every worker turn and admission keeps the pipeline's invariant |
| `IngestTheorems.NeverMisread` | src/ingest_flow_workers.rs:57-283 | In no fault-free run does a worker meet a payload state, an entry or a group prefix it does not expect |
| `IngestTheorems.GroupsAreLegal` | src/ingest_flow_workers.rs:87-159 | Every group keeps the limits, groups do not overlap, and every prepared write is in one |
| `IngestTheorems.FlushSeesEarlierWrites` | src/ingest_flow.rs:170-340 | A flush is answered after every earlier write, reports completed, succeeded and failed counts of exactly the writes before it, and its sequence is at least every receipt among them |
| `IngestTheorems.AnsweredOnce` | src/ingest_flow.rs:302-340 | A write is answered with what its commit decided, and the answer never changes |
| `IngestTheorems.NeverStuck` | src/ingest_flow_workers.rs:57-283 | While anything admitted is incomplete some worker has an enabled turn |
| `IngestTheorems.DrainedOwesNothing` | src/ingest.rs:81-104 | A drained pipeline has no pending request or byte, submitted equals completed equals succeeded plus failed, and every caller has an answer |
| `EngineReplay.PushInstalls` | src/append_overlay.rs:318-362 | Installing an overlay with one more request is applying that request to the installed overlay |
| `EngineReplay.PlanIgnoresProof` | src/append_overlay.rs:364-380 | A proof reservation of the right length plans the same changes as the proof stamped later |
| `EngineReplay.AdmittedOnReplay` | src/engine.rs:3737-3855 | Whatever live admission accepts, replay accepts |
| `EngineReplay.RecoveryHolds` | src/engine.rs:3064-3101 | An admitted request leaves every recovery budget satisfied |
| `EngineReplay.InstallIsReplay` | src/append_overlay.rs:276-380 | For any mix of new, duplicate, conflicting and refused requests, the record of the accepted ones replays and reaches exactly the state that installing the overlay reaches: catalog, receipts with proofs, hot rows with ordinals and all accounting; staging leaves the base alone |
| `EngineAccounting.AppendKeepsAccounts` | src/engine.rs:2785-2935 | An append keeps metadata bytes, per-map JSON sizes and counts, page bounds, resident and hot bytes equal to recomputation, and the entry maximum an upper bound |
| `EngineAccounting.GroupKeepsAccounts` | src/engine.rs:4127-4163 | So does replaying, and hence installing, a whole group |
| `EngineInstall.MeasureRemoved` | src/engine.rs:4993-5005 | Retired receipts are checked against the live map, and their measured bytes are exactly what the map loses |
| `EngineInstall.PlanSegments` | src/engine.rs:4925-4975 | The descriptor bytes counted against the starting catalog are the growth of the extended one, in the manifest and the control root |
| `EngineInstall.PlanRetirements` | src/engine.rs:4983-5036 | The removal and floor deltas counted against the starting catalog are the change of the retired one, with exact accounts for every touched table |
| `EngineInstall.PlanFrozenInstall` | src/engine.rs:4937-5052 | A plan exists exactly when the capture is current, its tables exist and its receipts are unchanged; no checked subtraction can fail; every counter it installs equals recomputation over the installed catalog and resident tail |
| `EngineInstall.AppendKeepsControl` | src/engine.rs:2937-2995 | Appends leave the encoded control root size exact |
| `History.ApplyRecordIs` | src/engine.rs:4070-4195 | A replayed record adds exactly its rows, receipts and rollup updates to a table and touches nothing else |
| `History.PruneIs` | src/engine.rs:3237-3254 | Pruning leaves exactly the receipts ever issued that the raised floor keeps |
| `History.FrozenOk` | src/engine.rs:4727-4790 | The root prepared from a captured table is the table the captured prefix of the history calls for, fully checkpointed |
| `History.ThawOk` | src/engine.rs:5209-5407 | Retiring a published prefix from a table that has grown since leaves the table the whole history calls for |
| `History.UpkeepKeeps` | src/policy.rs:265-335 | Retention and compaction of a fully checkpointed table leave it in the state the history calls for under the new raw and rollup cutoffs |
| `CheckpointSteps.StepKeeps` | src/engine.rs:4727-5407 | Every action of the machine, from staging to retention, ambiguous publication and crash, keeps its invariant |
| `CheckpointSteps.NeverCommitted` | src/engine.rs:3595-3630 | A request that passes the retry check without a receipt in sight was never committed |
| `CheckpointTheorems.CrashRecovers` | src/engine.rs:4070-5407 | Cut a run anywhere: recovery accepts every durable record above the root, and rows, rollups and receipts are those of folding all durable records, less what the raw cutoff, the rollup cutoff and the persisted floor retire |
| `CheckpointTheorems.LiveAgrees` | src/engine.rs:4877-5407 | Between groups the live tables hold the same rows, rollups, receipts, floor and cutoffs that recovery would rebuild |
| `CheckpointTheorems.AppliedOnce` | src/engine.rs:3595-3768 | No request ID is applied twice to a table in any run of writes, retries, prunings and reopens |
| `CheckpointTheorems.RetryIsAnswered` | src/engine.rs:3595-3630 | A committed ID is never accepted again: it is refused, or answered with its original receipt and only for the same content |
| `CheckpointTheorems.AppliedIsRemembered` | src/engine.rs:4741-5354 | Every applied request is still a receipt after recovery, or was issued before its table's durable floor |
| `CheckpointTheorems.DurableFloorRises` | src/engine.rs:3237-3254 | A table's durable idempotency floor and retention cutoffs never fall over a run |
| `CheckpointReads.ScanIsOfHistory` | src/engine.rs:1680-1822 | In every reachable state between groups a scan answers with the sorted matching rows of the whole committed history, down to the raw cutoff |
| `CheckpointReads.ScansAgree` | src/engine.rs:1680-1822 | Two reachable states of one history and raw cutoff answer every scan alike, whatever checkpoints, compactions and crashes lie between |
| `CheckpointReads.RollupsAnyOrder` | src/engine.rs:4197-4291 | In every reachable state the rollups are those of the committed rows taken in any order |
| `CheckpointReads.BackfillOfHistory` | src/control.rs:608-753 | A width backfilled from the segments of a checkpointed table and then maintained equals aggregating the retained committed rows and every later row; other widths do not change |
| `EngineRefines.ReplayRefines` | src/engine.rs:4070-4195 | Replaying a record in the engine does to every table what the history model does, and admits only what that model calls replayable |
| `InstallRefines.CaptureFrozen` | src/engine.rs:4727-4790 | The capture loops record every nonempty table's batches once and a retirement exactly for the tables that lose receipts or change their floor |
| `InstallRefines.InstallRefinesPublish` | src/engine.rs:5331-5390 | Installing a still current capture in the engine gives every table exactly what publishing the captured root gives it in the history model |
| `Floors.ResolveGroupDurable` | src/engine.rs:3481-3524 | The prepass decides exactly the requests durable state can answer, each against the floor ordered validation has reached |
| `Floors.GroupCheckpointFloors` | src/engine.rs:3369-3448 | The loop yields, for exactly the group's timed tables, the live floor raised to confirmed duplicates' clocks but not above any protected issue time |
| `Floors.NeverLowered` | src/engine.rs:3437-3446 | The chosen floor is never below the live floor |
| `Floors.ProtectedAbove` | src/engine.rs:3393-3446 | The chosen floor is never above the issue time of a pending request that passes ordered clock validation or of a refused retry whose receipt is still valid |
| `Floors.PendingUnaffected` | src/engine.rs:3369-3461 | After the checkpoint each pending request passes ordered validation exactly when it did before |
| `Floors.AnswerKept` | src/engine.rs:3409-3432 | A refused retry that was valid on its own keeps its receipt and its answer |
| `Rollup.DescribedOnce` | src/engine.rs:4264-4291 | At most one rollup has the count, sum, minimum, maximum, first and last of a set of rows |
| `Rollup.SummaryDescribes` | src/engine.rs:4264-4291 | Adding rows one by one computes that rollup |
| `Rollup.RowsAt` | src/engine.rs:4197-4291 | A bucket exists exactly when a kept row belongs to it, and is the summary of its rows |
| `Rollup.RollupsIgnoreOrder` | src/engine.rs:4197-4291 | The rollups of a table depend only on which rows it holds, not on batching or order |
| `Rollup.RestrictIs` | src/policy.rs:309-322 | Dropping the buckets below a later rollup cutoff is never having kept them |
| `Rollup.AggregateUpdates` | src/engine.rs:4197-4262 | The update loop touches exactly the buckets some row belongs to, gives their values after the rows, and fails exactly on an out-of-range bucket or an exceeded byte budget |
| `Rollup.AggregateWidth` | src/control.rs:465-504 | The backfill loop computes the rollups of the retained rows of one width, or fails exactly when a bucket is out of range or the output stops fitting |
| `Rollup.BackfillMatches` | src/control.rs:465-708 | A backfilled and then maintained width equals aggregation in commit order, bucket by bucket |
| `Order.MergeIsOverride` | src/derived.rs:616-636 | The two-way merge lists the overridden map in key order |
| `Order.Merged` | src/derived.rs:616-636 | The merging iterator yields that merge |
| `Pages.PackFlattens` | src/derived.rs:464-516 | Packing loses, reorders and splits no entry |
| `Pages.PagesWithinBound` | src/engine.rs:2541-2577 | Greedy packing takes at most min(entries, 2*body/capacity + 1) pages |
| `Pages.WithinReservation` | src/engine.rs:2541-2577 | Pages and encoded bytes never exceed the bound computed from the map's JSON size and entry count |
| `Pages.RootWithinReservation` | src/engine.rs:2567-2573 | A page set's references take at most 192 bytes a page plus 38 |
| `Pages.EncodeSet` | src/derived.rs:438-519 | Encoding succeeds exactly when limits, entries, total size and digests allow, and emits the greedy pages |
| `Pages.EncodedSetValid` | src/derived.rs:299-325 | An emitted set passes validation and every page is within the page size |
| `Pages.HydrateSet` | src/derived.rs:529-584 | The page loop computes the specified hydration, and what it returns is ordered, accepted and within budget |
| `Pages.RoundTrip` | src/derived.rs:438-584 | Hydrating emitted pages returns the encoded map, and is refused exactly when its resident and working budgets do not cover the pages |
| `Pages.ProjectionIsExact` | src/derived.rs:616-670 | Encoding the merge of base and updates is encoding the overridden map |
| `RollupIndex.Index.Insert` | src/derived.rs:76-105 | An insert indexes the row under its canonical key and charges it once, or refuses a noncanonical key or an exceeded budget without change |
| `RollupIndex.Rebuild` | src/derived.rs:56-62 | A rebuild indexes exactly the given rows, and fails exactly when a key is noncanonical or their total charge exceeds the budget |
| `RollupIndex.Index.Select` | src/derived.rs:138-212 | Selection returns in key order exactly the keys a plain filter on tenant, series, width and half-open bucket range keeps, and fails exactly on a bad range, a missing row or an exceeded working budget |
| `Scan.SortRows` | src/engine.rs:1799-1820 | Sorting is an ascending permutation in tenant, series, time, sequence, ordinal order |
| `Scan.OneListing` | src/engine.rs:1797-1820 | Rows with distinct marks have one ascending listing |
| `Scan.WritePartitioned` | src/engine.rs:5713-5837 | Partitioning, sorting and cutting into segments loses, copies and misplaces no row, and every segment has its row limit, place and exact time range |
| `Scan.PrunedIsEmpty` | src/engine.rs:1724-1739 | A segment that time or shard pruning skips holds no matching row |
| `Scan.ScanTable` | src/engine.rs:1680-1822 | A pruned scan returns the ascending list of exactly the matching rows, and fails exactly on a reversed range or an answer over the output budget |
| `Scan.CheckpointKeepsScans` | src/engine.rs:5713-5837 | Moving a prefix of the resident rows into written segments changes no answer |

## Left out

- CheckpointTheorems.CrashRecovers: does not cover control records in the history. Tables are there, empty, from the start; jobs hold no table content; policy windows only choose the cutoffs, which are arbitrary here. Missing are an idempotency window added to a table later and a rollup width added or dropped between groups, because a table's configuration is fixed in this machine; `CheckpointReads.BackfillOfHistory` covers an added width on its own.
- CheckpointTheorems.AppliedOnce: covers tables that never had an idempotency window or had one from creation; pruning drops receipts without an issue time on purpose when a window is added later.
- FlowTheorems.NeverPanics: the ring's runs are sequentially consistent interleavings; weaker memory orderings, wake-ups and deadlines are not modelled.
- IngestTheorems.NeverMisread: fences, worker panics and the answers dropped senders give are not modelled; the commit stage's results are those the engine promises, one for each request of the group.
- EngineInstall.PlanFrozenInstall: the final budget refusals (metadata, control root, derived bytes) are not part of the plan's condition, because they only refuse more.
- InstallRefines.InstallRefinesPublish: takes from the root epoch check that no publication intervened, that is, that the table's segments and persisted floor are those captured; epochs are in the checkpoint machine, not in the engine state.
- Rollup.SummaryDescribes: values are exact reals; rounding, non-finite results and count overflow are not modelled.
- Scan.ScanTable: raw-memory credit for the answer, segment decoding errors and the decoded cache are not modelled.
- RollupIndex.Index.Insert: saturating and checked machine additions are unbounded.
- Sealed snapshots of the journal, their validation for shipping, and directory locking.
- SQL planning and execution, native scanning, remote tiers, shipping and restore, HTTP and WebSocket front ends, command line.
- Job scheduling and the job runtime file.
- File-system calls beyond whole, partial and failed writes, creation and unlinking.
