# A verified model of bytehaul's download core

bytehaul splits a file into pieces, leases byte ranges of them to concurrent HTTP workers, buffers
what they forward, writes it to disk and saves checkpoints it can resume from. This project models
that core in Dafny and proves what it is meant to guarantee.

| files | what they model |
|---|---|
| `Ranges`, `Leases`, `PieceMaps` | range sets, the runtime state of one piece, the piece map |
| `SchedulerModel`, `SchedulerLaws`, `SchedulerTheorems`, `LeaseChanges`, `Counting` | the scheduler as a value, its elementary transitions, its invariant with the ghost set of acknowledged bytes, and theorems over every run |
| `Planner`, `PlannerLaws`, `SlotPlanner`, `RequestLaws`, `Requests`, `Scheduler` | the dynamic planner's arithmetic, the slot loop, what a request is in each mode, and the class `SchedulerState` with every assignment route as a method |
| `DriverLaws`, `PlanLog`, `PlanDriver` | the closed loop that plans and completes a whole download, and its statistics |
| `Cache`, `Writer`, `Forwarding`, `Flow` | the write-back cache, the writer, chunking, and the memory budget as a protocol |
| `Session`, `SessionLaws`, `SessionRuns`, `SessionTheorems`, `Pipeline`, `Progress`, `Settlement` | a session as interleaved steps of workers, writer and checkpoint monitor, the order of its writer queue, and what it can always still do |
| `Resume`, `Downloads`, `StaleCheckpoint` | local resume validation; downloads that live through any chain of crashes, resumes and restarts; the chain in which a checkpoint outlives its file |
| `RateLimiter`, `Eta` | the token bucket and the speed estimate |
| `Arith`, `MapSums` | sums and integer arithmetic used throughout |

How the model stands to the code:

- A scheduler run is a sequence of elementary transitions (issue, renew, retain, complete, reclaim,
  stop, cursor move, hint). Every method of the class `SchedulerState` is proved to be such a
  sequence, so the theorems over runs hold for every mix of calls.
- The session's concurrency is a state machine. Each step is what one task does between two points
  where it can be suspended, and the steps interleave freely; a command of the writer is one step,
  since only the writer touches the file, and it can fail with any part of its buffers written.
  Network content is a parameter: the byte at every offset of the object. Clocks, outcomes of waits
  and I/O failures are parameters too.
- Owned Rust structs without sharing (`RangeSet`, `PieceRuntimeState`, `PieceMap`) are values held by
  the class; their editing loops are methods proved equal to the functions the theorems speak of.
- Floating point is modelled by exact reals.

## Model

| member | source | states |
|---|---|---|
| `RangeLaws.CanonicalUnique` | src/scheduler.rs:132-152 | two range sets in sorted, gap-separated form that hold the same bytes are the same vector |
| `RangeLaws.InsertCorrect` | src/scheduler.rs:154-171 | insertion keeps the normal form and adds exactly the inserted bytes, merging overlaps and neighbours |
| `RangeLaws.RemoveCorrect` | src/scheduler.rs:173-204 | removal succeeds if and only if every requested byte is present, and then takes out exactly those |
| `RangeLaws.ReinsertRestores` | src/scheduler.rs:154-204 | putting a removed range back restores the identical vector |
| `RangeLaws.InsertInPlace` | src/scheduler.rs:154-171 | the vector-editing loop computes the insertion the lemmas speak of |
| `RangeLaws.RemoveInPlace` | src/scheduler.rs:173-204 | the vector-editing loop computes the removal, including its refusal |
| `PieceMaps.PiecesTile` | src/storage/piece_map.rs:82-86 | pieces are adjacent and ascending; each but the last has the full piece size |
| `PieceMaps.PieceOfUnique` | src/storage/piece_map.rs:82-86 | every byte of the file lies in exactly one piece |
| `PieceMaps.FromBitset` | src/storage/piece_map.rs:32-65 | restoring from bits of any length pads or cuts them to the piece count and recomputes all counters and the two search positions exactly |
| `PieceMaps.MarkCompleteValid` | src/storage/piece_map.rs:95-108 | marking a piece keeps counters, byte count, first-missing and highest-complete exact |
| `PieceMaps.AllDoneExact` | src/storage/piece_map.rs:121-123 | the count comparison holds if and only if every piece is complete |
| `LeaseLaws.IssueInOk` | src/scheduler.rs:238-264 | a lease is issued if and only if all its bytes are missing; the piece stays well-formed |
| `LeaseLaws.IssueInEffect` | src/scheduler.rs:238-264 | issuing moves exactly that range from missing to leased |
| `LeaseLaws.RenewInOk` | src/scheduler.rs:266-293 | renewal changes the identity and no byte |
| `LeaseLaws.RetainInOk` | src/scheduler.rs:1199-1212 | retaining acknowledges exactly the confirmed prefix of one lease |
| `LeaseLaws.CompleteInHeld` | src/scheduler.rs:295-301 | completing acknowledges exactly the lease's range |
| `LeaseLaws.ReclaimInOk` | src/scheduler.rs:303-310 | reclaiming moves exactly the lease's range back to missing |
| `LeaseLaws.IssueReclaimRestores` | src/scheduler.rs:238-310 | reclaiming a lease just issued restores missing ranges and leases |
| `SchedulerLaws.InitAudit` | src/scheduler.rs:328-343 | the scheduler built from a piece map misses exactly the bytes of incomplete pieces and its indexes agree |
| `SchedulerLaws.StepKeepsAudit` | src/scheduler.rs:642-664 | every elementary transition keeps the whole invariant and the account of acknowledged bytes |
| `SchedulerTheorems.BytesPartitioned` | src/scheduler.rs:213-310 | a byte is missing, or out on exactly one lease, or acknowledged, and never two of these |
| `SchedulerTheorems.DurableBitExact` | src/scheduler.rs:1229-1243 | a piece's bit is set if and only if all its bytes are acknowledged |
| `SchedulerTheorems.EveryRunConservesBytes` | src/scheduler.rs:642-664 | both of the above in every state of every run from every restored piece map |
| `SchedulerTheorems.EveryRunIndexesAgree` | src/scheduler.rs:313-343 | in every run the lease counter, the range counter and every availability bit equal their recomputation |
| `SchedulerTheorems.CountersCover` | src/scheduler.rs:1229-1262 | no counter subtraction underflows |
| `SchedulerTheorems.RangeCountZero` | src/scheduler.rs:615-640 | the range counter is zero if and only if no availability bit is set |
| `SchedulerTheorems.StaleIdentityStaysDead` | src/scheduler.rs:266-309 | a key that was renewed, completed or reclaimed is refused and changes nothing for the rest of every run |
| `SchedulerTheorems.StoppedMissingNeverShrinks` | src/scheduler.rs:1266-1269 | after a stop no missing byte is ever handed out again |
| `LeaseChanges.StartsAtFirstGap` | src/scheduler.rs:328-343 | a fresh scheduler's search finds the first incomplete piece |
| `LeaseChanges.AttemptsCountLeases` | src/scheduler.rs:238-293 | on every run a piece's attempt counter is the number of leases opened on it, so attempt 1 is the first lease |
| `LeaseChanges.FlagMeansAcked` | src/scheduler.rs:295-301 | on every run an incomplete piece is flagged as partly completed if and only if some of its bytes are acknowledged |
| `Counting.RestoredBytesExact` | src/storage/piece_map.rs:131-133 | the piece map's byte counter is the number of bytes in complete pieces |
| `Planner.LegalBoundsExact` | src/scheduler.rs:758-778 | the returned interval is exactly the set of inner piece boundaries that leave both sides the minimum; none if and only if there is no such boundary |
| `Planner.MaxSlotsExact` | src/scheduler.rs:780-796 | the slot cap is one without a legal split, and otherwise the largest number of slots that leaves each a piece and on average the minimum |
| `Planner.CrossMultiplyExact` | src/scheduler.rs:798-815 | the cross-multiplied comparison orders shares exactly as division does, ties included |
| `Planner.ProductsFit` | src/scheduler.rs:798-815 | the products of 64-bit values fit in 128 bits |
| `Planner.ByteEndExact` | src/scheduler.rs:932-1012 | a piece end is within the byte bound if and only if the request up to it is no longer than max(configured maximum, piece size) |
| `PlannerLaws.MinSplitExact` | src/config.rs:175-182 | the split minimum is the least positive number of whole pieces that reaches the configured one, or the largest 64-bit number if none fits |
| `PlannerLaws.ShareEndExact` | src/scheduler.rs:903-930 | the end of a share is the candidate's end for one slot or without a legal split, and otherwise the legal split nearest to an even share, the lower of two as near |
| `PlannerLaws.EndExact` | src/scheduler.rs:932-1012 | the final end is the last boundary within target, byte and lease caps that is legal or ends the candidate, and without one the last within them |
| `PlannerLaws.ReasonExact` | src/scheduler.rs:932-1012 | each part of the reason: the byte cap or the lease cap lies before the target, the end was moved back to a legal split, or the caps allow none though there is one |
| `Planner.RequestEndBounds` | src/scheduler.rs:932-1012 | the final end is past the first piece, at most the share's end, at most 64 pieces and within the byte bound |
| `Planner.ShortRequestIsLegal` | src/scheduler.rs:903-1012 | a request shorter than its candidate is a legal split if and only if some legal boundary is within both caps |
| `Planner.ReasonNoneExact` | src/scheduler.rs:932-1012 | the reason is "none" if and only if the final end is the target end |
| `SlotPlanner.GreedyStep` | src/scheduler.rs:817-901 | giving the next slot to the largest share keeps the greedy invariant |
| `SlotPlanner.GreedyOptimal` | src/scheduler.rs:817-901 | no other allocation within the caps and the budget has a smaller largest share |
| `SlotPlanner.PickLargest` | src/scheduler.rs:798-815 | the scan finds the largest share among the eligible, the earliest start on ties |
| `SlotPlanner.AllocateSlots` | src/scheduler.rs:817-901 | the slot loop gives each candidate between one and its cap, uses up the slots or every cap, and is greedy |
| `SlotPlanner.SpreadSlots` | src/scheduler.rs:817-901 | with fewer candidates than slots the allocation uses up the slots or every cap and is min-max optimal; otherwise every candidate has one slot |
| `SlotPlanner.PlanDynamicShare` | src/scheduler.rs:817-901 | a plan exists if and only if there is a slot and a candidate; it is the largest share of that allocation |
| `RequestLaws.UntouchedExact` | src/scheduler.rs:666-671 | the one-piece predicate holds if and only if the piece is incomplete and has no runtime entry |
| `RequestLaws.AssignmentRange` | src/scheduler.rs:1322-1359 | the part handed out starts the range, and a split leaves both parts the minimum and only happens with spare workers |
| `RequestLaws.SplitRule` | src/scheduler.rs:1322-1359 | exactly when a range is split, and that the part is the fair share of the spare workers or the minimum |
| `RequestLaws.RollbackStep` | src/scheduler.rs:1078-1118 | undoing the newest lease of a partly issued batch restores the work before it |
| `Scheduler.SchedulerState.constructor` | src/scheduler.rs:328-343 | the initial state and its account of acknowledged bytes |
| `Scheduler.SchedulerState.IssueLease` | src/scheduler.rs:642-664 | the elementary issue on the object's fields, whose effect `SchedulerTheorems.IssueEffect` states |
| `SchedulerTheorems.IssueEffect` | src/scheduler.rs:642-664 | granted if and only if the scheduler runs and every byte is missing; then those bytes alone move to a fresh lease of that worker, one attempt more than before, and no other piece changes |
| `Scheduler.SchedulerState.Renew` | src/scheduler.rs:1215-1226 | granted if and only if the lease is active: a fresh identity of that worker on the same range, one attempt more, and no other lease or missing range changed |
| `Scheduler.SchedulerState.RetainPrefix` | src/scheduler.rs:1199-1212 | the elementary prefix handoff, accepted if and only if the confirmed end is strictly inside an active lease |
| `Scheduler.SchedulerState.Complete` | src/scheduler.rs:1229-1243 | the elementary completion, accepted if and only if the lease is active, with the durable bit on the last lease |
| `Scheduler.SchedulerState.Reclaim` | src/scheduler.rs:1246-1262 | accepted if and only if the lease is active: exactly its bytes are missing again, no other lease changed, and the next search finds its piece or one between the old cursor and it |
| `Scheduler.SchedulerState.StopAndReclaim` | src/scheduler.rs:1266-1269 | the scheduler is stopped, and the lease reclaimed if it was active |
| `Scheduler.SchedulerState.AssignToWithSplit` | src/scheduler.rs:615-640 | refused if and only if stopped or nothing is missing; otherwise exactly the split rule's part of the first missing range of the cyclically next available piece, one attempt more than before, and the cursor moves behind that piece |
| `Scheduler.SchedulerState.AssignTo` | src/scheduler.rs:351-353 | the whole first missing range of the next available piece |
| `Scheduler.SchedulerState.AssignSubrange` | src/scheduler.rs:1048-1064 | granted if and only if the scheduler runs and the range is non-empty, inside an incomplete piece and all missing; then exactly that range, for that worker |
| `Scheduler.SchedulerState.ExtendBatch` | src/scheduler.rs:1136-1193 | whole untouched pieces without a gap within lease and byte limits, maximal for the reason returned, never taking ranges below those reserved for peers; the cursor ends behind the last |
| `Scheduler.SchedulerState.AssignRecoveryBatch` | src/scheduler.rs:1078-1118 | granted if and only if the plan is well-formed and all its bytes are missing, with one lease of the worker for each part; a refusal restores missing ranges, leases, bits and counters |
| `Scheduler.SchedulerState.DynamicCandidates` | src/scheduler.rs:708-752 | exactly the maximal runs of untouched pieces, sorted and disjoint, each such piece once |
| `Scheduler.SchedulerState.IssueDynamicCandidate` | src/scheduler.rs:1014-1045 | one whole-piece lease for each piece up to the planned end, or nothing if stopped |
| `Scheduler.SchedulerState.AssignDynamicRequest` | src/scheduler.rs:557-613 | while a piece is untouched, whole pieces of the run chosen by the slot plan over all maximal runs, up to the planned end; else the whole next missing range; within max(maximum, piece size) |
| `Scheduler.SchedulerState.FreshRunEnd` | src/scheduler.rs:695-701 | the end of the run of untouched pieces after the first: all before it are untouched and the next one is not |
| `Scheduler.SchedulerState.AssignFixedRequest` | src/scheduler.rs:501-555 | the split rule's part of the next missing range, extended on a first attempt to the maximal batch within the batch size, keeping ranges for peers; the reported target |
| `Scheduler.SchedulerState.AssignRequest` | src/scheduler.rs:445-498 | refused if and only if no slot is free, nothing is missing or stopped; otherwise one ascending gap-free run of 1 to 64 leases on bytes that were missing, chosen as that mode prescribes for the free slots: without batching the whole next missing range, dynamic by the slot plan, fixed by the split rule and batch |
| `DriverLaws.CompleteOwned` | src/lib.rs:446-451 | the oldest lease of a request is still owned when its request completes |
| `DriverLaws.NothingLeft` | src/lib.rs:388-457 | with nothing missing and nothing leased the download is done |
| `PlanDriver.FillSlots` | src/lib.rs:397-442 | filling request slots keeps every planned lease owned and every planned byte counted once; each request is chosen as its mode prescribes and the statistics are those of the requests |
| `PlanDriver.SchedulerPlan` | src/lib.rs:388-457 | the loop terminates, its ownership assertion never fails, it plans and acknowledges exactly the missing bytes in either mode, and no dynamic request exceeds max(maximum, piece size); every request is chosen as its mode prescribes and the statistics are those of the requests |
| `PlanLogLaws.DynamicTruncation` | src/lib.rs:425 | a dynamic request counts as truncated if and only if it ends before its share's target |
| `PlanDriver.PlanTwice` | src/lib.rs:388-457 | a second run plans nothing |
| `Cache.WriteBackCache.Insert` | src/storage/cache.rs:42-71 | appends to the lease's buffer; a gap or overlap is refused without a change |
| `Cache.WriteBackCache.DrainLease` | src/storage/cache.rs:73-87 | returns one lease's buffer and removes only it |
| `Cache.WriteBackCache.DiscardLease` | src/storage/cache.rs:89-100 | drops one lease's buffer and reports its size |
| `Cache.WriteBackCache.DrainAll` | src/storage/cache.rs:103-117 | every buffer exactly once, in file order, leaving the cache empty |
| `Cache.LeasedBuffersApart` | src/storage/cache.rs:102-117 | buffers inside distinct active leases share no byte |
| `Cache.DrainedBlocksNonOverlapping` | src/storage/cache.rs:102-117 | buffers that share no byte drain as sorted blocks that do not overlap |
| `WriterLaws.DrainThenWrite` | src/storage/writer.rs:233-240 | writing non-overlapping drained blocks in order puts every buffered byte in the file and changes no other |
| `PipelineLaws.PipeStep` | src/session/mod.rs:648-701 | every step keeps the queue in order: at every queued command the writer is alive and its buffers share no byte |
| `PipelineLaws.EveryFlushDrains` | src/storage/writer.rs:225-240 | in every run from a sound start each flush, by watermark, barrier, lease or close, leaves the file that writing the drained, non-overlapping blocks in order gives |
| `PipelineLaws.WriterStaysAlive` | src/storage/writer.rs:87-120 | in every run from a sound start the session's own commands never trip the contiguity check: the writer lives until I/O fails or it is closed |
| `WriterLaws.ExecOk` | src/storage/writer.rs:87-176 | every command keeps right bytes right, in the file and in its synced copy |
| `WriterLaws.ExecKeepsStored` | src/storage/writer.rs:87-176 | a lease's bytes stay in file or buffer until it is discarded, and are in the file once it is flushed |
| `Forwarding.ForwardObserved` | src/session/flow.rs:79-127 | on any exit the commands carry exactly the reported prefix, consecutively, in chunks of one to the maximum; success if and only if all was sent |
| `Forwarding.ForwardedIsCached` | src/storage/cache.rs:42-71 | inserting those commands appends exactly the forwarded bytes to one buffer and to the byte count |
| `Forwarding.ForwardedIsStored` | src/storage/writer.rs:94-148 | the writer accepts every such command of an open lease and every byte is then in the file or the buffer |
| `FlowLaws.GeometryFits` | src/session/flow.rs:32-39 | for every budget of at least one byte a largest chunk fits beside a cache below the watermark; the two halve the whole budget, up to the 32-bit limit of a chunk |
| `FlowLaws.FlowStep` | src/session/flow.rs:79-127 | free, held, queued and buffered permits add up to the budget after every step; the writer holds one permit per buffered byte |
| `FlowLaws.PermitsComeBack` | src/session/flow.rs:79-127 | a waiting or holding producer can be cancelled and the writer can end at any time; then all permits are back but those of chunks still held |
| `FlowLaws.NoDeadlock` | src/session/flow.rs:20-39 | while a chunk waits, is held or is queued, some step is possible |
| `FlowLaws.RoomIsExact` | src/session/flow.rs:32-39 | in every run from the opening state the oldest waiter can be served once nothing is held or queued, if and only if the geometry leaves that room; with a run into the deadlock otherwise |
| `FlowLaws.EveryProducerFinishes` | src/session/flow.rs:79-127 | for every budget and mix of producers every run of internal steps is finite and ends with all chunks through |
| `FlowLaws.MemoryIsBounded` | src/session/flow.rs:20-39 | held, queued and buffered bytes never exceed the budget |
| `SessionLaws.StepKeeps` | src/session/multi.rs:482-634 | every step of workers, writer and monitor keeps the session invariant |
| `Progress.SavesWhenDue` | src/session/mod.rs:146-171 | in every run: an autosave tick goes on to save if and only if there are new bytes and at least the configured number of ticks found some since the last save or the last tick that found none; a terminal save always does; a freeze stops only an autosave without new bytes |
| `Progress.Drain` | src/storage/writer.rs:87-176 | a live writer can work off its queue; every waiting flush and barrier is then acknowledged and nothing else changed |
| `Progress.FrozenCanBeSaved` | src/session/multi.rs:533-582 | from a frozen snapshot a barrier, the writer's queue and a save put exactly its bits on disk |
| `Progress.ClosedCanBeSaved` | src/session/multi.rs:533-582 | after the writer closed, the barrier and the save alone do |
| `Progress.LeaseCanComplete` | src/session/multi/worker.rs:1262-1290 | any lease without an attempt can be streamed, flushed and completed: its bytes acknowledged, right in the file and counted once |
| `Progress.PrefixCanBeKept` | src/session/multi.rs:608-634 | any proper prefix of it can be kept, the lease going on behind it |
| `Progress.AttemptCanGiveUp` | src/session/multi.rs:608-634 | or it can be given up after any number of bytes, leaving scheduler, counts and cache as if it had not been tried |
| `Progress.LeaseCanMove` | src/scheduler.rs:1215-1269 | such a lease can be reclaimed, renewed for any worker, or the scheduler stopped, at any time and with that effect alone |
| `Progress.DownloadCanFinish` | src/session/multi.rs:404-440 | from every reachable state with a live writer and a running scheduler some continuation receives every byte, durably right in the file, with a checkpoint that marks every piece |
| `Progress.FailureCanSettle` | src/session/multi.rs:608-634 | a writer can fail at any time with any part of its buffers written, and the session then winds down with received equal to acknowledged bytes and the checkpoint as it was |
| `SessionTheorems.SavedIsFrozen` | src/session/multi.rs:513-582 | what a save writes is the bitmap of the freeze it started from, with no other freeze or save between; later completions never leak in |
| `SessionTheorems.DiskOrigin` | src/session/multi.rs:533-582 | at every step the checkpoint on disk is the one found at the start until the first save, and then the bitmap frozen for the last save, whatever failed in between |
| `SessionTheorems.CheckpointsGrow` | src/session/multi.rs:482-582 | no later checkpoint of a session drops a piece of an earlier one, from the start if it opened with none or the restored one, and from its first save on in any case |
| `SessionTheorems.CrashConsistency` | src/session/multi.rs:482-582 | in a run from any sound start, over any checkpoint on disk: each byte of each piece it marks complete is durably in the file with its right value at every moment if and only if it is so at the start, and from the first save on in any case |
| `Downloads.EveryCrashIsConsistent` | src/session/resume.rs:129-306 | over any chain of crashes, resumes and restarts: that promise holds at every instant of every life if and only if every life that creates its file anew finds no checkpoint, or one that marks no piece |
| `Downloads.TrustedLife` | src/session/multi.rs:80-84 | what survives a restart over an old checkpoint: the promise holds from the first save of a life that created its file anew, and all through a life that resumed from a checkpoint for which it held |
| `StaleCheckpoint.CheckpointOutlivesFile` | src/session/resume.rs:129-171 | the failing chain: save, crash, restart that keeps the checkpoint, crash, accepted resume, and a piece taken for complete whose byte is wrong |
| `SessionTheorems.ReceivedConserved` | src/session/multi.rs:608-634 | received bytes are the restored ones plus those acknowledged plus those forwarded by live attempts |
| `Downloads.CrashThenResume` | src/session/resume.rs:21-106 | a crash of such a life at any instant at which the promise is safe leaves a checkpoint that passes local validation, and the scheduler rebuilt from it misses exactly the bytes outside its pieces |
| `Downloads.FinishedDownload` | src/session/multi.rs:404-440 | when every piece is complete in such a life, every byte of the object is right in the file, and durably so once the writer has closed |
| `Resume.ValidateLocalResumeState` | src/session/resume.rs:21-106 | for any bits, counts and lengths of a control file with the piece count of its sizes: accepted if and only if file and record belong together, with every marked byte inside the file on the multi path; otherwise the first defect in order is named |
| `Resume.MarkedByMap` | src/session/resume.rs:45-75 | the restored map counts the marked bytes, and the end of its highest complete piece is the shortest length reaching all of them |
| `Resume.SnapshotVerdict` | src/session/resume.rs:36-91 | a consistent snapshot is accepted if and only if the file reaches its highest complete piece without exceeding the object, or has exactly the object's size when preallocated |
| `Settlement.SettlePrefix` | src/session/multi.rs:608-634 | exactly when the prefix is kept; received minus acknowledged drops by exactly the forwarded bytes if and only if the prefix is not kept or the lease starts where the segment does; failures change neither segment nor scheduler |
| `RateLimiter.TakeSound` | src/rate_limiter.rs:44-58 | tokens stay between zero and capacity, and a grant is paid for by tokens and elapsed time |
| `RateLimiter.WindowBound` | src/rate_limiter.rs:39-64 | over any interleaving of callers, grants within any interval are at most capacity plus rate times its length |
| `RateLimiter.BoundIsReached` | src/rate_limiter.rs:39-64 | the bound is attained |
| `RateLimiter.SleepSuffices` | src/rate_limiter.rs:59-63 | the sleep is long enough for the tokens it waits for |
| `RateLimiter.Bucket.Visit` | src/rate_limiter.rs:42-62 | one critical section on the bucket's fields |
| `RateLimiter.Bucket.Acquire` | src/rate_limiter.rs:39-64 | a lone caller gets all it asked for within n / capacity + 2 visits and n / rate of sleep, finishing when its sleeps and their delays are over, and not before the bucket could supply n |
| `Eta.TrimmingIsInvisible` | src/eta.rs:70-109 | with a clear window the trimmed deque has the average speed of the whole history since the last regression |
| `Eta.TrimmingExact` | src/eta.rs:70-109 | for given recording times, deque and history report the same speed for all byte counts if and only if no sample recorded early lies in the current window or the history is too short for a speed |
| `Eta.EarlySamplesAreMissed` | src/eta.rs:70-80 | with the program's five-second window, an early clock where trimming changes the speed from 2 to 5 |
| `Eta.RecordRepresents` | src/eta.rs:26-43 | recording keeps times increasing and bytes non-decreasing, and drops exactly the outlived samples |
| `Eta.EtaEstimator.Record` | src/eta.rs:26-43 | regression clears, an equal or earlier time updates the last sample, otherwise append and trim |
| `Eta.EtaEstimator.WindowStart` | src/eta.rs:82-109 | the scan returns the point of the progress curve at the start of the window |
| `Eta.EtaEstimator.SpeedBytesPerSec` | src/eta.rs:45-60 | the average speed over the window, none below the minimum span, never negative |
| `Eta.EtaEstimator.Estimate` | src/eta.rs:62-68 | remaining bytes at that speed, if and only if it is at least one byte per second |

Where code and documentation or intent disagree, the code is followed:

- `src/rate_limiter.rs:21-22` says a limiter built with rate zero does nothing. Its loop would divide
  zero by zero; the no-op comes from `SpeedLimit::new`, which never builds such a limiter. The bucket
  is modelled for rates of at least one byte per second, the only ones it is built with.
- A checkpoint is meant to mark only pieces that are in the file (`src/session/multi.rs:472-482`,
  `src/session/resume.rs:36-91`). A restart can leave one behind: the code does not touch it when
  resuming is off or it fails to load (`src/session/resume.rs:129-155`) and ignores a failed delete
  (`src/session/resume.rs:170`, `:302`), while `src/session/multi.rs:80-84` creates the file anew.
  `Downloads.EveryCrashIsConsistent` gives the exact condition and
  `StaleCheckpoint.CheckpointOutlivesFile` a chain outside it.
- The estimator's trim can change the reported speed when samples were recorded before the window's
  start could be represented by the clock. `Eta.TrimmingExact` gives the exact condition on the
  recording times; `Eta.EarlySamplesAreMissed` shows a run outside it.

## Left out

- Transport, DNS, HTTP requests and responses, retries, hedging, slow-transfer recovery policy: outside the scheduling and storage core.
- Manager, progress reporting, logging, statistics: channels and counters that would only add easy members.
- A change of the object between two lives of a download: all lives fetch the same bytes.
- Deleting the checkpoint after a complete download: a finished download is not resumed.
- The control file's byte format and its advisory hints: saving is atomic, and a snapshot is its bits and byte count.
- Control files whose piece count disagrees with their sizes: the restored map always has the piece count of its sizes.
- The single-connection session, with its own terminal use of the save tracker and the writer's single-connection buffer (`lease_key: None`), and resumes that switch from several connections to one.
- Saturation of lease ids, attempt counters and autosave ticks at the width of their type: all are natural numbers.
- 64-bit overflow of offsets: offsets are natural numbers; widths appear where the source relies on them, in the cross-multiplied comparison and the alignment of the minimum split.
- Floating-point rounding in the token bucket and the estimator: both are over exact reals.
- Diagnostic fields of a request assignment other than its segments, target end and truncation reason.
- The rollback inside the issue of a dynamic candidate: it cannot be reached, since the candidate's pieces are untouched.
- Update in place of `RangeSet`, `PieceRuntimeState` and `PieceMap`: each has one owner and is held by value; their loops are modelled as methods on sequences.
- The writer's file position and write calls: a flush writes whole blocks, and a failing flush leaves any part of them written.
- Fairness among several callers of the token bucket: each visit is modelled, but with contention one caller can be overtaken forever.
- ForwardObserved: needs a maximum chunk of at least one byte, which configuration validation guarantees; with a zero budget the source's loop would never end.
- SettlePrefix: needs the received count to cover the forwarded bytes, which the session's count provides; below that the source's atomic subtraction would wrap.
