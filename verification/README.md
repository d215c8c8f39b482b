# A verified model of the hot-window engine

`sfkg-timeseries-core` keeps a sliding window of time-series points per project and answers everything else
from it: range queries, statistics, alignment into buckets, derived series and continuous constraint checks.
Most of its hard code is a fast incremental form of something simple. This project models those forms step by
step and proves that each is the simple thing it stands for, or says exactly when it is not.

`dafny verify dfyconfig.toml` checks everything.

## What is modelled

**The window of one sequence** (`Timeline`, `MonotoneDeque`, `OrderedMerge`, `SortedUnique`, `WindowQueries`,
`SequenceWindow`, `AppendReports`). The source keeps an append vector with a lazily evicted prefix, an ordered buffer of late
corrections, a latest time, and statistics in monotone deques. The class `SequenceWindow` has those fields and
its methods change them as the source does. Its meaning is one map from time to value. `Valid()` states what
holds between operations: both parts are strictly increasing, the latest time bounds everything stored, fewer
than 64 late points wait, the dead prefix is under 4096 points or under half the vector, and whenever the
statistics are marked valid the late buffer is empty and count, sum and deques describe exactly the live points.

**The windows of a project** (`WindowService`, `WindowLaws`, `WindowUpdates`, `TaskGrouping`): the watermark, the
window bounds, batches, eviction, derived replacement and patching, queries, the change report, and the packing
of sequence work into groups for threads.

**The ingest executor** (`IngestProtocol`, `IngestInvariant`, `IngestAdmission`, `IngestTheorems`, `IngestProgress`,
`IngestStreams`, `IngestAccounts`, `StorageResults`, `IngestExecutor`). The protocol is a step system: routing,
submission, stopping, and each atomic section of every worker are separate steps that interleave freely. The
theorems quantify over all reachable states of all schedules. The class `IngestTaskExecutor` performs the
critical sections with the source's maps, queues and counters and is proved to take exactly those steps.

**Alignment** (`BucketTimes`, `BucketAggregation`, `GapFill`, `AlignedRows`, `AlignedSlices`, `BucketIntervals`,
`Alignment`, `AlignmentRange`, `AlignmentCrops`, `AlignmentMeaning`): 64-bit bucket arithmetic with wrap-around written out, streaming aggregation, the
four fills, full alignment, and the local fast path around an affected range.

**Derived series** (`Formulas`, `FormulaMeaning`, `DerivedPatches`, `DerivedExcerpts`, `DerivedRefresh`, `DerivedCompute`, `DerivedSeries`,
`DerivedService`): expression evaluation with shared forward-only cursors, the affected range, the patch and the
full refresh, on top of the window service.

**Constraints** (`ConstraintRules`, `ConstraintEngine`, `ConstraintClauses`, `ConstraintChecks`, `ConstraintMeaning`, `ConstraintRanges`,
`ContinuousConstraints`, `ConstraintGroups`, `ConstraintCache`, `ConstraintSelection`, `ContinuousIngest`): rule
validation, the check over a window, OR clauses, and the cache of violations that an ingest edits by range.

**The configuration registry** (`ConfigRegistry`, `RegistryAcceptance`): the instance table and its external index under replace and
upsert batches.

Values are `Number(real)` or one `NonNumeric` tag. Timestamps are integers of the 64-bit range; every place where
the source saturates, wraps or checks for overflow is written out.

## Where the obvious claim is false

Each of these is kept as the code has it. Next to an input on which the claim fails stands the exact condition
under which it holds.

- *The watermark is the maximum time seen.* A project's first batch sets it to its last point's time, because whether
  there was a watermark is fixed before the scan (`FirstBatchWatermarkFails`, `WatermarkIsMaximum`). The differential
  window test keeps a running maximum instead; the model follows the code.
- *The default query shows what eviction keeps.* Eviction keeps times from watermark - size on, the default query
  starts one later (`DefaultQueryMissesAPoint`), and it ends behind the watermark, which a first batch can leave below a
  live point (`DefaultQueryMissesTheFuture`). It shows everything exactly when no point sits at the omitted instant or
  above the watermark (`DefaultQueryOmits`).
- *A batch is reported as append-only exactly when it lies beyond everything written.* Once everything was evicted, a
  window takes its latest time from the next batch (`EvictionIsForgotten`). The report means that exactly when something
  written since the window was last empty is as late as anything before (`ReportsBeyondAllExactly`); a batch beyond
  everything is always reported so (`ReportAfterRun`).
- *A sequence's rows are strictly increasing.* A query that names it twice returns its rows twice, one copy after the
  other (`RowsRepeat`); `CopiesIncreasing` is the condition and its failing case in one.
- *The incremental derived patch equals recomputation.* It can erase values (`IncrementalPatchLosesAValue`). The
  condition is `PatchEqualsRecomputeExactly`, and for linear formulas and expressions without division
  `DefinedPatchEqualsRecomputeExactly` reads it off the sources' rows alone.
- *A full derived refresh equals recomputation.* The point at the instant the default query omits is live and not seen
  (`FullRefreshLosesAValue`; `FullOutcome`, and `DefinedShownEqualsExactly` on rows alone). Which sources are seen whole
  is `FullRefreshSeesEverything`.
- *The merged storage code does not depend on which shard finishes first.* When all shards fail, the first to finish
  names the error (`FirstFailureNamesTheError`, `OrderMattersExactly`). This is about plain shards, which write all or
  nothing, as the raw writes of the storage service do (sfkg-timeseries-core/src/taos_client.cpp:809-952).
  `MergedOkExactly` and `MergedFailureExactly` describe the merge for an arbitrary cold-write function.
- *An external identifier has a key of its own.* It has exactly when neither of its parts contains the source
  separator (`ExternalKeysCanCollide`, `KeyIsSharedExactly`).
- *A registry batch whose final table is consistent is accepted.* Items are applied one by one, so exchanging two
  external ids in one incremental batch is rejected (`SwapIsRejected`, `AcceptedExactly`).
- *The cropped full alignment and the fast path select the same samples.* The crop goes by sample time, the fast path
  by containing bucket (`CropLosesABucket`, `CropMatchesTargetsExactly`). `AlignRange` therefore states the two answers
  of the range overload separately.

## Model

| member | source | states |
|---|---|---|
| SequenceWindows.SequenceWindow.Run | sfkg-timeseries-core/src/window_service.cpp:280-403 | after any run of updates, evictions, replacements, patches and statistics queries the window's content is the plain map under last-write-wins overlay, range delete and drop-below, and its latest time is the one the run dictates (unless a patch erased without writing) |
| SequenceWindows.SequenceWindow.UpdateSequence | sfkg-timeseries-core/src/window_service.cpp:849-914 | the batch is laid over the content whichever branch ran (append, merge into an empty window, buffered correction, flushed correction); incremental-safe exactly when it arrived strictly increasing and beyond the latest time; the latest time afterwards is given branch by branch |
| SequenceWindows.SequenceWindow.TakeBatch | sfkg-timeseries-core/src/window_service.cpp:775-914 | a sequence's share as it arrived: overlaid, reported as appending exactly when increasing and beyond the latest time, and all branches move an attained latest time alike |
| AppendReports.ReportAfterRun | sfkg-timeseries-core/src/window_service.cpp:859-903 | after any run from a new window a batch in increasing order beyond every instant written since the last replacement is reported append-only, and one reported so lies beyond everything live; the report is a function of the run |
| AppendReports.LatestSinceRefill | sfkg-timeseries-core/src/window_service.cpp:859-903 | of raw data the latest time is the greatest instant written since the window was last empty |
| AppendReports.ReportsBeyondAllExactly | sfkg-timeseries-core/src/window_service.cpp:859-903 | the report means beyond everything ever written exactly when something written since the window was last empty is as late as anything before |
| AppendReports.EvictionIsForgotten | sfkg-timeseries-core/src/window_service.cpp:359-369 | 10 written and evicted, 5 written: a batch at 7 is reported append-only |
| SequenceWindows.SequenceWindow.AppendPoints | sfkg-timeseries-core/src/window_service.cpp:864-887 | points newer than everything seen overlay the content and move the latest time to their last, with statistics still exact |
| SequenceWindows.SequenceWindow.BufferLatePoints | sfkg-timeseries-core/src/window_service.cpp:893-903 | corrections overlay the content and the buffer without touching the vector, mark the statistics invalid, and move the latest time only if one lies beyond it |
| SequenceWindows.SequenceWindow.MergeSortedPoints | sfkg-timeseries-core/src/window_service.cpp:315-370 | sorted points fold into the vector: content overlaid, dead prefix gone |
| SequenceWindows.InsertSorted | sfkg-timeseries-core/src/window_service.cpp:337-366 | the moving-index insertion keeps the vector strictly increasing and lays the incoming map over it |
| SequenceWindows.SequenceWindow.FlushLatePoints | sfkg-timeseries-core/src/window_service.cpp:372-384 | moving the late buffer into the vector leaves the content unchanged, and nothing at all changes when the buffer is empty |
| SequenceWindows.SequenceWindow.CompactSequence | sfkg-timeseries-core/src/window_service.cpp:386-403 | dropping the dead prefix keeps exactly the live suffix |
| SequenceWindows.SequenceWindow.ReplaceSequence | sfkg-timeseries-core/src/window_service.cpp:280-313 | any batch, unordered and with duplicates, becomes the whole content, last duplicate winning, statistics exact |
| SequenceWindows.SequenceWindow.PatchRange | sfkg-timeseries-core/src/window_service.cpp:599-641 | exactly the closed range is erased and the batch laid over it, last duplicate winning |
| SequenceWindows.SequenceWindow.Prune | sfkg-timeseries-core/src/window_service.cpp:1013-1042 | exactly the keys below the start go, from vector and late buffer, the answer says whether any live key went, and the vector is compacted exactly when the dead prefix has grown past both thresholds |
| SequenceWindows.SequenceWindow.QueryData | sfkg-timeseries-core/src/window_service.cpp:1183-1301 | the rows are the last k live entries before start, all in [start,end), and the first m from end on, of the ordered live map; the count is their number |
| SequenceWindows.SequenceWindow.QueryStatistics | sfkg-timeseries-core/src/window_service.cpp:1363-1399 | count, average, extremes or the reason for none equal a fold from scratch over the live map, whether the cache was used or rebuilt |
| WindowLaws.StatisticsAre | sfkg-timeseries-core/src/window_service.cpp:1363-1399 | the answer over a content: refused exactly when a value is not a number, none exactly when empty, else the number of points, the average whose product with the count is their sum, and attained bounds of all values |
| SequenceWindows.SequenceWindow.RebuildStatistics | sfkg-timeseries-core/src/window_service.cpp:270-278 | the statistics describe the live content again and the content is unchanged |
| SequenceWindows.SequenceWindow.AppendStatistic | sfkg-timeseries-core/src/window_service.cpp:218-241 | statistics exact for a listing become exact for it with one more point |
| SequenceWindows.SequenceWindow.RemoveStatistic | sfkg-timeseries-core/src/window_service.cpp:243-268 | statistics exact for an increasing listing become exact for it without its oldest point |
| SequenceWindows.StoredAppend | sfkg-timeseries-core/src/window_service.cpp:864-887 | points newer than everything stored also overlay every waiting late correction, so appending to the vector is an overlay of the whole content |
| MonotoneDeque.SuffixExtremesAre | sfkg-timeseries-core/src/window_service.cpp:218-241 | a sample is in the deque exactly when it strictly beats every later numeric point |
| MonotoneDeque.SuffixExtremesAppend | sfkg-timeseries-core/src/window_service.cpp:227-240 | popping the beaten back and pushing the new amount gives the strict suffix extremes of the longer listing |
| MonotoneDeque.SuffixExtremesDropFirst | sfkg-timeseries-core/src/window_service.cpp:254-267 | popping the front when its time is the removed point's gives those of the shorter listing |
| MonotoneDeque.FrontIsBest | sfkg-timeseries-core/src/window_service.cpp:1388-1399 | the front is not beaten by any numeric point, and the deque is empty exactly when there is none |
| MonotoneDeque.FrontIsScanBest | sfkg-timeseries-core/src/window_service.cpp:1388-1399 | the front is the best amount a left-to-right scan finds |
| SortedUnique.SortUnique | sfkg-timeseries-core/src/window_service.cpp:284-300 | stable sort then overwrite-duplicates yields the unique increasing listing of the batch's last-write-wins map |
| WindowQueries.QueryMerged | sfkg-timeseries-core/src/window_service.cpp:1183-1301 | three bounded walks over vector and late buffer give the excerpt of the merged listing |
| WindowQueries.PrecedingContext | sfkg-timeseries-core/src/window_service.cpp:1206-1241 | the backward walk yields the last k merged points, a correction replacing its vector twin |
| WindowQueries.FollowingContext | sfkg-timeseries-core/src/window_service.cpp:1271-1301 | the forward walk yields the first m merged points |
| WindowQueries.ThreeParts | sfkg-timeseries-core/src/window_service.cpp:1183-1205 | cutting vector and buffer at the two bounds cuts the merged listing at the same bounds |
| WindowServices.WindowService.RunCalls | sfkg-timeseries-core/src/window_service.cpp:669-975 | any run of batches, resizes, derived replacements and patches agrees with the reference state of one plain map per sequence, a watermark and a size, and with the reference latest times (unless a patch erased without writing) |
| WindowServices.WindowService.UpdateWindow | sfkg-timeseries-core/src/window_service.cpp:669-975 | within what the model validates, rejected exactly for an empty batch, a blank id or a non-positive size, changing nothing; otherwise every sequence is overlaid with its share and cut at the new window start, and the safety flags and evicted list are exact, and so are the latest times that the next flags depend on |
| WindowServices.WindowService.ApplyBatch | sfkg-timeseries-core/src/window_service.cpp:756-975 | the per-sequence half of a batch, proved against one formula per sequence |
| WindowServices.WindowService.AdvanceWatermark | sfkg-timeseries-core/src/window_service.cpp:734-742 | the point-by-point scan computes the specified next watermark |
| WindowServices.WatermarkIsMaximum | sfkg-timeseries-core/src/window_service.cpp:734-742 | the new watermark is the maximum of old watermark and batch exactly when there was a watermark or the batch ends at its own maximum; without a watermark it is always the batch's last time |
| WindowServices.FirstBatchWatermarkFails | sfkg-timeseries-core/src/window_service.cpp:734-742 | a first batch at times 10 then 4 leaves the watermark at 4 |
| WindowServices.WindowStart | sfkg-timeseries-core/src/window_service.cpp:752-756 | the eviction bound is watermark - size saturated at the smallest timestamp, and never out of range |
| WindowServices.WindowService.PruneExpiredPoints | sfkg-timeseries-core/src/window_service.cpp:983-1008 | over a snapshot of windows in any order: exactly the listed windows lose exactly their expired keys; the list names exactly those that lost one |
| WindowServices.WindowService.ConfigureWindowSize | sfkg-timeseries-core/src/window_service.cpp:427-463 | non-positive sizes are refused without effect; otherwise every window is cut at the new start |
| WindowServices.WindowService.ReplaceDerivedSequence | sfkg-timeseries-core/src/window_service.cpp:504-558 | within what the model validates, accepted exactly when the id is not blank and every point carries it; then that sequence becomes the batch's map and everything is evicted at the start |
| WindowServices.WindowService.PatchDerivedSequence | sfkg-timeseries-core/src/window_service.cpp:566-644 | within what the model validates, accepted exactly when ids match and every point lies in the ordered range; then only that sequence changes, by range erase and overlay |
| WindowServices.WindowService.QueryWindow | sfkg-timeseries-core/src/window_service.cpp:1109-1181 | the answer (error, no data, rows, count) is a function of the contents, the watermark and the size |
| WindowLaws.QueryShowsRange | sfkg-timeseries-core/src/window_service.cpp:1155-1181 | for all four combinations of given bounds, without context: every named sequence's rows are its live map between the given bound, or the live window's, on each side; which bounds the answer carries; when the order of bounds is refused |
| WindowLaws.QueryRefused | sfkg-timeseries-core/src/window_service.cpp:1109-1160 | no ids, a blank id or crossed bounds are refused, and there are rows only once there is a watermark |
| WindowLaws.ContextIsNearest | sfkg-timeseries-core/src/window_service.cpp:1206-1301 | with context come, around the range, the latest points before it and the earliest from its end on, as many as asked for or all there are |
| WindowLaws.CountIsRowTotal | sfkg-timeseries-core/src/window_service.cpp:1171-1181 | the reported count is the number of rows listed over all sequences |
| WindowLaws.BatchAtInstant | sfkg-timeseries-core/src/window_service.cpp:756-975 | after a batch a sequence holds, from the window start on, what the batch wrote last at an instant, or else what was there before |
| WindowLaws.DefaultQueryOmits | sfkg-timeseries-core/src/window_service.cpp:1160-1169 | of a window that eviction has cut, the default query shows all points exactly when none sits at one named instant or above the watermark |
| WindowLaws.DefaultQueryMissesAPoint | sfkg-timeseries-core/src/window_service.cpp:1160-1169 | watermark 100, size 10: a point at 90 is within the eviction bound and missing from the default query |
| WindowLaws.DefaultQueryMissesTheFuture | sfkg-timeseries-core/src/window_service.cpp:1160-1169 | a first batch at 10 then 4 leaves the watermark at 4: nothing sits at the omitted instant and the live point at 10 is missing from the default query |
| WindowLaws.ExcerptIsRestriction | sfkg-timeseries-core/src/window_service.cpp:1183-1301 | without context the rows as a map are the live map restricted to [start,end) |
| WindowLaws.RowsRepeat | sfkg-timeseries-core/src/window_service.cpp:1171-1183 | a sequence named n times in a request contributes its rows n times in a row |
| WindowLaws.CopiesIncreasing | sfkg-timeseries-core/src/window_service.cpp:1171-1183 | non-empty rows are strictly increasing in time exactly when the sequence is named at most once |
| WindowUpdates.DescribeUpdate | sfkg-timeseries-core/src/window_service.cpp:700-728 | the change report names exactly the batch's sequences and those eviction took points from, with the extreme times of each one's points, its safety and whether it lost points, and the extreme times of the whole batch |
| TaskGrouping.GroupSequenceTasks | sfkg-timeseries-core/src/window_service.cpp:72-128 | groups are non-empty and partition the items; each costs at most the target or is one item; with w workers there are at most 4w-1; without workers one group |
| TaskGrouping.PackSorted | sfkg-timeseries-core/src/window_service.cpp:98-126 | no two groups would fit together under the target, and recorded costs are true totals |
| TaskGrouping.PairsExceed | sfkg-timeseries-core/src/window_service.cpp:44-48 | pairwise over-target groups cost more than their number of disjoint pairs times the target |
| IngestTheorems.RunKeeps | sfkg-timeseries-core/src/grpc/ingest_task_executor.cpp:161-400 | the protocol invariant holds in every state of every run of every schedule |
| IngestTheorems.HotUpdatesAreSerial | sfkg-timeseries-core/src/grpc/ingest_task_executor.cpp:316-344 | two hot updates running at once share no sequence, and every older submission sharing one with a running update has finished its own |
| IngestTheorems.HotUpdatesFollowAdmission | sfkg-timeseries-core/src/grpc/ingest_task_executor.cpp:230-250 | for each sequence the hot updates begun so far are exactly its first few submissions, in admission order |
| IngestTheorems.ClosedPartIsPrefix | sfkg-timeseries-core/src/grpc/ingest_task_executor.cpp:230-250 | a downward closed increasing part of an increasing list is a prefix of it |
| IngestProgress.Progress | sfkg-timeseries-core/src/grpc/ingest_task_executor.cpp:260-347 | no reachable state is stuck, stopping or not: unless everything admitted is released and every worker parked or gone, some worker has a step to take |
| IngestProgress.FindReady | sfkg-timeseries-core/src/grpc/ingest_task_executor.cpp:316-330 | from any waiting hot worker, following unfinished predecessors down reaches a worker that can step |
| IngestProgress.HeldPredecessor | sfkg-timeseries-core/src/grpc/ingest_task_executor.cpp:298-330 | an unfinished predecessor of a dequeued submission is in some hot worker's hands, never still queued |
| IngestProgress.DrainsCompletely | sfkg-timeseries-core/src/grpc/ingest_task_executor.cpp:128-144 | left alone the executor takes a bounded number of steps, and where it stops nothing is owed |
| IngestAccounts.AnsweredOnceAfterEveryLane | sfkg-timeseries-core/src/grpc/ingest_task_executor.cpp:349-400 | a submission is answered at most once, only after its hot update and every cold shard, and its lane counter is positive exactly while a lane is open |
| IngestAccounts.PendingIsAcceptedMinusReleased | sfkg-timeseries-core/src/grpc/ingest_task_executor.cpp:202-250 | in every reachable state the pending counter is accepted minus released and within capacity |
| IngestAccounts.LanesServeExactlyTheirTasks | sfkg-timeseries-core/src/grpc/ingest_task_executor.cpp:260-315 | each lane has handed out or queues exactly the submissions that need it, in admission order |
| IngestAccounts.AdmissionIsAllOrNothing | sfkg-timeseries-core/src/grpc/ingest_task_executor.cpp:202-257 | a submission enters the hot queue and exactly the cold queues some point of it routes to, or nothing changes |
| IngestAdmission.LoadsBalanced | sfkg-timeseries-core/src/grpc/ingest_task_executor.cpp:146-159 | the numbers of sequences assigned to any two writers differ by at most one |
| IngestAdmission.RouteKeepsRouting | sfkg-timeseries-core/src/grpc/ingest_task_executor.cpp:146-159 | routing one more sequence keeps the assignment in balance |
| IngestExecutor.NewSequencesDealtInTurn | sfkg-timeseries-core/src/grpc/ingest_task_executor.cpp:146-159 | the i-th new sequence of a batch gets the i-th writer in turn, and only new sequences are added |
| IngestStreams.ShardsPartition | sfkg-timeseries-core/src/grpc/ingest_task_executor.cpp:180-213 | the cold shards of a batch together are the batch, point for point |
| IngestStreams.ShardKeepsSequence | sfkg-timeseries-core/src/grpc/ingest_task_executor.cpp:180-213 | a sequence's points all land, in batch order, in its writer's shard and in no other |
| IngestStreams.ColdWritesFollowAdmission | sfkg-timeseries-core/src/grpc/ingest_task_executor.cpp:245-283 | what a sequence's writer has been handed, then what it still queues, is the sequence's points in admission order |
| IngestStreams.OrderedSequencesOnlyAppend | sfkg-timeseries-core/src/grpc/ingest_task_executor.cpp:230-250 | if a sequence's points increase in admission order, under any schedule each of its hot updates starts after everything before it |
| IngestStreams.ReplayUpdates | sfkg-timeseries-core/src/window_service.cpp:859-887 | such a chain of updates, with evictions in between, reports incremental-safe every time |
| IngestStreams.EveryScheduleOnlyAppends | sfkg-timeseries-core/src/grpc/ingest_task_executor.cpp:316-344 | executor and window together: in every state of every run, the hot updates begun on a sequence whose points increase in admission order, applied to its window, report incremental-safe every time |
| IngestStreams.RoutingKeysAgreeExactly | sfkg-timeseries-core/src/grpc/ingest_task_executor.cpp:145-159 | projects free of the separator share a routing key only for the same project and sequence |
| IngestStreams.TasksShareExactly | sfkg-timeseries-core/src/grpc/ingest_task_executor.cpp:225-250 | in every reachable state two tasks of such projects are ordered against each other exactly when they are of one project and both write some sequence |
| StorageResults.StorageAggregate.Merge | sfkg-timeseries-core/src/grpc/ingest_task_executor.cpp:53-87 | the merged result stays the specified function of the parts in arrival order |
| StorageResults.MergedOkExactly | sfkg-timeseries-core/src/grpc/ingest_task_executor.cpp:53-87 | the merged code is Ok exactly when the first part is and each later part succeeded fully or failed before anything was written |
| StorageResults.MergedFailureExactly | sfkg-timeseries-core/src/grpc/ingest_task_executor.cpp:53-87 | it is a failure exactly when the first part failed and nothing was ever written, and then it is the first part's code |
| StorageResults.MergedCodeOfPlainShards | sfkg-timeseries-core/src/grpc/ingest_task_executor.cpp:53-87 | when failing shards write nothing and succeeding ones something, the result is Ok exactly when all are and a failure exactly when all fail |
| StorageResults.OrderMattersExactly | sfkg-timeseries-core/src/grpc/ingest_task_executor.cpp:53-87 | for such shards every finishing order gives one code exactly when some shard succeeded or all failures carry the same code |
| StorageResults.FirstFailureNamesTheError | sfkg-timeseries-core/src/grpc/ingest_task_executor.cpp:53-87 | two failing shards whose finishing order decides the error code |
| StorageResults.TotalsAdd | sfkg-timeseries-core/src/grpc/ingest_task_executor.cpp:53-87 | both merged counts are sums over the shards |
| StorageResults.TotalsOfAnyOrder | sfkg-timeseries-core/src/grpc/ingest_task_executor.cpp:53-87 | both counts are the same for every finishing order |
| IngestExecutor.IngestTaskExecutor.TrySubmit | sfkg-timeseries-core/src/grpc/ingest_task_executor.cpp:161-258 | the call performs exactly the routing steps in ascending id order followed by one admission step, and accepts exactly when running and below capacity |
| IngestExecutor.IngestTaskExecutor.WriterForSequence | sfkg-timeseries-core/src/grpc/ingest_task_executor.cpp:146-159 | refines the routing step: a known sequence keeps its writer |
| IngestExecutor.IngestTaskExecutor.PlanBatch | sfkg-timeseries-core/src/grpc/ingest_task_executor.cpp:180-200 | the ordered-set and shard-building loops compute the specified routing and shards |
| IngestExecutor.IngestTaskExecutor.AdmitTask | sfkg-timeseries-core/src/grpc/ingest_task_executor.cpp:202-257 | the locked section refines the admission step, rejected submissions leaving every field unchanged |
| IngestExecutor.IngestTaskExecutor.LinkPredecessors | sfkg-timeseries-core/src/grpc/ingest_task_executor.cpp:230-243 | the tails loop yields the predecessors per sequence and makes the submission the new tail |
| IngestExecutor.IngestTaskExecutor.TakeNext | sfkg-timeseries-core/src/grpc/ingest_task_executor.cpp:260-315 | refines the dequeue step; with an empty queue the worker leaves exactly when stopping |
| IngestExecutor.IngestTaskExecutor.CompleteTask | sfkg-timeseries-core/src/grpc/ingest_task_executor.cpp:349-400 | counting a lane down; the last one answers and releases the slot |
| IngestExecutor.AscendingIsUnique | sfkg-timeseries-core/src/grpc/ingest_task_executor.cpp:180-200 | a set of identifiers has exactly one ascending listing, so the order of routing is determined by the batch |
| IngestExecutor.BeforeIsLexicographic | sfkg-timeseries-core/src/grpc/ingest_task_executor.cpp:180-200 | sequences are routed in the order of their first differing character, a proper prefix first |
| BucketTimes.AddNonNegativeTimestampOffset | sfkg-timeseries-core/src/alignment_service.cpp:289-322 | the branchy 64-bit addition succeeds exactly when the mathematical sum is a timestamp, and is that sum |
| BucketTimes.OneBucketEach | sfkg-timeseries-core/src/alignment_service.cpp:971-1022 | every instant of the window lies in exactly one bucket, the computed one, and that bucket exists |
| BucketTimes.BucketStartFits | sfkg-timeseries-core/src/alignment_service.cpp:1121-1131 | bucket times never wrap in the unsigned product nor overflow in the sum, lie inside the window and increase |
| BucketTimes.IndexForTimeMeaning | sfkg-timeseries-core/src/alignment_service.cpp:243-260 | the index search clamps outside the window and finds the containing bucket inside |
| BucketAggregation.FoldedTracks | sfkg-timeseries-core/src/alignment_service.cpp:28-88 | streaming fails exactly on a non-number under a numeric aggregation; otherwise the state tracks extremes, sum and the ends of the points |
| BucketAggregation.SummaryMeaning | sfkg-timeseries-core/src/alignment_service.cpp:89-122 | First and Last are values at the smallest and largest time (the first such point on ties), Average the mean, Maximum and Minimum attained bounds |
| GapFill.FillValues | sfkg-timeseries-core/src/alignment_service.cpp:437-483 | the in-place fill succeeds exactly when every linear gap can be bridged, and every bucket gets its declared value |
| GapFill.FillLinear | sfkg-timeseries-core/src/alignment_service.cpp:375-435 | edges take the nearest known value, inner gaps the segment, in one pass over the array |
| GapFill.NearestValueIndices | sfkg-timeseries-core/src/alignment_service.cpp:324-346 | the two scans find the last known bucket before and the next after every index |
| GapFill.FillNearAt | sfkg-timeseries-core/src/alignment_service.cpp:348-373 | writes one bucket, the nearer known value, the left one on a tie |
| GapFill.WhatStaysMissing | sfkg-timeseries-core/src/alignment_service.cpp:324-483 | a bucket stays missing exactly when nothing is known at all (near, linear), up to it (previous) or from it on (next) |
| GapFill.NearIsClosest | sfkg-timeseries-core/src/alignment_service.cpp:348-373 | the near fill takes a known bucket at minimal distance, the left of two |
| GapFill.LinearIsOnTheChord | sfkg-timeseries-core/src/alignment_service.cpp:400-435 | the filled value lies on the chord of the two enclosing known buckets |
| GapFill.CarriedIsNeighbour | sfkg-timeseries-core/src/alignment_service.cpp:437-483 | a previous fill repeats the last known bucket, a next fill the first one ahead |
| GapFill.FillingIsIdempotent | sfkg-timeseries-core/src/alignment_service.cpp:437-483 | known buckets are kept and refilling changes nothing |
| GapFill.SliceFill | sfkg-timeseries-core/src/alignment_service.cpp:622-748 | filling a slice gives a bucket its full-fill value whenever the known buckets it depends on are in the slice |
| AlignedRows.AlignSequence | sfkg-timeseries-core/src/alignment_service.cpp:987-1063 | one sequence's loop yields the declared row, or failure exactly for a lag overflow, a rejected value or an unbridgeable gap |
| AlignedRows.EveryPointHasOneBucket | sfkg-timeseries-core/src/alignment_service.cpp:1000-1022 | a shifted point lands in exactly one bucket if it is inside the window and in none otherwise, with the bucket's bounds around it |
| AlignedSlices.LocalRowAgrees | sfkg-timeseries-core/src/alignment_service.cpp:622-781 | when the full row exists and the target stretch is anchored, aligning the local window alone succeeds and gives the same target buckets |
| AlignedSlices.SliceRaw | sfkg-timeseries-core/src/alignment_service.cpp:680-748 | the local window's bucket summaries are the full window's, bucket by bucket |
| BucketIntervals.InferredIsSmallestDistance | sfkg-timeseries-core/src/alignment_service.cpp:157-221 | the inferred interval is the smallest positive distance within one sequence, and there is none exactly when no sequence has two instants close enough |
| BucketIntervals.InferBucketInterval | sfkg-timeseries-core/src/alignment_service.cpp:157-221 | the scan, with its sort of unsorted sequences, computes that interval |
| Alignments.AlignWindow | sfkg-timeseries-core/src/alignment_service.cpp:804-1152 | full alignment equals its declarative answer: invalid input, failed row or stamped samples with the missing count |
| AlignmentMeanings.FullAlignmentCarries | sfkg-timeseries-core/src/alignment_service.cpp:1100-1152 | every sample of a successful full alignment is stamped with its bucket's start and holds exactly the configured sequences' known values of that bucket, each under its own id; the missing count is the number of buckets without a value |
| AlignmentMeanings.FastAnswerCarries | sfkg-timeseries-core/src/alignment_service.cpp:622-800 | the same for the samples of the fast path, on the local window's rows |
| AlignmentMeanings.DefaultRowShows | sfkg-timeseries-core/src/alignment_service.cpp:131-160 | the row of a continuous, discrete, categorical or unregistered sequence: what a bucket with points shows, what a gap between two such buckets shows, and the two edges |
| AlignmentMeanings.DefaultSamplesShow | sfkg-timeseries-core/src/alignment_service.cpp:804-1152 | under the defaults the samples of a successful full alignment, and so of the fast path, carry such a row for every sequence |
| AlignmentMeanings.FailsExactly | sfkg-timeseries-core/src/alignment_service.cpp:900-1080 | a sequence cannot be aligned exactly when a lag leaves the range of timestamps, a point in the window is not a number where numbers are needed, or a linear gap lies between buckets that do not both show numbers |
| Alignments.SampleTimesIncrease | sfkg-timeseries-core/src/alignment_service.cpp:1121-1131 | sample times lie in the window, strictly increase, and are whole intervals apart |
| AlignmentRanges.AlignRange | sfkg-timeseries-core/src/alignment_service.cpp:535-792 | says exactly when the fast path is taken; there the answer is the target buckets of the local window's alignment, which are full alignment's whenever that succeeds, and everywhere else the cropped full answer |
| AlignmentCrops.CropMatchesTargetsExactly | sfkg-timeseries-core/src/alignment_service.cpp:535-602 | cropping by sample time keeps exactly the target buckets if and only if the range reaches the window and starts at or before it, on a bucket boundary, or in a bucket whose index is below the prefix: a condition on grid and range alone |
| AlignmentCrops.CropOfFullExactly | sfkg-timeseries-core/src/alignment_service.cpp:535-602 | the same for the samples of any full alignment that succeeds |
| AlignmentCrops.CropLosesABucket | sfkg-timeseries-core/src/alignment_service.cpp:535-602 | buckets at 0 and 10, range 5 to 12: both are targets and the crop keeps only the one at 10 |
| AlignmentCrops.CropMeaning | sfkg-timeseries-core/src/alignment_service.cpp:535-602 | a crop keeps the samples within the range and, before them, as many as the prefix asks for or all there are |
| AlignmentRanges.IsAnchored | sfkg-timeseries-core/src/alignment_service.cpp:680-755 | the fallback guard holds exactly when each boundary target bucket is occupied, has an occupied local neighbour, or is at the window's edge |
| AlignmentRanges.TargetsInside | sfkg-timeseries-core/src/alignment_service.cpp:622-660 | the target stretch is non-empty, inside the window and ends with the bucket of the range's end |
| AlignmentRanges.LocalAlignmentAgrees | sfkg-timeseries-core/src/alignment_service.cpp:756-781 | all sequences at once: the cut local result is the full result's target samples |
| Formulas.SourcesAreExactlyUsed | sfkg-timeseries-core/src/derived_series_service.cpp:164-205 | the collected sources are the sequences a formula uses, each once |
| Formulas.EvaluationDependsOnSources | sfkg-timeseries-core/src/derived_series_service.cpp:250-368 | formulas see nothing but their collected sources' values at the instant |
| Formulas.EvaluationNeedsEverySource | sfkg-timeseries-core/src/derived_series_service.cpp:250-368 | one missing source is enough for no value |
| FormulaMeanings.ContinuousValue | sfkg-timeseries-core/src/derived_series_service.cpp:207-238 | a continuous source has its readings' values, between two of them the chord's, and none outside |
| FormulaMeanings.HeldValue | sfkg-timeseries-core/src/derived_series_service.cpp:240-248 | any other source has the value of its last reading at or before the instant |
| FormulaMeanings.NodeValue | sfkg-timeseries-core/src/derived_series_service.cpp:270-322 | a node's value undone by the inverse operation gives the left side back; division by zero and an unset operator are their own problems; the left side's problem comes first, any problem before a missing value |
| FormulaMeanings.ComputesWhatItDenotes | sfkg-timeseries-core/src/derived_series_service.cpp:250-326 | an expression evaluates to exactly the value it denotes node by node |
| FormulaMeanings.CombinationValue | sfkg-timeseries-core/src/derived_series_service.cpp:328-355 | a linear combination is the bias plus the sum of coefficient times source value, and missing exactly when a source is |
| FormulaMeanings.DerivedSeriesMeaning | sfkg-timeseries-core/src/derived_series_service.cpp:698-773 | a derived series has a point exactly where some source has one and the formula denotes a value, with that value |
| FormulaCursors.FormulaEvaluator.Sweep | sfkg-timeseries-core/src/derived_series_service.cpp:698-773 | an ascending sweep with shared cursors gives at every instant the value, missing or error of a fresh search |
| FormulaCursors.FormulaEvaluator.ValueAt | sfkg-timeseries-core/src/derived_series_service.cpp:207-248 | the cursor's answer is the fresh lower-bound answer, and no cursor passes a point it still needs |
| FormulaCursors.FormulaEvaluator.EvaluateCombination | sfkg-timeseries-core/src/derived_series_service.cpp:332-368 | an early missing source leaves later cursors behind without changing any later answer |
| DerivedPatches.PatchEqualsRecomputeExactly | sfkg-timeseries-core/src/derived_series_service.cpp:717-772 | the patched derived series equals a full recomputation over the new contents if and only if no instant of the patch with a value is cut off from a source by the query's single context point |
| DerivedExcerpts.DefinedPatchEqualsRecomputeExactly | sfkg-timeseries-core/src/derived_series_service.cpp:717-772 | for formulas that cannot fail, the patch equals the recomputation if and only if no instant of the patch that all sources span is cut off from one of them, read off the rows alone |
| DerivedPatches.DefinedWhereSpanned | sfkg-timeseries-core/src/derived_series_service.cpp:250-368 | a linear formula or an expression without division has a derived value exactly where a source has a point and every source spans the instant |
| DerivedPatches.CommonLastLosesNothing | sfkg-timeseries-core/src/derived_series_service.cpp:725-748 | when all sources with a point before the range have their last such point at one instant nothing is cut off |
| DerivedPatches.OneSourceHasCommonLast | sfkg-timeseries-core/src/derived_series_service.cpp:725-748 | formulas over one source always meet that condition |
| DerivedPatches.IncrementalPatchLosesAValue | sfkg-timeseries-core/src/derived_series_service.cpp:725-748 | a at 0 and 10, b at 0 and 5, a appended at 20: the value at 5 exists before and after but the patch erases it |
| DerivedPatches.RunsStayRecomputed | sfkg-timeseries-core/src/derived_series_service.cpp:717-772 | over any run of updates that lose nothing the patched series is always the recomputation of the current contents |
| DerivedRefreshes.IncrementalRangeFor | sfkg-timeseries-core/src/derived_series_service.cpp:64-126 | refused exactly when a changed dependency is unsafe or none changed; otherwise the extreme times of the changes, pulled back to the window start after an eviction |
| DerivedComputations.ComputePoints | sfkg-timeseries-core/src/derived_series_service.cpp:684-773 | candidates collected, sorted and swept give exactly the derived series inside the closed range, and counts the candidate instants there at which evaluation fails |
| DerivedComputations.BuildSnapshot | sfkg-timeseries-core/src/derived_series_service.cpp:531-559 | the rows formulas are evaluated on are the readable points of registered numeric sources, with the number of unreadable points |
| DerivedComputations.NumbersAreKept | sfkg-timeseries-core/src/derived_series_service.cpp:540-556 | of a row exactly the readable points are kept, in time order |
| DerivedComputations.FindPatchStart | sfkg-timeseries-core/src/derived_series_service.cpp:725-748 | the patch starts at the earliest last point before the range, or at the range |
| DerivedSeriesLaws.UpdateIsAppend | sfkg-timeseries-core/src/derived_series_service.cpp:64-126 | whenever the range is accepted, the batch as the window applied it is an append to every changed source followed by the eviction |
| DerivedSeriesLaws.IncrementalRefreshIsRecompute | sfkg-timeseries-core/src/derived_series_service.cpp:717-772 | a series that was the recomputation before an accepted batch is the recomputation after the patch if and only if the query loses nothing |
| DerivedSeriesLaws.ContextKeepsLast | sfkg-timeseries-core/src/derived_series_service.cpp:497-514 | one point of context suffices to see the last live point before the range |
| DerivedServices.RefreshAfterBatch | sfkg-timeseries-core/src/derived_series_service.cpp:576-881 | batch, then refresh: skipping leaves the derived series the recomputation of the new contents, patching does exactly when nothing is cut off, a full refresh exactly when the default query hides nothing. Skipped exactly when no source is touched, patched exactly when all sources are numeric and each touched one only appended, in full otherwise; rejected exactly for an unacceptable batch, which changes nothing, or an unpublishable formula with a touched source, which leaves the batch's result |
| DerivedServices.FullOutcome | sfkg-timeseries-core/src/derived_series_service.cpp:576-716 | after a full refresh the derived series is the recomputation of what the service holds if and only if wherever that has a value the default query shows every source around it |
| DerivedExcerpts.ShownEqualsRecomputeExactly | sfkg-timeseries-core/src/derived_series_service.cpp:497-559 | the series computed from stretches of the sources is the recomputation if and only if no derived value is hidden |
| DerivedExcerpts.DefinedShownEqualsExactly | sfkg-timeseries-core/src/derived_series_service.cpp:497-559 | for formulas that cannot fail, if and only if the stretches span every instant that has a point and that all sources span |
| DerivedExcerpts.FullRefreshLosesAValue | sfkg-timeseries-core/src/derived_series_service.cpp:497-559 | a source with points at 90 and 100, watermark 100, size 10: the live value at 90 is not derived |
| DerivedServices.RefreshIncremental | sfkg-timeseries-core/src/derived_series_service.cpp:717-881 | publishes exactly the derived values of the queried rows on the patch range and touches nothing else |
| DerivedServices.RefreshFully | sfkg-timeseries-core/src/derived_series_service.cpp:576-716 | replaces the series by the derived series of the default window, then evicts |
| DerivedServices.FullRefreshSeesEverything | sfkg-timeseries-core/src/derived_series_service.cpp:497-514 | a full refresh sees the whole live rows exactly when every source is numeric and has no point at the omitted instant or above the watermark |
| ConstraintRules.ValidateConstraintRule | sfkg-timeseries-core/src/constraint_rule_helpers.hpp:44-125 | accepts exactly the valid rules; the reported offset is the maximum of all terms' offsets |
| ConstraintRules.RefusedExactly | sfkg-timeseries-core/src/constraint_rule_helpers.hpp:44-125 | everything a rule can be refused for, as one list |
| ConstraintRules.OffsetsStayInside | sfkg-timeseries-core/src/constraint_rule_helpers.hpp:68-123 | with that many points after the anchor no term reads past the window |
| ConstraintEngines.EvaluateRuleAt | sfkg-timeseries-core/src/constraint_check_engine.cpp:77-132 | fails exactly on a non-number; otherwise a violation with every term resolved exactly when the weighted sum is out of bounds |
| ConstraintMeanings.ViolationMeaning | sfkg-timeseries-core/src/constraint_check_engine.cpp:57-132 | a rule is violated at an anchor exactly when the weighted sum is below its lower or above its upper bound, and the violation reports that anchor, sum, bounds and every term read |
| ConstraintMeanings.SampleMeaning | sfkg-timeseries-core/src/constraint_check_engine.cpp:403-463 | a sample rule's outcome reports exactly the anchors of the check that are out of bounds |
| ConstraintMeanings.AnchorsMeaning | sfkg-timeseries-core/src/constraint_check_engine.cpp:403-463 | the anchors of a check are the points in the range whose offsets stay inside the window |
| ConstraintEngines.CheckSequence | sfkg-timeseries-core/src/constraint_check_engine.cpp:407-455 | the loop's early stops at the range's end and at the last readable anchor give exactly the violations of the anchors in reach |
| ConstraintEngines.RangedIsFullFiltered | sfkg-timeseries-core/src/constraint_check_engine.cpp:403-463 | for one rule over ordered points, a range check succeeds and equals the full check's violations with anchors in the range, whenever the full check succeeds |
| ConstraintRanges.RangedCheckIsFullFiltered | sfkg-timeseries-core/src/constraint_check_engine.cpp:341-464 | for a list of rules without OR groups, whenever the full check has a result the ranged check has one and reports the full check's violations with anchors in the range, in the same order |
| ConstraintRanges.SeparateClausesListAll | sfkg-timeseries-core/src/constraint_check_engine.cpp:174-198 | with every rule its own clause the report is all violations, rule after rule |
| ConstraintClauses.CombineRuleOutcomes | sfkg-timeseries-core/src/constraint_check_engine.cpp:139-198 | satisfied exactly when each clause has a violation-free rule, with counts and failing clauses' violations in order |
| ConstraintClauses.ReportsExactlyFailingClauses | sfkg-timeseries-core/src/constraint_check_engine.cpp:174-198 | a violation is reported exactly when its rule's whole clause fails |
| ConstraintClauses.SeparateClausesReportAll | sfkg-timeseries-core/src/constraint_check_engine.cpp:174-198 | when every rule is its own clause nothing is held back |
| ConstraintClauses.ClauseKeysAgree | sfkg-timeseries-core/src/constraint_check_engine.cpp:146-160 | two rules share a clause exactly when they name one group or are the same ungrouped rule |
| ConstraintChecks.CheckConstraints | sfkg-timeseries-core/src/constraint_check_engine.cpp:341-464 | a result is made of exactly one right outcome a rule, combined clause by clause; failure means some rule admits none |
| ConstraintChecks.BuildWindowStatistics | sfkg-timeseries-core/src/constraint_check_engine.cpp:207-264 | one pass over each mapped sequence yields its statistics inside the window, refused exactly on a non-number |
| ConstraintChecks.EvaluateAggregateRule | sfkg-timeseries-core/src/constraint_check_engine.cpp:266-321 | pending while a sequence is empty; otherwise one evaluation, with exactly one violation, at the window's end and with every term's statistic, when the weighted sum is out of bounds and none when it is not |
| ConstraintMeanings.AggregateMeaning | sfkg-timeseries-core/src/constraint_check_engine.cpp:266-321 | an aggregate rule is pending while a term has nothing to read; otherwise it has one violation exactly when the weighted averages, maxima and minima its terms name are out of bounds, and the violation reports them |
| ConstraintMeanings.ResultMeaning | sfkg-timeseries-core/src/constraint_check_engine.cpp:139-198 | the check is satisfied exactly when every rule shares its clause with one that has no violation, only the violations of the others are reported, and the counts are sums |
| ConstraintChecks.StatisticsMeaning | sfkg-timeseries-core/src/constraint_check_engine.cpp:207-264 | the streamed statistics are count, mean and attained bounds of the points, and exist exactly when all are numbers |
| ContinuousConstraints.IncrementalEditKeeps | sfkg-timeseries-core/src/grpc/timeseries_core_grpc_service.cpp:1231-1273 | an edit by range after an appending update leaves the cached violations after the window start equal to a check from scratch |
| ContinuousConstraints.FullEditKeeps | sfkg-timeseries-core/src/grpc/timeseries_core_grpc_service.cpp:1231-1273 | starting over from everything after the window start does too |
| ContinuousConstraints.UntouchedKeeps | sfkg-timeseries-core/src/grpc/timeseries_core_grpc_service.cpp:1231-1273 | without a recheck the cache stays right as the window start moves on |
| ContinuousConstraints.OldAnchor | sfkg-timeseries-core/src/grpc/timeseries_core_grpc_service.cpp:434-488 | an anchor before the range keeps a violation it had, and changes its verdict only if its offsets reach into the range |
| ContinuousConstraints.ContextShowsEnough | sfkg-timeseries-core/src/grpc/timeseries_core_grpc_service.cpp:1019-1050 | one context point more than the largest offset shows every point that anchors in reach read |
| ContinuousConstraints.CheckFinds | sfkg-timeseries-core/src/constraint_check_engine.cpp:403-463 | a check over ordered numbers finds exactly the violations expected from scratch, in the range |
| ConstraintGroups.MoveRangeBack | sfkg-timeseries-core/src/grpc/timeseries_core_grpc_service.cpp:434-488 | the start moves back far enough that every rule sees again each anchor whose offsets reach into the range |
| ConstraintGroups.CheckGroup | sfkg-timeseries-core/src/grpc/timeseries_core_grpc_service.cpp:399-562 | fails exactly when some rule with data admits no outcome; otherwise the violations found are exactly those expected of each rule's row, from the moved-back start to the range's end |
| ConstraintGroups.RowHasOutcome | sfkg-timeseries-core/src/constraint_check_engine.cpp:403-463 | a sound rule over a row of numbers can always be checked |
| ConstraintCaches.ConstraintCache.ApplyRule | sfkg-timeseries-core/src/grpc/timeseries_core_grpc_service.cpp:1231-1273 | erase-and-insert over the violation map is the specified next state, and older generations change nothing |
| ConstraintCaches.AfterGroupsAt | sfkg-timeseries-core/src/grpc/timeseries_core_grpc_service.cpp:1231-1273 | each rule gets exactly its own group's result, and rules in no group keep their state |
| ConstraintSelections.SelectRules | sfkg-timeseries-core/src/grpc/timeseries_core_grpc_service.cpp:923-994 | exactly the rules of affected clauses whose sequence changed or that were never checked, each once; affected clauses have a rule with a changed sequence or a cached violation |
| ConstraintSelections.SplitBySafety | sfkg-timeseries-core/src/grpc/timeseries_core_grpc_service.cpp:1052-1069 | the split loses and duplicates no rule, and the merged range covers every incremental rule's own |
| ConstraintSelections.BuildGroups | sfkg-timeseries-core/src/grpc/timeseries_core_grpc_service.cpp:1071-1117 | every selected rule is in exactly one group, OR-grouped rules alone, and each group's range covers its rules |
| ContinuousIngests.ProcessIngest | sfkg-timeseries-core/src/grpc/timeseries_core_grpc_service.cpp:754-1273 | every accepted batch is rechecked without failure and leaves every rule's cached violations after the window start equal to a check from scratch of the live content; a rejected one changes nothing; touched rules carry the new generation, initialized untouched ones keep their state, and the others are checked for the first time exactly when a rule of their clause is touched or has violations on record |
| ContinuousIngests.RunIngests | sfkg-timeseries-core/src/grpc/timeseries_core_grpc_service.cpp:754-1273 | from rules registered before any data, the same after any run of ingests, rejected ones included |
| ContinuousIngests.RunGroup | sfkg-timeseries-core/src/grpc/timeseries_core_grpc_service.cpp:1120-1161 | the group is checked on the excerpt its query asks for, or on the default window, and succeeds whenever there is a watermark and the values read are numbers |
| ContinuousIngests.RecordResults | sfkg-timeseries-core/src/grpc/timeseries_core_grpc_service.cpp:1229-1273 | when some group failed the cache is left alone, otherwise every group's results are recorded |
| ContinuousIngests.RuleStaysRight | sfkg-timeseries-core/src/grpc/timeseries_core_grpc_service.cpp:1120-1273 | whatever group a rule is in, or none, its cache is right afterwards |
| ConfigRegistries.RunCalls | sfkg-timeseries-core/src/runtime_config_registry.cpp:192-301 | after any run of replace and upsert calls the table is the reference one and the external index is its exact inverse |
| ConfigRegistries.RuntimeConfigRegistry.UpsertInstanceConfigs | sfkg-timeseries-core/src/runtime_config_registry.cpp:245-301 | a rejected batch changes nothing; an accepted one lays its items over the table; other projects' entries are untouched; acceptance is exact |
| ConfigRegistries.RuntimeConfigRegistry.ReplaceInstanceConfigs | sfkg-timeseries-core/src/runtime_config_registry.cpp:192-243 | the same for a project's whole table rebuilt from scratch |
| ConfigRegistries.RuntimeConfigRegistry.ResolveSequenceId | sfkg-timeseries-core/src/runtime_config_registry.cpp:547-560 | a lookup answers exactly the instance that carries the external identifier |
| ConfigRegistries.ScopedKeyInjective | sfkg-timeseries-core/src/runtime_config_registry.cpp:26-28 | separator-free projects never share a scoped key |
| ConfigRegistries.EffectiveProjectsAgree | sfkg-timeseries-core/src/runtime_config_registry.cpp:30-34 | no project given means the default one, and every other project is its own |
| ConfigRegistries.ExternalKeyInjective | sfkg-timeseries-core/src/runtime_config_registry.cpp:18-24 | separator-free projects and data sources never share an external key |
| RegistryAcceptance.KeyIsSharedExactly | sfkg-timeseries-core/src/runtime_config_registry.cpp:18-24 | some other pair of data source and external id has the same key if and only if one of the two contains the source separator |
| RegistryAcceptance.ExternalKeysAgreeExactly | sfkg-timeseries-core/src/runtime_config_registry.cpp:18-24 | for separator-free projects two keys agree if and only if the projects and the joined texts do |
| RegistryAcceptance.AcceptedExactly | sfkg-timeseries-core/src/runtime_config_registry.cpp:245-301 | a batch goes through if and only if its items are sound, no two entries of the project share an external id in the final table, and no item wants an id that a later item's sequence still holds |
| RegistryAcceptance.SwapIsRejected | sfkg-timeseries-core/src/runtime_config_registry.cpp:245-301 | from a table the registry can hold, exchanging two ids in one batch is rejected although the final table shares none |
| ConfigRegistries.ExternalKeysCanCollide | sfkg-timeseries-core/src/runtime_config_registry.cpp:18-24 | a data source with the separator makes two different pairs share a key |
| ConfigRegistries.InverseIsInjective | sfkg-timeseries-core/src/runtime_config_registry.cpp:192-301 | no two instances share an external identifier within a project |
| ConfigRegistries.UnionKeepsInverse | sfkg-timeseries-core/src/runtime_config_registry.cpp:222-243 | a project's fresh table beside the other projects' old entries is still inverse to the joined index |
| ConfigRegistries.OverlayLeavesOthers | sfkg-timeseries-core/src/runtime_config_registry.cpp:268-301 | writing one project's items never touches another project's entries |

## Left out

- One `WindowService` object stands for one project; scoping by a key prefix is proved for the registry's and the executor's keys only.
- The late buffer, an ordered map in the source, is kept as a strictly increasing sequence with the same operations.
- Hot workers pruning one project at the same time: each batch evicts with its own start, so the lower bound is stated for sequential updates only.
- Task groups decide only which thread runs a sequence's share; the service model runs the shares one after the other.
- Samples are reals: rounding, infinities, NaN and overflowing sums are one non-numeric tag or absent.
- Error messages and error details; only which branch failed is kept.
- Overflow of `size_t` counters, and of the time difference inside the interpolation of a derived value.
- A statistics query over several sequences; each is the single-sequence query proved here.
- WindowServices.WindowService.UpdateWindow: also rejected, and not modelled: over-long ids, non-finite doubles, over-long strings, an empty project id, and points or batches naming another project (sfkg-timeseries-core/src/data_validation.cpp:56-88), because the model has neither sizes of ids and values nor project names in points.
- WindowServices.WindowService.ReplaceDerivedSequence: rejects the same inputs in the source, not modelled for the same reason.
- WindowServices.WindowService.PatchDerivedSequence: rejects the same inputs in the source, not modelled for the same reason.
- ContinuousIngests.ProcessIngest: covers single-sequence sample rules with numeric data and ingests whose watermark is the maximum time and not the last timestamp; aligned multi-sequence checks infer their interval from the queried slice, so equality with a full check is not what the code gives.
- Reporting cached violations by OR clause after the cache was updated, notification, and the response message.
- DerivedServices.RefreshAfterBatch: one formula and one derived sequence at a time; the query shared between formulas appears as any range that contains this formula's.
- The publish guard on generations, which is shared between projects, and the order in which several derived series are published.
- Lags, relations and their validation: alignment takes each sequence's shift as a parameter.
- Worker threads inside alignment and derived computation; they fill separate rows.
- Multi-sequence sample rules inside `CheckConstraints`, which go through an aligned window; the model checks single-sequence and aggregate rules.
- Constraint, relation and derived configurations in the registry, and referential integrity between them.
- Storage, history queries, gRPC conversion, the receiver client, notifications, diagnostics, clocks and environment parsing.
